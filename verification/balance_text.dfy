/**
 The text step of the inline balance edit: when an editable balance loses
 focus, its text is stripped of everything but digits and the decimal point,
 and an empty result, or a missing text, is replaced by "0". The string
 produced here is what is handed to the number parser.
 */
module BalanceText {
  import opened Wrappers

  /** The characters the filter keeps: ASCII digits and the period. */
  predicate IsBalanceChar(c: char) {
    ('0' <= c <= '9') || c == '.'
  }

  /** Every character of `s` survives the filter. */
  predicate AllBalanceChars(s: string) {
    forall i :: 0 <= i < |s| ==> IsBalanceChar(s[i])
  }

  /** The number of occurrences of `c` in `s`. */
  function Count(s: string, c: char): nat {
    if |s| == 0 then 0 else (if s[0] == c then 1 else 0) + Count(s[1..], c)
  }

  /** `a` can be obtained from `b` by deleting characters, keeping the order of the rest. */
  predicate IsSubsequence(a: string, b: string)
    decreases |b|
  {
    if |a| == 0 then true
    else if |b| == 0 then false
    else (a[0] == b[0] && IsSubsequence(a[1..], b[1..])) || IsSubsequence(a, b[1..])
  }

  /** The text with every character other than a digit or a period removed. */
  function FilterBalanceText(s: string): (r: string)
    ensures AllBalanceChars(r)
    ensures IsSubsequence(r, s)
    ensures forall c :: IsBalanceChar(c) ==> Count(r, c) == Count(s, c)
    ensures AllBalanceChars(s) ==> r == s
  {
    if |s| == 0 then ""
    else if IsBalanceChar(s[0]) then [s[0]] + FilterBalanceText(s[1..])
    else FilterBalanceText(s[1..])
  }

  /** A subsequence has at most as many of each character. */
  lemma {:induction false} SubsequenceCount(a: string, b: string, c: char)
    requires IsSubsequence(a, b)
    ensures Count(a, c) <= Count(b, c)
    decreases |b|
  {
    if |a| == 0 {
    } else if a[0] == b[0] && IsSubsequence(a[1..], b[1..]) {
      SubsequenceCount(a[1..], b[1..], c);
    } else {
      SubsequenceCount(a, b[1..], c);
    }
  }

  /**
   The filter is the only order-preserving selection from `s` that keeps
   every digit and period and nothing else: it is fixed by these three
   properties alone.
   */
  lemma {:induction false} FilterIsUnique(s: string, r: string)
    requires AllBalanceChars(r)
    requires IsSubsequence(r, s)
    requires forall c :: IsBalanceChar(c) ==> Count(r, c) == Count(s, c)
    ensures r == FilterBalanceText(s)
    decreases |s|
  {
    if |s| == 0 {
    } else if |r| == 0 {
      forall c | IsBalanceChar(c) ensures Count(s[1..], c) == 0 {
        assert Count(s, c) == 0;
      }
      FilterIsUnique(s[1..], r);
    } else if IsBalanceChar(s[0]) {
      if r[0] == s[0] && IsSubsequence(r[1..], s[1..]) {
        forall c | IsBalanceChar(c) ensures Count(r[1..], c) == Count(s[1..], c) {
          assert Count(r, c) == (if r[0] == c then 1 else 0) + Count(r[1..], c);
        }
        assert AllBalanceChars(r[1..]) by {
          forall i | 0 <= i < |r[1..]| ensures IsBalanceChar(r[1..][i]) {
            assert r[1..][i] == r[i + 1];
          }
        }
        FilterIsUnique(s[1..], r[1..]);
        assert r == [r[0]] + r[1..];
      } else {
        assert IsSubsequence(r, s[1..]);
        SubsequenceCount(r, s[1..], s[0]);
        assert false;
      }
    } else {
      assert r[0] != s[0] by { assert IsBalanceChar(r[0]); }
      assert IsSubsequence(r, s[1..]);
      forall c | IsBalanceChar(c) ensures Count(r, c) == Count(s[1..], c) {
        assert Count(s, c) == Count(s[1..], c);
      }
      FilterIsUnique(s[1..], r);
    }
  }

  /** Filtering twice is filtering once. */
  lemma FilterIdempotent(s: string)
    ensures FilterBalanceText(FilterBalanceText(s)) == FilterBalanceText(s)
  {
  }

  /** The filter leaves nothing exactly when the text has no digit and no period. */
  lemma {:induction false} FilterEmptyIff(s: string)
    ensures FilterBalanceText(s) == "" <==> forall i :: 0 <= i < |s| ==> !IsBalanceChar(s[i])
    decreases |s|
  {
    if |s| > 0 {
      FilterEmptyIff(s[1..]);
      if !IsBalanceChar(s[0]) {
        assert forall i :: 1 <= i < |s| ==> s[i] == s[1..][i - 1];
      }
    }
  }

  /**
   The string handed to the number parser. A missing text (`None`) and a
   text without any digit or period both give "0"; otherwise the filtered
   text is passed on unchanged.
   */
  function ParseInput(text: Option<string>): (r: string)
    ensures |r| > 0 && AllBalanceChars(r)
    ensures text.None? ==> r == "0"
    ensures text.Some? && (forall i :: 0 <= i < |text.value| ==> !IsBalanceChar(text.value[i])) ==> r == "0"
    ensures text.Some? && (exists i :: 0 <= i < |text.value| && IsBalanceChar(text.value[i])) ==>
      IsSubsequence(r, text.value) &&
      forall c :: IsBalanceChar(c) ==> Count(r, c) == Count(text.value, c)
  {
    match text
    case None => "0"
    case Some(t) =>
      FilterEmptyIff(t);
      var filtered := FilterBalanceText(t);
      if filtered == "" then "0" else filtered
  }

  /** Feeding the parser input back in gives the same parser input. */
  lemma ParseInputIdempotent(text: Option<string>)
    ensures ParseInput(Some(ParseInput(text))) == ParseInput(text)
  {
  }

  /**
   The parser receives "0" exactly when the filter left nothing or left "0"
   itself: the default applies only to empty output.
   */
  lemma ParseInputZeroIff(t: string)
    ensures ParseInput(Some(t)) == "0" <==> FilterBalanceText(t) in {"", "0"}
  {
  }

  /** Thousands separators and currency signs are dropped. */
  lemma ParseInputSeparators()
    ensures ParseInput(Some("$1,234.56")) == "1234.56"
  {
    var t := "$1,234.56";
    assert AllBalanceChars("234.56");
    assert FilterBalanceText(t) == FilterBalanceText(t[1..]);
    assert t[1..] == "1,234.56";
    assert FilterBalanceText("1,234.56") == "1" + FilterBalanceText(",234.56");
    assert FilterBalanceText(",234.56") == FilterBalanceText("234.56");
  }

  /** Text with no digit or period, and missing text, give the default "0". */
  lemma ParseInputDefaults()
    ensures ParseInput(Some("abc")) == "0"
    ensures ParseInput(Some("")) == "0"
    ensures ParseInput(None) == "0"
  {
    assert !IsBalanceChar("abc"[0]) && !IsBalanceChar("abc"[1]) && !IsBalanceChar("abc"[2]);
  }

  /** Only empty output is defaulted: "." and a text with two periods are passed on as they are. */
  lemma ParseInputNoDefault()
    ensures ParseInput(Some(".")) == "."
    ensures ParseInput(Some("12.34.56")) == "12.34.56"
  {
    assert AllBalanceChars(".");
    assert AllBalanceChars("12.34.56");
  }
}
