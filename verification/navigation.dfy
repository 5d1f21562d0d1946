/**
 Which screen `App` renders, the user events it wires up on each screen, and
 the invariant those events keep.

 The screen is chosen by two flags: the profile flag first, then whether the
 selected id resolves to an account. Edit mode is orthogonal to the screen.
 */
module Navigation {
  import opened Wrappers
  import opened Types
  import opened Handlers

  /**
   The three screens: the profile page, one account in detail, the overview;
   and the failed render of an overview that has no main account to show,
   which the error boundary around `App` then catches.
   */
  datatype View = Profile | AccountDetail(account: Account) | Overview | RenderFailure

  /** The screen a state renders. */
  function Render(s: AppState): (v: View)
    ensures s.isProfileOpen ==> v == Profile
    ensures !s.isProfileOpen ==> v != Profile
    ensures !s.isProfileOpen ==>
      (v.AccountDetail? <==> exists i :: 0 <= i < |s.accounts| && s.selectedAccountId == Some(s.accounts[i].id))
    ensures v.AccountDetail? ==> s.selectedAccountId == Some(v.account.id)
    ensures v.AccountDetail? ==>
      exists i :: 0 <= i < |s.accounts| && s.accounts[i] == v.account &&
        forall j :: 0 <= j < i ==> s.accounts[j].id != v.account.id
    ensures v.RenderFailure? <==> !s.isProfileOpen && |s.accounts| == 0
    ensures v.Overview? ==> |s.accounts| > 0
  {
    if s.isProfileOpen then Profile
    else
      match SelectedAccount(s)
      case Some(a) => AccountDetail(a)
      case None => if |s.accounts| == 0 then RenderFailure else Overview
  }

  /** A user action that reaches one of `App`'s setters or handlers. */
  datatype Event =
    | SelectCard(id: string)
    | DetailBack
    | ProfileOpen
    | ProfileBack
    | EditToggle
    | BalanceEdited(accountId: string, balance: real)
    | TransactionEdited(updated: Transaction)
    | TransactionAdded(tx: Transaction)
    | UserEdited(field: ProfileField, value: string)

  /**
   `r` keeps the history of `s`: the same account ids in the same order,
   and the transaction ids of `s`, in order, at the end of the list of `r`.
   */
  predicate KeepsHistory(s: AppState, r: AppState) {
    && AccountIds(r.accounts) == AccountIds(s.accounts)
    && |r.transactions| >= |s.transactions|
    && TransactionIds(r.transactions)[|r.transactions| - |s.transactions|..] == TransactionIds(s.transactions)
  }

  /** Keeping the history is transitive. */
  lemma KeepsHistoryTransitive(a: AppState, b: AppState, c: AppState)
    requires KeepsHistory(a, b) && KeepsHistory(b, c)
    ensures KeepsHistory(a, c)
  {
  }

  /**
   The state after an event. No event adds, removes or renames an account,
   and the old transaction ids stay, in order, at the end of the list.
   */
  function Apply(s: AppState, e: Event): (r: AppState)
    ensures AccountIds(r.accounts) == AccountIds(s.accounts)
    ensures (MainAccount(r.accounts).Some? <==> MainAccount(s.accounts).Some?)
    ensures MainAccount(r.accounts).Some? ==> MainAccount(r.accounts).value.id == MainAccount(s.accounts).value.id
  {
    match e
    case SelectCard(id) => s.(selectedAccountId := Some(id))
    case DetailBack => s.(selectedAccountId := None)
    case ProfileOpen => s.(isProfileOpen := true)
    case ProfileBack => s.(isProfileOpen := false)
    case EditToggle => s.(isEditMode := !s.isEditMode)
    case BalanceEdited(id, v) => UpdateBalance(s, id, v)
    case TransactionEdited(updated) => UpdateTransaction(s, updated)
    case TransactionAdded(tx) => AddTransaction(s, tx)
    case UserEdited(f, value) => UpdateUser(s, f, value)
  }

  /** No event renames an account or removes or reorders the transactions already there. */
  lemma ApplyKeepsHistory(s: AppState, e: Event)
    ensures KeepsHistory(s, Apply(s, e))
  {
  }

  /**
   The events the rendered screen offers. A failed render shows nothing of
   `App`, so it offers no event. Otherwise the edit control (toggle and add)
   is on every screen; the profile page offers back and field edits; the
   other screens offer the profile button; the detail screen offers back and
   edits to the shown account and to transactions; the overview offers the
   account cards, and, in edit mode, balance edits of the main account and
   of each card.
   */
  predicate Enabled(s: AppState, e: Event) {
    && !Render(s).RenderFailure?
    && match e
    case EditToggle => true
    case TransactionAdded(_) => true
    case ProfileBack => s.isProfileOpen
    case UserEdited(_, _) => s.isProfileOpen
    case ProfileOpen => !s.isProfileOpen
    case DetailBack => Render(s).AccountDetail?
    case TransactionEdited(_) => !s.isProfileOpen
    case SelectCard(id) => Render(s).Overview? && id in AccountIds(s.accounts)
    case BalanceEdited(id, _) =>
      match Render(s)
      case AccountDetail(a) => id == a.id
      case Overview => s.isEditMode && id in AccountIds(s.accounts)
      case Profile => false
      case RenderFailure => false
  }

  /**
   The invariant of a running dashboard: there is a main account, account
   ids are distinct, and a selection, if any, names an existing account.
   */
  predicate Wf(s: AppState) {
    && |s.accounts| > 0
    && Distinct(AccountIds(s.accounts))
    && (s.selectedAccountId.Some? ==> s.selectedAccountId.value in AccountIds(s.accounts))
  }

  /** In a well-formed state the detail screen is shown exactly when an id is selected and the profile is closed. */
  lemma WfRender(s: AppState)
    requires Wf(s)
    ensures MainAccount(s.accounts).Some?
    ensures Render(s).AccountDetail? <==> !s.isProfileOpen && s.selectedAccountId.Some?
    ensures Render(s).Overview? <==> !s.isProfileOpen && s.selectedAccountId.None?
  {
  }

  /** Every offered event keeps the invariant. */
  lemma StepKeepsWf(s: AppState, e: Event)
    requires Wf(s) && Enabled(s, e)
    ensures Wf(Apply(s, e))
  {
  }

  /**
   The state after a sequence of events. Accounts are never renamed, and the
   old transaction ids stay, in order, at the end of the list.
   */
  function Run(s: AppState, es: seq<Event>): (r: AppState)
    ensures KeepsHistory(s, r)
    decreases |es|
  {
    if |es| == 0 then s
    else
      var t := Apply(s, es[0]);
      var r := Run(t, es[1..]);
      ApplyKeepsHistory(s, es[0]);
      KeepsHistoryTransitive(s, t, r);
      r
  }

  /** Each event of the sequence is offered by the screen of the state it is applied to. */
  predicate Admissible(s: AppState, es: seq<Event>)
    decreases |es|
  {
    |es| == 0 || (Enabled(s, es[0]) && Admissible(Apply(s, es[0]), es[1..]))
  }

  /** Any sequence of offered events keeps the invariant. */
  lemma {:induction false} RunKeepsWf(s: AppState, es: seq<Event>)
    requires Wf(s) && Admissible(s, es)
    ensures Wf(Run(s, es))
    decreases |es|
  {
    if |es| > 0 {
      StepKeepsWf(s, es[0]);
      RunKeepsWf(Apply(s, es[0]), es[1..]);
    }
  }

  // ---------------------------------------------------------------------------
  // Transitions
  // ---------------------------------------------------------------------------

  /** Selecting a card shows that account, unless the profile page is open. */
  lemma SelectCardShowsAccount(s: AppState, i: int)
    requires Distinct(AccountIds(s.accounts))
    requires 0 <= i < |s.accounts| && !s.isProfileOpen
    ensures Render(Apply(s, SelectCard(s.accounts[i].id))) == AccountDetail(s.accounts[i])
  {
    SelectedAccountUnique(Apply(s, SelectCard(s.accounts[i].id)), i);
  }

  /**
   Back from the detail screen clears the selection and, with the profile
   closed, shows the overview, or fails to render when there is no account.
   */
  lemma DetailBackShowsOverview(s: AppState)
    ensures Apply(s, DetailBack).selectedAccountId == None
    ensures Apply(s, DetailBack).(selectedAccountId := s.selectedAccountId) == s
    ensures !s.isProfileOpen && |s.accounts| > 0 ==> Render(Apply(s, DetailBack)) == Overview
    ensures !s.isProfileOpen && |s.accounts| == 0 ==> Render(Apply(s, DetailBack)) == RenderFailure
  {
  }

  /** Selecting a card and going back leaves the overview with no selection, and nothing else changed. */
  lemma SelectThenBack(s: AppState, id: string)
    ensures Apply(Apply(s, SelectCard(id)), DetailBack) == s.(selectedAccountId := None)
    ensures !s.isProfileOpen && |s.accounts| > 0 ==> Render(Apply(Apply(s, SelectCard(id)), DetailBack)) == Overview
  {
  }

  /** The profile page is shown whatever the selection, and opening it keeps the selection. */
  lemma ProfileOpenShowsProfile(s: AppState)
    ensures Render(Apply(s, ProfileOpen)) == Profile
    ensures Apply(s, ProfileOpen).selectedAccountId == s.selectedAccountId
  {
  }

  /** Opening the profile and going back restores the state, and so the screen, that was shown before. */
  lemma ProfileRoundTrip(s: AppState)
    requires !s.isProfileOpen
    ensures Apply(Apply(s, ProfileOpen), ProfileBack) == s
    ensures Render(Apply(Apply(s, ProfileOpen), ProfileBack)) == Render(s)
  {
  }

  /** Back from the profile page clears the profile flag and changes nothing else, whatever state it is in. */
  lemma ProfileBackClearsOnlyFlag(s: AppState)
    ensures Apply(s, ProfileBack) == s.(isProfileOpen := false)
    ensures !Apply(s, ProfileBack).isProfileOpen
  {
  }

  /** No event of the sequence is the profile page's back button. */
  predicate NoProfileBack(es: seq<Event>) {
    forall k :: 0 <= k < |es| ==> !es[k].ProfileBack?
  }

  /**
   While the profile page stays open, the events it offers (field edits, the
   edit toggle, added transactions) leave the accounts and the selection
   untouched, and the page stays open.
   */
  lemma {:induction false} ProfilePageKeepsSelection(s: AppState, es: seq<Event>)
    requires s.isProfileOpen && Admissible(s, es) && NoProfileBack(es)
    ensures Run(s, es).accounts == s.accounts
    ensures Run(s, es).selectedAccountId == s.selectedAccountId
    ensures Run(s, es).isProfileOpen
    decreases |es|
  {
    if |es| > 0 {
      var t := Apply(s, es[0]);
      assert t.accounts == s.accounts && t.selectedAccountId == s.selectedAccountId && t.isProfileOpen;
      assert NoProfileBack(es[1..]) by {
        forall k | 0 <= k < |es[1..]| ensures !es[1..][k].ProfileBack? {
          assert es[1..][k] == es[k + 1];
        }
      }
      ProfilePageKeepsSelection(t, es[1..]);
    }
  }

  /**
   Opening the profile, doing anything the profile page offers, and going
   back shows the screen that was shown before the page was opened.
   */
  lemma ReturnRestoresView(s: AppState, es: seq<Event>)
    requires !s.isProfileOpen
    requires Admissible(Apply(s, ProfileOpen), es) && NoProfileBack(es)
    ensures Render(Apply(Run(Apply(s, ProfileOpen), es), ProfileBack)) == Render(s)
  {
    ProfilePageKeepsSelection(Apply(s, ProfileOpen), es);
  }

  /** The edit toggle flips only the edit flag, leaves the screen as it is, and undoes itself. */
  lemma EditToggleLaws(s: AppState)
    ensures Apply(s, EditToggle).isEditMode == !s.isEditMode
    ensures Apply(s, EditToggle).(isEditMode := s.isEditMode) == s
    ensures Render(Apply(s, EditToggle)) == Render(s)
    ensures Apply(Apply(s, EditToggle), EditToggle) == s
  {
  }

  /**
   A transaction added on the profile page still takes the currency of an
   account selected before the page was opened: the selected account is
   resolved whatever screen is shown.
   */
  lemma AddOnProfileTakesSelectedCurrency(s: AppState, tx: Transaction, i: int)
    requires Distinct(AccountIds(s.accounts))
    requires 0 <= i < |s.accounts| && !s.isProfileOpen
    ensures Render(Apply(Apply(s, SelectCard(s.accounts[i].id)), ProfileOpen)) == Profile
    ensures Apply(Apply(Apply(s, SelectCard(s.accounts[i].id)), ProfileOpen), TransactionAdded(tx))
      .transactions[0].currency == s.accounts[i].currency
  {
    var t := Apply(Apply(s, SelectCard(s.accounts[i].id)), ProfileOpen);
    AddTransactionTakesSelectedCurrency(t, tx, i);
  }
}
