/**
 The state held by the top-level `App` component and the four handlers it
 passes down to its children, together with the two values it derives on
 every render: the main account and the selected account.

 Every handler is a pure function from the old state to the new one; the
 setter that receives the previous value becomes a function of that value.
 */
module Handlers {
  import opened Wrappers
  import opened Types

  /** The six `useState` slots of `App`. */
  datatype AppState = AppState(
    accounts: seq<Account>,
    transactions: seq<Transaction>,
    user: UserProfile,
    isEditMode: bool,
    selectedAccountId: Option<string>,
    isProfileOpen: bool)

  // ---------------------------------------------------------------------------
  // Derived lookups
  // ---------------------------------------------------------------------------

  /** The position of the first account carrying `id`, if any; a lookup scans from the front and stops there. */
  function FindAccountIndex(accounts: seq<Account>, id: string): (r: Option<nat>)
    ensures r.Some? ==> r.value < |accounts| && accounts[r.value].id == id
    ensures r.Some? ==> forall j :: 0 <= j < r.value ==> accounts[j].id != id
    ensures r.None? <==> forall j :: 0 <= j < |accounts| ==> accounts[j].id != id
  {
    if |accounts| == 0 then None
    else if accounts[0].id == id then Some(0)
    else
      match FindAccountIndex(accounts[1..], id)
      case None => None
      case Some(k) => Some(k + 1)
  }

  /**
   The account shown in detail. A null selection matches no account, since
   every account id is a string.
   */
  function SelectedAccount(s: AppState): (r: Option<Account>)
    ensures r.Some? ==> s.selectedAccountId == Some(r.value.id)
    ensures r.Some? ==>
      exists i :: 0 <= i < |s.accounts| && s.accounts[i] == r.value &&
        forall j :: 0 <= j < i ==> s.accounts[j].id != r.value.id
    ensures r.None? <==> forall j :: 0 <= j < |s.accounts| ==> s.selectedAccountId != Some(s.accounts[j].id)
  {
    match s.selectedAccountId
    case None => None
    case Some(id) =>
      match FindAccountIndex(s.accounts, id)
      case None => None
      case Some(i) => Some(s.accounts[i])
  }

  /** With distinct ids, the selected account is the one account carrying the selected id. */
  lemma SelectedAccountUnique(s: AppState, i: int)
    requires Distinct(AccountIds(s.accounts))
    requires 0 <= i < |s.accounts| && s.selectedAccountId == Some(s.accounts[i].id)
    ensures SelectedAccount(s) == Some(s.accounts[i])
  {
    var r := SelectedAccount(s);
    var k :| 0 <= k < |s.accounts| && s.accounts[k] == r.value;
    assert s.accounts[i].id == r.value.id;
    assert AccountIds(s.accounts)[k] == AccountIds(s.accounts)[i];
  }

  /**
   The main account: the first account of the list, absent when there are
   no accounts. Whether it exists depends only on the ids, which no event
   changes (see the ensures of `Navigation.Apply`).
   */
  function MainAccount(accounts: seq<Account>): (r: Option<Account>)
    ensures r.Some? <==> |accounts| > 0
    ensures r.Some? ==> accounts == [r.value] + accounts[1..]
    ensures r.Some? ==> r.value in accounts && FindAccountIndex(accounts, r.value.id) == Some(0)
  {
    if |accounts| == 0 then None else Some(accounts[0])
  }

  // ---------------------------------------------------------------------------
  // handleUpdateTransaction
  // ---------------------------------------------------------------------------

  /** The list with every transaction carrying the updated id replaced by the update, positions kept. */
  function ReplaceById(txs: seq<Transaction>, updated: Transaction): (r: seq<Transaction>)
    ensures |r| == |txs|
    ensures forall i :: 0 <= i < |txs| && txs[i].id == updated.id ==> r[i] == updated
    ensures forall i :: 0 <= i < |txs| && txs[i].id != updated.id ==> r[i] == txs[i]
  {
    if |txs| == 0 then []
    else [if txs[0].id == updated.id then updated else txs[0]] + ReplaceById(txs[1..], updated)
  }

  /** Replaces every transaction whose id is `updated.id`; nothing else in the state changes. */
  function UpdateTransaction(s: AppState, updated: Transaction): (r: AppState)
    ensures r.(transactions := s.transactions) == s
    ensures |r.transactions| == |s.transactions|
    ensures forall i :: 0 <= i < |s.transactions| ==>
      r.transactions[i] == (if s.transactions[i].id == updated.id then updated else s.transactions[i])
    ensures TransactionIds(r.transactions) == TransactionIds(s.transactions)
  {
    s.(transactions := ReplaceById(s.transactions, updated))
  }

  /** An id that occurs nowhere leaves the list as it was. */
  lemma ReplaceByIdAbsent(txs: seq<Transaction>, updated: Transaction)
    requires forall i :: 0 <= i < |txs| ==> txs[i].id != updated.id
    ensures ReplaceById(txs, updated) == txs
  {
  }

  /** Applying the same update twice is the same as applying it once. */
  lemma ReplaceByIdIdempotent(txs: seq<Transaction>, updated: Transaction)
    ensures ReplaceById(ReplaceById(txs, updated), updated) == ReplaceById(txs, updated)
  {
  }

  /** After an update whose id is present, the updated record is in the list, at every matching position. */
  lemma ReplaceByIdReadBack(txs: seq<Transaction>, updated: Transaction, i: int)
    requires 0 <= i < |txs| && txs[i].id == updated.id
    ensures updated in ReplaceById(txs, updated)
    ensures TransactionIds(ReplaceById(txs, updated)) == TransactionIds(txs)
  {
  }

  // ---------------------------------------------------------------------------
  // handleAddTransaction
  // ---------------------------------------------------------------------------

  /**
   The transaction as inserted: when a selected account resolves, its
   currency replaces the given one. The source writes the currency into the
   caller's object; here the adjusted record is returned instead.
   */
  function WithForcedCurrency(s: AppState, tx: Transaction): (r: Transaction)
    ensures r.(currency := tx.currency) == tx
    ensures (exists i :: 0 <= i < |s.accounts| && s.selectedAccountId == Some(s.accounts[i].id))
      ==> r.currency == SelectedAccount(s).value.currency
    ensures (forall i :: 0 <= i < |s.accounts| ==> s.selectedAccountId != Some(s.accounts[i].id))
      ==> r == tx
  {
    match SelectedAccount(s)
    case Some(a) => tx.(currency := a.currency)
    case None => tx
  }

  /** Prepends the (currency-adjusted) transaction; nothing else in the state changes. */
  function AddTransaction(s: AppState, tx: Transaction): (r: AppState)
    ensures r.(transactions := s.transactions) == s
    ensures |r.transactions| == |s.transactions| + 1
    ensures r.transactions[1..] == s.transactions
    ensures r.transactions[0].(currency := tx.currency) == tx
    ensures SelectedAccount(s).Some? ==> r.transactions[0].currency == SelectedAccount(s).value.currency
    ensures SelectedAccount(s).None? ==> r.transactions[0] == tx
  {
    s.(transactions := [WithForcedCurrency(s, tx)] + s.transactions)
  }

  /**
   With distinct account ids, a transaction added while account `i` is
   selected carries that account's currency, whatever currency it came with.
   */
  lemma AddTransactionTakesSelectedCurrency(s: AppState, tx: Transaction, i: int)
    requires Distinct(AccountIds(s.accounts))
    requires 0 <= i < |s.accounts| && s.selectedAccountId == Some(s.accounts[i].id)
    ensures AddTransaction(s, tx).transactions[0].currency == s.accounts[i].currency
    ensures AddTransaction(s, tx).transactions[0].id == tx.id
  {
    SelectedAccountUnique(s, i);
  }

  // ---------------------------------------------------------------------------
  // handleUpdateBalance
  // ---------------------------------------------------------------------------

  /** The list with the balance of every account carrying `id` set to `v`, all else kept. */
  function SetBalanceById(accounts: seq<Account>, id: string, v: real): (r: seq<Account>)
    ensures |r| == |accounts|
    ensures forall i :: 0 <= i < |accounts| && accounts[i].id == id ==>
      r[i].balance == v && r[i].(balance := accounts[i].balance) == accounts[i]
    ensures forall i :: 0 <= i < |accounts| && accounts[i].id != id ==> r[i] == accounts[i]
  {
    if |accounts| == 0 then []
    else
      var head := if accounts[0].id == id then accounts[0].(balance := v) else accounts[0];
      [head] + SetBalanceById(accounts[1..], id, v)
  }

  /** Sets the balance of every account with the given id; nothing else in the state changes. */
  function UpdateBalance(s: AppState, id: string, v: real): (r: AppState)
    ensures r.(accounts := s.accounts) == s
    ensures |r.accounts| == |s.accounts|
    ensures AccountIds(r.accounts) == AccountIds(s.accounts)
    ensures forall i :: 0 <= i < |s.accounts| && s.accounts[i].id == id ==>
      r.accounts[i] == s.accounts[i].(balance := v)
    ensures forall i :: 0 <= i < |s.accounts| && s.accounts[i].id != id ==> r.accounts[i] == s.accounts[i]
    ensures (forall i :: 0 <= i < |s.accounts| ==> s.accounts[i].id != id) ==> r == s
  {
    s.(accounts := SetBalanceById(s.accounts, id, v))
  }

  /** The balance a lookup by id reads: that of the first account with the id. */
  function BalanceOf(accounts: seq<Account>, id: string): (r: Option<real>)
    ensures r.Some? <==> id in AccountIds(accounts)
    ensures r.Some? ==> exists i :: 0 <= i < |accounts| && accounts[i].id == id && accounts[i].balance == r.value
  {
    match FindAccountIndex(accounts, id)
    case None => None
    case Some(i) =>
      assert AccountIds(accounts)[i] == id;
      Some(accounts[i].balance)
  }

  /** Writing a balance and reading it back gives the value written. */
  lemma UpdateBalanceReadBack(s: AppState, id: string, v: real)
    requires id in AccountIds(s.accounts)
    ensures BalanceOf(UpdateBalance(s, id, v).accounts, id) == Some(v)
  {
  }

  /** Writing one account's balance does not change what a lookup of another id reads. */
  lemma UpdateBalanceOthers(s: AppState, id: string, v: real, other: string)
    requires other != id
    ensures BalanceOf(UpdateBalance(s, id, v).accounts, other) == BalanceOf(s.accounts, other)
  {
  }

  // ---------------------------------------------------------------------------
  // handleUpdateUser
  // ---------------------------------------------------------------------------

  /** The value of one profile field. */
  function FieldOf(u: UserProfile, f: ProfileField): string {
    match f
    case Name => u.name
    case Username => u.username
    case AvatarUrl => u.avatarUrl
    case MembershipNumber => u.membershipNumber
  }

  /** A copy of the profile with one field set to `value`. */
  function WithField(u: UserProfile, f: ProfileField, value: string): (r: UserProfile)
    ensures FieldOf(r, f) == value
    ensures forall g :: g != f ==> FieldOf(r, g) == FieldOf(u, g)
  {
    match f
    case Name => u.(name := value)
    case Username => u.(username := value)
    case AvatarUrl => u.(avatarUrl := value)
    case MembershipNumber => u.(membershipNumber := value)
  }

  /** Replaces one profile field; nothing else in the state changes. */
  function UpdateUser(s: AppState, f: ProfileField, value: string): (r: AppState)
    ensures r.(user := s.user) == s
    ensures FieldOf(r.user, f) == value
    ensures forall g :: g != f ==> FieldOf(r.user, g) == FieldOf(s.user, g)
  {
    s.(user := WithField(s.user, f, value))
  }

  /** Writing back a field's own value changes nothing, and a second write to a field overrides the first. */
  lemma WithFieldLaws(u: UserProfile, f: ProfileField, a: string, b: string)
    ensures WithField(u, f, FieldOf(u, f)) == u
    ensures WithField(WithField(u, f, a), f, b) == WithField(u, f, b)
  {
  }
}
