/**
 The data the dashboard starts from: four accounts, five transactions and
 the default profile. The initial state shows the overview with editing off.
 */
module Seed {
  import opened Wrappers
  import opened Types
  import opened Handlers
  import opened Navigation

  function InitialAccounts(): seq<Account> {
    [
      Account("1", "EUR", 232.53, "\U{1F1EA}\U{1F1FA}", ".. 64818"),
      Account("2", "USD", 1450.00, "\U{1F1FA}\U{1F1F8}", ".. 74161"),
      Account("3", "GBP", 0.00, "\U{1F1EC}\U{1F1E7}", ".. 99212"),
      Account("4", "THB", 12086.34, "\U{1F1F9}\U{1F1ED}", ".. 11234")
    ]
  }

  function InitialTransactions(): seq<Transaction> {
    [
      Transaction("t1", "Shwe Sin Win", "Sending", 12086.34, "THB", "Today", Completed, Outgoing, "transfer"),
      Transaction("t2", "To EUR", "Moved by you", 34.30, "EUR", "Today", Completed, Incoming, "transfer"),
      Transaction("t3", "Iberojet", "Travel", 405.76, "EUR", "Yesterday", Pending, Outgoing, "shopping"),
      Transaction("t4", "Spotify AB", "Subscription", 10.99, "EUR", "14 Dec", Completed, Outgoing, "shopping"),
      Transaction("t5", "Upwork Global Inc.", "Payout", 1250.00, "USD", "10 Dec", Completed, Incoming, "income")
    ]
  }

  function InitialUser(): UserProfile {
    UserProfile("NICOLÁS SALCEDO FERIX", "@nicolass1748", "https://picsum.photos/100/100", "P38371203")
  }

  function InitialState(): AppState {
    AppState(InitialAccounts(), InitialTransactions(), InitialUser(), false, None, false)
  }

  /** The seed satisfies the invariant, has a EUR main account, and has distinct transaction ids. */
  lemma InitialStateWf()
    ensures Wf(InitialState())
    ensures MainAccount(InitialState().accounts).Some?
    ensures MainAccount(InitialState().accounts).value.currency == "EUR"
    ensures Distinct(TransactionIds(InitialTransactions()))
  {
  }

  /**
   The dashboard opens on the overview, with the profile closed and nothing
   selected, and with edit mode off, so no balance can be edited until the
   edit toggle switches it on, after which every account's balance can be.
   */
  lemma InitialStateOpensOnOverview(v: real)
    ensures Render(InitialState()) == Overview
    ensures forall id :: !Enabled(InitialState(), BalanceEdited(id, v))
    ensures forall id :: id in AccountIds(InitialState().accounts) ==>
      Enabled(Apply(InitialState(), EditToggle), BalanceEdited(id, v))
    ensures Enabled(InitialState(), EditToggle) && Enabled(InitialState(), ProfileOpen)
  {
  }

  /**
   Every state reachable from the seed through offered events is well formed,
   keeps the seed's four account ids, and so the same main account.
   */
  lemma ReachableWf(es: seq<Event>)
    requires Admissible(InitialState(), es)
    ensures Wf(Run(InitialState(), es))
    ensures AccountIds(Run(InitialState(), es).accounts) == ["1", "2", "3", "4"]
    ensures MainAccount(Run(InitialState(), es).accounts).value.id == "1"
  {
    InitialStateWf();
    RunKeepsWf(InitialState(), es);
    var r := Run(InitialState(), es);
    assert AccountIds(r.accounts)[0] == "1";
  }

  /** Scenario: select account "2", then go back; the overview is shown with no selection. */
  lemma SelectSecondThenBack()
    ensures Render(Apply(InitialState(), SelectCard("2"))).AccountDetail?
    ensures Render(Apply(InitialState(), SelectCard("2"))).account.currency == "USD"
    ensures Apply(Apply(InitialState(), SelectCard("2")), DetailBack).selectedAccountId == None
    ensures Render(Apply(Apply(InitialState(), SelectCard("2")), DetailBack)) == Overview
  {
  }
}
