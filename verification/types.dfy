/**
 The records the dashboard keeps in its state: accounts, transactions and the
 user profile. The field lists follow the seed data in constants.tsx and the
 profile record built in App.tsx; balances and amounts are JavaScript numbers
 and are modelled as `real`.
 */
module Types {

  /** Transaction status; the seed uses these two values. */
  datatype Status = Completed | Pending

  /** Whether money came in or went out; a display label only. */
  datatype Direction = Incoming | Outgoing

  datatype Account = Account(
    id: string,
    currency: string,
    balance: real,
    flag: string,
    accountNumber: string)

  datatype Transaction = Transaction(
    id: string,
    recipient: string,
    description: string,
    amount: real,
    currency: string,
    date: string,
    status: Status,
    direction: Direction,
    iconType: string)

  datatype UserProfile = UserProfile(
    name: string,
    username: string,
    avatarUrl: string,
    membershipNumber: string)

  /** The keys of a user profile (`keyof UserProfile`). */
  datatype ProfileField = Name | Username | AvatarUrl | MembershipNumber

  /** The ids of a list of accounts, in order. */
  function AccountIds(accounts: seq<Account>): seq<string> {
    seq(|accounts|, i requires 0 <= i < |accounts| => accounts[i].id)
  }

  /** The ids of a list of transactions, in order. */
  function TransactionIds(txs: seq<Transaction>): seq<string> {
    seq(|txs|, i requires 0 <= i < |txs| => txs[i].id)
  }

  /** No value occurs twice in `xs`. */
  predicate Distinct<T(==)>(xs: seq<T>) {
    forall i, j :: 0 <= i < j < |xs| ==> xs[i] != xs[j]
  }
}
