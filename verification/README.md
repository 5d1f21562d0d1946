# Banking dashboard state model

A Dafny model of the state layer of a banking-dashboard front end. The
top-level `App` component owns six pieces of state:

- the accounts;
- the transaction feed;
- the user profile;
- an edit-mode flag;
- the selected account id (nullable);
- a profile-open flag.

`App` derives a main account (the first account) and a selected account (the
first account whose id equals the selection). It hands four handlers to its
children:

- update a transaction by id;
- prepend a new transaction, forcing its currency to the selected account's currency;
- set an account's balance by id;
- replace one profile field.

Which screen is rendered depends on the flags. The profile page wins. Otherwise
the account detail is shown when the selection resolves, and the overview when
it does not. The overview reads the main account's balance and currency, so
with no accounts it fails to render; the model has a `RenderFailure` screen for
that case. Editable balance text is reduced to digits and periods before
parsing.

Modules:

- `Wrappers`: `Option`, standing for `null`/`undefined`.
- `Types`: the account, transaction and profile records, and the profile field names.
- `Handlers`: the state record, the derived lookups and the four handlers, each a pure function from the old state to the new one.
- `Navigation`: the three screens, the render function, and the user events each screen offers. It also holds the invariant that offered events keep: there is a main account, account ids are distinct, and the selection names an existing account.
- `BalanceText`: the digit/period filter and the `"0"` default applied to edited balance text.
- `Seed`: the initial accounts, transactions and profile, and the invariant proved for every state reachable from them.

Balances and amounts are modelled as `real`. The source's `types` module is not part of this model. The record fields follow the seed data in `constants.tsx`, and `Status` lists the two values the seed uses.

Notes on the code's behaviour at its edges:

- `handleUpdateTransaction` maps over the whole list, so every transaction carrying the id is replaced, not only the first. `UpdateTransaction` states this for every matching position.
- The edited-text default is substituted only when the filtered text is empty. So the parser receives `"0"` when the filter left nothing, and also when it left `"0"` itself. `ParseInputZeroIff` states the exact condition.
- `selectedAccount` is computed whatever screen is shown. So a transaction added from the profile page still takes the currency of an account selected before the page was opened. `AddOnProfileTakesSelectedCurrency` states this.
- With no accounts, `mainAccount` is `undefined` and the overview throws when it reads its balance. `Navigation.Render` returns `RenderFailure` there. `Seed.ReachableWf` shows this state is not reachable from the seed.

## Model

| member | source | states |
|---|---|---|
| `Handlers.FindAccountIndex` | App.tsx:36 | the position found is the first account carrying the id; none is found exactly when no account carries it |
| `Handlers.SelectedAccount` | App.tsx:36 | the selected account carries the selected id and is the first such account; it is absent exactly when the selection is null or matches no account |
| `Handlers.SelectedAccountUnique` | App.tsx:36 | with distinct ids, the selected account is the one account whose id is selected |
| `Handlers.MainAccount` | App.tsx:35 | a main account exists exactly when the account list is non-empty; it is the head of the list, and a lookup by its own id finds position 0 |
| `Handlers.ReplaceById` | App.tsx:39 | the length is kept; every transaction with the updated id becomes the update, every other stays in place unchanged |
| `Handlers.UpdateTransaction` | App.tsx:38-40 | only the transaction list changes; its length and id order are kept; matching positions hold the update, the others are unchanged |
| `Handlers.ReplaceByIdAbsent` | App.tsx:39 | an update whose id is absent leaves the list unchanged |
| `Handlers.ReplaceByIdIdempotent` | App.tsx:39 | applying the same update twice equals applying it once |
| `Handlers.ReplaceByIdReadBack` | App.tsx:39 | after an update whose id is present, the update is in the list and the sequence of ids is unchanged |
| `Handlers.WithForcedCurrency` | App.tsx:43-46 | only the currency may change; it becomes the selected account's currency when the selection resolves, and the record is as given otherwise |
| `Handlers.AddTransaction` | App.tsx:42-48 | only the transaction list changes; it grows by one, the old list is the tail in order, and the head is the given record with the selected account's currency when one resolves |
| `Handlers.AddTransactionTakesSelectedCurrency` | App.tsx:36-47 | with distinct account ids, a transaction added while account i is selected has account i's currency and keeps its own id |
| `Handlers.SetBalanceById` | App.tsx:51 | the length and order are kept; matching accounts get the new balance with every other field unchanged; other accounts are unchanged |
| `Handlers.UpdateBalance` | App.tsx:50-52 | only the accounts change; ids and order are kept; matching accounts get the balance; an absent id leaves the state unchanged |
| `Handlers.UpdateBalanceReadBack` | App.tsx:50-52 | for an id that is present, reading the balance back by that id gives the value written |
| `Handlers.UpdateBalanceOthers` | App.tsx:50-52 | a balance read by any other id is the same before and after the update |
| `Handlers.WithField` | App.tsx:55 | the named field reads back as the value given, and every other field is unchanged |
| `Handlers.UpdateUser` | App.tsx:54-56 | only the profile changes, and within it only the named field, which reads back as the new value |
| `Handlers.WithFieldLaws` | App.tsx:55 | writing a field's own value back changes nothing, and a second write to a field overrides the first |
| `Navigation.Render` | App.tsx:58-133 | the profile flag forces the profile page; otherwise the detail screen is shown exactly when some account carries the selected id, and it shows the first such account; with the profile closed and no accounts the render fails, and the overview is shown only when there is an account |
| `Navigation.Apply` | App.tsx:27-56 | no event adds, removes or renames an account, so the main account stays the same account |
| `Navigation.ApplyKeepsHistory` | App.tsx:38-52 | after any event the account ids are unchanged and the old transaction ids sit, in order, at the end of the transaction list |
| `Navigation.WfRender` | App.tsx:107 | in a well-formed state there is a main account, and the detail screen is shown exactly when the profile is closed and an id is selected |
| `Navigation.StepKeepsWf` | App.tsx:58-229 | every event the rendered screen offers keeps the invariant: accounts non-empty, ids distinct, selection resolving |
| `Navigation.Run` | App.tsx:27-32 | after any sequence of events the account ids are unchanged and the old transaction ids sit, in order, at the end of the transaction list |
| `Navigation.RunKeepsWf` | App.tsx:58-229 | any sequence of offered events keeps the invariant |
| `Navigation.SelectCardShowsAccount` | App.tsx:163 | with distinct ids and the profile closed, selecting a card shows that account's detail |
| `Navigation.DetailBackShowsOverview` | App.tsx:112 | back from the detail screen clears the selection and changes nothing else; with the profile closed it shows the overview, or the render failure when there is no account |
| `Navigation.SelectThenBack` | App.tsx:112 | selecting a card and going back gives the previous state with no selection, and the overview when the profile is closed and there is an account |
| `Navigation.ProfileOpenShowsProfile` | App.tsx:91 | opening the profile shows the profile page whatever the selection, and keeps the selection |
| `Navigation.ProfileRoundTrip` | App.tsx:64 | opening the profile and going back restores the exact previous state and so the previous screen |
| `Navigation.ProfileBackClearsOnlyFlag` | App.tsx:64 | back from the profile page clears the profile flag and leaves every other part of the state as it is, in any state |
| `Navigation.ProfilePageKeepsSelection` | App.tsx:58-71 | while the profile page stays open, every sequence of events it offers keeps the accounts and the selection, and the page stays open |
| `Navigation.ReturnRestoresView` | App.tsx:58-112 | opening the profile, doing anything the profile page offers except going back, then going back shows the screen shown before the page was opened |
| `Navigation.EditToggleLaws` | App.tsx:69 | the edit toggle flips only the edit flag, leaves the screen unchanged, and undoes itself |
| `Navigation.AddOnProfileTakesSelectedCurrency` | App.tsx:44-70 | after selecting an account and opening the profile, a transaction added there still takes the selected account's currency |
| `BalanceText.FilterBalanceText` | App.tsx:127 | the result has only digits and periods, is an order-preserving subsequence of the input, keeps every digit and period of the input, and is the input itself when it has nothing to remove |
| `BalanceText.FilterIsUnique` | App.tsx:127 | any order-preserving selection that keeps every digit and period and nothing else equals the filter's result |
| `BalanceText.FilterIdempotent` | App.tsx:127 | filtering twice equals filtering once |
| `BalanceText.FilterEmptyIff` | App.tsx:127 | the filter leaves nothing exactly when the text contains no digit and no period |
| `BalanceText.ParseInput` | App.tsx:127 | the parser input is non-empty digits and periods; a missing text or one without digits or periods gives "0"; otherwise it is an order-preserving subsequence of the text keeping every digit and period |
| `BalanceText.ParseInputIdempotent` | App.tsx:186 | feeding the parser input back through the same step returns it unchanged |
| `BalanceText.ParseInputZeroIff` | App.tsx:127 | the parser receives "0" exactly when the filter left "" or "0" |
| `BalanceText.ParseInputSeparators` | App.tsx:186 | "$1,234.56" reaches the parser as "1234.56" |
| `BalanceText.ParseInputDefaults` | App.tsx:127 | "abc", "" and a missing text all reach the parser as "0" |
| `BalanceText.ParseInputNoDefault` | App.tsx:186 | "." and "12.34.56" reach the parser unchanged |
| `Seed.InitialStateWf` | constants.tsx:3-90 | the seed is well formed, has a EUR main account, and has distinct transaction ids |
| `Seed.InitialStateOpensOnOverview` | App.tsx:27-32 | with the profile closed, nothing selected and edit mode off, the dashboard opens on the overview, where no balance, of the main account or of any card, can be edited; after the edit toggle every account's balance can be edited |
| `Seed.ReachableWf` | App.tsx:27-32 | every state reachable from the seed through offered events is well formed and keeps the four seed account ids, so the main account stays account "1" |
| `Seed.SelectSecondThenBack` | App.tsx:163 | selecting account "2" shows its USD detail, and going back shows the overview with no selection |

## Left out

- Rendering: all JSX, styling, icons and `contentEditable` plumbing in `App.tsx` are UI. Only which screen is shown and which callbacks it wires up are modelled.
- Number parsing and display: `parseFloat` and `toLocaleString` (App.tsx:127, 131, 186, 190) are floating-point and locale behaviour. The model stops at the string handed to `parseFloat`. A balance event carries its value as a `real`, so `NaN` (the result of parsing ".") has no counterpart.
- Display name: the capitalisation of the name in the header (App.tsx:99) is display-only and depends on Unicode `toLowerCase`.
- In-place write: the source writes the forced currency into the caller's transaction object (App.tsx:45). The model returns the adjusted record instead, so the caller's aliasing side effect is not modelled.
- Child components: `Sidebar`, `TransactionItem`, `EditControl`, `AccountDetail` and `ProfilePage` are not part of this model. `Navigation.Enabled` assumes each one may invoke the callbacks it receives whenever it is rendered, and that none is rendered when `App`'s own render fails. The one exception is the overview's balance edit, which is tied to edit mode because the field is only `contentEditable` then.
- Error boundary: `components/ErrorBoundary.tsx` is a rendering-failure fallback. Its effects are logging and a page reload, and it has no domain state beyond a caught-error flag.
- Types: the `types` module is not part of this model. Fields and status values are inferred from the seed data.
