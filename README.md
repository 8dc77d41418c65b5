# Splitwise frontend: expense and settlement state, in Dafny

This project models the client-side logic of a React single-page app for
splitting group expenses. The app talks to a REST backend that does the
real bookkeeping. The model covers what the pages themselves decide:

- **Expense dialog.** What the "Create Expense" form holds and how each
  input changes it. It also covers the guards that reject a submission, and
  how the payload for the `equal`, `exact` and `percentage` strategies is
  built from the form.
- **Group page.** Its four loaders, and the member and expense mutations
  with their targeted reloads. Also the edit slot, the dialogs' visibility,
  and the settlement panel with its cached snapshot.
- **Read-only views.** The member roster, the expense list and the
  settlement panel are pure projections of server data, including the
  fallbacks they show for missing data.
- **Group list.** Inline edit, replace by id after an update, and filter by
  id after a delete.
- **Per-user settlement pages.** The sequential per-group suggestion loop
  and the suggestions filtered to the current user. Also the manual
  "Create Settlement" form with its guard and payload.

Modelling choices:

- The network is a parameter. Every fetch is given as a `Response`: `Ok`
  with the decoded body, `NotOk` for a non-2xx status, or `Threw` for a
  rejected request.
- A callback handed in by a parent is given as an `Outcome`: `Returned` or
  `Raised`.
- Money is an exact `real`.
- The text of a form input stays a `string`. It is read by written-out
  models of `parseInt` and `parseFloat` (module `Numbers`), where `NaN` is
  `None`.
- The `splits` object is a `map<UserId, real>`. `Object.values(..).reduce`
  is `SumValues`, whose value is proved not to depend on key order.

Each component whose state the source updates through `useState` is a
class. Its fields are that state, and each handler is a method whose
`ensures` gives the whole new state. A handler that talks to the server
also returns the request it sends, with the ids in its URL and its body.
In the expense dialog, the state update functions are pure functions with
their own lemmas. The dialog's invariant `Valid()` says no participant is
listed twice, and a split entry exists exactly for the participants. Every
handler keeps it, except that `EditSplit` keeps it only for a selected
participant: the source renders a split input only for those.

`getUserDetails` appears twice in the source, in
`src/components/CreateExpenseModal.jsx:14-16` and
`src/components/MembersList.jsx:15-17`, with the same text. It is defined
once here, as `MembersList.GetUserDetails`.

The expense dialog reads only `onCreateExpense`. The `onSubmit` and
`expenseData` that the group page passes it (`GroupDetail.jsx:369-370`)
are ignored. So an expense opened with Edit starts from an empty form and
is submitted as a new expense. `GroupDetail.Workspace.HandleUpdateExpense`
models the update handler as written, but nothing in the source can call
it.

## Model

| member | source | states |
|---|---|---|
| CreateExpenseModal.Toggle | src/components/CreateExpenseModal.jsx:18-31 | toggling flips exactly this user's membership; a new participant is appended with a zero split; a removed one disappears from the list (the rest keep their order) and from `splits`; nothing else changes |
| CreateExpenseModal.ToggleKeepsInvariant | src/components/CreateExpenseModal.jsx:18-31 | a toggle keeps "no duplicates, and a split exactly for each participant" |
| CreateExpenseModal.FilterKeepsDistinct | src/components/CreateExpenseModal.jsx:22 | removing a user from a duplicate-free participant list keeps it duplicate-free |
| CreateExpenseModal.ToggleTwiceRestores | src/components/CreateExpenseModal.jsx:18-31 | selecting and then unselecting a user gives back the original form |
| CreateExpenseModal.SetSplit | src/components/CreateExpenseModal.jsx:33-38 | the user's split becomes the parsed number, or 0 for text that does not parse; participants and other splits are unchanged |
| CreateExpenseModal.SetSplitKeepsInvariant | src/components/CreateExpenseModal.jsx:33-38 | editing the split of a selected participant keeps the form invariant |
| CreateExpenseModal.ChangeType | src/components/CreateExpenseModal.jsx:175-180 | choosing a split type clears participants and splits and keeps the other fields |
| CreateExpenseModal.SumValues | src/components/CreateExpenseModal.jsx:52 | splits that are all zero (or none at all) sum to 0; non-negative splits give a non-negative sum |
| CreateExpenseModal.UntouchedPercentagesRejected | src/components/CreateExpenseModal.jsx:59-62 | a `percentage` form whose splits were never typed is rejected by the 100% guard |
| CreateExpenseModal.ClearedSplitIsZero | src/components/CreateExpenseModal.jsx:36 | clearing a split's input records 0 for that user |
| CreateExpenseModal.SumValuesRemove | src/components/CreateExpenseModal.jsx:52 | the sum of the split values can be taken out key by key in any order |
| CreateExpenseModal.Check | src/components/CreateExpenseModal.jsx:40-65 | each guard fires exactly on its condition, in source order: missing description/amount/payer, then no participants, then for `exact` a sum different from the parsed amount, then for `percentage` a sum other than 100; `equal` passes with the first two |
| CreateExpenseModal.BuildPayload | src/components/CreateExpenseModal.jsx:70-89 | the payload carries the description, type, `parseFloat` amount and `parseInt` payer; `equal` sends the participant ids; the other types send one share per participant, in order, carrying that participant's split |
| CreateExpenseModal.TotalIsSumOfSplits | src/components/CreateExpenseModal.jsx:52-88 | under the form invariant, the shares sent add up to the same total as the splits map the guard summed |
| CreateExpenseModal.ExactPayloadAddsUp | src/components/CreateExpenseModal.jsx:51-83 | an accepted `exact` form sends a number for every participant, and they add up to the expense amount |
| CreateExpenseModal.PercentagePayloadAddsUp | src/components/CreateExpenseModal.jsx:59-88 | an accepted `percentage` form sends a number for every participant, and they add up to 100 |
| CreateExpenseModal.ExactGuardIsShareSum | src/components/CreateExpenseModal.jsx:51-83 | for `exact`, the guard accepts exactly when the shares it would send add up to the parsed amount |
| CreateExpenseModal.PayerRoundTrip | src/components/CreateExpenseModal.jsx:73 | a payer chosen from the member options reaches the payload as that member's id |
| CreateExpenseModal.ExpenseModal.constructor | src/components/CreateExpenseModal.jsx:4-12 | the dialog opens on the empty `equal` form, not busy |
| CreateExpenseModal.ExpenseModal.EditDescription | src/components/CreateExpenseModal.jsx:128 | only the description changes; the invariant is kept |
| CreateExpenseModal.ExpenseModal.EditAmount | src/components/CreateExpenseModal.jsx:142 | only the amount text changes; the invariant is kept |
| CreateExpenseModal.ExpenseModal.EditPaidBy | src/components/CreateExpenseModal.jsx:154 | only the payer text changes; the invariant is kept |
| CreateExpenseModal.ExpenseModal.SelectType | src/components/CreateExpenseModal.jsx:175-180 | the form becomes `ChangeType` of the old one, which satisfies the invariant |
| CreateExpenseModal.ExpenseModal.ToggleParticipant | src/components/CreateExpenseModal.jsx:18-31 | the form becomes `Toggle` of the old one; the invariant is kept |
| CreateExpenseModal.ExpenseModal.EditSplit | src/components/CreateExpenseModal.jsx:33-38 | the form becomes `SetSplit` of the old one; the invariant is kept for a selected participant |
| CreateExpenseModal.ExpenseModal.HandleSubmit | src/components/CreateExpenseModal.jsx:40-105 | a rejected form sends nothing and changes nothing; an accepted one sends `BuildPayload` of the form, resets it if the callback returned, keeps it if it threw, and clears the busy flag |
| Numbers.ParseFloatOrZero | src/components/CreateExpenseModal.jsx:36 | text that does not parse counts as 0; a non-zero result is always the number the text spells |
| Numbers.ParseFloatOrZeroOfIntToString | src/components/CreateExpenseModal.jsx:36 | the decimal text of an integer reads back as that integer |
| Numbers.ParseIntOfIntToString | src/components/CreateExpenseModal.jsx:73 | an integer printed as text and read back by `parseInt` is the same integer |
| Numbers.ParseFloatOfIntToString | src/components/CreateExpenseModal.jsx:72 | `parseFloat` reads back the same integer from its printed form |
| Numbers.EmptyDoesNotParse | src/components/CreateExpenseModal.jsx:36 | empty text is `NaN` to both parsers |
| MembersList.GetUserDetails | src/components/MembersList.jsx:15-17 | a directory entry with the id gives its name and email; no entry gives the "User <id>" / "Unknown" placeholder |
| MembersList.GetUserDetailsFirstMatch | src/components/MembersList.jsx:15-17 | with several entries for one id, the first wins |
| MembersList.UnknownUserNamesDistinct | src/components/MembersList.jsx:16 | two different missing ids never show the same placeholder name |
| MembersList.Rows | src/components/MembersList.jsx:35-64 | one card per member, in order |
| MembersList.Roster | src/components/MembersList.jsx:23-65 | the header counts all members; hidden cards show nothing; shown cards carry the member's name, admin badge iff role is admin, and remove with its user id |
| MembersList.MembersPanel.constructor | src/components/MembersList.jsx:5 | the roster starts hidden |
| MembersList.MembersPanel.ToggleShow | src/components/MembersList.jsx:26 | Show/Hide flips visibility |
| MembersList.MembersPanel.HandleRemoveClick | src/components/MembersList.jsx:7-13 | clicking Remove on card i of the shown roster hands member i's user id to the callback; an alert shows exactly when it threw |
| ExpensesList.GetMemberName | src/components/ExpensesList.jsx:4-7 | an id missing from the directory shows as "User <id>" |
| ExpensesList.MemberNameAgreesWithRoster | src/components/ExpensesList.jsx:4-7 | the list shows the same name for a user as the roster's lookup |
| ExpensesList.GetMemberNameFirstMatch | src/components/ExpensesList.jsx:5 | with several entries for one id, the first wins |
| ExpensesList.ShareLines | src/components/ExpensesList.jsx:44-53 | one line per share, in order, with the sharer's name and amount |
| ExpensesList.RowsOf | src/components/ExpensesList.jsx:24-68 | one card per entry, in order |
| ExpensesList.View | src/components/ExpensesList.jsx:12-70 | the empty state exactly when there are no expenses; otherwise card i has Edit passing expense i, Delete passing its id, the payer's name and one line per share |
| GroupSettlements.Abs | src/components/GroupSettlements.jsx:32 | the magnitude is non-negative and equals the amount or its negation |
| GroupSettlements.BalanceRowOf | src/components/GroupSettlements.jsx:17-36 | positive, negative and zero amounts give "+ amount" in green, "- magnitude" in red and "Settled" in grey, and exactly then |
| GroupSettlements.BalanceTextFaithful | src/components/GroupSettlements.jsx:29-33 | reading a balance label back gives the server's amount |
| GroupSettlements.BalanceRows | src/components/GroupSettlements.jsx:17 | one row per balance, in order |
| GroupSettlements.InstructionRowOf | src/components/GroupSettlements.jsx:46-64 | a line shows payer, amount and payee, and its button passes exactly the instruction's payer, payee and amount |
| GroupSettlements.InstructionRows | src/components/GroupSettlements.jsx:46 | one line per instruction, in order |
| GroupSettlements.View | src/components/GroupSettlements.jsx:3-72 | a null snapshot renders nothing; absent balances give no rows; "All settled up" exactly when the instruction array is absent or empty; otherwise line i marks instruction i paid |
| GroupSettlements.MarkPaidCarriesInstruction | src/components/GroupSettlements.jsx:56-58 | the Mark Paid button of line i asks for the i-th instruction's payer, payee and amount |
| GroupDetail.AvailableUsers | src/components/GroupDetail.jsx:307-309 | the offered users are exactly the directory entries that no member refers to, in directory order |
| GroupDetail.NoMembersOffersEveryone | src/components/GroupDetail.jsx:307-309 | a group without members offers the whole directory |
| GroupDetail.WithoutExpense | src/components/GroupDetail.jsx:243 | after a delete, exactly the entries with another id remain, in order |
| GroupDetail.WithoutAbsentExpense | src/components/GroupDetail.jsx:243 | deleting an id that is not loaded changes nothing |
| GroupDetail.WithoutExpenseIdempotent | src/components/GroupDetail.jsx:243 | deleting the same id twice is deleting it once |
| GroupDetail.EditSlotFor | src/components/GroupDetail.jsx:180-190 | the slot copies the clicked expense's fields and takes the shares of a loaded entry with that id, or none |
| GroupDetail.EditSlotFirstMatch | src/components/GroupDetail.jsx:181 | with several loaded entries for one id, the first one's shares are taken |
| GroupDetail.Workspace.constructor | src/components/GroupDetail.jsx:13-24 | the page starts loading, with empty lists, no group, closed dialogs, no edit slot and no snapshot |
| GroupDetail.Workspace.LoadGroup | src/components/GroupDetail.jsx:48-60 | only an ok reply replaces the group |
| GroupDetail.Workspace.LoadExpenses | src/components/GroupDetail.jsx:62-74 | only an ok reply replaces the expenses |
| GroupDetail.Workspace.LoadMembers | src/components/GroupDetail.jsx:76-88 | only an ok reply replaces the members |
| GroupDetail.Workspace.LoadAllUsers | src/components/GroupDetail.jsx:90-102 | only an ok reply replaces the directory |
| GroupDetail.Workspace.LoadGroupData | src/components/GroupDetail.jsx:32-46 | each slice takes its own ok reply independently, and loading ends whatever failed |
| GroupDetail.Workspace.Mount | src/components/GroupDetail.jsx:26-30 | data is loaded only with a route id and a session; otherwise nothing changes |
| GroupDetail.Workspace.HandleAddMember | src/components/GroupDetail.jsx:104-125 | the request names the route's group and the chosen user; success reloads members, closes the dialog and returns; failure changes nothing and throws |
| GroupDetail.Workspace.HandleRemoveMember | src/components/GroupDetail.jsx:127-145 | the request names the route's group and the user; success reloads members and returns; failure changes nothing and throws |
| GroupDetail.Workspace.HandleCreateExpense | src/components/GroupDetail.jsx:147-178 | the request goes to the payload's own strategy with the route's group id; success reloads expenses and closes the dialog; failure changes nothing and throws |
| GroupDetail.Workspace.HandleEditExpense | src/components/GroupDetail.jsx:180-194 | the slot becomes `EditSlotFor` the clicked expense and the dialog opens |
| GroupDetail.Workspace.HandleUpdateExpense | src/components/GroupDetail.jsx:196-229 | without a slot nothing happens; otherwise the update targets the slot's expense id; success reloads, closes and clears the slot; failure throws and changes nothing |
| GroupDetail.Workspace.HandleDeleteExpense | src/components/GroupDetail.jsx:231-248 | the request names the expense; success removes the id locally; failure alerts and changes nothing |
| GroupDetail.Workspace.LoadGroupSettlements | src/components/GroupDetail.jsx:259-272 | an ok reply replaces the snapshot and shows the panel; a failure changes nothing |
| GroupDetail.Workspace.HandleToggleSettlements | src/components/GroupDetail.jsx:250-257 | hiding keeps the snapshot and takes the panel off screen; showing loads first and then shows, even after a failed load, so the panel appears exactly when the load succeeded or an older snapshot is cached |
| GroupDetail.Workspace.HandleMarkPaid | src/components/GroupDetail.jsx:274-300 | the request carries exactly the three fields for the route's group; only a success reloads the snapshot; a failure alerts |
| GroupDetail.Workspace.HandleCloseModal | src/components/GroupDetail.jsx:302-305 | the dialog closes and the slot is cleared |
| GroupDetail.Workspace.OpenAddMember | src/components/GroupDetail.jsx:328 | the add-member dialog opens |
| GroupDetail.Workspace.CloseAddMember | src/components/GroupDetail.jsx:358 | the add-member dialog closes |
| GroupDetail.Workspace.OpenCreateExpense | src/components/GroupDetail.jsx:329 | the expense dialog opens |
| GroupDetail.Workspace.OfferedUsers | src/components/GroupDetail.jsx:307-309 | the page offers the add dialog exactly the loaded users no loaded member refers to, as `AvailableUsers` of its state, in directory order and with their repetitions |
| GroupDetail.Workspace.ListedExpenses | src/components/GroupDetail.jsx:348 | the list receives the expenses newest first: position i holds the i-th from the end |
| AddMemberModal.Options | src/components/AddMemberModal.jsx:48-53 | one option per offered user, in order, with a non-empty value that `parseInt` reads back as that user's id; different users never share a value |
| AddMemberModal.AllMembersNotice | src/components/AddMemberModal.jsx:57-61 | the "all users are already members" notice shows exactly when there is no option to choose |
| AddMemberModal.SubmitDisabledFor | src/components/AddMemberModal.jsx:73 | the button is disabled exactly when no real option is selected, a request is in flight, or there is no option to choose |
| AddMemberModal.ChoosingAnOptionEnablesSubmit | src/components/AddMemberModal.jsx:48-73 | selecting any offered user while idle enables the button, and the value it submits reads back as that user's id |
| AddMemberModal.Dialog.constructor | src/components/AddMemberModal.jsx:4-5 | nothing selected, not busy |
| AddMemberModal.Dialog.Select | src/components/AddMemberModal.jsx:44 | the selection becomes the chosen value |
| AddMemberModal.Dialog.HandleSubmit | src/components/AddMemberModal.jsx:7-22 | no selection sends nothing and changes nothing; otherwise the selection is handed over, cleared if the callback returned, kept if it threw, and the busy flag ends cleared |
| AddMemberModal.Dialog.ClickSubmit | src/components/AddMemberModal.jsx:71-77 | a disabled button does nothing; an enabled one hands over exactly the selection that enabled it, then clears it if the callback returned |
| GroupList.DescriptionText | src/components/GroupList.jsx:24 | the edit text is empty exactly when the description is missing or empty, and is otherwise the group's own |
| GroupList.EditFormOf | src/components/GroupList.jsx:24 | the edit form starts from the group's name, and its description is empty exactly when the group's is missing or empty |
| GroupList.EditSaveRoundTrip | src/components/GroupList.jsx:24-35 | a group stored from a sent form re-opens for editing with that same form |
| GroupList.UnchangedSaveShowsSameCard | src/components/GroupList.jsx:24-121 | saving the edit form unchanged shows the same card and re-opens with the same form, even for a missing description |
| GroupList.ReplaceById | src/components/GroupList.jsx:40-42 | same length; every entry with the id becomes the server's group and every other entry stays as it was |
| GroupList.ReplaceAbsentId | src/components/GroupList.jsx:40-42 | replacing an id no group has changes nothing |
| GroupList.ReplaceIdempotent | src/components/GroupList.jsx:40-42 | applying the same update twice is applying it once |
| GroupList.ReplacedGroupIsListed | src/components/GroupList.jsx:40-42 | after updating a listed group that keeps its id, the server's group is listed, it is the only group with that id, and every other group is still listed |
| GroupList.WithoutGroup | src/components/GroupList.jsx:59 | after a delete, exactly the groups with another id remain, in order |
| GroupList.ShownDescription | src/components/GroupList.jsx:121 | a card never shows an empty description: a missing one shows "No description", and any other text is the group's own |
| GroupList.GroupListPage.constructor | src/components/GroupList.jsx:7-9 | no groups, not editing, empty form |
| GroupList.GroupListPage.HandleEditClick | src/components/GroupList.jsx:22-25 | edit mode for this group, with `EditFormOf` the group in the form |
| GroupList.GroupListPage.EditName | src/components/GroupList.jsx:92 | only the name field changes |
| GroupList.GroupListPage.EditDescription | src/components/GroupList.jsx:97-99 | only the description field changes |
| GroupList.GroupListPage.Cancel | src/components/GroupList.jsx:109 | edit mode ends |
| GroupList.GroupListPage.HandleUpdate | src/components/GroupList.jsx:27-47 | the form is sent to the group's id; success replaces by id and ends edit mode; failure changes nothing |
| GroupList.GroupListPage.HandleDelete | src/components/GroupList.jsx:49-63 | the request names the group; success removes the id; failure changes nothing |
| UserSettlements.Collected | src/components/UserSettlements.jsx:42-58 | a finished loop saw no thrown request, and every group in its map had an ok reply |
| UserSettlements.CollectedAbandonedIffThrew | src/components/UserSettlements.jsx:42-58 | the suggestion loop is abandoned exactly when some request threw |
| UserSettlements.CollectedKeys | src/components/UserSettlements.jsx:45-53 | a group has an entry exactly when one of its requests was ok, and holds its last ok reply's settlements (or []) |
| UserSettlements.CollectedDistinct | src/components/UserSettlements.jsx:45-53 | with distinct group ids, each group's entry is its own reply's settlements, and is present exactly when that reply was ok |
| UserSettlements.AbandonedStaysAbandoned | src/components/UserSettlements.jsx:55-57 | once a request throws, no later reply matters |
| UserSettlements.UserSuggestions | src/components/UserSettlements.jsx:116-119 | under a group the user sees exactly that group's suggestions they pay, in order, and none for a group without an entry |
| UserSettlements.Text | src/components/UserSettlements.jsx:139-143 | "Settled" exactly for status "settled"; else the magnitude with "+" exactly for "owed" |
| UserSettlements.ToneOf | src/components/UserSettlements.jsx:131-137 | green exactly for "owed", red exactly for "owes", grey otherwise |
| UserSettlements.TextAndToneAgree | src/components/UserSettlements.jsx:131-143 | for the three statuses the server sends, text and colour agree |
| UserSettlements.UnknownStatusIsGreyMinus | src/components/UserSettlements.jsx:131-143 | any other status is shown with a minus sign in grey |
| UserSettlements.GroupIdsOf | src/components/UserSettlements.jsx:30 | the group ids of the balances, in order |
| UserSettlements.Page.constructor | src/components/UserSettlements.jsx:9-11 | no snapshot, no suggestions, loading |
| UserSettlements.Page.FetchGroupSuggestions | src/components/UserSettlements.jsx:42-58 | a finished loop requests every group in order and stores `Collected` over all replies; an abandoned loop stops right after the first request that threw and keeps the old map |
| UserSettlements.Page.FetchUserSettlements | src/components/UserSettlements.jsx:19-40 | an ok reply replaces the snapshot and, with at least one group, fetches suggestions; loading ends on every path |
| UserSettlements.Page.HandleMarkPaid | src/components/UserSettlements.jsx:60-84 | the request carries the group and the suggestion's three fields; only a success fetches the page again, and then the suggestion map is the new loop's `Collected` map, or the old one when the loop was abandoned or not run |
| UserSettlements.Page.ShownFor | src/components/UserSettlements.jsx:116-119 | under a group the page lists that group's own suggestions the current user pays, all of them, in order and with their repetitions (`UserSuggestions`), and nothing for a group without an entry |
| SettlementsPage.BalanceColour | src/pages/SettlementsPage.jsx:90 | green exactly for a positive balance, otherwise red; never grey |
| SettlementsPage.BalanceColourAgreesWhenNonZero | src/pages/SettlementsPage.jsx:90 | for a non-zero balance this page and the group panel use the same colour |
| SettlementsPage.ZeroBalanceColoursDisagree | src/pages/SettlementsPage.jsx:90 | a zero balance is red here but grey on the group panel |
| SettlementsPage.RequestFor | src/pages/SettlementsPage.jsx:37-53 | nothing is sent exactly when a field is empty; otherwise the route's group and the parsed ids and amount |
| SettlementsPage.TypedIdsRoundTrip | src/pages/SettlementsPage.jsx:50-51 | ids typed as their decimal text reach the server unchanged |
| SettlementsPage.Page.constructor | src/pages/SettlementsPage.jsx:6-12 | empty list, not loading, no error, empty inputs |
| SettlementsPage.Page.FetchSettlements | src/pages/SettlementsPage.jsx:18-34 | an ok reply gives `group_balances` (or []) and no error, and then the page shows the empty message or the list according to whether it is empty; a failure keeps the list, records the error and, with a non-empty error text, shows neither; loading ends |
| SettlementsPage.Page.Mount | src/pages/SettlementsPage.jsx:14-16 | a fetch happens exactly for a signed-in user with a non-zero id |
| SettlementsPage.Page.EditGroup | src/pages/SettlementsPage.jsx:105 | the group input becomes the text |
| SettlementsPage.Page.EditFrom | src/pages/SettlementsPage.jsx:112 | the payer input becomes the text |
| SettlementsPage.Page.EditTo | src/pages/SettlementsPage.jsx:119 | the payee input becomes the text |
| SettlementsPage.Page.EditAmount | src/pages/SettlementsPage.jsx:126 | the amount input becomes the text |
| SettlementsPage.Page.ShowsList | src/pages/SettlementsPage.jsx:80-82 | the list and "No settlements found." are never shown together, and once loading ends without an error one of them is |
| SettlementsPage.Page.HandleCreateSettlement | src/pages/SettlementsPage.jsx:36-71 | sends `RequestFor` the inputs; success clears the inputs and fetches again; an empty field or a failure keeps everything |

## Left out

- Network, session and routing: every `fetch` is a `Response` parameter. Each mutating handler returns the request it sends: its ids (route group id, group, user or expense id) and its JSON body. The URLs of the read-only loaders (`GET` of groups, expenses, members, users and snapshots), the host name, bearer tokens, `useParams` and `AuthContext` are left out. Only "a session exists" and "a user id exists" are modelled.
- Alert, `console` and error texts, including the server's `detail` field, are left out. Only whether an alert shows, or a callback throws, is modelled. Exception: `SettlementsPage` takes its error text as a parameter, because the page renders it.
- Numbers are exact `real`: IEEE-754 rounding is left out. So is `toFixed(2)` and the money formatting. `CreateExpenseModal.Check` compares exact sums, so a float sum that misses 100 by rounding error, which the source would reject, is accepted here.
- `Numbers.ParseInt` and `Numbers.ParseFloat` cover only plain decimal text: a sign, digits, and a fraction for `parseFloat`. Leading whitespace, exponents, `Infinity` and `0x` prefixes are not modelled.
- Timing: the whole of an async handler is one method call. So are the un-awaited refetches after a mark-paid (`GroupDetail.jsx:295`, `UserSettlements.jsx:80`) and after a manual settlement (`SettlementsPage.jsx:66`). Interleavings with other handlers are not modelled.
- `GroupDetail.Workspace.LoadGroupData`: the `Promise.all` of four loaders is sequential here. This is sound because each loader writes its own slice and never throws.
- The initial group load of `GroupList.jsx:11-20` is left out. It stores any JSON body without checking `res.ok`, so a failed request stores an error object in place of the list, which a typed list cannot hold.
- The JSX layout, CSS classes, `key`s, the loading skeletons, and the join-date formatting of `MembersList.jsx:53` are left out.
- `UserSettlements.Page.FetchUserSettlements` requires one scripted reply per group, which is how the environment is given; the source has no such demand.
- The mount effect of `UserSettlements.jsx:13-17` is not a separate member; `FetchUserSettlements` is what it runs.
- The `|| []` guards on `allUsers` and `members` (`GroupDetail.jsx:307-308`) are left out: both lists are always lists here.
- Expense splitting, balances and debt netting happen on the server and are not part of this model. The settlement views only project the snapshots the server sends.
- `GroupCreate.jsx`, `GroupHeader.jsx`, `LoginForm.jsx`, `RegisterForm.jsx`, `Navbar.jsx`, `AuthContext.jsx` and the layout pages are not part of this model.
