# Chama contribution tracker: member store model

A Dafny model of the member-store logic of a small React dashboard that a
community savings group ("chama") uses to track contributions. The store is
an ordered sequence of member records. Each record has an id, a name, a phone,
an integer contribution, a status (`paid`, `pending` or `overdue`) and the
date of its last payment. The logic is spread over three components:

- the **page** (`src/pages/Index.tsx`) owns the store and the "add member"
  dialog flag. On every render it derives the total contributed, the number
  of members in each status, and the amount remaining against a fixed goal of
  KES 20000. It appends new members with id `length + 1` and counts the unpaid
  members a reminder would go to;
- the **member list** (`src/components/MemberList.tsx`) filters the store by
  a search term. It rebuilds the store with one member's status, contribution
  and date replaced (`updatePaymentStatus`), and it calls that from the
  "Mark as Paid" and "Mark Pending" buttons;
- the **add-member dialog** (`src/components/AddMemberDialog.tsx`) trims its
  two fields and rejects the submit when either is empty. Otherwise it
  forwards the trimmed pair to the page, clears both fields and closes.

Modules, one per source component plus two helpers:

| file | module | what it holds |
|---|---|---|
| `wrappers.dfy` | `Wrappers` | `Option`, used for an absent amount and for `NaN` |
| `js_strings.dfy` | `JsStrings` | the JavaScript built-ins used: `trim`, `toLowerCase` (ASCII), `includes`, `parseInt` |
| `member_list.dfy` | `MemberList` | `Member`, `Status`, the search filter, `getStatusColor`, `updatePaymentStatus`, the two buttons |
| `add_member_dialog.dfy` | `AddMemberDialog` | the submit rule as a function, and the form as a class with `name` and `phone` fields |
| `dashboard.dfy` | `Dashboard` | the seed store, the aggregates, `handleAddMember`, the reminder count, id invariants, and the page as a class with a `members` field |

The pure parts (`reduce`, `filter`, `map` and the predicates) are functions
with lemmas about them. The handlers that call `setMembers`, `setName`,
`setPhone` or `setIsAddMemberOpen` are methods on a class holding that state:
`Dashboard.ChamaPage` and `AddMemberDialog.AddMemberForm`. The page keeps the
invariant that the ids are exactly `1..n`. The seed satisfies it, adding a
member extends it, and no operation removes a member. So ids stay unique.

Two behaviours of the code are easy to misread, and the model follows the code:

- One might expect "Mark as Paid" to add the typed amount to the member's
  contribution. `updatePaymentStatus` replaces the contribution with the
  amount instead (MemberList.tsx:64). So marking member #2 (pending, 3000)
  paid with "3000" leaves the seed total at 13000, as
  `Dashboard.MarkJohnPaidScenario` proves.
- `Member.contribution` is typed as a plain `number` (MemberList.tsx:15),
  with no lower bound. The "Mark as Paid" button records
  `parseInt(value) || 0` unchecked (MemberList.tsx:149), so a negative amount
  is stored as typed (`MemberList.AmountFromDecimal`). Contributions are
  therefore modelled as `int`.

## Model

| member | source | states |
|---|---|---|
| `JsStrings.TrimStart` | src/components/AddMemberDialog.tsx:21 | the result is a suffix of the input, does not start with whitespace, and everything dropped is whitespace |
| `JsStrings.TrimEnd` | src/components/AddMemberDialog.tsx:21 | the result is a prefix of the input, does not end with whitespace, and everything dropped is whitespace |
| `JsStrings.Trim` | src/components/AddMemberDialog.tsx:21 | `trim()` leaves no whitespace at either end and is empty exactly when the input is whitespace only |
| `JsStrings.TrimBounds` | src/components/AddMemberDialog.tsx:26-27 | gives the bounds `a`, `b` of the block `trim()` keeps: the result is `s[a..b]` and everything outside it is whitespace |
| `JsStrings.TrimIsSlice` | src/components/AddMemberDialog.tsx:26-27 | what `trim()` keeps is one contiguous block of the input, and what it removes on both sides is whitespace |
| `JsStrings.TrimIdempotent` | src/components/AddMemberDialog.tsx:26-27 | trimming an already trimmed value changes nothing |
| `JsStrings.LowerAscii` | src/components/MemberList.tsx:30 | one character of `toLowerCase()`: an upper-case ASCII letter becomes the letter 32 code points above it (its lower-case form), any other character is kept |
| `JsStrings.ToLowerAscii` | src/components/MemberList.tsx:30 | `toLowerCase()` keeps the length, turns every upper-case ASCII letter into its lower-case form (32 code points above), and leaves every other character in place |
| `JsStrings.ToLowerIdempotent` | src/components/MemberList.tsx:30 | lower-casing twice is lower-casing once |
| `JsStrings.Includes` | src/components/MemberList.tsx:30-31 | `s.includes(t)`: `t` is a prefix of `s` or of one of its suffixes, so it is never longer than `s` |
| `JsStrings.IncludesAt` | src/components/MemberList.tsx:30-31 | `s.includes(t)` holds exactly when `t` occurs in `s` at some position |
| `JsStrings.IncludesEmpty` | src/components/MemberList.tsx:30-31 | every string includes the empty term |
| `JsStrings.LeadingNumber` | src/components/MemberList.tsx:149 | the value of the leading run of digits in a radix: `NaN` exactly when there is no such digit, otherwise non-negative |
| `JsStrings.ParseInt` | src/components/MemberList.tsx:149 | `parseInt` skips leading whitespace and an optional sign; it is `NaN` exactly when no digit (decimal, or hexadecimal after `0x`) follows; a negative result needs a leading minus |
| `JsStrings.ParseIntDecimal` | src/components/MemberList.tsx:149 | `parseInt` reads back every integer written in decimal, with or without a minus sign |
| `MemberList.StatusColor` | src/components/MemberList.tsx:34-45 | `getStatusColor` falls back to grey exactly when the status is none of "paid", "pending", "overdue" |
| `MemberList.StatusColorsDistinct` | src/components/MemberList.tsx:34-45 | each of the three statuses gets its own badge colour and never the grey fallback |
| `MemberList.MatchesSearch` | src/components/MemberList.tsx:30-31 | the search predicate: every member matches the empty term, and a matching term is no longer than the name or the phone |
| `MemberList.FilteredMembers` | src/components/MemberList.tsx:29-32 | a member is in the filtered list iff it is in the store and its lower-cased name includes the lower-cased term or its phone includes the term as typed |
| `MemberList.FilteredIsSubsequence` | src/components/MemberList.tsx:29-32 | the filtered list is an order-preserving subsequence of the store |
| `MemberList.FilterEmptyTerm` | src/components/MemberList.tsx:29-32 | an empty search term shows the whole store unchanged |
| `MemberList.SearchIgnoresNameCase` | src/components/MemberList.tsx:30 | an example of the case-insensitive name search: "MARY" finds "Mary Wanjiku" |
| `MemberList.NameSearchCaseInsensitive` | src/components/MemberList.tsx:30 | for every member and term: if the term agrees letter by letter, up to ASCII case, with some stretch of the name, the member matches the search |
| `MemberList.PaymentUpdated` | src/components/MemberList.tsx:61-66 | the replacement record keeps id, name and phone, takes the new status and today's date, and takes the amount when one is given, else keeps the old contribution |
| `MemberList.UpdatePaymentStatus` | src/components/MemberList.tsx:58-69 | same length and order. A member with another id is unchanged. A member with the id keeps its id, name and phone, takes the new status and today's date, and takes the amount when one is given (else keeps its contribution) |
| `MemberList.UpdateUnknownId` | src/components/MemberList.tsx:59-68 | an id no member has leaves the store exactly as it was |
| `MemberList.UpdateIdempotent` | src/components/MemberList.tsx:58-69 | the same update applied twice on the same day equals applying it once |
| `MemberList.AmountFromInput` | src/components/MemberList.tsx:149 | `parseInt(value) \|\| 0`: input that parses to `NaN` records 0 |
| `MemberList.AmountFromDecimal` | src/components/MemberList.tsx:149 | any integer typed into the amount box, negative ones included, is recorded as typed |
| `MemberList.AmountFromEmpty` | src/components/MemberList.tsx:149 | an empty amount box records 0 |
| `MemberList.MarkAsPaid` | src/components/MemberList.tsx:147-150 | "Mark as Paid" keeps the length; the matched member becomes exactly its old record with status paid, the parsed amount as its contribution and today's date (id, name and phone kept); every other member is unchanged |
| `MemberList.MarkPending` | src/components/MemberList.tsx:160 | "Mark Pending" passes no amount. Every contribution stays as it was; the matched member becomes exactly its old record with status pending and today's date; the others are unchanged |
| `AddMemberDialog.Submission` | src/components/AddMemberDialog.tsx:21-28 | the submit is rejected iff the trimmed name or the trimmed phone is empty; otherwise it forwards exactly the trimmed pair |
| `AddMemberDialog.WhitespaceOnlyRejected` | src/components/AddMemberDialog.tsx:21-23 | a name or phone that is empty or all whitespace is always rejected |
| `AddMemberDialog.ForwardedIsClean` | src/components/AddMemberDialog.tsx:25-28 | the forwarded name and phone are non-empty, have no whitespace at either end, and are fixed points of `trim` |
| `AddMemberDialog.ForwardedIsTyped` | src/components/AddMemberDialog.tsx:25-28 | the forwarded name and phone are each a contiguous block of what was typed, with only whitespace cut off around it |
| `AddMemberDialog.AddMemberForm.constructor` | src/components/AddMemberDialog.tsx:15-16 | both fields start empty |
| `AddMemberDialog.AddMemberForm.SetName` | src/components/AddMemberDialog.tsx:48 | the name input's change handler sets `name` only |
| `AddMemberDialog.AddMemberForm.SetPhone` | src/components/AddMemberDialog.tsx:59 | the phone input's change handler sets `phone` only |
| `AddMemberDialog.AddMemberForm.HandleSubmit` | src/components/AddMemberDialog.tsx:18-34 | returns the value forwarded to `onAddMember` (`Submission` of the fields). On rejection the fields are unchanged; on success both are reset to "" |
| `Dashboard.Seed` | src/pages/Index.tsx:14-19 | the seed store has four members whose ids are 1..4 |
| `Dashboard.Reduce` | src/pages/Index.tsx:25 | the left fold `reduce` with a start value equals that value plus the plain sum of the contributions |
| `Dashboard.TotalContributions` | src/pages/Index.tsx:25 | `totalContributions` is the sum of every member's contribution (0 for an empty store) |
| `Dashboard.WithStatus` | src/pages/Index.tsx:27-29 | `filter(m => m.status === s)` is no longer than the store, keeps only members with status `s`, and is empty exactly when no member has status `s` |
| `Dashboard.PaidMembers` | src/pages/Index.tsx:27 | `paidMembers` is at most the store size, and 0 exactly when nobody is paid |
| `Dashboard.PendingMembers` | src/pages/Index.tsx:28 | `pendingMembers` is at most the store size, and 0 exactly when nobody is pending |
| `Dashboard.OverdueMembers` | src/pages/Index.tsx:29 | `overdueMembers` is at most the store size, and 0 exactly when nobody is overdue |
| `Dashboard.WithStatusMembers` | src/pages/Index.tsx:27-29 | `filter(m => m.status === s)` keeps exactly the members with status `s` |
| `Dashboard.StatusCountsPartition` | src/pages/Index.tsx:27-29 | paid + pending + overdue counts equal the number of members |
| `Dashboard.UnpaidMembers` | src/pages/Index.tsx:47 | the unpaid filter keeps exactly the members whose status is not paid |
| `Dashboard.ReminderCount` | src/pages/Index.tsx:46-52 | the number of members reminded equals pending plus overdue |
| `Dashboard.Remaining` | src/pages/Index.tsx:160 | the remaining amount plus the total is the goal, and it is negative exactly when the total exceeds the goal |
| `Dashboard.NewMember` | src/pages/Index.tsx:32-38 | the record `handleAddMember` builds has the given id, name, phone and today's date, contribution 0 and status pending |
| `Dashboard.AppendMember` | src/pages/Index.tsx:31-39 | one longer, old members unchanged and in order, new member last with id = old length + 1, the given name and phone, contribution 0, pending, dated today |
| `Dashboard.AddMemberAggregates` | src/pages/Index.tsx:25-39 | adding a member leaves the total, paid and overdue counts unchanged and adds exactly one to pending |
| `Dashboard.SequentialIdsUnique` | src/pages/Index.tsx:33 | ids that are exactly 1..n are pairwise distinct |
| `Dashboard.AddMemberKeepsSequentialIds` | src/pages/Index.tsx:33 | with ids 1..n, adding a member gives ids 1..n+1 |
| `Dashboard.UpdateKeepsSequentialIds` | src/components/MemberList.tsx:59-68 | status updates never change an id |
| `Dashboard.UpdateChangesTotal` | src/components/MemberList.tsx:64 | with a unique id, an update with amount `a` changes the total by `a` minus the member's old contribution |
| `Dashboard.UpdateMovesStatusCounts` | src/components/MemberList.tsx:63 | with a unique id, an update moves that member from its old status count to the new one and leaves the other counts alone |
| `Dashboard.MarkPendingKeepsTotal` | src/components/MemberList.tsx:160 | "Mark Pending" never changes the total |
| `Dashboard.SeedFigures` | src/pages/Index.tsx:14-29 | the seed store: total 13000, 2 paid, 1 pending, 1 overdue, 7000 remaining, 2 reminders |
| `Dashboard.MarkJohnPaidScenario` | src/components/MemberList.tsx:58-69 | marking member #2 paid with "3000" gives 3 paid, 0 pending, and a total still at 13000 |
| `Dashboard.AddJaneScenario` | src/pages/Index.tsx:31-39 | adding "Jane Doe" to the seed gives 5 members. The new one has id 5, is pending with 0, the total stays 13000 and 2 members are pending |
| `Dashboard.ChamaPage.constructor` | src/pages/Index.tsx:14-22 | the page starts with the seed store, the dialog closed and the goal 20000; ids are 1..n |
| `Dashboard.ChamaPage.HandleAddMember` | src/pages/Index.tsx:31-44 | the store becomes the old store with the new member appended; ids stay 1..n |
| `Dashboard.ChamaPage.HandleSendReminders` | src/pages/Index.tsx:46-52 | returns the number of reminded members, pending plus overdue, and changes nothing |
| `Dashboard.ChamaPage.MarkAsPaid` | src/components/MemberList.tsx:145-156 | the store becomes "Mark as Paid" applied to it; ids stay 1..n |
| `Dashboard.ChamaPage.MarkPending` | src/components/MemberList.tsx:157-163 | the store becomes "Mark Pending" applied to it; ids stay 1..n |
| `Dashboard.ChamaPage.OpenAddMember` | src/pages/Index.tsx:81 | the header button opens the dialog |
| `Dashboard.ChamaPage.CloseAddMember` | src/pages/Index.tsx:267 | the dialog's `onClose` closes it |
| `Dashboard.ChamaPage.SubmitAddMember` | src/components/AddMemberDialog.tsx:18-34 | a valid submit adds the trimmed pair once, clears the form and closes the dialog. An invalid one changes neither the store, the dialog flag nor the form |

## Left out

- Rendering, CSS classes, cards, buttons, avatars and the premium and quick-action markup are presentation only. So is the rule that the payment buttons are shown only for unpaid members (MemberList.tsx:136). The model lets the two button operations apply to any id, as `updatePaymentStatus` itself does.
- Toast notifications (Index.tsx:40-43, 48-51; MemberList.tsx:48-51) are fire-and-forget calls into a UI library. `handleSendReminders` is modelled by the count it reports.
- `window.open('tel:…')` (MemberList.tsx:55) is browser I/O. Reading the amount through `document.getElementById` (MemberList.tsx:148) is modelled as a string parameter, and clearing that input afterwards (MemberList.tsx:151) is left out.
- `new Date().toISOString().split('T')[0]` (Index.tsx:37; MemberList.tsx:65) reads the clock. It is the `today` parameter.
- `progressPercentage` (Index.tsx:26) and the `toFixed` / `toLocaleString` formatting are floating-point division and locale formatting.
- `src/components/ContributionSettings.tsx` is not part of this model. It holds form state only, and nothing in the store logic reads it.
- No code path moves a member to `overdue`, so the model has no such transition. Overdue appears only in the seed.
- `JsStrings.ToLowerAscii` folds ASCII letters only, not full Unicode `toLowerCase`.
- `JsStrings.ParseInt` reads integers exactly. JavaScript numbers lose precision beyond 2^53, and so do sums in `reduce`; the model's integers are unbounded.
- `handleAddMember` takes `memberData: any` and spreads it over the new record (Index.tsx:34). The model passes the only shape its caller sends, `{name, phone}`.
- The dialog's Cancel button and `onOpenChange` call the same `onClose`. They are covered by `Dashboard.ChamaPage.CloseAddMember`.
