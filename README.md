# Activity history and password update: a verified model

This project models two pages of a small finance web client.

- **The administrator's activity history** (`src/pages/AdminHistory.tsx`). The page fetches rows of
  `user_activity_logs`, each joined with the user's profile (`email`, `full_name`). It keeps
  them in its view state `logs` / `loading` and shows the rows that pass a category selector
  and a case-insensitive search box. Each row has an icon, a badge colour, a type label, an
  avatar letter and a display name.
- **The password-update form** (`src/pages/UpdatePassword.tsx`). The page picks a language for
  its messages, checks the two-field form rule (at least six characters, confirmation equal),
  and on submit calls the auth service. A loading flag is raised for the duration of the call.

Files:

- `wrappers.dfy`: `Option`, for columns and fields that may be `null`/`undefined`.
- `text.dfy`: the string built-ins the pages use: ASCII `toLowerCase`/`toUpperCase`, `includes`,
  and `replace` with a one-character pattern (first occurrence only).
- `sequences.dfy`: `Array.prototype.filter` as `Filter`, with its laws. The result is an
  order-preserving subsequence with exact multiplicities; filtering is idempotent and keeps
  any pairwise order of its input.
- `admin_history.dfy`: the entries, the filter predicate, the presentation mappings, and the
  class `HistoryView` with the fields `logs`, `loading`, `filter`, `search` and `errorLog`,
  whose `FetchLogs` method models `fetchLogs`.
- `update_password.dfy`: `ValidLanguage`, `Validate`, the effects of a settled submit, and
  the class `PasswordForm`. Its `Submit` method covers the path up to the awaited
  `updateUser` call; its `Settle` method covers the branch that follows and the `finally`
  block. Splitting the handler this way makes the in-flight state `isLoading == true`
  observable.

Behaviour the code has and the model keeps:

- **Empty search still needs text.** With the selector on `all` and an empty search box,
  a row whose `description`, `profiles.email` and `profiles.full_name` are all missing is
  hidden. Each `?.` yields `undefined`, which is falsy (`AllWithEmptySearch`,
  `TextlessRowHidden`). A present but empty column does match the empty search, because
  `"".includes("")` is true.
- **Missing profile.** Both `profiles` and `profiles.email` may be missing; the code
  guards both with `?.`.
- **Failed fetch.** A failed fetch leaves `logs` as it was. On the first mount that is the
  initial `[]`, so the page shows "no history" (`MountAndLoad`).
- **Independent form errors.** The confirmation check runs even when the length check
  fails, so both messages can show at once. Both form values are strings, so the object
  parse never aborts before the refinement.

## Model

| member | source | states |
|---|---|---|
| `AdminHistory.KeepIff` | src/pages/AdminHistory.tsx:60-67 | A row is kept iff (selector is `all` or equals its type) and some present text column contains the search text, both lower-cased |
| `AdminHistory.FilteredLogsSelects` | src/pages/AdminHistory.tsx:60 | The shown rows are an order-preserving subsequence of the fetched rows; a row is shown iff fetched and kept; a kept row appears exactly as often as fetched, a dropped one never |
| `AdminHistory.EmptySearchNeedsText` | src/pages/AdminHistory.tsx:62-65 | The empty search matches a row iff at least one of its three text columns is present |
| `AdminHistory.AllWithEmptySearch` | src/pages/AdminHistory.tsx:61-65 | With `all` and `""` the result is exactly the rows having some text column, and equals the input iff every row has one |
| `AdminHistory.TextlessRowHidden` | src/pages/AdminHistory.tsx:62-66 | A row with description, email and full name all missing is never shown, for any selector and search |
| `AdminHistory.CategorySelection` | src/pages/AdminHistory.tsx:61 | Selecting a row's own type keeps it iff `all` would; selecting another type (not `all`) hides it |
| `AdminHistory.SearchIgnoresCase` | src/pages/AdminHistory.tsx:63-65 | Search texts equal up to letter case give the same shown rows |
| `AdminHistory.RowCaseIrrelevant` | src/pages/AdminHistory.tsx:63-65 | Rows whose text columns differ only in letter case are kept or dropped alike |
| `AdminHistory.FilteredLogsIdempotent` | src/pages/AdminHistory.tsx:60-67 | Filtering the filtered rows again changes nothing |
| `AdminHistory.SearchExample` | src/pages/AdminHistory.tsx:63 | A description "Payment Approved" is found by the search "approved" |
| `AdminHistory.FilteredPageStaysRecentFirst` | src/pages/AdminHistory.tsx:22-23 | If the query's rows are newest first and at most 100 (an assumption about the service), so are the shown rows |
| `AdminHistory.ThreeRowScenario` | src/pages/AdminHistory.tsx:60-67 | Three described rows fetched newest first are all shown, in the same newest-first order, under `all` and `""` |
| `AdminHistory.Keep` | src/pages/AdminHistory.tsx:60-67 | A kept row always passes the category test and always has some text column |
| `AdminHistory.FilteredLogs` | src/pages/AdminHistory.tsx:60-67 | The shown rows are never more than the fetched rows, and a row is shown iff it was fetched and is kept |
| `AdminHistory.GetIcon` | src/pages/AdminHistory.tsx:34-45 | A type gets the generic activity icon iff it is not one of the three known types; the icon colour always equals the badge colour |
| `AdminHistory.IconCases` | src/pages/AdminHistory.tsx:34-45 | The three known types get three distinct icons, none of them the generic one |
| `AdminHistory.GetBadgeColor` | src/pages/AdminHistory.tsx:47-58 | A badge is grey iff the type is neither a registration nor an approved payment |
| `AdminHistory.BadgeCases` | src/pages/AdminHistory.tsx:47-58 | Registration is green, approved payment blue; every unknown type has the login badge |
| `AdminHistory.TypeLabel` | src/pages/AdminHistory.tsx:153 | The label is as long as the type and has no lower-case letter; it differs from the upper-cased type at most at one position, the first changed one, where an `_` became a space |
| `AdminHistory.TypeLabelWithoutUnderscore` | src/pages/AdminHistory.tsx:153 | A type without `_` is labelled by upper-casing it |
| `AdminHistory.TypeLabelFirstUnderscore` | src/pages/AdminHistory.tsx:153 | For `before + "_" + after` with no `_` in `before`, the label is `Upper(before) + " " + Upper(after)`; later underscores stay |
| `AdminHistory.AvatarInitial` | src/pages/AdminHistory.tsx:137 | With a non-empty full name the avatar is the first character of the displayed name; otherwise it is never a lower-case letter |
| `AdminHistory.DisplayName` | src/pages/AdminHistory.tsx:142 | The name line is never empty: it is the row's full name or "Unknown User" |
| `AdminHistory.AvatarFollowsName` | src/pages/AdminHistory.tsx:137-142 | A non-empty full name is displayed and its first character, not upper-cased, is the avatar; otherwise "Unknown User" is shown and the avatar is the upper-cased first character of a non-empty email, else '?' |
| `AdminHistory.RenderRow` | src/pages/AdminHistory.tsx:133-154 | A row's badge has its icon's colour, its name line is never empty and its type label has no lower-case letter |
| `AdminHistory.RenderBody` | src/pages/AdminHistory.tsx:118-131 | Loading shows the loading message; otherwise "no history" iff nothing passes the filter; otherwise one rendered row per shown entry, in order |
| `AdminHistory.StoredRows` | src/pages/AdminHistory.tsx:25-26 | Rows are stored iff the query answered without error; `data` when present, `[]` when null |
| `AdminHistory.FailureMessage` | src/pages/AdminHistory.tsx:27-28 | A message is logged exactly when no rows are stored |
| `AdminHistory.HistoryView.constructor` | src/pages/AdminHistory.tsx:8-11 | The page starts with no rows, loading, selector `all`, empty search |
| `AdminHistory.HistoryView.FetchLogs` | src/pages/AdminHistory.tsx:17-32 | `loading` is false on every path; rows replaced only on success, unchanged on failure; a failure's message is logged; selector and search untouched |
| `AdminHistory.HistoryView.SetSearch` | src/pages/AdminHistory.tsx:85 | The search box's change sets `search` and nothing else |
| `AdminHistory.HistoryView.SetFilter` | src/pages/AdminHistory.tsx:93 | The selector's change sets `filter` and nothing else |
| `AdminHistory.HistoryView.Shown` | src/pages/AdminHistory.tsx:60-67 | The listed rows are never more than the stored rows, and a row is listed iff it is stored and passes the current selector and search |
| `AdminHistory.HistoryView.Body` | src/pages/AdminHistory.tsx:118-131 | The loading message shows iff loading; "no history" shows iff not loading and no row passes |
| `AdminHistory.MountAndLoad` | src/pages/AdminHistory.tsx:13-32 | After the mount fetch settles, loading is false and the shown rows are the filtered fetched rows; after a failure nothing is shown |
| `Text.Contains` | src/pages/AdminHistory.tsx:63-65 | `includes` holds iff the needle occurs at some position of the haystack |
| `Text.ContainsEmpty` | src/pages/AdminHistory.tsx:63-65 | Every string includes the empty string |
| `Text.LowerIdempotent` | src/pages/AdminHistory.tsx:63-65 | Lower-casing twice equals lower-casing once |
| `Text.Lower` | src/pages/AdminHistory.tsx:63-65 | Lower-casing keeps the length, leaves no upper-case letter and keeps each letter up to case |
| `Text.Upper` | src/pages/AdminHistory.tsx:153 | Upper-casing keeps the length, leaves no lower-case letter and keeps each letter up to case |
| `Text.ReplaceFirst` | src/pages/AdminHistory.tsx:153 | `replace` keeps the length, changes only pattern characters into the replacement, and changes at most one position, with everything after it kept |
| `Text.ReplaceFirstSplit` | src/pages/AdminHistory.tsx:153 | `replace` changes only the first occurrence of the pattern |
| `Text.ReplaceFirstAbsent` | src/pages/AdminHistory.tsx:153 | `replace` without an occurrence returns the string unchanged |
| `Sequences.Filter` | src/pages/AdminHistory.tsx:60 | `filter` never lengthens, and its result holds exactly the input elements that pass |
| `UpdatePassword.ValidLanguage` | src/pages/UpdatePassword.tsx:18 | The language is kept iff it is non-empty and has a bundle (or is "en"); otherwise "en" |
| `UpdatePassword.ValidLanguageHasBundle` | src/pages/UpdatePassword.tsx:18-19 | When an "en" bundle exists, the chosen language always has a bundle |
| `UpdatePassword.ValidateRule` | src/pages/UpdatePassword.tsx:21-27 | The length message is on `password` iff it is shorter than 6; the mismatch message is on `confirmPassword` iff the two differ; accepted iff length ≥ 6 and equal |
| `UpdatePassword.Validate` | src/pages/UpdatePassword.tsx:21-27 | The password field can only carry the length message and the confirmation field only the mismatch message |
| `UpdatePassword.SettleEffects` | src/pages/UpdatePassword.tsx:46-54 | Navigation to `/auth` iff the update succeeded, always right after sign-out; an error toast with exactly the error's message iff it failed, and nothing else then |
| `UpdatePassword.PasswordForm.constructor` | src/pages/UpdatePassword.tsx:14 | The form starts not loading, without messages or effects |
| `UpdatePassword.PasswordForm.SubmitDisabled` | src/pages/UpdatePassword.tsx:105 | The submit button is disabled exactly while `isLoading` is true |
| `UpdatePassword.PasswordForm.Submit` | src/pages/UpdatePassword.tsx:39-44 | Ignored while the button is disabled; otherwise shows the rule's messages and, only for an accepted form, sets `isLoading` and calls `updateUser` with the password |
| `UpdatePassword.PasswordForm.Settle` | src/pages/UpdatePassword.tsx:46-57 | Clears `isLoading` on both paths and performs exactly the settle effects |
| `UpdatePassword.SubmitOnce` | src/pages/UpdatePassword.tsx:39-72 | One press: navigation iff length ≥ 6, equal confirmation and a successful update; never left loading; the shown messages are the rule's |

## Left out

- The query itself: the join, the `created_at` descending order and the 100-row limit are
  applied by the hosted service. The fetched rows (or the failure) are an input. Order and
  cap appear only as the assumption `IsRecentPage`.
- Date formatting of `created_at` depends on time zone and locale; the `metadata` column is
  only rendered as JSON. Neither is modelled.
- JSX, CSS class strings and icon components: icons and badges are modelled as enum values.
- Case mapping covers ASCII letters only; JavaScript's full Unicode `toLowerCase`/`toUpperCase`
  is not modelled. String length is sequence length, not UTF-16 code units.
- `translations` is modelled as its set of own keys. Keys inherited from `Object.prototype`
  (such as `"toString"`) are not modelled.
- `updateUser`, `signOut`, `toast` and `navigate` are foreign calls, modelled as entries of the
  `effects` trace. The update's outcome is an input. `signOut` is taken to return, since its
  result is ignored.
- The zod and react-hook-form internals are not modelled, nor is re-validation on every
  change after the first submit. Only the schema's rule is.
- `console.error` is modelled as appending the failure's message to `errorLog`. The fixed
  prefix of the console line is not modelled.
- `useEffect` scheduling and the in-flight fetch without cancellation are not modelled; the
  fetch is modelled as settling once.
- `server/index.js` is not part of this model: it only serves two constant JSON routes.
