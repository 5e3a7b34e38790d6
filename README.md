# WorkoutForYou — a verified model of the client-side decision logic

WorkoutForYou is a React client over a hosted Supabase backend. Users register, record the
exercises they complete each day and the weights they lift, keep a profile with an avatar,
and an administrator maintains groups of exercises with up to five illustration images
each. Almost everything the client does is a remote call or rendering. This project models
the decisions the event handlers make between those calls, and proves what they guarantee.

Each backend table becomes a sequence of records held as a field of the component that
writes it. The image and avatar buckets become the set of stored keys. Every remote call
becomes a parameter saying how it went: an `Option` reply (None for an error), an error
message, a success flag or a fresh id. JavaScript semantics the handlers rely on are
written out: truthiness (`0`, `""`, `null`), `||` defaults, `find` picking the first
match, the stable `Array.prototype.sort`, the key order of integer-keyed objects, and
`split`, `pop`, `trim` and `replace` (first occurrence, with its `$` patterns).

Modules, one per source file or shared concept:

- `Js` (`js.dfy`): the JavaScript built-ins above, with lemmas relating them.
- `JsObject` (`js_object.dfy`): objects with integer keys, as association lists in ascending key order.
- `StableSort` (`stable_sort.dfy`): `sort` with a numeric comparator, proved stable.
- `ExerciseOrder` (`exercise_order.dfy`): the adjacent-swap reordering both exercise builders share.
- `AdminTs` (`admin_ts.dfy`): the exercise builder of `src/Admin.tsx`. It covers the image batch checks, the upload loop, removal by index, persisting the image list, the image-search link, and saving exercises and groups.
- `AdminJs` (`admin_js.dfy`): the older builder of `src/Admin.jsx`. It covers the group fallback, the form reset and the cascading group delete.
- `DashboardTs` (`dashboard_ts.dfy`): the dashboard of `src/Dashboard.tsx`. It covers loading groups, the workout dialog and its weights, saving a workout, the last-weights pipeline and the tab counters.
- `DashboardJs` (`dashboard_js.dfy`): the first dashboard, `src/Dashboard.jsx`, with its completion list.
- `Profile` (`profile.dfy`): the profile page of `src/UserAdmin.tsx` and `src/UserAdmin.jsx`. Both versions run the same logic. The rows of the handlers and of the functions they are built from also cite `src/UserAdmin.jsx`; the rows of the lemmas cite `src/UserAdmin.tsx` only.
- `Sidebar` (`sidebar.dfy`): display name, initial and the menu of `src/Sidebar.tsx` and `src/Sidebar.jsx`.
- `SignUp` (`sign_up.dfy`): the registration form of `src/SignUpForm.tsx` and `src/SignUpForm.jsx`.
- `App` (`app.dfy`): `src/App.tsx`. It covers the password-reset form, the admin check, recovery-link detection, screen routing and the profile load.
- `Oversikt` (`oversikt.dfy`): the overview page `src/Oversikt.jsx`. It covers the greeting, the first name, the start of the week, the weekly chart and its scale.

Handlers that change component state step by step are methods of a class (`ExerciseAdmin`,
`Dashboard`, `TodayList`, `ProfilePage`, `Menu`, `SignUpPage`, `PasswordResetForm`,
`AppState`, `Overview`). Each is proved against a specification function, and the lemmas
beside that function state what the source promises. Loops of the source are `while`
loops with invariants: the image checks and uploads, the weight prefills, the last-weights
`forEach` passes and the weekly chart.

## Model

| member | source | states |
|---|---|---|
| ExerciseOrder.FindOrder | src/Admin.tsx:562 | `find` by order: the index found holds the order, and no earlier row does; None iff no row holds it |
| ExerciseOrder.MaxOrder | src/Admin.tsx:583 | `Math.max` over the orders: None for an empty list (-Infinity), otherwise an order of the list that bounds every order |
| ExerciseOrder.SetOrder | src/Admin.tsx:566-569 | `update({order}).eq("id", id)`: every row with that id gets the order; every other row and every other field is unchanged |
| ExerciseOrder.MoveUpNoOp | src/Admin.tsx:560-563 | moving up leaves the table unchanged when the current order is at most 1 or no listed row holds the order above |
| ExerciseOrder.MoveUpSwaps | src/Admin.tsx:566-574 | otherwise the moved row gets order-1 and the first row found with order-1 gets order; no other row changes and the multiset of orders is preserved |
| ExerciseOrder.MoveDownNoOp | src/Admin.tsx:582-587 | moving down leaves the table unchanged for an empty list, at or above the maximum order, or without a row holding the order below |
| ExerciseOrder.MoveDownSwaps | src/Admin.tsx:589-598 | otherwise the mirror-image swap: exactly the two order values are exchanged, multiset preserved |
| ExerciseOrder.MoveDownGuardRedundant | src/Admin.jsx:285-289 | the maximum-order guard never decides: whenever a row with order+1 exists, the current order is below the maximum |
| ExerciseOrder.SwapWithSwaps | src/Admin.jsx:266-276 | when the fetched list agrees with the table, the two sequential writes swap exactly the two order values and touch nothing else |
| AdminTs.CheckImageBatch | src/Admin.tsx:376-396 | the checks in the handler's order: empty batch, more than 5 images in total, first non-image MIME type, first file above 5 MiB; Accepted iff every check passes |
| AdminTs.UploadBatch | src/Admin.tsx:403-431 | files are stored one by one under `exercise-<stamp>.<ext>`; the first failed upload stops the loop with the prefixed message, and the files stored before it stay stored |
| AdminTs.ExerciseAdmin.ImageUpload | src/Admin.tsx:374-441 | a rejected batch changes neither the image list nor the bucket and alerts: too many images with the current count, "Kun bildefiler er tillatt" when the first rejected file is not an image, "Bildet er for stort" when it is an image over 5 MiB; a fully uploaded batch appends its URLs after the old ones and keeps at most 5; a failed upload leaves the list unchanged |
| AdminTs.ExerciseAdmin.UploadAndAppend | src/Admin.tsx:400-440 | the try block: on success the list gains exactly the uploaded URLs and the bucket exactly their keys; on failure the list is unchanged and the bucket only grows |
| AdminTs.RemoveAt | src/Admin.tsx:444 | the filter by index deletes exactly element `index` and keeps the others in order; an index out of range changes nothing |
| AdminTs.ExerciseAdmin.RemoveImage | src/Admin.tsx:443-446 | the image list becomes the list without entry `index`, one shorter when the index is in range |
| AdminTs.StorageKeyOfPublicUrl | src/Admin.tsx:279-282 | the storage key (last '/'-segment without the '?' query) of a key's public URL is that key, with or without a query |
| AdminTs.UploadKeyPlain | src/Admin.tsx:404-407 | a stored name built from plain parts contains neither '/' nor '?' |
| AdminTs.UploadUrlsRoundTrip | src/Admin.tsx:407-430 | the key of every uploaded file is read back from the URL the upload appends |
| AdminTs.UploadedUrlsBacked | src/Admin.tsx:410-433 | after a successful upload, the key of every appended URL is in the bucket |
| AdminTs.RowsOfMembers | src/Admin.tsx:273-276 | `eq("exercise_id", id)` keeps exactly the rows of that exercise |
| AdminTs.OtherRowsMembers | src/Admin.tsx:286-289 | the delete by exercise id keeps exactly the rows of the other exercises |
| AdminTs.KeptImageLosesFile | src/Admin.tsx:272-302 | as written, saving an edit removes the file of an image the list still holds and re-inserts its row, so that row points at a missing file |
| AdminTs.RemovedImagesStay | src/Admin.tsx:247-248 | as written, removing every image and saving keeps the old rows, because an empty list skips the image step |
| AdminTs.SyncImagesRowsAreList | src/Admin.tsx:294-298 | after an edit is saved, the rows of the exercise are exactly the image list, each with its index as order; other exercises' rows are untouched |
| AdminTs.SyncImagesKeepsRowsBacked | src/Admin.tsx:270-305 | saving keeps every image row of the exercise backed by a stored file, given backed rows and listed images that are stored |
| AdminTs.FillMarks | src/Admin.tsx:467-469 | two first-occurrence replacements fill the title and description markers of a template with the texts themselves when neither holds a '$' |
| AdminTs.MatchedTitleKeepsMark | src/Admin.tsx:466-468 | a title `$&` is expanded by `replace` to the matched marker, so the prompt keeps "[TITTEL]" |
| Js.SubstitutionPlain | src/Admin.tsx:467-469 | a replacement text without '$' is inserted as it stands |
| Js.SubstitutionPatterns | src/Admin.tsx:467-469 | `$&` inserts the matched text, `$$` one '$', and the two quote patterns the text before and after the match |
| Js.ReplaceByMatchedIsIdentity | src/Admin.tsx:467-469 | replacing the first occurrence of a pattern by `$&` gives the string back |
| AdminTs.PromptTemplateStyle | src/Admin.tsx:453-466 | the template of a service is the fixed prompt with that service's sentence, or the generic one for an unknown name |
| AdminTs.ImageSearchUrlSpec | src/Admin.tsx:466-473 | the link is the fixed image-search address followed by the encoded prompt of the service, with the title and description filled in, for texts without '$' and a title without '[' |
| AdminTs.UnknownServiceIsGeneric | src/Admin.tsx:466 | a name without a template, other than those inherited from `Object.prototype`, gives the same link as "generic"; the select offers only the five template names (src/Admin.tsx:999-1006) |
| AdminTs.SaveGroupId | src/Admin.tsx:193-195 | the group falls back to the selected group only when the form's group is falsy; the result is truthy iff one of them is |
| AdminTs.NormalizedRow | src/Admin.tsx:207-215 | the written row keeps title, description, order, active and group; falsy sets become 1, falsy reps become null, an empty unit becomes "kropp" |
| AdminTs.ExerciseAdmin.Save | src/Admin.tsx:191-305 | no group: alert and no change; a failed write alerts and keeps the mutated group; otherwise update for a truthy editing id, else insert; for a truthy id and a non-empty image list the image step as written (`SaveStepAsWritten`); a failed image insert alerts after the old files and rows are already gone; otherwise the form resets to order length+1 in the selected group |
| AdminTs.ExerciseAdmin.SaveCorrected | src/Admin.tsx:247-248 | the same handler with the intended image step `SyncImages`, run for every saved id (an empty list included) and applied whole or not at all |
| AdminTs.ExerciseAdmin.Cancel | src/Admin.tsx:357-372 | the form resets to order length+1 in the selected group, the image list is cleared, editing ends, the service returns to "midjourney" |
| AdminTs.ExerciseAdmin.SaveGroup | src/Admin.tsx:135-189 | a truthy editing id updates that group; anything else (an id of 0 too) inserts it and selects it; the form resets to the old count+1; an error alerts and changes nothing |
| AdminTs.ExerciseAdmin.MoveUp | src/Admin.tsx:559-580 | the table after the handler is the move-up end state of the fetched list |
| AdminTs.ExerciseAdmin.MoveDown | src/Admin.tsx:582-604 | the table after the handler is the move-down end state of the fetched list |
| AdminJs.ExerciseAdmin.MoveUp | src/Admin.jsx:260-282 | the table after the handler is the move-up end state of the fetched list |
| AdminJs.ExerciseAdmin.MoveDown | src/Admin.jsx:284-308 | the table after the handler is the move-down end state of the fetched list |
| AdminJs.ExerciseAdmin.Save | src/Admin.jsx:113-164 | the form's group falls back to the selected one; without a group there is an alert and no write; a truthy editing id updates the five columns, else inserts; on success the form resets to order length+1 |
| AdminJs.ExerciseAdmin.Cancel | src/Admin.jsx:189-193 | the form resets to order length+1 in the selected group and editing ends |
| AdminJs.ExerciseAdmin.SaveGroup | src/Admin.jsx:74-111 | a truthy editing id updates the group, else inserts it; the selection is left alone; the form resets to the group count+1 |
| AdminJs.ExerciseAdmin.DeleteGroup | src/Admin.jsx:201-226 | without confirmation nothing changes; otherwise the group's exercises go first, then the group; the selection clears only when it was the deleted group |
| AdminJs.WithoutGroupExercisesSpec | src/Admin.jsx:206-209 | the cascade removes exactly the exercises of the group and keeps the others in order |
| AdminJs.WithoutGroupSpec | src/Admin.jsx:212-215 | deleting a group removes exactly the rows with its id |
| StableSort.SortByStable | src/Dashboard.tsx:161 | the sort keeps elements with equal keys in their original order |
| StableSort.SortBySortedIsIdentity | src/Dashboard.tsx:164-167 | a list already in key order is left as it is |
| DashboardTs.WithSortedImages | src/Dashboard.tsx:162-167 | an exercise keeps its fields, and its images are sorted by order, a missing order counting as 0 |
| DashboardTs.PreparedExercisesSorted | src/Dashboard.tsx:157-169 | a loaded group's exercises are active and sorted by order (missing as 0), each with its images sorted |
| DashboardTs.PreparedExercisesSound | src/Dashboard.tsx:159-168 | every exercise of a loaded group is a fetched active exercise with its images sorted |
| DashboardTs.PreparedExercisesComplete | src/Dashboard.tsx:159-160 | no active exercise of a fetched group is lost |
| DashboardTs.PreparedExercisesStable | src/Dashboard.tsx:161 | exercises with the same order keep their fetched order |
| DashboardTs.LoadedGroupsSpec | src/Dashboard.tsx:153-216 | a failed query leaves no groups; fetched groups keep their fields and order; with no groups, a non-empty fallback becomes the one group 0 "Alle øvelser" with every fallback exercise in fetched order |
| DashboardTs.Dashboard.Load | src/Dashboard.tsx:134-217 | the groups become the loaded ones, and the first group (or group 0) is selected when nothing was selected |
| DashboardTs.Dashboard.LoadToday | src/Dashboard.tsx:219-238 | `completed` becomes today's exercise ids; a failed query changes nothing |
| DashboardTs.NumSets | src/Dashboard.tsx:259 | `sets \|\| 1`: never 0, and equal to the sets when they are set |
| DashboardTs.InitialWeights | src/Dashboard.tsx:257-263 | the weights have exactly the keys 1..sets in order, and key k holds the (k-1)-th earlier weight or "" |
| DashboardTs.CopiedWeights | src/Dashboard.tsx:475-478 | key index+1 holds the index-th earlier weight, for every earlier set |
| DashboardTs.Dashboard.Toggle | src/Dashboard.tsx:240-264 | an exercise already done only alerts and changes nothing; otherwise the dialog opens with the earlier sets (kg exercises only) and the prefilled weights |
| DashboardTs.Dashboard.SetWeight | src/Dashboard.tsx:710-714 | the weight of one set is replaced or added, the others keep their values |
| DashboardTs.Dashboard.CopyLastWeights | src/Dashboard.tsx:467-480 | no dialog or no earlier sets: nothing changes; otherwise the weights become the copied ones |
| DashboardTs.Dashboard.CloseModal | src/Dashboard.tsx:462-465 | the dialog closes and the weights are cleared |
| DashboardTs.NonEmptyEntriesAscending | src/Dashboard.tsx:422-423 | the saved entries stay in set order |
| DashboardTs.NonEmptyEntriesGet | src/Dashboard.tsx:423 | the saved entries are exactly the dialog's entries whose weight is not empty |
| DashboardTs.SetRows | src/Dashboard.tsx:424-428 | one set row per saved entry, for the new workout, with its set number and weight |
| DashboardTs.SavedSets | src/Dashboard.tsx:445-450 | the sets recorded as last weights are the saved entries, in order |
| DashboardTs.Dashboard.SaveWorkout | src/Dashboard.tsx:397-460 | a workout is inserted, then set rows for the non-empty weights; any error alerts and keeps the dialog; on success the exercise is appended to `completed`, the dialog closes and the saved sets become its last weights |
| DashboardTs.KgIdsSpec | src/Dashboard.tsx:313-322 | exactly the active exercises measured in kg, from every group, are looked up |
| DashboardTs.KgExerciseIds | src/Dashboard.tsx:313-322 | the nested loop collects the ids of the active kg exercises, group by group |
| DashboardTs.LatestOfSpec | src/Dashboard.tsx:342-347 | an exercise has an entry iff some workout is about it, and the entry is its first non-zero workout id |
| DashboardTs.FirstNonZeroIsFirst | src/Dashboard.tsx:343-346 | with non-zero ids, the first (newest) workout of each exercise is kept and later ones are ignored |
| DashboardTs.ZeroIdIsReplaced | src/Dashboard.tsx:344 | a stored workout id of 0 counts as absent, so an older workout replaces it |
| DashboardTs.LatestWorkoutPerExercise | src/Dashboard.tsx:342-347 | the loop builds the map of first workouts per exercise, in ascending key order |
| DashboardTs.LatestOfNonEmpty | src/Dashboard.tsx:350-353 | the early return on an empty id list never happens once a workout was fetched |
| DashboardTs.InverseOfSpec | src/Dashboard.tsx:370-375 | every chosen workout maps back to an exercise that chose it; when two chose the same one, the larger exercise id wins |
| DashboardTs.WorkoutToExercise | src/Dashboard.tsx:371-375 | the loop over the entries builds the workout-to-exercise map |
| DashboardTs.AttributedSpec | src/Dashboard.tsx:377-388 | each exercise with a set gets its sets in reply order; exercise 0 and unknown workouts get none |
| DashboardTs.ChosenWorkoutSets | src/Dashboard.tsx:370-388 | when no two exercises chose the same workout, an exercise's sets are exactly those of its chosen workout, in reply order |
| DashboardTs.AttributeSets | src/Dashboard.tsx:377-388 | the loop over the sets builds the attributed sets |
| DashboardTs.Dashboard.LoadLastWeights | src/Dashboard.tsx:307-395 | with kg exercises, fetched workouts and fetched sets, the last weights become the sets attributed per exercise; any early return or error leaves them unchanged |
| DashboardTs.CompletedInGroup | src/Dashboard.tsx:514-516 | a tab's counter is the number of its exercises that are in `completed`, at most their number |
| DashboardTs.AllCompletedSpec | src/Dashboard.tsx:517-519 | a tab is complete iff it has exercises and every one of them is in `completed` |
| DashboardJs.ToggledNoDuplicates | src/Dashboard.jsx:47-75 | toggling never removes an id and never adds one twice; the id is present afterwards iff it was before or the insert succeeded |
| DashboardJs.ProgressAtMostFive | src/Dashboard.jsx:9-15 | with ids of the fixed list and no duplicates, the progress count is at most five; toggling keeps that premise, loading today's list does not |
| DashboardJs.CardOf | src/Dashboard.jsx:104-117 | a card is done, and its button disabled, iff its id is in `completed` |
| DashboardJs.TodayList.LoadToday | src/Dashboard.jsx:21-43 | `completed` becomes today's exercise ids; a failed query changes nothing |
| DashboardJs.TodayList.Toggle | src/Dashboard.jsx:45-80 | an exercise already done only alerts; otherwise the id is appended unless the insert fails, which alerts with the prefix |
| Profile.FetchedProfileSpec | src/UserAdmin.tsx:40-72 | no profile iff an error other than "no rows"; with a row, the names or "" and the avatar from avatar_url, else avatar_URL, else ""; without one, the metadata fields or "" (also src/UserAdmin.jsx:16-51) |
| Profile.Upserted | src/UserAdmin.tsx:209-256 | the written row holds the names and the URL in the chosen avatar column, the other column as it was (also src/UserAdmin.jsx:190-238) |
| Profile.SavedProfileReloads | src/UserAdmin.tsx:74-115 | a saved profile is loaded back unchanged, unless its avatar was cleared while an avatar_URL value remains |
| Profile.ClearedAvatarResurfaces | src/UserAdmin.tsx:52-59 | a concrete row where clearing avatar_url brings back the old avatar_URL on the next load |
| Profile.ValidateAvatar | src/UserAdmin.tsx:121-129 | a file passes iff it is an image of at most 5 MiB; the type is checked before the size (also src/UserAdmin.jsx:103-112) |
| Profile.AvatarFileNameSpec | src/UserAdmin.tsx:135-137 | the name is `<userId>-<stamp>.<ext>`, with ext the text after the last '.', or the whole name without a '.' (also src/UserAdmin.jsx:118-119) |
| Profile.AvatarFileNamePlain | src/UserAdmin.tsx:135-137 | a name built from plain parts has no '/' or '?', and contains '.' |
| Profile.AfterOldRemoved | src/UserAdmin.tsx:139-176 | removing the old avatar only ever removes files (also src/UserAdmin.jsx:123-157) |
| Profile.AfterOldRemovedSpec | src/UserAdmin.tsx:141-167 | removal takes away at most the old key and its "avatars/" variant, and nothing when the key has no '.' |
| Profile.PreviousAvatarDeleted | src/UserAdmin.tsx:135-176 | the file an upload stored is exactly what the next upload's removal deletes when that removal succeeds, whatever query its URL carries |
| Profile.UploadMessage | src/UserAdmin.tsx:179-285 | the message after an upload is shown as an error iff the upload failed |
| Profile.NotShownWithoutF | src/UserAdmin.tsx:389 | a message without 'F' is never styled as an error |
| Profile.ShownWithF | src/UserAdmin.tsx:389 | a message starting with "Feil" is styled as an error |
| Profile.RejectionsNotShownAsErrors | src/UserAdmin.tsx:121-129 | the two rejection messages are not styled as errors |
| Profile.RemovalNotShownAsError | src/UserAdmin.tsx:352-355 | the removal messages are not styled as errors |
| Profile.SaveMessagesClassified | src/UserAdmin.tsx:104-111 | the save confirmation is not styled as an error and a save failure is |
| Profile.UserInitial | src/UserAdmin.tsx:361-368 | one character: the first name's first, else the last name's, else the upper-cased first of the e-mail, else "?" |
| Profile.ProfilePage.Load | src/UserAdmin.tsx:40-72 | the profile becomes the fetched one; a failed fetch keeps the old one (also src/UserAdmin.jsx:16-51) |
| Profile.ProfilePage.Save | src/UserAdmin.tsx:74-115 | the row is written and the metadata updated; each outcome sets its message (also src/UserAdmin.jsx:53-96) |
| Profile.ProfilePage.Upload | src/UserAdmin.tsx:117-285 | no file: nothing; a rejected file: only the message; otherwise the old file is removed first, and a successful upload sets the avatar to the new public URL and writes the row (also src/UserAdmin.jsx:98-267) |
| Profile.ProfilePage.RemoveAvatar | src/UserAdmin.tsx:287-359 | an empty avatar changes nothing; otherwise the avatar always ends as "", whatever the backend replies (also src/UserAdmin.jsx:269-346) |
| Sidebar.EmailLocalPart | src/Sidebar.tsx:50 | the e-mail's text before the first '@': a prefix without '@', absent without an e-mail |
| Sidebar.DisplayNameSpec | src/Sidebar.tsx:43-51 | both names: "first last"; one name: that name trimmed; none: the e-mail's local part, or "User" when it is empty or absent |
| Sidebar.LegacyDisplayNameAgrees | src/Sidebar.jsx:63-67 | the older sidebar shows the same name whenever it shows one, and differs only where the newer one falls back to "User" |
| Sidebar.Initial | src/Sidebar.tsx:53-60 | one character: the first name's first, else the last name's, else the upper-cased first of the e-mail, else "?" (also src/Sidebar.jsx:58) |
| Sidebar.Menu.Toggle | src/Sidebar.tsx:68 | the menu flips between open and closed (also src/Sidebar.jsx:24) |
| Sidebar.Menu.OverlayClick | src/Sidebar.tsx:83 | a click on the overlay closes the menu (also src/Sidebar.jsx:41) |
| Sidebar.Menu.Navigate | src/Sidebar.tsx:38-41 | the view is handed on and the menu always closes (also src/Sidebar.jsx:13-16) |
| SignUp.PasswordProblem | src/SignUpForm.tsx:40-48 | the passwords pass iff they are equal and at least 6 long; a mismatch is reported before the length (also src/SignUpForm.jsx:21-29) |
| SignUp.Validate | src/SignUpForm.tsx:40-53 | a form passes iff the passwords pass and neither name is blank once trimmed; the password checks come first (also src/SignUpForm.jsx:21-34) |
| SignUp.BlankNameRefused | src/SignUpForm.tsx:50-53 | once the passwords pass, a form is refused for its names iff one name is empty or white space only |
| SignUp.SignUpPage.Submit | src/SignUpForm.tsx:35-87 | a refused form sets only the message, with no call and no loading; otherwise one sign-up with trimmed names; an error gets the prefix and ends loading (also src/SignUpForm.jsx:16-66) |
| App.PasswordResetForm.Submit | src/App.tsx:36-65 | a mismatch, then a short password, is refused without an update; otherwise one update, and its outcome sets the message |
| App.IsAdminIgnoresCase | src/App.tsx:130-138 | the check ignores the case of the e-mail, and with the empty allow-list nobody is an admin |
| App.GetParam | src/App.tsx:142-145 | a parameter's value is that of its first occurrence; absent iff no pair has the name |
| App.HashParamsOfEncode | src/App.tsx:143 | parameters encoded as `name=value&...` after the leading '#' are read back exactly |
| App.RecoveryLinkOfPairs | src/App.tsx:142-148 | a hash is a recovery link iff its type is "recovery" and its access token is non-empty |
| App.RecoveryLinkRecognised | src/App.tsx:142-148 | a hash with a non-empty token and type "recovery" opens the reset screen |
| App.NotRecoveryLinks | src/App.tsx:142-148 | an empty token, or another type, does not |
| App.SameProfileAsPage | src/App.tsx:181-257 | the app loads the same names and avatar as the profile page, with the avatar_url, avatar_URL, "" fallback. On other errors the profile page keeps its profile, while the app falls back to the metadata when `getUser` returns a user |
| App.ScreenOf | src/App.tsx:260-387 | the reset screen first; without a session the sign-up form iff requested, else the login form; then Admin for "admin", the profile page for "profile", the dashboard otherwise |
| App.AppState.CheckHash | src/App.tsx:142-148 | the reset screen opens when the hash is a recovery link and stays open otherwise |
| App.AppState.AuthStateChange | src/App.tsx:165-170 | a PASSWORD_RECOVERY event opens the reset screen; the session becomes the new one |
| App.AppState.OpenSignUp | src/App.tsx:346 | the sign-up form is requested |
| App.AppState.CloseSignUp | src/App.tsx:313-314 | the sign-up form is dismissed |
| App.AppState.Navigate | src/App.tsx:364 | the current view becomes the chosen one |
| App.AppState.SignOut | src/App.tsx:365 | the session is cleared |
| App.AppState.LoadUserProfile | src/App.tsx:181-257 | the profile becomes the fetched one. On any error the profile falls back to the metadata when `getUser` returns a user, and stays only without one. On "no rows" with a user, a row from the metadata is also inserted when that insert succeeds |
| App.AppState.SidebarNames | src/App.tsx:360-365 | the sidebar gets the profile's names, or none without a profile |
| Oversikt.Greeting | src/Oversikt.jsx:21-26 | "God morgen" iff the hour is before 12, "God dag" iff 12 to 17, "God kveld" iff 18 or later |
| Oversikt.FirstName | src/Oversikt.jsx:28-36 | the first space-separated word of the profile's full name, else of the metadata's, else "" |
| Oversikt.StartOfWeek | src/Oversikt.jsx:38-45 | the week starts on a Monday within the last seven days |
| Oversikt.StartOfWeekIsLastMonday | src/Oversikt.jsx:40-42 | no later day up to today is a Monday, so it is the latest Monday |
| Oversikt.StatOrZero | src/Oversikt.jsx:82-86 | a missing count shows as 0, a present one as itself |
| Oversikt.Overview.LoadStats | src/Oversikt.jsx:57-90 | the three counts become the fetched ones, 0 when missing, so a query that reports an error gives 0; only a rejected call keeps them |
| Oversikt.WeeklyActivity | src/Oversikt.jsx:109-129 | the two loops build exactly the chart: seven buckets for the last seven days, each counting that day's workouts |
| Oversikt.ChartDays | src/Oversikt.jsx:113-119 | bucket k is the day today-6+k, and the last bucket is today with today's weekday name |
| Oversikt.ChartTotal | src/Oversikt.jsx:122-129 | the counts add up to the workouts within the seven days, so never more than were fetched |
| Oversikt.Overview.LoadActivity | src/Oversikt.jsx:92-137 | the chart becomes the one built from the fetched dates, or stays on an error; loading ends |
| Oversikt.MaxActivity | src/Oversikt.jsx:139 | the scale is at least 1, at least every count, and is either 1 or one of the counts |

## Left out

- Backend calls: every Supabase query, insert, update, upsert, delete, storage call and auth call is a parameter of the handler that makes it (a reply, an error or a fresh id). Row-level security, column defaults other than those named, and triggers are not modelled.
- Two-step writes (the swap of orders, the cascading group delete, upload then persist, the removal before the insert of `saveExerciseImages`) are modelled step by step in one call. The existing image rows `saveExerciseImages` selects are the table's rows: a failed select or removal is not modelled. Interleavings with other tabs or users are concurrency and are not modelled.
- Re-fetching after a write (`fetchExercises`, `fetchExerciseGroups` in the builders) is not modelled: the table fields are the backend state and the fetched lists are left as they were.
- Timers, the DOM and rendering are not modelled: `setTimeout` message clearing and redirects, `window.location` and history, the provider-button removal effect in `src/App.tsx`, keydown listeners, JSX and styles, and the bar heights of the chart.
- Floating point: the weights stay the text typed in, so the `parseFloat` of a saved weight is not modelled.
- Dates are day numbers and the weekday and hour are integers. `Date`, `toISOString` and time zones are not modelled. That includes the shift `toISOString` can make to the UTC date in `src/Oversikt.jsx`, and the start of the month and year in `fetchStats`.
- `Date.now()` and `Math.random()` in file names are the opaque `stamp` parameter.
- `encodeURIComponent` is an uninterpreted function parameter of `AdminTs.ImageSearchUrl`.
- `URLSearchParams` percent-decoding and '+' handling are left out: `App.HashParams` splits on '&' and '=' only.
- Upper- and lower-casing is ASCII only (`Js.UpperAscii`, `Js.LowerAscii`), and string lengths count characters rather than UTF-16 code units.
- Thrown network errors (the `catch` of a rejected promise) are modelled only where the handler reports a returned `error`, and in `fetchStats`, whose rejection is the None reply of `Oversikt.Overview.LoadStats`.
- Objects with negative integer keys: `JsObject` assumes the keys are array indices, as workout and exercise ids are.
- `src/App.tsx` calls a hook after the conditional return of the reset screen (lines 260-262). That breaks React's rule that hooks run in the same order on every render. It is not modelled.
- `src/supabaseClient.ts`, `src/App.jsx` and `src/LoginForm.jsx` hold only configuration, a session gate and auth plumbing. They are not part of this model.
- The edit handlers (`handleEdit`, `handleEditGroup`), `handleCancelGroup`, `handleDelete` and `handleToggleActive` of both builders are single-row writes or form copies. They are not modelled. `handleDeleteGroup` is modelled in its `src/Admin.jsx` form only; `src/Admin.tsx` has the same code.
- `handleGenerateImageSearch` of `src/Admin.tsx` (an alert for a missing title or description, then `window.open`) is not modelled beyond the link it opens.
- `fetchLastWorkoutWeights` of `src/Dashboard.tsx` is the `fetched` parameter of `DashboardTs.Dashboard.Toggle`.
- AdminTs.ImageSearchUrlSpec: the lemma requires a title without '[' and texts without '$'. A title holding the description marker would be hit by the second replacement, and `replace` expands '$' patterns (`AdminTs.MatchedTitleKeepsMark` shows one); those links are not stated. It also leaves out the names in `AdminTs.InheritedNames`.
- AdminTs.UnknownServiceIsGeneric: names inherited from `Object.prototype` ("constructor", "toString", "__proto__", ...) make `servicePrompts[service]` truthy, and the `replace` on it throws. The model does not capture that throw; only the select's five names reach the handler.
- Profile.SavedProfileReloads: it does not hold when an avatar is cleared while the row still has an avatar_URL value; `Profile.ClearedAvatarResurfaces` shows that case.
- DashboardJs.ProgressAtMostFive: the premise of distinct ids holds after toggling only. `DashboardJs.TodayList.LoadToday` copies every workout's exercise id, so two workouts of one exercise in a day make the count pass five.
- Oversikt.StartOfWeek: the source builds a `Date` from `getDate() - day + ...`. The model works on day numbers, so month boundaries are not modelled.

## Findings

| source | as written | input that shows it | evidently intended | confidence | as-written member | corrected member |
|---|---|---|---|---|---|---|
| src/Admin.tsx:272-302 | when an exercise is edited, the files of all its existing images are removed, then rows are inserted again for the image list, which still holds the kept URLs | edit exercise 7 whose one image is kept in the list, then save | only the files of images no longer listed are removed, so every row keeps its file | not executed | AdminTs.KeptImageLosesFile | AdminTs.SyncImagesKeepsRowsBacked |
| src/Admin.tsx:247-248 | the image step runs only for a non-empty image list, so removing every image of an exercise and saving keeps the old rows | edit exercise 7 with one image, remove it, save | the rows of the exercise become the (empty) list | not executed | AdminTs.RemovedImagesStay | AdminTs.SyncImagesRowsAreList |
