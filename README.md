# A verified model of the FrontendCP state layer

FrontendCP is a React Native app for daily records, notebooks of entries and
plans of routines. Its state lives in mobx-state-tree stores, and its sign-in,
sign-up and password-reset screens validate their form fields before they call
the authentication store. This project models that layer in Dafny and proves
what it promises:

- **Daily-record cache** (`DailyRecordsStoreModel`). Records are kept in day order.
  - `getCorrespondingIndex` is a binary search. It reports the same day exactly when a record has that day, and otherwise the insertion point.
  - `select` with a datetime inserts a placeholder at that insertion point, so the order is kept.
  - The copy of a fetched record onto a stored one is `copyDefinedValues`.
  - `readManyDailyRecords` merges a fetched batch with a resumable scan. On a day-ordered batch its cursor places every record where a scan from the start would. The merge keeps the array in day order and never drops a stored record.
- **`copyDefinedValues`** (`DefinedValues`). The key loop writes, onto the current object, exactly the defined incoming properties. It is idempotent, and copying an object onto itself does nothing.
- **Notebook and plan nodes** (`NotebookModel`, `PlanModel`, `EntryModel`, `RoutineModel`), and the notebooks and plans stores.
  - Each `flow` action receives the API response it waits for.
  - Its effect is stated for the ok case and for the problem case.
  - `findIndex`/`splice` are modelled as JavaScript defines them. An id that is not found (-1) makes the splice hit the last element.
  - `favorites` is exactly the favourite children, in order.
- **Authentication store and root navigator** (`AuthenticationStoreModel`, `AppNavigatorModel`). The user-dependent set of registered screens always contains the initial route.
- **Validation**. There are four screen modules (`LoginScreenModel`, `SignUpScreenModel`, `ResetPasswordScreenModel`, `SignInScreenModel`), plus `FormValidation` and `Password`.
  - Strings are measured and matched as JavaScript does, over UTF-16 code units (`JsString`).
  - The password regular expression is characterised letter by letter: at least 8 code units, no line terminator, and at least one lower-case letter, one upper-case letter, one digit and one listed special character. The email pattern of the login screen is characterised as "clean local part, `@`, clean domain with an inner dot".
  - Every first-match error chain is characterised in both directions.
  - A submit gate reads only the messages its effects last computed. So a press on an untouched form reaches the store.

Stores and MST nodes with actions are classes whose methods state their whole
new state. Plain records (daily records, activity categories, users) are
datatypes. A reference (`types.reference`) is held as the id it resolves by.

## Model

| member | source | states |
|---|---|---|
| DefinedValues.Merged | app/utils/copyDefinedvalues.ts:1-7 | a defined incoming value wins, an undefined or absent one keeps the current value, and no other key appears |
| DefinedValues.CopyDefinedValues | app/utils/copyDefinedvalues.ts:1-7 | after the key loop, in any key order and even when both arguments are one object, the current object holds `Merged(current, incoming)` and incoming is untouched |
| DefinedValues.MergedIdempotent | app/utils/copyDefinedvalues.ts:1-7 | copying the same incoming object twice gives what copying it once gives |
| DefinedValues.MergedSelf | app/utils/copyDefinedvalues.ts:1-7 | copying an object onto itself changes nothing |
| DefinedValues.MergedStep | app/utils/copyDefinedvalues.ts:2-6 | one loop step adds exactly the visited key's value when it is defined, and nothing otherwise |
| DefinedValues.MergedByKeys | app/utils/copyDefinedvalues.ts:1-7 | any map with the merged keys and values is the merged map |
| DailyRecordsStoreModel.CopyDefinedIsCopyDefinedValues | app/models/DailyRecordsStore.ts:100 | the record-level copy is `copyDefinedValues` on the record's eight properties |
| DailyRecordsStoreModel.FromSnapshot | app/models/DailyRecordsStore.ts:140 | a record created from a fetched snapshot is the model's defaults (null mood and note, undefined lists) with the snapshot's defined properties copied over them |
| DailyRecordsStoreModel.CopyDefined | app/models/DailyRecordsStore.ts:138 | the id and three dates always come from the incoming record; each property the incoming record leaves undefined keeps the current value |
| DailyRecordsStoreModel.CopyDefinedTwice | app/models/DailyRecordsStore.ts:138 | copying the same fetched record twice gives what copying it once gives |
| DailyRecordsStoreModel.Placeholder | app/models/DailyRecordsStore.ts:78-87 | the placeholder for a day has that day, the id `-day` (negative, so no saved record has it, for any day after the epoch), and nothing recorded |
| DailyRecordsStoreModel.Dummy | app/models/DailyRecordsStore.ts:20-29 | the dummy record has a negative id and nothing recorded |
| DailyRecordsStoreModel.MergeFrom | app/models/DailyRecordsStore.ts:120-142 | the cursor merge of a batch never shrinks the array and grows it by at most one record per fetched record; its equality with the naive merge and its order and id properties are the lemmas below |
| DailyRecordsStoreModel.MergeNaive | app/models/DailyRecordsStore.ts:122-142 | the reference merge, placing every fetched record by a scan from index 0, has the same length bounds |
| DailyRecordsStoreModel.CorrespondingIndex | app/models/DailyRecordsStore.ts:40-61 | the index stays in the searched range; a same-day result points at a record of that day; on a sorted array any other result splits the range into earlier and later days |
| DailyRecordsStoreModel.Locate | app/models/DailyRecordsStore.ts:40-61 | over the whole array: on a sorted array the same day is reported exactly when some record has that day, and otherwise the index is the insertion point |
| DailyRecordsStoreModel.InsertAtLocateKeepsOrder | app/models/DailyRecordsStore.ts:74-89 | inserting a record for a missing day at the reported index keeps the array sorted by day |
| DailyRecordsStoreModel.DailyRecordsStore.Select | app/models/DailyRecordsStore.ts:62-94 | with a datetime, the record of its day is selected, after a placeholder with id `-day` is inserted at the insertion point when that day has none; with no datetime the given record is selected and the array is unchanged; sortedness is kept |
| DailyRecordsStoreModel.DailyRecordsStore.SelectedIndex | app/models/DailyRecordsStore.ts:97-100 | the position of the selected record holds a record with the selected id |
| DailyRecordsStoreModel.DailyRecordsStore.ReadOneDailyRecord | app/models/DailyRecordsStore.ts:95-103 | asks for the selected record's day; on ok the fetched record is copied onto the selected one, and the reference follows its id; on a problem nothing changes; the response is returned |
| DailyRecordsStoreModel.DailyRecordsStore.CreateOrUpdateOneDailyRecord | app/models/DailyRecordsStore.ts:104-112 | the selected record is sent, or nothing when there is no selection; on ok the answer is copied onto the selected record; on a problem nothing changes, with or without a selection; the response is returned |
| DailyRecordsStoreModel.DailyRecordsStore.CopyOntoSelected | app/models/DailyRecordsStore.ts:100 | only the selected position changes, to the copy, and the selection follows the copied id |
| DailyRecordsStoreModel.ScanFrom | app/models/DailyRecordsStore.ts:123-133 | the scan stops at the first index from its start whose day is not before the fetched day, or at the end |
| DailyRecordsStoreModel.MergeOne | app/models/DailyRecordsStore.ts:134-141 | a matching id at the scanned index is updated in place and the length is kept; otherwise one record is spliced in there; the prefix before the index is kept |
| DailyRecordsStoreModel.DailyRecordsStore.ReadManyDailyRecords | app/models/DailyRecordsStore.ts:113-145 | on ok the array becomes the cursor merge of the batch; that merge keeps a sorted array sorted when the batch is sorted, and keeps every stored id while adding only fetched ones; on a problem nothing changes |
| DailyRecordsStoreModel.DailyRecordsStore.MergeBatch | app/models/DailyRecordsStore.ts:120-143 | the `for` loop over the fetched batch leaves the array equal to the cursor merge of the batch and touches nothing else |
| DailyRecordsStoreModel.DailyRecordsStore.ScanDays | app/models/DailyRecordsStore.ts:123-133 | the inner `while` returns the first index from the cursor whose day is not before the fetched day, every index it skips holds an earlier day, and it returns the length when there is none |
| DailyRecordsStoreModel.DailyRecordsStore.PlaceAt | app/models/DailyRecordsStore.ts:134-141 | the array becomes the one-record merge at the scanned index: the defined fields copied onto a record with the same id there, otherwise the fetched record spliced in |
| DailyRecordsStoreModel.ScanSkipsEarlier | app/models/DailyRecordsStore.ts:123-124 | when every record before the start is earlier, resuming the scan there finds what a scan from 0 finds |
| DailyRecordsStoreModel.CursorAgreesWithFullScan | app/models/DailyRecordsStore.ts:120-142 | on a batch sorted by day, resuming each scan at `lastIndex` gives the same array as scanning from 0 for every record |
| DailyRecordsStoreModel.MergeOneKeepsOrder | app/models/DailyRecordsStore.ts:134-141 | placing one fetched record at its scanned index keeps a sorted array sorted |
| DailyRecordsStoreModel.MergeNaiveKeepsOrder | app/models/DailyRecordsStore.ts:122-142 | the merge by scans from 0 keeps a sorted array sorted |
| DailyRecordsStoreModel.MergeKeepsOrder | app/models/DailyRecordsStore.ts:113-145 | a sorted array and a sorted batch merge into a sorted array |
| DailyRecordsStoreModel.IdsInsert | app/models/DailyRecordsStore.ts:140 | a splice-in of one record inserts its id at the same position of the id list |
| DailyRecordsStoreModel.MergeOneKeepsRecords | app/models/DailyRecordsStore.ts:134-141 | one step drops no stored id, and adds at most the fetched id, which is then present |
| DailyRecordsStoreModel.MergeKeepsRecords | app/models/DailyRecordsStore.ts:119-143 | the whole merge keeps every stored id as often as before and adds only fetched ids |
| DailyRecordsStoreModel.MergeKeepsFetched | app/models/DailyRecordsStore.ts:119-143 | every fetched id is in the merged array |
| DailyRecordsStoreModel.DailyRecordsStore.constructor | app/models/DailyRecordsStore.ts:15-36 | the store starts empty, with no selection and the dummy record at a fixed time read once, before creation; that is the snapshot reset returns to |
| DailyRecordsStoreModel.DailyRecordsStore.Reset | app/models/DailyRecordsStore.ts:37-39 | the store is back to its creation snapshot |
| JsArray.IndexOf | app/models/Notebook.ts:78 | `findIndex` by id: -1 exactly when absent, otherwise the first position holding it |
| JsArray.SpliceStart | app/models/Notebook.ts:77-81 | a negative splice start counts from the end, clamped at 0; a start past the end is clamped to the length |
| JsArray.SpliceReplace | app/models/Notebook.ts:77-81 | splicing one item in at a found index replaces that element |
| JsArray.SpliceReplaceMissing | app/models/Notebook.ts:77-81 | splicing at -1 replaces the last element, or fills an empty array with the one item |
| JsArray.SpliceRemove | app/models/Notebook.ts:90-93 | deleting one element at a found index removes exactly that element |
| JsArray.SpliceRemoveMissing | app/models/Notebook.ts:90-93 | deleting at -1 removes the last element, and leaves an empty array empty |
| JsArray.SpliceInsert | app/models/Notebook.ts:70 | a zero-delete splice inserts the item at the index |
| JsArray.SpliceKeepsOut | app/models/Notebook.ts:90-93 | a splice adds no element besides the inserted items, so an element outside the array stays outside |
| EntryModel.Entry.constructor | app/models/Entry.ts:3-15 | an entry holds its snapshot, and its loading flags take their default, false |
| EntryModel.Entry.SetText | app/models/Entry.ts:22-24 | only the text changes |
| EntryModel.Entry.ApplySnapshot | app/models/Notebook.ts:42 | `applySnapshot` gives every stored property the snapshot's value, resets the loading flags, and keeps the identifier |
| EntryModel.Favorites | app/models/Notebook.ts:26-28 | exactly the favourite entries, in their original order: only favourites, each favourite present, a subsequence, and as long as the number of favourite positions |
| EntryModel.Entry.IsBeingCreated | app/models/Entry.ts:16-20 | a negative id marks an entry not saved yet; it has no contract of its own, and NotebookModel.Notebook.PrepareEntryToAdd proves that the placeholder of a saved notebook is one |
| EntryModel.NewEntries | app/models/Notebook.ts:52 | a fetched page becomes fresh entries holding the page's snapshots, in order, with default flags |
| NotebookModel.Notebook.constructor | app/models/Notebook.ts:13-24 | a fetched notebook has its properties, no entries, no selection and no placeholder |
| NotebookModel.Notebook.Favorites | app/models/Notebook.ts:26-28 | exactly the favourite entries, in their original order, one per favourite position |
| NotebookModel.Notebook.IsEntryToAddSelected | app/models/Notebook.ts:29-31 | once the placeholder exists, the view holds exactly when the selected entry is the placeholder; this only rewrites the id test through the invariant, and its use is NotebookModel.Notebook.PrepareEntryToAdd ensuring it |
| NotebookModel.Notebook.PrepareEntryToAdd | app/models/Notebook.ts:34-45 | the placeholder is reset, or on first use created, as an empty, non-favourite entry with id `-id` stamped now; it is selected; for a saved notebook it counts as being created |
| NotebookModel.Notebook.Select | app/models/Notebook.ts:46-48 | only the selection changes, possibly to none |
| NotebookModel.Notebook.ReadFirstEntries | app/models/Notebook.ts:49-55 | asks for the first 10 entries without a cursor; on ok the entries become the page; on a problem they are kept |
| NotebookModel.Notebook.ReadMoreEntries | app/models/Notebook.ts:56-66 | asks for 10 more after the last entry's creation time, with no cursor when there are none; on ok the page is appended after the kept entries |
| NotebookModel.Notebook.CreateOneEntry | app/models/Notebook.ts:67-73 | sends the placeholder; on ok the created entry is put in front of the unchanged list |
| NotebookModel.Notebook.UpdateOneEntry | app/models/Notebook.ts:74-84 | on ok the entry with the id is replaced in place; an id that is not there replaces the last entry, or fills an empty list |
| NotebookModel.Notebook.DeleteOneEntry | app/models/Notebook.ts:85-96 | with a selection that resolves to a listed entry or to the placeholder, sends the selected id; on ok the selection is cleared and that entry is removed, or the last one when the id is not in the list |
| NotebookModel.Notebook.RemoveEntryById | app/models/Notebook.ts:88-93 | the ok branch clears the selection and leaves the entries equal to the removing splice at the id's `findIndex`: that entry dropped, or the last one when the id is absent |
| RoutineModel.Routine.constructor | app/models/Routine.ts:3-11 | a routine holds its snapshot |
| RoutineModel.Routine.SetIsFavorite | app/models/Routine.ts:13-15 | only the favourite flag changes |
| RoutineModel.Routine.SetText | app/models/Routine.ts:16-18 | only the text changes |
| RoutineModel.Routine.ApplySnapshot | app/models/Plan.ts:43 | every property takes the snapshot's value and the identifier is kept |
| RoutineModel.Favorites | app/models/Plan.ts:26-28 | exactly the favourite routines, in their original order: only favourites, each favourite present, a subsequence, and as long as the number of favourite positions |
| RoutineModel.NewRoutines | app/models/Plan.ts:55 | a fetched page becomes fresh routines holding the page's snapshots, in order |
| PlanModel.Plan.constructor | app/models/Plan.ts:13-24 | a fetched plan has its properties, no routines, no selection and no placeholder |
| PlanModel.Plan.Favorites | app/models/Plan.ts:26-28 | exactly the favourite routines, in their original order, one per favourite position |
| PlanModel.Plan.IsRoutineToAddSelected | app/models/Plan.ts:29-31 | once the placeholder exists, the view holds exactly when the selected routine is the placeholder; this only rewrites the id test through the invariant, and its use is PlanModel.Plan.PrepareRoutineToAdd ensuring it |
| PlanModel.Plan.PrepareRoutineToAdd | app/models/Plan.ts:34-48 | the placeholder is reset or created as an empty, non-favourite routine with id `-id` stamped now, and selected |
| PlanModel.Plan.Select | app/models/Plan.ts:49-51 | only the selection changes |
| PlanModel.Plan.ReadFirstRoutines | app/models/Plan.ts:52-58 | asks for the first 10 routines; on ok the routines become the page |
| PlanModel.Plan.ReadMoreRoutines | app/models/Plan.ts:59-69 | asks for 10 more after the last routine's creation time; on ok the page is appended after the kept routines |
| PlanModel.Plan.CreateOneRoutine | app/models/Plan.ts:70-76 | sends the placeholder; on ok the created routine goes in front |
| PlanModel.Plan.UpdateOneRoutine | app/models/Plan.ts:77-90 | on ok the routine with the id is replaced in place, or the last one when the id is not there |
| PlanModel.Plan.DeleteOneRoutine | app/models/Plan.ts:91-105 | with a selection that resolves to a listed routine or to the placeholder, sends the selected id; on ok the selection is cleared and the selected routine is removed, or the last one when its id is not in the list |
| PlanModel.Plan.RemoveRoutineById | app/models/Plan.ts:97-102 | the ok branch clears the selection and leaves the routines equal to the removing splice at the id's `findIndex`: that routine dropped, or the last one when the id is absent |
| NotebooksStoreModel.NewNotebooks | app/models/NotebooksStore.ts:39 | the fetched notebooks become fresh nodes with their properties and no entries |
| NotebooksStoreModel.NotebooksStore.constructor | app/models/NotebooksStore.ts:12-18 | no notebooks, no selection, not loading |
| NotebooksStoreModel.NotebooksStore.Reset | app/models/NotebooksStore.ts:25-27 | back to the empty creation snapshot |
| NotebooksStoreModel.NotebooksStore.HandlePressCard | app/models/NotebooksStore.ts:28-30 | only the selection changes, to the pressed notebook |
| NotebooksStoreModel.NotebooksStore.StartReloadNotebooks | app/models/NotebooksStore.ts:35-36 | before the request, loading is raised and the selection is cleared |
| NotebooksStoreModel.NotebooksStore.FinishReloadNotebooks | app/models/NotebooksStore.ts:37-42 | on ok the notebooks become the fetched ones; loading is lowered in both cases |
| NotebooksStoreModel.NotebooksStore.ReloadNotebooks | app/models/NotebooksStore.ts:34-43 | the whole reload ends with no selection and not loading, and with the fetched notebooks on ok |
| PlansStoreModel.NewPlans | app/models/PlansStore.ts:33 | the fetched plans become fresh nodes with their properties and no routines |
| PlansStoreModel.PlansStore.constructor | app/models/PlansStore.ts:12-17 | no plans and no selection |
| PlansStoreModel.PlansStore.Reset | app/models/PlansStore.ts:24-26 | back to the empty creation snapshot |
| PlansStoreModel.PlansStore.Select | app/models/PlansStore.ts:27-29 | only the selection changes |
| PlansStoreModel.PlansStore.ReadAllPlans | app/models/PlansStore.ts:30-36 | on ok the plans become the fetched ones; on a problem they are kept |
| PlansStoreModel.PlansStore.UpdateOnePlan | app/models/PlansStore.ts:37-50 | on ok the plan with the id is replaced in place, or the last one when the id is not there |
| EntriesStoreModel.EntriesStore.constructor | app/models/EntriesStore.ts:6-10 | no entries |
| EntriesStoreModel.EntriesStore.Favorites | app/models/EntriesStore.ts:26-28 | exactly the favourite entries, in their original order, one per favourite position |
| EntriesStoreModel.EntriesStore.ToggleFavorite | app/models/EntriesStore.ts:31-34 | changes neither the entry list nor the entry: the source only logs |
| EntriesStoreModel.EntriesStore.ReadManyEntriesPaginated | app/models/EntriesStore.ts:13-23 | asks for page 1 of 10 for the notebook; on ok the entries become the page; on a problem they are kept |
| ActivityCategoriesStoreModel.ActivityCategoriesStore.constructor | app/models/ActivityCategoriesStore.ts:12-16 | no categories |
| ActivityCategoriesStoreModel.ActivityCategoriesStore.Reset | app/models/ActivityCategoriesStore.ts:23-25 | back to the empty creation snapshot |
| ActivityCategoriesStoreModel.ActivityCategoriesStore.ReadAllActivityCategories | app/models/ActivityCategoriesStore.ts:26-32 | on ok the categories become the fetched ones; on a problem they are kept |
| AuthenticationStoreModel.AuthenticationStore.constructor | app/models/AuthenticationStore.ts:5-9 | nobody is signed in |
| AuthenticationStoreModel.AuthenticationStore.ClearUser | app/models/AuthenticationStore.ts:11-13 | the user is cleared |
| AuthenticationStoreModel.AuthenticationStore.SignIn | app/models/AuthenticationStore.ts:14-20 | sends the credentials; on ok the user is the returned one; on a problem it is kept |
| AuthenticationStoreModel.AuthenticationStore.SignUp | app/models/AuthenticationStore.ts:21-23 | sends the credentials and changes no state |
| AuthenticationStoreModel.AuthenticationStore.SignOut | app/models/AuthenticationStore.ts:24-27 | the user is cleared whatever the answer |
| AuthenticationStoreModel.AuthenticationStore.RequestActivation | app/models/AuthenticationStore.ts:28-30 | returns the answer and changes no state |
| AuthenticationStoreModel.AuthenticationStore.RequestPasswordReset | app/models/AuthenticationStore.ts:31-33 | sends the email and new password and changes no state |
| AuthenticationStoreModel.AuthenticationStore.Me | app/models/AuthenticationStore.ts:34-40 | on ok the user is the returned one; on a problem it is kept |
| AppNavigatorModel.InitialRoute | app/navigators/AppNavigator.tsx:50 | sign-in exactly when nobody is signed in, activation exactly for an inactive user, the main tabs exactly for an active one |
| AppNavigatorModel.RegisteredScreens | app/navigators/AppNavigator.tsx:48-69 | activated and password-reset are always registered; sign-in, sign-up and reset-password exactly with no user; activate exactly for an inactive user; main exactly for an active one; the initial route is registered |
| AppNavigatorModel.SignOutLeadsToSignIn | app/navigators/AppNavigator.tsx:50-57 | after a sign-out the stack opens on sign-in with the sign-up and reset screens registered |
| AppNavigatorModel.SignInLeadsToMainOrActivate | app/navigators/AppNavigator.tsx:50-66 | after a successful sign-in the stack opens on main or activate as the user is active or not, and sign-in is gone |
| JsString.Utf16 | app/utils/isPasswordValid.ts:2 | a character below 0x10000 is one code unit; any other is a high and a low surrogate |
| JsString.CodeUnits | app/screens/LoginScreen.tsx:28-29 | a string has at least as many code units as characters, and none exactly when it is empty |
| JsString.CodeUnitsAppend | app/screens/LoginScreen.tsx:28-30 | the code units of a concatenation are the concatenated code units |
| JsString.SomeUnitIffSomeChar | app/utils/isPasswordValid.ts:2 | for a class with no surrogate and no astral value, some code unit is in it exactly when some character is |
| Password.LookaheadFindsMeans | app/utils/isPasswordValid.ts:2 | a `(?=.*[cls])` lookahead succeeds exactly when a unit of the class comes before any line terminator |
| Password.DotsToEndMeans | app/utils/isPasswordValid.ts:2 | `.{n,}$` succeeds exactly when at least n units remain and none is a line terminator |
| Password.NoLineTerminatorIff | app/utils/isPasswordValid.ts:2 | a string has no line terminator character exactly when it has no line terminator code unit |
| Password.LookaheadIffSomeChar | app/utils/isPasswordValid.ts:2 | on a string without line terminators, an ASCII-class lookahead succeeds exactly when some character is in the class |
| Password.SpecialIff | app/utils/isPasswordValid.ts:2 | the special-character class is exactly the 32 listed characters |
| Password.LowerLookaheadIff | app/utils/isPasswordValid.ts:2 | `(?=.*[a-z])` succeeds exactly when there is a lower-case letter |
| Password.UpperLookaheadIff | app/utils/isPasswordValid.ts:2 | `(?=.*[A-Z])` succeeds exactly when there is an upper-case letter |
| Password.DigitLookaheadIff | app/utils/isPasswordValid.ts:2 | `(?=.*\d)` succeeds exactly when there is a digit |
| Password.SpecialLookaheadIff | app/utils/isPasswordValid.ts:2 | the special-character lookahead succeeds exactly when there is a listed special character |
| Password.PasswordValidIff | app/utils/isPasswordValid.ts:1-5 | a password is valid exactly when it has at least 8 code units, no line terminator, a lower-case letter, an upper-case letter, a digit and a special character |
| Password.LineTerminatorInvalid | app/utils/isPasswordValid.ts:2 | a password containing a line terminator is never valid |
| Password.AppendKeepsValid | app/utils/isPasswordValid.ts:1-5 | appending text without line terminators to a valid password keeps it valid |
| LoginScreenModel.HasDotInWitness | app/screens/LoginScreen.tsx:30 | a dot found in a range has a position within it |
| LoginScreenModel.HasDotInWhenThere | app/screens/LoginScreen.tsx:30 | a dot at a position in a range is found there |
| LoginScreenModel.EmailPatternIff | app/screens/LoginScreen.tsx:30 | the email pattern matches exactly when the string splits into a non-empty clean local part, `@`, and a clean domain with a dot that has clean text on both sides |
| LoginScreenModel.EmailPatternAccepts | app/screens/LoginScreen.tsx:30 | clean, non-empty a, b and c make `a@b.c` match |
| LoginScreenModel.ValidationError | app/screens/LoginScreen.tsx:27-32 | "" exactly when the email has at least 6 code units and matches the pattern; "can't be blank" exactly when empty; the length message exactly for 1 to 5 code units; always one of the four messages |
| LoginScreenModel.ValidationErrorAccepts | app/screens/LoginScreen.tsx:27-32 | `a@b.c` with clean, non-empty parts is accepted |
| LoginScreenModel.LoginScreen.constructor | app/screens/LoginScreen.tsx:14-17 | empty fields, untouched, password hidden |
| LoginScreenModel.LoginScreen.PrefillCredentials | app/screens/LoginScreen.tsx:22-25 | the mount effect fills in the demo credentials |
| LoginScreenModel.LoginScreen.ClearCredentials | app/screens/LoginScreen.tsx:55-61 | the unmount cleanup empties both fields and the touched flag |
| LoginScreenModel.LoginScreen.TouchEmail | app/screens/LoginScreen.tsx:72 | leaving the email field marks it touched |
| LoginScreenModel.LoginScreen.Login | app/screens/LoginScreen.tsx:34-37 | signs in with the fields exactly when the validation message is "" |
| FormValidation.EmailError | app/screens/SignUpScreen.tsx:66-77 | no message exactly for a non-empty valid email; required wins over invalid |
| FormValidation.PasswordError | app/screens/SignUpScreen.tsx:79-90 | no message exactly when the password is valid; required wins over invalid |
| FormValidation.RepeatedPasswordError | app/screens/SignUpScreen.tsx:92-108 | no message exactly for a non-empty repetition equal to the password; required wins over mismatch |
| FormValidation.RequiredError | app/screens/SignInScreen.tsx:69-76 | no message exactly for a non-empty value; otherwise "required" |
| FormValidation.Gated | app/screens/SignUpScreen.tsx:67 | the early return shared by every validation effect: the message stays as it was until its field was touched or a submit was tried, and is the chain's result afterwards; it has no contract of its own and is used in the effects' ensures |
| FormValidation.PasswordFormPasses | app/screens/SignUpScreen.tsx:66-108 | all three chains pass exactly when the email is non-empty and valid, the password is valid and the repetition equals it |
| SignUpScreenModel.SignUpScreen.constructor | app/screens/SignUpScreen.tsx:45-62 | empty fields, no messages, nothing touched, tried, loading or submitted |
| SignUpScreenModel.SignUpScreen.EditEmail | app/screens/SignUpScreen.tsx:153-154 | typing sets the email; leaving the field marks it touched; nothing else changes |
| SignUpScreenModel.SignUpScreen.EditPassword | app/screens/SignUpScreen.tsx:169-170 | typing sets the password; leaving the field marks it touched |
| SignUpScreenModel.SignUpScreen.EditRepeatedPassword | app/screens/SignUpScreen.tsx:186-187 | typing sets the repetition; leaving the field marks it touched |
| SignUpScreenModel.SignUpScreen.RunValidationEffects | app/screens/SignUpScreen.tsx:66-108 | each message is recomputed by its chain only once its field was touched or a submit was tried, and kept otherwise; after a tried submit there is no message exactly when the form is valid |
| SignUpScreenModel.SignUpScreen.SignUp | app/screens/SignUpScreen.tsx:110-125 | marks a submit as tried; sends the email and password exactly when no message is set; loading ends lowered; submitted is raised only by an ok answer |
| SignUpScreenModel.UntouchedFormSubmits | app/screens/SignUpScreen.tsx:110-119 | on a fresh form, a press sends empty credentials, since no effect has computed a message yet |
| ResetPasswordScreenModel.ResetPasswordScreen.constructor | app/screens/ResetPasswordScreen.tsx:46-63 | empty fields, no messages, nothing touched, tried, loading or submitted |
| ResetPasswordScreenModel.ResetPasswordScreen.EditEmail | app/screens/ResetPasswordScreen.tsx:156-157 | typing sets the email; leaving the field marks it touched |
| ResetPasswordScreenModel.ResetPasswordScreen.EditPassword | app/screens/ResetPasswordScreen.tsx:172-173 | typing sets the password; leaving the field marks it touched |
| ResetPasswordScreenModel.ResetPasswordScreen.EditRepeatedPassword | app/screens/ResetPasswordScreen.tsx:189-190 | typing sets the repetition; leaving the field marks it touched |
| ResetPasswordScreenModel.ResetPasswordScreen.RunValidationEffects | app/screens/ResetPasswordScreen.tsx:67-111 | the three gated chains with this screen's messages; after a tried submit there is no message exactly when the form is valid |
| ResetPasswordScreenModel.ResetPasswordScreen.RequestPasswordReset | app/screens/ResetPasswordScreen.tsx:113-128 | marks a submit as tried; sends the email and new password exactly when no message is set; submitted is raised only by an ok answer |
| ResetPasswordScreenModel.UntouchedFormSubmits | app/screens/ResetPasswordScreen.tsx:113-122 | on a fresh form, a press sends empty credentials |
| SignInScreenModel.SignInScreen.constructor | app/screens/SignInScreen.tsx:42-53 | empty fields, no messages, nothing touched, tried or loading, credentials not flagged |
| SignInScreenModel.SignInScreen.EditEmail | app/screens/SignInScreen.tsx:116-117 | typing sets the email; leaving the field marks it touched |
| SignInScreenModel.SignInScreen.EditPassword | app/screens/SignInScreen.tsx:132-133 | typing sets the password; leaving the field marks it touched |
| SignInScreenModel.SignInScreen.RunValidationEffects | app/screens/SignInScreen.tsx:56-76 | the email chain and a required-only password check, each gated; after a tried submit there is no message exactly when the email is non-empty and valid and the password is non-empty |
| SignInScreenModel.SignInScreen.SignIn | app/screens/SignInScreen.tsx:78-88 | marks a submit as tried; signs in exactly when no message is set; only an unauthorized answer raises the invalid-credentials flag, and nothing lowers it |

## Left out

- HTTP, the API wrappers, tokens and secure storage. Each API call becomes the response it returns, passed in as a parameter. The request each action would send is returned where it carries state (page queries, credentials, the placeholder).
- The clock (`new Date()`) is a parameter `now`. `isEmailValid` and `getDateWithoutTime` are not part of this model; they are function parameters.
- Async interleaving of `flow` generators. Every action is atomic, so a selection changed during an await is not modelled. `ReloadNotebooks` is also given as its two halves either side of the await.
- MST reconciliation and identifier handling. The identifiers of the Entry, Routine, Notebook and Plan nodes are immutable fields. A reference is its id, and a dangling one is not detected; every action that reads a reference requires it to resolve.
- DailyRecordsStoreModel.CopyDefined, DailyRecordsStoreModel.DailyRecordsStore.CopyOntoSelected, ReadOneDailyRecord and CreateOrUpdateOneDailyRecord: a daily record is a value, and copying an answer with a different id onto it (a placeholder with id `-day` that the server saves under its real id) is modelled as a plain copy after which the selection follows the new id. MST declares the id `types.identifierNumber` (app/models/DailyRecord.ts:6) and would refuse the change, so the action would throw.
- `reset`: modelled as the return to the empty creation snapshot that the stores are created from.
- NotebookModel.Notebook.DeleteOneEntry, PlanModel.Plan.DeleteOneRoutine: these require a selection that resolves, to a listed node or to the placeholder. The source reads `self.selectedEntry.id` (app/models/Notebook.ts:86) or `self.selectedRoutine.id` (app/models/Plan.ts:94) before sending the request. A missing or dangling reference throws there. A selected placeholder is not in the list, so `findIndex` gives -1 and the last node is removed, which the model states. MST resolves a reference against the whole tree, so a node of another notebook or plan with that id would also resolve; the model does not cover that case.
- DailyRecordsStoreModel.DailyRecordsStore.ReadOneDailyRecord: this requires a selection. The source passes `self.selectedDailyRecord?.day` (app/models/DailyRecordsStore.ts:97), which is undefined without one, and the API then calls `day.toISOString()` (app/services/api/dailyRecordsApi.ts:39), so the action throws before any request is sent.
- DailyRecordsStoreModel.DailyRecordsStore.CreateOrUpdateOneDailyRecord: this requires a selection only for an ok answer. Without one the source sends an undefined body (app/models/DailyRecordsStore.ts:106, app/services/api/dailyRecordsApi.ts:57-64). A problem answer then leaves the store unchanged, which the model states. An ok answer makes `copyDefinedValues(undefined, …)` throw (app/utils/copyDefinedvalues.ts:4), and that throw is not modelled.
- UpdateOneEntry, UpdateOneRoutine, UpdateOnePlan: the partial update sent to the server is not modelled. Only the answer matters to the state.
- Dates: modelled as millisecond integers. The `Date` object identity and time zones are not modelled.
- Entry.beforeEdit: a frozen value that none of the modelled actions uses.
- DTO keys beyond the model's fields: not modelled.
- The dummy daily record: kept as a value. It is not reachable as a reference target.
- EntriesStoreModel.EntriesStore.ToggleFavorite: the console output it writes is not modelled; its contract states only that no state changes.
- The console logging itself is left out.
- Problem kinds beyond `unauthorized`: one `OtherProblem` tag stands for them.
- Screen messages are translation keys (`TxKey`), without the i18n table.
- Rendering, navigation calls, refs, the password-visibility toggles and the text-field bindings are not modelled beyond `onChangeText`/`onBlur`.
- `isEmailValid`'s own definition (app/utils/isEmailValid.ts) is not part of this model.
- DailyRecordsStoreModel.DailyRecordsStore.Select, NotebookModel.Notebook.PrepareEntryToAdd, PlanModel.Plan.PrepareRoutineToAdd: the placeholder's `createdAt` and `updatedAt` are taken as one clock reading `now`, whereas the source reads the clock twice (app/models/DailyRecordsStore.ts:80-81, app/models/Notebook.ts:37-38, app/models/Plan.ts:37-38).
- DailyRecordsStoreModel.Dummy: the dummy's three dates are one reading, whereas the default object literal reads the clock three times when it is evaluated (app/models/DailyRecordsStore.ts:20-29).
- JsString.CodeUnits: a Dafny `char` cannot be a lone surrogate, so JavaScript strings holding an unpaired surrogate code unit (which `length` counts as one unit and `.` matches) are not modelled.
