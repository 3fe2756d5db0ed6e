# Care-flow dashboard state store, in Dafny

This project models the application state store of a client-side hospital
workflow dashboard. The dashboard keeps a directory of patients, a log of
clinical workflow actions, seeded department figures, the active view and the
user's display name. All of it lives in one state tree. That tree is changed
only by a reducer over seven action kinds. It is saved to browser storage
after every change and loaded once when the provider mounts.

The model covers:

- `Types` (`types.ts`): the closed enumerations and the records. Each
  string-literal union gets its literal (`Name`) and the inverse (`Parse…`).
- `Reducer` (`store/reducer.ts`): `Action` and `Reduce`, a pure function
  that mirrors `careReducer` case by case. The default case is the
  `Unrecognised` variant.
- `CareContext` (`store/CareContext.tsx`): the seed state and the class
  `CareStore`. Its `Mount` constructor runs the reducer's start and the two
  persistence effects; `Dispatch` runs the reducer and the save effect.
  `UseCare` is the provider guard.
- `PatientDirectory` (`views/Patients.tsx`): the case-insensitive search on
  name or room, and the headline count.
- `PatientDetail` (`components/PatientDetailSheet.tsx`): the patient lookup,
  the newest-first action timeline, the "awaiting" count and what the sheet
  renders.
- `Badges` (`components/Badge.tsx`): the badge text and the CSS class chosen
  for each triage level and patient status.
- `Lists`: the array and string operations (`filter`, replace-by-id `map`,
  `find`, `includes`) that all of the above are built from. They are defined
  once and characterised by lemmas.
- `Wrappers`: `Option` and `Result`.

Browser storage is a `map<string, string>` field of the store. `JSON.parse`
is a function `string -> Option<AppState>`, where `None` means that parsing
throws. `JSON.stringify` is a function `AppState -> string` held by the
store. `console.error` is an `errorLog` field. `Date.now()` is a parameter
`now`.

In these details the model follows the code as written:

- A failed load keeps the state the reducer started with. That state is the
  seed.
- The save effect also runs on the first render, so the seed is written
  before a loaded snapshot replaces it.
- A dispatch that reaches the default case returns the very same state
  object, so React does not re-render and nothing is written to storage.
- `if (saved)` treats an empty stored string like a missing one.
- `if (!patientId)` treats the empty id like `null`.

## Model

| member | source | states |
|---|---|---|
| Lists.Filter | store/reducer.ts:34 | `filter` never lengthens its input (membership, multiplicities and order are the lemmas below) |
| Lists.FilterMembers | store/reducer.ts:34 | `filter` keeps an element exactly when it is in the input and satisfies the predicate |
| Lists.FilterCounts | store/reducer.ts:34 | a kept element occurs in the result as often as in the input; a rejected one never occurs |
| Lists.FilterIsSubsequence | store/reducer.ts:34 | the filtered list is an order-preserving subsequence of the input |
| Lists.FilterKeepingAll | views/Patients.tsx:17-20 | a filter whose predicate holds for every element returns the input unchanged |
| Lists.FilterFullLength | views/Patients.tsx:17-20 | a `filter` whose result is as long as its input rejected no element |
| Lists.FilterLengthUnderPermutation | components/PatientDetailSheet.tsx:83 | `filter(...).length` is the same for any reordering of the input |
| Lists.ReplaceByKey | store/reducer.ts:22 | the replace-by-id `map` keeps the length, puts the payload at every index whose id matches, and keeps every other element |
| Lists.ReplaceAbsentKey | store/reducer.ts:22 | replacing by an id no element has returns the input |
| Lists.ReplaceIdempotent | store/reducer.ts:29 | replacing twice with the same payload equals replacing once |
| Lists.Find | components/PatientDetailSheet.tsx:17 | `find` returns none exactly when no element satisfies the predicate; otherwise it returns an element that is in the input and satisfies it |
| Lists.FindIsFirst | components/PatientDetailSheet.tsx:17 | `find` returns the element at the first index that satisfies the predicate |
| Lists.Contains | views/Patients.tsx:18-19 | `includes` holds for the empty needle, and only for a needle no longer than the haystack (characterised exactly by ContainsIffOccurs) |
| Lists.ContainsIffOccurs | views/Patients.tsx:18-19 | `includes` holds exactly when the needle occurs at some index of the haystack |
| Lists.PrependUniqueKeys | store/reducer.ts:25 | prepending keeps ids unique exactly when the new id is fresh |
| Lists.ReplacePreservesUniqueKeys | store/reducer.ts:29 | replacing by id keeps unique ids unique |
| Lists.FilterPreservesUniqueKeys | store/reducer.ts:34 | filtering keeps unique ids unique |
| Types.TriageLevelNames | types.ts:2 | a triage level is exactly one of Critical, Urgent, Stable, Observing, and each string reads back as its level |
| Types.PatientStatusNames | types.ts:3 | a patient status is exactly one of Admitted, Discharged, Pending, Transfer |
| Types.ActionTypeNames | types.ts:4 | an action type is exactly one of Radiology, ER, Pharmacy, Medicine, Cardiology, Notes |
| Types.ActionStatusNames | types.ts:22 | an action status is exactly one of Pending, In Progress, Completed |
| Types.ViewStateNames | types.ts:37 | a view is exactly one of dashboard, patients, departments, settings |
| Reducer.Reduce | store/reducer.ts:4-41 | `careReducer` over the seven kinds of the `Action` union and the default case: only LOAD_STATE changes departments and user name; only SET_VIEW and LOAD_STATE change the view; the action cases keep the patients and the patient cases keep the actions (each case is characterised by the lemmas below) |
| Reducer.SetViewChangesOnlyView | store/reducer.ts:15-16 | SET_VIEW sets the active view to the payload; patients, actions, departments and user name are unchanged |
| Reducer.AddActionPrepends | store/reducer.ts:17-18 | ADD_ACTION makes the payload the first action, followed by the old actions; the length grows by one; no id check; nothing else changes |
| Reducer.UpdateActionReplaces | store/reducer.ts:19-23 | UPDATE_ACTION keeps the length, replaces exactly the actions with the payload's id, keeps the others, changes nothing else, and is a no-op when no id matches |
| Reducer.UpdateActionIdempotent | store/reducer.ts:19-23 | UPDATE_ACTION applied twice equals applying it once |
| Reducer.AddPatientPrepends | store/reducer.ts:24-25 | ADD_PATIENT makes the payload the first patient, followed by the old patients in order; the actions are unchanged |
| Reducer.UpdatePatientReplaces | store/reducer.ts:26-30 | UPDATE_PATIENT keeps the length, replaces exactly the patients with the payload's id, changes nothing else, and is a no-op when the id is absent |
| Reducer.UpdatePatientIdempotent | store/reducer.ts:26-30 | UPDATE_PATIENT applied twice equals applying it once |
| Reducer.UpdatePatientThenFind | store/reducer.ts:26-30 | after UPDATE_PATIENT with an id that is present, looking up that id finds the payload |
| Reducer.DeletePatientRemoves | store/reducer.ts:31-35 | after DELETE_PATIENT no patient has the id; the survivors are the other patients, in order and with their multiplicities; the actions are unchanged, so they may dangle |
| Reducer.DeleteUndoesAdd | store/reducer.ts:24-35 | deleting a just-added patient whose id was fresh restores the previous state |
| Reducer.LoadStateReplaces | store/reducer.ts:36-37 | LOAD_STATE returns the payload, whatever the prior state |
| Reducer.UnrecognisedIsIdentity | store/reducer.ts:38-39 | an unrecognised tag returns the input state |
| Reducer.ReducePreservesUniqueIds | store/reducer.ts:13-41 | from a state with unique ids, an action keeps ids unique exactly when it is not an ADD of an id already present or a LOAD_STATE of a snapshot with repeated ids |
| CareContext.Seed | store/CareContext.tsx:6-26 | the seed has four patients, all admitted before start-up, with unique ids, no actions, and the five initial departments (the details are in SeedFacts) |
| CareContext.SeedFacts | store/CareContext.tsx:6-26 | the seed has patients p1..p4 in order, admitted 7200000, 18000000, 3600000 and 28800000 ms before start-up; no actions; departments "1".."5"; the dashboard view; user "Sarah Chen"; unique ids |
| CareContext.SeedAddPatientScenario | store/reducer.ts:24-25 | adding patient p5 to the seed gives five patients with p5 first |
| CareContext.SeedDeletePatientScenario | store/reducer.ts:31-35 | deleting p2 from the seed leaves three patients, none with id p2, being p1, p3 and p4 in order |
| CareContext.Restore | store/CareContext.tsx:40-47 | the load effect loads a snapshot only from a non-empty `careflow_state` entry that parses to it, and reports a failure only for an entry that does not parse (both directions in FailedLoadKeepsSeed) |
| CareContext.MountedState | store/CareContext.tsx:36-49 | after mounting, the state is the loaded snapshot when there is one, and the seed otherwise |
| CareContext.SavedStateIsRestored | store/CareContext.tsx:39-53 | a state saved under `careflow_state` with a serialiser that `parse` inverts is exactly the state the next mount starts from |
| CareContext.FailedLoadKeepsSeed | store/CareContext.tsx:40-47 | an absent or empty entry gives nothing to load; an entry that does not parse is a load failure; in both cases the mounted state is the seed |
| CareContext.CareStore.Mount | store/CareContext.tsx:35-53 | mounting starts from the seed and loads the snapshot when a non-empty `careflow_state` entry parses; it logs "Failed to load state" once exactly when a non-empty entry does not parse, and keeps the seed whenever nothing loads; the storage afterwards is the old storage with `careflow_state` set to the serialised state |
| CareContext.CareStore.Dispatch | store/CareContext.tsx:36-53 | a dispatch sets the state to the reducer's result and writes it under `careflow_state`, except for an unrecognised tag, which writes nothing; the persisted invariant is kept |
| CareContext.CareStore.Remount | store/CareContext.tsx:39-53 | mounting a new provider over this store's storage gives a fresh store with the same serialiser, no logged error, the current state and the storage as it was, so the persisted invariant holds and dispatches can follow; this needs `parse` to invert the serialiser on that state |
| CareContext.UseCare | store/CareContext.tsx:62-66 | `useCare` fails with its message exactly when there is no provider, and otherwise returns the provider's store |
| PatientDirectory.Lower | views/Patients.tsx:18-19 | `toLowerCase` keeps the length, leaves no upper-case letter, folds A-Z down by 32 and keeps every other character |
| PatientDirectory.LowerIdempotent | views/Patients.tsx:18-19 | lower-casing twice equals lower-casing once |
| PatientDirectory.MatchesSearch | views/Patients.tsx:17-20 | the search predicate accepts every patient for the empty term (exactly characterised by MatchesSearchIffOccurs) |
| PatientDirectory.FilteredPatients | views/Patients.tsx:17-20 | the search never shows more patients than the store holds (order, soundness and completeness in FilteredPatientsSpec) |
| PatientDirectory.DirectoryView | views/Patients.tsx:17-27 | the headline count is the number of patients in the store and is at least the number of cards shown |
| PatientDirectory.MatchesSearchIffOccurs | views/Patients.tsx:17-20 | a patient matches exactly when the lower-cased term occurs in its lower-cased name or in its lower-cased room |
| PatientDirectory.FilteredPatientsSpec | views/Patients.tsx:17-20 | the search result is an order-preserving subsequence of the patients and holds exactly the matching patients (sound and complete) |
| PatientDirectory.EmptyTermShowsAll | views/Patients.tsx:17-20 | the empty search term shows every patient in order |
| PatientDirectory.SearchIgnoresCase | views/Patients.tsx:17-20 | terms that are equal once lower-cased give the same result |
| PatientDirectory.CountIsTotal | views/Patients.tsx:17-27 | the headline count is the same whatever the search term, and equals the number of cards shown exactly when every patient matches the term |
| PatientDetail.InsertNewestFirst | components/PatientDetailSheet.tsx:18 | inserting into a newest-first list gives a newest-first list with the element added |
| PatientDetail.SortNewestFirst | components/PatientDetailSheet.tsx:18 | the descending timestamp sort returns a newest-first permutation of its input |
| PatientDetail.SelectedPatient | components/PatientDetailSheet.tsx:17 | the lookup finds nothing exactly when no patient has the id, and otherwise a patient of the store with that id (the first one, by SelectedPatientIsFirst) |
| PatientDetail.Timeline | components/PatientDetailSheet.tsx:18 | the timeline is newest first and is a permutation of the patient's actions |
| PatientDetail.Awaiting | components/PatientDetailSheet.tsx:83 | the awaiting figure is at most the number of timeline entries |
| PatientDetail.DetailSheet | components/PatientDetailSheet.tsx:17-101 | nothing is rendered exactly for a null or empty id; a shown sheet holds the patient the lookup found |
| PatientDetail.SelectedPatientIsFirst | components/PatientDetailSheet.tsx:17 | the selected patient is the first with the id; there is none exactly when no patient has the id |
| PatientDetail.TimelineIsPatientsActionsNewestFirst | components/PatientDetailSheet.tsx:18 | the timeline is newest first, holds exactly the actions whose `patientId` is the id, and is a permutation of the filtered actions |
| PatientDetail.AwaitingCountsOpenActions | components/PatientDetailSheet.tsx:83 | the awaiting figure is the number of the patient's actions that are not Completed, and is at most the timeline's length |
| PatientDetail.MissingIdRendersNothing | components/PatientDetailSheet.tsx:20 | a null or empty id renders nothing |
| PatientDetail.EmptyTimelineIffNoActions | components/PatientDetailSheet.tsx:98-101 | the timeline is empty exactly when no action in the state belongs to the patient |
| PatientDetail.SheetForKnownPatient | components/PatientDetailSheet.tsx:17-101 | for a non-empty id: the empty wrapper exactly when no patient has the id, and the sheet exactly when some patient has it; then the sheet shows the first such patient and its open-action count, and the "No actions logged" message exactly when the patient has no actions, else the timeline |
| Badges.BadgeText | components/Badge.tsx:11 | the badge text is the label or the type's string, and is never empty |
| Badges.ColourClass | components/Badge.tsx:14-28 | the `switch` appends one of the four colour classes |
| Badges.BadgeClasses | components/Badge.tsx:12-28 | the classes are the base classes followed by a non-empty colour part |
| Badges.BadgeTextFallsBack | components/Badge.tsx:11 | the text is the label when it is present and non-empty, otherwise the type's string |
| Badges.BadgeClassesStartWithBase | components/Badge.tsx:12-28 | the classes start with the fixed base classes and end in one of the four colour classes |
| Badges.BadgeColours | components/Badge.tsx:14-28 | red exactly for Critical; yellow exactly for Urgent and Transfer; green exactly for Stable and Admitted; slate exactly for Observing, Discharged and Pending |

## Left out

- JSX markup, styling and animation in every component and view. The model keeps only the values the markup shows.
- The WebGL and canvas decorations (components/ui/). They use three.js from a CDN, animation loops and random colours.
- The ProgressRing arithmetic and the rest of views/Dashboard.tsx. These are floating-point SVG drawing, slices and name splitting for display.
- Real `localStorage`, `JSON.parse` and `JSON.stringify`. They are a map and two functions given to the store. A string that parses to a value that is not an `AppState` is not modelled. `JSON.parse` here either yields an `AppState` or fails.
- Storage write failures, such as a quota being exceeded. In the original they would throw out of the save effect.
- The random ids and `Date.now()` timestamps built by the patient and action forms (components/PatientModal.tsx, components/ActionModal.tsx). Payloads are arbitrary parameters of the actions. The `parseInt(...) || 0` age coercion is not modelled.
- CareContext.Seed: the original calls `Date.now()` once per seed patient. The model uses one clock reading `now` for all four.
- Numbers are integers. The original's JavaScript numbers (ages, timestamps, department counters) could hold fractions or NaN. NaN would make the timestamp comparator inconsistent.
- PatientDirectory.Lower: folds only the letters A to Z. `toLowerCase` folds all of Unicode.
- PatientDetail.SortNewestFirst: it is a stable insertion sort, as the engine's `sort` is stable, but stability is not proved. Only newest-first order and permutation are proved.
- The login flag in storage, modal and menu state, and view routing in App.tsx, views/Login.tsx, components/Header.tsx, components/Sidebar.tsx and components/GlassCard.tsx. They are UI-local state. Their only store interaction is dispatching SET_VIEW, which is covered.
- React's scheduling. Dispatches are modelled as running one at a time, in order. Subscriber notification is not modelled.
