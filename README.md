# WeekWise planner core, in Dafny

WeekWise is a weekly planner. A signed-in user sees seven day columns, Monday
through Sunday. Each column holds tasks, which can be added, ticked, renamed and
deleted, and one free-text note. The board lives in a per-user backend store.
The browser keeps the backend connection settings under the `firebaseConfig`
entry of local storage, obfuscated with an XOR cipher and base64.

This project models the logic of that system and proves properties of the model:

- **Cipher** (`Crypto`, over `Base64` and `JsText`). The cipher XORs each UTF-16
  code unit with the key, cycling through the key. Encryption applies the cipher
  and then `btoa`; decryption applies `atob` and then the cipher.
  - `btoa` follows section 4 of RFC 4648.
  - `atob` is the forgiving-base64 decode of the WHATWG Infra Standard.
  - XOR is defined on naturals, bit by bit.
- **Task container** (`Tasks`, class `TaskProvider`).
  - A snapshot of the user's `tasks` collection is grouped into seven columns.
  - The text of every task is collected for the assistant.
  - The four writes are modelled against a map from uid to collection (document
    id to record).
- **Notes container** (`Notes`, class `NoteProvider`).
  - A snapshot is mapped into seven note slots.
  - `updateNote` is a merging upsert keyed by the day's name.
- **Preference store** (`LocalStorage`, class `LocalStorageHook`). A value is
  read and written under a key of `window.localStorage`, which is a map from
  string to string. Strings are stored verbatim and other values in serialised
  form.
- **Setup screen** (`Setup`, class `SetupPage`). The six-field connection
  record: a change to one field, the completeness check on save, and the
  redirect to `/login`.
- **Connection module** (`Firebase`, class `FirebaseModule`).
  - The gate that reads and validates the stored configuration.
  - The `app`/`auth`/`firestore` handles that initialisation sets and resets.
  - The two accessors that throw while their handle is `null`.
  - The backend SDK is a set of calls whose outcomes are parameters.
- **Components**:
  - `HeaderView.Header`: the summary request and the theme toggle.
  - `TaskItemView.TaskItem`: the task row's edit state.
  - `DayColumnView.DayColumn`: the add-task field and the note editor.
  - `PlannerView.WeeklyPlanner`: the board with its suggestion rule.

`Week` holds the shared types, and `Text` models `String.prototype.trim`
(section 22.1.3.32 of ECMA-262). `Wrappers` holds `Option` and `Result`, and
`Ui` holds toasts and server-action results.

Parameters stand in for everything the code obtains from outside: JSON
parse/stringify, its snapshots, whether each SDK call throws and whether the
backend refuses each write, and the value of `Math.random()`. Callbacks a component receives are recorded as logs. Toasts
are recorded as a sequence.

Three behaviours of the code worth noting:

- `initializeFirebase` re-throws a construction failure rather than reporting
  it through a return value.
- The configuration comes only from local storage. There is no fallback to
  environment variables.
- The setup screen stores the record as plain JSON, but the connection module
  expects it encrypted. `Firebase.PlainJsonConfigDiscarded` shows such an item is
  discarded and removed. `Firebase.EncryptedConfigAccepted` shows the encrypted
  form would be accepted.

## Model

| member | source | states |
|---|---|---|
| Week.ParseDay | src/lib/types.ts:8-15 | when a stored string is read as a day, the string is that day's name |
| Week.ParseDayName | src/lib/types.ts:8-15 | every day's name is read back as that day, so a string names a day exactly when it is one of the seven names |
| Week.AllDaysComplete | src/hooks/use-tasks.tsx:32-40 | every day is among the seven keys of the board, in key order Monday to Sunday |
| Text.Trim | src/components/TaskItem.tsx:32-33 | the trimmed text neither starts nor ends with white space |
| Text.TrimShape | src/components/TaskItem.tsx:32-33 | the trimmed text is a contiguous slice of the input, and only white space is cut on either side |
| Text.TrimEmptyIffBlank | src/components/DayColumn.tsx:59 | the trimmed text is empty exactly when the input is all white space |
| Text.TrimIdempotent | src/components/TaskItem.tsx:33 | trimming twice is trimming once |
| Base64.Btoa | src/lib/crypto.ts:17 | `btoa` succeeds exactly on strings whose code units are all below 256 |
| Base64.Encode | src/lib/crypto.ts:17 | `btoa`'s output has four characters for every started group of three bytes |
| Base64.EncodeShape | src/lib/crypto.ts:17 | `btoa` output consists of alphabet characters and `=`, and its length is a multiple of four |
| Base64.JoinSplit | src/lib/crypto.ts:17-22 | the four 6-bit values of three bytes join back into those bytes, and likewise for a final pair or single byte |
| Base64.SextetsLength | src/lib/crypto.ts:17 | three bytes give four 6-bit values and a final pair or single byte three or two, so the split never leaves a lone final value |
| Base64.BytesSextets | src/lib/crypto.ts:17-22 | splitting bytes into 6-bit values is undone by joining them |
| Base64.Atob | src/lib/crypto.ts:22 | whatever `atob` returns has every code unit below 256 |
| Base64.AtobBtoa | src/lib/crypto.ts:17-22 | `atob` returns every string `btoa` accepts from its encoding |
| Base64.AtobRejectsForeignCharacter | src/lib/crypto.ts:22 | `atob` throws on any input holding a character that is not white space, `=` or in the alphabet |
| Crypto.XorSelfInverse | src/lib/crypto.ts:9 | XOR with the same operand twice restores the original value |
| Crypto.XorBelow | src/lib/crypto.ts:9-10 | XOR of two values below a power of two stays below it, so every result is a code unit |
| Crypto.Cypher | src/lib/crypto.ts:7-12 | `cypher` keeps the length, and code unit i of the result depends only on code unit i of the input and on the key at index i modulo the key length |
| Crypto.CypherInvolution | src/lib/crypto.ts:7-12 | `cypher` under any key is its own inverse; under the empty key it is the identity |
| Crypto.CypherBelow | src/lib/crypto.ts:9 | with a key below a power-of-two bound, every cypher output code unit stays below that bound |
| Crypto.SecretKeyRanges | src/lib/crypto.ts:5 | the key has 43 ASCII code units, so `cypher` maps ASCII to ASCII and keeps a string inside or outside the range `btoa` accepts |
| Crypto.Decrypt | src/lib/crypto.ts:20-24 | `decrypt` fails exactly when `atob` throws |
| Crypto.Encrypt | src/lib/crypto.ts:14-18 | `encrypt` throws exactly when the enciphered text leaves the Latin-1 range that `btoa` accepts |
| Crypto.EncryptShape | src/lib/crypto.ts:14-18 | `encrypt` succeeds exactly on code units below 256, and then yields padded base64 in a length that is a multiple of four |
| Crypto.DecryptEncrypt | src/lib/crypto.ts:14-24 | `decrypt(encrypt(s)) == s` for every string `encrypt` accepts |
| Crypto.DecryptRejectsJsonObjectText | src/lib/crypto.ts:22 | `decrypt` fails on any text holding `{` |
| Tasks.InitialTasksEmpty | src/hooks/use-tasks.tsx:32-40 | the initial board has all seven columns, each empty |
| Tasks.Grouped | src/hooks/use-tasks.tsx:63-67 | a snapshot's board has a column for each of the seven days |
| Tasks.GroupedEmpty | src/hooks/use-tasks.tsx:63-67 | an empty snapshot gives the initial board |
| Tasks.GroupedSnoc | src/hooks/use-tasks.tsx:69-73 | one more document of the snapshot goes to the end of the column its day names, and nowhere when that names no day |
| Tasks.BucketAppend | src/hooks/use-tasks.ts:56-60 | grouping respects concatenation, so every column keeps snapshot order |
| Tasks.BucketMembers | src/hooks/use-tasks.ts:56-60 | a column holds a task exactly when a document with that day produced it |
| Tasks.EveryDocPlacedOnce | src/hooks/use-tasks.ts:56-60 | every document is placed in exactly one column or counted as having an unknown day, so nothing is duplicated or lost |
| Tasks.UnknownDayDropped | src/hooks/use-tasks.tsx:70 | a document whose day names no day appears in no column |
| Tasks.FlattenPush | src/components/Header.tsx:60 | pushing one task to a column adds exactly one task to the flattened board |
| Tasks.Flatten | src/components/Header.tsx:60 | the flattened board holds a task exactly when some column holds it |
| Tasks.FindTask | src/hooks/use-tasks.tsx:99 | the lookup finds nothing exactly when no task of the column has the id; otherwise it finds a task of the column with that id |
| Tasks.Added | src/hooks/use-tasks.tsx:89-94 | `addDoc` adds one document under the new id, with the text, the day's name and `completed` false, and leaves every other document as it was |
| Tasks.SetCompleted | src/hooks/use-tasks.tsx:102 | the toggle write changes only the `completed` field of the one document |
| Tasks.SetText | src/hooks/use-tasks.tsx:114 | the rename write changes only the `text` field of the one document |
| Tasks.Deleted | src/hooks/use-tasks.tsx:108 | the delete removes exactly the document with that id and keeps the rest unchanged |
| Tasks.MirrorColumnIds | src/hooks/use-tasks.tsx:60-73 | in a snapshot listing the collection, a column holds an id exactly when the stored record of that id has that day |
| Tasks.MirrorFind | src/hooks/use-tasks.tsx:60-73 | in such a snapshot, looking up a stored id in its day's column gives the stored fields |
| Tasks.SnapshotMirrorsCollection | src/hooks/use-tasks.ts:47-62 | the board such a snapshot produces shows each stored task in the column of its day, with its stored fields |
| Tasks.GroupAsWritten | src/hooks/use-tasks.tsx:69-73 | the grouping loop as written either throws or yields a record with all seven columns |
| Tasks.GroupAsWrittenThrows | src/hooks/use-tasks.tsx:70-71 | the loop as written throws exactly when some document's day is a property name every object inherits |
| Tasks.GroupAsWrittenSnoc | src/hooks/use-tasks.tsx:69-73 | the loop as written fails on one more document exactly when it had already failed or that document's day is an inherited property name |
| Tasks.GroupAsWrittenAgrees | src/hooks/use-tasks.tsx:69-73 | when the loop as written does not throw, it builds the intended board |
| Tasks.ConstructorDayThrows | src/hooks/use-tasks.tsx:70-71 | one stored task with day "constructor" makes the loop as written throw, whereas the intended grouping just drops it |
| Tasks.FreshId | src/hooks/use-tasks.tsx:89 | the id a new document receives is not the id of any existing document |
| Tasks.TaskProvider.constructor | src/hooks/use-tasks.tsx:44-46 | the first render shows no user, the initial board, loading, and no texts |
| Tasks.TaskProvider.UserChanged | src/hooks/use-tasks.tsx:48-56 | without a user, the board resets to the initial one, the texts empty and loading ends; with a user, loading starts |
| Tasks.TaskProvider.OnSnapshot | src/hooks/use-tasks.tsx:60-77 | after a snapshot the board is its grouping, the texts are the snapshot's texts in order (unknown days included), and loading has ended |
| Tasks.TaskProvider.OnSnapshotError | src/hooks/use-tasks.tsx:78-81 | a subscription error ends loading and leaves the board as it was |
| Tasks.TaskProvider.AddTask | src/hooks/use-tasks.tsx:86-95 | without a user nothing is written; a refused `addDoc` rejects and leaves the store unchanged; otherwise one new uncompleted record under an unused id is added to that user's collection, and an id is returned exactly then |
| Tasks.TaskProvider.ToggleTask | src/hooks/use-tasks.tsx:97-103 | no write without a user or when the id is not in the day's column as displayed; a refused write or a missing document rejects and leaves the store unchanged; otherwise `completed` becomes the negation of the displayed value |
| Tasks.TaskProvider.DeleteTask | src/hooks/use-tasks.tsx:105-109 | with a user and an accepted write, exactly that document is removed (a missing one included); a refused write rejects and changes nothing; without a user nothing changes |
| Tasks.TaskProvider.UpdateTask | src/hooks/use-tasks.tsx:111-115 | with a user, only the text of that document changes; a refused write or a missing document rejects and leaves the store unchanged |
| Tasks.SetCompletedTwice | src/hooks/use-tasks.ts:89 | negating `completed` and then restoring the old value leaves the collection as it was |
| Tasks.ToggleTwiceRestores | src/hooks/use-tasks.ts:84-90 | toggling a displayed task, resynchronising and toggling again restores the original collection |
| Tasks.ListingSize | src/hooks/use-tasks.tsx:61 | a snapshot listing a collection has exactly one document per stored record |
| Tasks.AddToggleRenameDelete | src/hooks/use-tasks.ts:73-102 | adding, ticking, renaming and deleting a Monday task shows it on Monday with each change in turn and then leaves the column empty |
| Notes.InitialNotesEmpty | src/hooks/use-notes.tsx:24-32 | the initial record has all seven slots, each `null` |
| Notes.NotesOf | src/hooks/use-notes.tsx:48 | a snapshot's record has a slot for each of the seven days |
| Notes.NotesOfSnoc | src/hooks/use-notes.tsx:49-52 | one more document overwrites the slot its note id names, and no day slot changes when the id names no day |
| Notes.SlotFilled | src/hooks/use-notes.tsx:49-52 | after the overwriting scan, a day's entry is filled exactly when some element was assigned to that day |
| Notes.SlotIsLastAssigned | src/hooks/use-notes.tsx:49-52 | a filled entry holds an element assigned to its day, and no later element is assigned to that day |
| Notes.SnapshotMirrorsNotes | src/hooks/use-notes.tsx:47-54 | a snapshot listing a well-keyed collection shows the stored note of each day, and `null` for a day without one |
| Notes.Upsert | src/hooks/use-notes.tsx:65-70 | afterwards the day's document exists with id the day's name and the new content, keeps its other stored fields, and every other document is unchanged |
| Notes.UpsertWellKeyed | src/hooks/use-notes.tsx:66-67 | the upsert keeps every stored id field equal to its document id |
| Notes.UpdateThenSnapshot | src/hooks/use-notes.tsx:63-71 | after `updateNote(day, c)` the next snapshot shows content c on that day with the old extra fields, and every other day as before |
| Notes.DayNameInjective | src/lib/types.ts:8-15 | distinct days have distinct names, so upserts for different days touch different documents |
| Notes.NoteProvider.constructor | src/hooks/use-notes.tsx:36 | the first render has no user and no record |
| Notes.NoteProvider.UserChanged | src/hooks/use-notes.tsx:38-42 | without a user, every slot is `null` |
| Notes.NoteProvider.OnSnapshot | src/hooks/use-notes.tsx:47-54 | after a snapshot, the record is the snapshot's mapping |
| Notes.NoteProvider.OnSnapshotError | src/hooks/use-notes.tsx:55-58 | a subscription error resets every slot to `null` |
| Notes.NoteProvider.UpdateNote | src/hooks/use-notes.tsx:63-71 | the write happens exactly when there is a user and the backend accepts it, and then the upsert is applied to that user's notes; otherwise the store is unchanged |
| LocalStorage.ReadValueFallsBack | src/hooks/useLocalStorage.ts:9-26 | without a window or a stored item the initial value is read, a text that does not parse reads as the initial value, and a string hook reads the raw text |
| LocalStorage.ReadValue | src/hooks/useLocalStorage.ts:9-26 | a value other than the initial one is read only from a stored item with a window, and a hook whose initial value is a string always reads a string |
| LocalStorage.Serialize | src/hooks/useLocalStorage.ts:47 | only a value that is not a string can fail to serialise; a string is stored as it is |
| LocalStorage.WriteThenRead | src/hooks/useLocalStorage.ts:47-48 | what a write stores, a read returns: a string verbatim under a string hook, other values through a parser that inverts the serialiser |
| LocalStorage.StringUnderDataHook | src/hooks/useLocalStorage.ts:20-21 | a string written under a hook whose initial value is not a string is read back through the parser |
| LocalStorage.LocalStorageHook.constructor | src/hooks/useLocalStorage.ts:28 | the first render shows the initial value |
| LocalStorage.LocalStorageHook.Sync | src/hooks/useLocalStorage.ts:32-34 | the mount effect and the storage listeners set the value to what the store reads |
| LocalStorage.LocalStorageHook.SetValue | src/hooks/useLocalStorage.ts:36-61 | an updater is applied to the current value; with a window, a serialisable value and a `setItem` that does not throw, the text is stored and the hook's own `local-storage` listener makes current what the store reads back, which is the new value whenever the text reads back to it; otherwise neither the store nor the value changes |
| Setup.InitialConfigShape | src/app/setup/page.tsx:20-27 | the initial record has exactly the six field names, all empty |
| Setup.WithField | src/app/setup/page.tsx:39 | the field named by the input id takes the new value and every other field keeps its own |
| Setup.HasEmptyField | src/app/setup/page.tsx:44 | the check fails a record exactly when one of its values is the empty string |
| Setup.CompletenessCheck | src/app/setup/page.tsx:44 | the initial record fails the check, and a record with all six fields filled passes it |
| Setup.StricterThanLoadGate | src/app/setup/page.tsx:44-51 | a record that holds both `apiKey` and `projectId` and passes the completeness check has both non-empty; a record with both non-empty can still fail the check, and the empty record `{}` passes it without either field |
| Setup.SetupPage.constructor | src/app/setup/page.tsx:20-27 | the page binds the `firebaseConfig` entry with the six empty fields as its initial value |
| Setup.SetupPage.HandleChange | src/app/setup/page.tsx:37-40 | one field is replaced on top of the current record and written through the preference store; the record then shown is the one read back, which is the new record whenever its JSON text parses back to it |
| Setup.SetupPage.HandleSave | src/app/setup/page.tsx:42-62 | an empty field shows the error toast and nothing else happens; otherwise the confirmation is shown and the redirect to `/login` is scheduled, with no further write |
| Firebase.ConfigAcceptedIff | src/lib/firebase.ts:11-32 | a config is returned exactly when there is a window and a stored item that decrypts to non-empty text parsing to an object with truthy `apiKey` and `projectId`; it is that object, and the item is kept |
| Firebase.ConfigRemovedIff | src/lib/firebase.ts:16-29 | the item is removed exactly when decryption fails, yields nothing, or does not parse to a readable value; a parsed value lacking the two fields is kept |
| Firebase.ReadConfig | src/lib/firebase.ts:11-32 | a returned config always has truthy `apiKey` and `projectId` and keeps the stored item, and an item is removed only when a non-empty one was stored and a window exists |
| Firebase.EncryptedConfigAccepted | src/lib/firebase.ts:16-25 | an item stored as the encryption of a valid config's JSON text is accepted |
| Firebase.PlainJsonConfigDiscarded | src/lib/firebase.ts:16-29 | an item holding JSON object text in plain form is discarded and removed |
| Firebase.FirebaseModule.constructor | src/lib/firebase.ts:7-9 | all three handles start `null` |
| Firebase.FirebaseModule.GetFirebaseConfig | src/lib/firebase.ts:11-32 | returns the gate's config and removes the stored item exactly when the gate says so |
| Firebase.FirebaseModule.InitializeFirebase | src/lib/firebase.ts:34-63 | without an app but with a config, the three handles are built from it, and any failure resets all three and is rethrown; otherwise the handles are re-derived from an existing default app, or nothing changes |
| Firebase.FirebaseModule.GetFirebaseAuth | src/lib/firebase.ts:65-70 | throws the not-initialised error while the handle is `null`, and returns it unchanged otherwise |
| Firebase.FirebaseModule.GetFirebaseFirestore | src/lib/firebase.ts:72-77 | throws the not-initialised error while the handle is `null`, and returns it unchanged otherwise |
| Firebase.InitializeTwice | src/lib/firebase.ts:37-62 | with a working SDK, a second call keeps the app the first built and re-derives the same handles |
| HeaderView.PartitionCounts | src/components/Header.tsx:60-64 | the completed and incomplete lists together have one entry per task, and both are empty only on an empty board |
| HeaderView.PartitionMembers | src/components/Header.tsx:61-62 | a text is in the completed list exactly when some completed task has it, and likewise for the incomplete list |
| HeaderView.CompletedTexts | src/components/Header.tsx:61 | the completed list is no longer than the board and is empty exactly when no task is completed |
| HeaderView.IncompleteTexts | src/components/Header.tsx:62 | the incomplete list is no longer than the board and is empty exactly when every task is completed |
| HeaderView.NextTheme | src/components/Header.tsx:38 | the toggle gives "dark" exactly from "light", and "light" from anything else |
| HeaderView.ThemeToggleTwice | src/components/Header.tsx:38 | toggling twice returns to "light" or "dark" |
| HeaderView.Header.constructor | src/components/Header.tsx:50-52 | the dialog starts closed, with no summary and not loading |
| HeaderView.Header.BeginSummary | src/components/Header.tsx:56-74 | loading starts and the summary clears; an empty board shows the no-tasks toast, ends loading and sends nothing; otherwise the request carries the completed and incomplete texts |
| HeaderView.Header.FinishSummary | src/components/Header.tsx:74-85 | a summary is shown in the opened dialog, a failure shows the error toast and leaves the dialog as it was, and loading ends on both paths |
| TaskItemView.TaskItem.constructor | src/components/TaskItem.tsx:20-21 | the row starts not editing, with its edit text equal to the task's text |
| TaskItemView.TaskItem.StartEditing | src/components/TaskItem.tsx:88 | the edit button enters editing mode |
| TaskItemView.TaskItem.EditChange | src/components/TaskItem.tsx:58 | the edit text becomes what was typed |
| TaskItemView.TaskItem.TaskPropChanged | src/components/TaskItem.tsx:19-21 | a new task prop does not reset the edit text |
| TaskItemView.TaskItem.HandleUpdate | src/components/TaskItem.tsx:31-36 | a non-blank edit is passed on trimmed, with no white space at either end, and editing ends; a blank one makes no call and editing stays on |
| TaskItemView.TaskItem.HandleCancel | src/components/TaskItem.tsx:38-41 | the edit text is restored to the task's text and editing ends |
| TaskItemView.TaskItem.HandleKeyDown | src/components/TaskItem.tsx:43-49 | Enter acts as save, Escape acts as cancel, and any other key changes nothing |
| DayColumnView.ContentOrEmpty | src/components/DayColumn.tsx:39 | the note's content, or the empty string when there is no note |
| DayColumnView.DayColumn.constructor | src/components/DayColumn.tsx:38-39 | the add-task field starts empty and the note editor starts with the note's content |
| DayColumnView.DayColumn.NotePropChanged | src/components/DayColumn.tsx:42-46 | a new note prop resets the editor to its content |
| DayColumnView.DayColumn.HandleNoteChange | src/components/DayColumn.tsx:48-54 | the editor shows the new value, and exactly that value is forwarded |
| DayColumnView.DayColumn.NewTaskChange | src/components/DayColumn.tsx:115 | the add-task field becomes what was typed |
| DayColumnView.DayColumn.HandleAddTask | src/components/DayColumn.tsx:57-63 | a non-blank input is added trimmed and the field is cleared; a blank input is left as it is and nothing is added |
| PlannerView.DaysOfWeekOnce | src/components/WeeklyPlanner.tsx:12-20 | the board lists the seven days once each, Monday to Sunday |
| PlannerView.RandomIndex | src/components/WeeklyPlanner.tsx:51 | the index drawn from a value in [0, 1) is always inside the list |
| PlannerView.PickSuggestion | src/components/WeeklyPlanner.tsx:50-51 | a suggestion is picked exactly when the action succeeded with a non-empty list, and it is an element of that list |
| PlannerView.FailureMessage | src/components/WeeklyPlanner.tsx:60 | the failure toast shows the action's error when it is non-empty, and the fixed fallback text otherwise |
| PlannerView.TasksFor | src/components/WeeklyPlanner.tsx:80 | a missing board or column is shown as an empty list |
| PlannerView.NoteFor | src/components/WeeklyPlanner.tsx:81 | a missing record or slot is shown as no note |
| PlannerView.WeeklyPlanner.constructor | src/components/WeeklyPlanner.tsx:22-25 | the board starts with no toasts |
| PlannerView.WeeklyPlanner.HandleSuggestTask | src/components/WeeklyPlanner.tsx:47-64 | a picked suggestion is added as exactly one task on the requested day unless there is no user or the write is refused, and the confirmation toast is shown either way; otherwise no task is added and the failure toast is shown |

## Left out

- Signing in and out (`src/hooks/use-auth.tsx` and the header's sign-out) is not part of this model. The signed-in uid comes in through `UserChanged`.
- The AI flows and the try/catch wrappers in `src/app/actions.ts` are not part of this model; only the shape of their results is.
- Routing and rendering shells, markup, the theme library and the toast service are not part of this model. Toasts and the scheduled redirect are recorded as state.
- `src/hooks/use-debounce.ts` is not part of this model; it is a timer helper that nothing calls.
- Real-time delivery, subscriptions and their cancellation, `createdAt`/`updatedAt` timestamps and offline persistence are not modelled. A snapshot is a parameter, and the ordering by `createdAt` is whatever order the snapshot lists.
- `enableIndexedDbPersistence`: its rejection is only logged and changes no handle, so it is not modelled.
- JSON parse and stringify are parameters, and so are whether each SDK call throws and whether the backend refuses each write. Why a write is refused (security rules, connectivity) is not modelled. When a write would be both refused and aimed at a missing document, the model reports the refusal.
- Tasks.FreshId: it returns a deterministic id longer than every existing one. The backend draws a random id, and the model keeps only that the id is unused.
- Tasks.TaskProvider.OnSnapshot: a stored task's data is assumed to carry no `id` field of its own. The spread `{ id: doc.id, ...doc.data() }` would let such a field override the document id, and the notes model does cover that case.
- Tasks.TaskProvider.OnSnapshot uses the corrected grouping `Tasks.Grouped`. As written, the handler throws at src/hooks/use-tasks.tsx:71 on a document whose day is a name every object inherits, before any of the three state updates at lines 75-77, so the board, the texts and the loading flag all stay as they were (and loading stays on after a first snapshot). `Tasks.GroupAsWrittenThrows` and `Tasks.ConstructorDayThrows` state when this happens.
- Tasks.GroupAsWritten models the throw only for day names inherited from `Object.prototype`. A day whose stored value is not a string is not modelled, because day fields are modelled as strings.
- Firebase.FirebaseModule.InitializeFirebase: `initializeApp` succeeding or throwing is a free parameter. The SDK's own rule is not modelled: when a default app is already registered, it returns that app for equal options and throws `app/duplicate-app` for different ones. This can arise after a `getAuth` failure has reset the module's handle while the default app stays registered.
- PlannerView.RandomIndex: `Math.random()` is a real in [0, 1) and the product is exact. Floating-point rounding is not modelled.
- LocalStorage.ReadValue: a `getItem` that throws is not modelled. Its catch falls back to the initial value, the same as a missing item.
- Setup.WithField: a stored value that parses to a string contributes no properties. JavaScript would spread it into index keys.
- Setup.HasEmptyField: a stored item that parses to `null`, or to a record with values other than strings, is not represented. The page would throw on `config.apiKey` in its markup and on `Object.values(null)` in `handleSave`; the model's record is always a map from names to strings.
- Setup.StricterThanLoadGate: it speaks only of records that hold both `apiKey` and `projectId`, as every record the page builds from its initial value does. A record missing a field, such as `{}`, passes the completeness check and still fails the connection module's gate.
- Firebase: property values other than strings are reduced to their truthiness. Text is a UTF-16 code unit sequence where it meets the cipher and storage, and a plain Dafny string elsewhere.
- The planner's skeleton depends only on the tasks' loading flag. The notes container exposes no `loading`, so `notesLoading` is always `undefined`; this is rendering and is not modelled.
- Module exports are not modelled. `auth` and `firestore` are imported elsewhere but not exported by `src/lib/firebase.ts`, so handles appear only as module state and accessors.

## Findings

| source | as written | input that shows it | evidently intended | confidence | as-written member | corrected member |
|---|---|---|---|---|---|---|
| src/hooks/use-tasks.tsx:70-71 (also src/hooks/use-tasks.ts:57-58) | `if (groupedTasks[task.day])` tests a property of a plain object, which is also truthy for names every object inherits, so `.push` is then called on a function and throws a TypeError inside the snapshot handler | one stored task with `day: "constructor"` | a document whose day is not one of the seven days is skipped, and the other documents are grouped | not executed | Tasks.GroupAsWritten, Tasks.ConstructorDayThrows | Tasks.Grouped, Tasks.GroupAsWrittenAgrees |
