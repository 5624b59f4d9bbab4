# LongevityAI task lifecycle, in Dafny

LongevityAI is a React Native task manager. A signed-in user creates
tasks with a title, a description, a priority and an expiry time. A task is
`pending` until it is completed or its expiry time passes, and then it is
`expired`. The task store keeps each user's tasks in a key-value storage
under `"tasks_" + userId`. It expires overdue tasks when it loads them, and
again on a one-minute sweep.

This project models the following parts of the app and proves properties
about them:

- **Task store** (`contexts/TaskContext.js`, module `Tasks`): the class
  `TaskStore` holds the store's fields `user`, `tasks`, `storage`, `loading`
  and `error`. Its methods are loading, saving, add, update, complete,
  delete, the expiry sweep and clear. The store's queries are functions:
  `FilterTasks` and `TaskById`.
- **Task list** (`app/home.js`, module `Home`):
  - the title search;
  - the three-tier sort comparator, and an in-place sort of an array by it;
  - where a press on a task leads;
  - the delete and warning dialogs, as the class `HomeScreen`.
- **Task card** (`components/tasks/TaskCard.js`, module `TaskCard`):
  - the countdown's day/hour/minute/second decomposition and its
    `HH:MM:SS` text;
  - the one-second interval, as the class `Countdown`;
  - the three colour functions and the buttons a card offers.
- **Create form** (`app/tasks/create.js`, module `CreateTask`): the
  per-field errors, the validity of the form, and the object that submitting
  hands to `addTask`.
- **Login** (`app/login.js`, module `Login`):
  - the email test `/\S+@\S+\.\S+/`, written as a one-pass scan and proved
    equal to the existential reading of the pattern;
  - the order of the checks and what an attempt leaves on screen.
- **Signup** (`app/signup.js`, module `Signup`): its two checks and the
  state an attempt leaves.
- **Date/time picker** (`components/common/DateTimePickerButton.js`,
  module `DatePicker`): the two-step date-then-time selection on Android
  and on iOS.

Supporting modules:

- `Wrappers` holds `Option` and `Result`.
- `Sequences` holds `Keep`, which is `Array.prototype.filter`, and its facts.
- `Text` holds the JavaScript string operations the screens use:
  - `trim`, over the ECMAScript whitespace set;
  - ASCII `toLowerCase` and `includes`;
  - `length`, counted in UTF-16 units;
  - `toString` of whole numbers and `padStart`.

Outside inputs become parameters:

- The clock is a `now: int` of milliseconds; the id from `Date.now()` is an
  `id` argument.
- Whether a storage read, write or remove succeeds is a `readOk`, `writeOk`
  or `removeOk` flag.
- Whether `signIn` resolves is a `signInOk` flag.
- A timer callback is a method the caller invokes when the timer fires:
  `CheckExpiredTasks`, `Countdown.Tick` and `DateTimePickerButton.ReopenForTime`.

The code behaves in a few ways that are easy to misread. The model keeps
each of them as written:

- **Load write-back.** `loadTasks` writes expired tasks back only if the
  mapped array's length differs from the stored one. A `map` never changes
  the length, so the load never writes back (`Tasks.TaskStore.Load`).
- **Load with no stored key.** An absent key leaves the in-memory
  collection as it was; it is not reset to empty.
- **Fields of a new task.** `addTask` sets no `updatedAt`. Its spread comes
  last, so the caller's data can override `status`, `id` and `userId`.
- **A failed add.** When the write fails, `addTask` still returns the new
  task, because `saveTasks` swallows the error. The in-memory collection is
  not updated.
- **Completing a task.** `completeTask` has no status guard: completing an
  expired or completed task stamps it again.
- **A passed expiry can be submitted.** The errors are recomputed when the
  texts, the expiry or `touched` change, and the validity when the texts,
  the expiry or `loading` change, each at its own clock reading. Pressing Create after the expiry
  has passed shows the date error, yet the stale validity still lets
  `addTask` run with the past expiry
  (`CreateTask.StaleValidityAdmitsPastExpiry`,
  `CreateTask.CreateTaskScreen.HandleCreateTask`).
- **Order of finished tasks.** The list orders them by `expiryTime`, not by
  `expiredAt`.

## Model

| member | source | states |
|---|---|---|
| Tasks.StorageKeyInjective | contexts/TaskContext.js:46 | distinct users get distinct storage keys `"tasks_" + id` |
| Tasks.NewTaskFields | contexts/TaskContext.js:85-91 | a new task has the given id, the user's id, `createdAt = now` and status pending unless the data supplies one; every supplied field wins over the defaults |
| Tasks.FindIndex | contexts/TaskContext.js:104 | `findIndex`: -1 exactly when no task has the id, otherwise the first index holding it |
| Tasks.UpdateChangesOnlyFirstMatch | contexts/TaskContext.js:104-112 | an update fails exactly when the id is absent; otherwise only the first task with the id changes, to the merge of it with the data and `updatedAt = now`, and the length is kept |
| Tasks.CompletionIgnoresStatus | contexts/TaskContext.js:134-139 | completion sets status completed, `completedAt` and `updatedAt` to now whatever the task's current status |
| Tasks.DeleteKeepsOthers | contexts/TaskContext.js:125 | deletion leaves an order-preserving subsequence with no task of that id and every task of another id, each as often as before; it changes nothing exactly when the id is absent |
| Tasks.SweepTasks | contexts/TaskContext.js:147-164 | the loop yields every task expired if overdue and unchanged otherwise, and `hasChanges` is set exactly when some pending task has `expiryTime <= now` |
| Tasks.SweepEffect | contexts/TaskContext.js:151-163 | an overdue task becomes expired with `expiredAt = now` and its other fields kept; any other task is untouched; no swept task is overdue |
| Tasks.SweepChangesIffOverdue | contexts/TaskContext.js:149-166 | the sweep changes the collection exactly when some task is overdue |
| Tasks.SweepIdempotent | contexts/TaskContext.js:147-169 | a second sweep at the same instant finds nothing overdue and changes nothing |
| Tasks.SweepKeepsFinishedTasks | contexts/TaskContext.js:152-155 | expired and completed tasks are never touched by the sweep |
| Tasks.LoadIsSweepWithoutStamp | contexts/TaskContext.js:50-58 | the load-time mapping keeps the length and agrees with the sweep except that it stamps no `expiredAt` |
| Tasks.FilterProperties | contexts/TaskContext.js:171-190 | a filter returns an order-preserving subsequence holding exactly the matching tasks, each as often as in the collection; an unknown filter returns the collection itself |
| Tasks.StatusFilterMeaning | contexts/TaskContext.js:174-179 | the three status filters test exactly the status |
| Tasks.StatusFiltersPartition | contexts/TaskContext.js:171-190 | with known statuses, the pending, expired and completed views are disjoint and together hold every task as often as it occurs |
| Tasks.TaskById | contexts/TaskContext.js:192-194 | `find`: none exactly when no task has the id, otherwise the first task holding it |
| Tasks.TaskStore.constructor | contexts/TaskContext.js:21-24 | the store starts with no tasks, loading true and no error |
| Tasks.TaskStore.Save | contexts/TaskContext.js:73-81 | a successful write replaces the stored and the in-memory collection; a failed one, or one without a user, changes neither and records "Failed to save tasks" without rethrowing |
| Tasks.TaskStore.Load | contexts/TaskContext.js:43-71 | a failed read records "Failed to load tasks"; an absent key keeps the collection; a present one is loaded with overdue tasks expired; storage is never written; loading ends false |
| Tasks.TaskStore.UserChanged | contexts/TaskContext.js:27-33 | signing out empties the collection; signing in loads that user's collection |
| Tasks.TaskStore.AddTask | contexts/TaskContext.js:83-100 | without a user it throws and records "Failed to add task"; otherwise it returns the new task, appended after every earlier task when the write succeeds and not added when it fails |
| Tasks.TaskStore.UpdateTask | contexts/TaskContext.js:102-121 | an absent id throws "Task not found" with the collection and storage unchanged and records "Failed to update task"; otherwise it returns the merged task and saves the updated collection |
| Tasks.TaskStore.CompleteTask | contexts/TaskContext.js:134-145 | an update with completed status and `completedAt = now`; an absent id rethrows and records "Failed to complete task" |
| Tasks.TaskStore.DeleteTask | contexts/TaskContext.js:123-132 | saves the collection without the id's tasks and never throws |
| Tasks.TaskStore.CheckExpiredTasks | contexts/TaskContext.js:147-169 | with nothing overdue nothing changes and nothing is written; otherwise the swept collection is saved in one write |
| Tasks.TaskStore.ClearAllTasks | contexts/TaskContext.js:196-205 | removes the user's key and empties the collection; without a user or on a failed remove it throws and records "Failed to clear tasks" with nothing changed |
| Sequences.Keep | contexts/TaskContext.js:172 | `filter` keeps only elements of the input that pass the test, and is no longer than it |
| Sequences.KeepIsSubsequence | contexts/TaskContext.js:172 | `filter` preserves the order of what it keeps |
| Sequences.KeepRetains | contexts/TaskContext.js:172 | every element that passes the test is kept |
| Sequences.KeepAll | contexts/TaskContext.js:186-187 | `filter` returns its input exactly when every element passes |
| Sequences.KeepMultiset | contexts/TaskContext.js:172 | each passing element is kept as often as it occurs, each failing one never |
| Text.Trim | app/tasks/create.js:26-45 | `trim` is empty exactly when the string is all whitespace, and otherwise starts and ends with a non-whitespace character |
| Text.TrimCutsEnds | app/tasks/create.js:64-65 | `trim` removes only whitespace, and only from the two ends |
| Text.ToLower | app/home.js:56 | `toLowerCase` keeps the length, turns each ASCII capital into the small letter at the same alphabet position and leaves every other character alone |
| Text.ToLowerIdempotent | app/home.js:56 | a lowered string has no capitals, and lowering it again changes nothing |
| Text.ToLowerIgnoresCase | app/home.js:56 | two strings that differ only in the case of their letters lower to the same string |
| Text.Utf16Length | app/login.js:33 | a JavaScript `length` is the number of characters plus the number of positions holding a character above U+FFFF, so it equals the number of characters exactly when there are none above U+FFFF |
| Text.IncludesEmpty | app/home.js:56 | every string includes the empty string |
| Text.NatToString | components/tasks/TaskCard.js:58-59 | `toString` of a whole number is digits only, with no leading zero, one digit exactly below ten |
| Text.NatToStringRoundTrip | components/tasks/TaskCard.js:58-59 | reading the decimal text back gives the number |
| Text.PadStart | components/tasks/TaskCard.js:59-61 | `padStart` fills in front up to the width and keeps the string as its suffix |
| Home.EmptyQueryKeepsAll | app/home.js:55-57 | an empty search keeps the whole filtered list, in order |
| Home.SearchIgnoresCase | app/home.js:56 | the search gives the same answer for a title or query that differs only in letter case |
| Home.SearchOfFilter | app/home.js:55-57 | a task is listed exactly when it is in the collection, passes the filter and its lower-cased title includes the lower-cased query |
| Home.CompareAntisymmetric | app/home.js:60-72 | swapping the comparator's arguments flips its sign |
| Home.LeTotalPreorder | app/home.js:60-72 | the comparator's order is reflexive, total and transitive |
| Home.SortedOrder | app/home.js:60-72 | in the sorted list pending tasks come first, by ascending `expiryTime`; the rest follow by descending `expiryTime` |
| Home.Swap | app/home.js:60 | exchanges two elements and keeps the multiset |
| Home.SortTasks | app/home.js:60-72 | sorting leaves the array ordered by the comparator and a permutation of its input |
| Home.DisplayedTasks | app/home.js:54-75 | the shown list is sorted, and it is a permutation of the search over the filter |
| Home.PressRoute | app/home.js:41-50 | an expired task leads nowhere; any other leads to `/tasks/<id>` |
| Home.HomeScreen.constructor | app/home.js:29-39 | both dialogs start hidden, with no task chosen |
| Home.HomeScreen.HandlePress | app/home.js:41-50 | an expired task shows the warning dialog; any other navigates and leaves the dialogs alone |
| Home.HomeScreen.HandleConfirmWarningDialog | app/home.js:85-91 | hides the warning dialog |
| Home.HomeScreen.HandleDeletePress | app/home.js:77-83 | shows the delete dialog for that task |
| Home.HomeScreen.HandleCancelDelete | app/home.js:108-114 | hides the delete dialog and forgets the task |
| Home.HomeScreen.HandleConfirmDelete | app/home.js:93-106 | deletes the chosen task, or saves the collection unchanged when none is chosen, and always ends with the dialog hidden and no task chosen |
| TaskCard.Decompose | components/tasks/TaskCard.js:50-53 | the days, hours below 24, minutes and seconds below 60 add up to the difference, less under one second |
| TaskCard.DecomposeSound | components/tasks/TaskCard.js:50-53 | the floor-division fields are in range and account for all but the last partial second |
| TaskCard.Pad2Properties | components/tasks/TaskCard.js:59-67 | a padded field is at least two digits, the plain number from ten on, reads back as the number and is two characters below 100 |
| TaskCard.ClockRoundTrip | components/tasks/TaskCard.js:59-67 | `HH:MM:SS` is eight characters with colons at 2 and 5, and its three fields read back |
| TaskCard.ClockStartsWithDigit | components/tasks/TaskCard.js:65-67 | the clock text starts with a digit |
| TaskCard.DayLabelPlural | components/tasks/TaskCard.js:58 | "day" exactly for one day, "days" otherwise, after the number |
| TaskCard.CountdownText | components/tasks/TaskCard.js:41-70 | "EXPIRED" exactly when the deadline has passed; a second line exactly from one day on |
| TaskCard.RunningText | components/tasks/TaskCard.js:49-70 | before the deadline the text starts with a digit, and has a second line exactly from one day on |
| TaskCard.RunningTextFormat | components/tasks/TaskCard.js:50-70 | from one day on the first line starts with digits reading back as the whole days, then " day" exactly for one day and " days" otherwise, and the second line is an `HH:MM:SS` whose fields, under 24, 60 and 60, add to the days to within a second below the difference; under one day the first line is such a clock of the difference itself and there is no second line |
| TaskCard.Countdown.constructor | components/tasks/TaskCard.js:35-38 | the interval runs only for a pending task; the text starts empty |
| TaskCard.Countdown.Tick | components/tasks/TaskCard.js:38-71 | each tick sets the text for `expiryTime - now` and clears the interval once the deadline has passed |
| TaskCard.TimeLeftColor | components/tasks/TaskCard.js:86-96 | grey unless pending; green from three days left, blue from two, orange from one, red below one |
| TaskCard.PriorityColor | components/tasks/TaskCard.js:12-21 | red exactly for high, orange exactly for medium, green otherwise |
| TaskCard.StatusColor | components/tasks/TaskCard.js:23-32 | green exactly for completed, red exactly for expired, blue otherwise |
| TaskCard.Actions | components/tasks/TaskCard.js:120-139 | delete is always offered, complete exactly for a pending task |
| CreateTask.Errors | app/tasks/create.js:23-39 | a field reports its message exactly when it is touched and blank, or for the date not in the future |
| CreateTask.IsValid | app/tasks/create.js:42-49 | valid exactly when title and description are not blank, the expiry is in the future and nothing is submitting |
| CreateTask.ValidIffNoErrors | app/tasks/create.js:23-49 | evaluated at one instant, with every field touched, the form is valid exactly when it shows no error and is not submitting |
| CreateTask.StaleValidityAdmitsPastExpiry | app/tasks/create.js:23-49 | a validity memo taken before the expiry passed still accepts the form when the errors, recomputed later at submit, show only "Expiry time must be in the future" |
| CreateTask.Payload | app/tasks/create.js:63-68 | the submitted object supplies title, description, priority and expiry, and no status |
| CreateTask.CreatedTaskIsPending | app/tasks/create.js:63-68 | a task created from the form is pending, owned by the user and holds the trimmed texts |
| CreateTask.CreateTaskScreen.constructor | app/tasks/create.js:11-20 | empty texts, medium priority, expiry now, nothing touched |
| CreateTask.CreateTaskScreen.BlurTitle | app/tasks/create.js:84 | leaving the title marks it touched |
| CreateTask.CreateTaskScreen.BlurDescription | app/tasks/create.js:99 | leaving the description marks it touched |
| CreateTask.CreateTaskScreen.PickExpiry | app/tasks/create.js:144-147 | a picked date becomes the expiry and marks the date touched |
| CreateTask.CreateTaskScreen.HandleCreateTask | app/tasks/create.js:51-75 | marks every field touched; an invalid form calls nothing; a valid one adds the payload's task and navigates back exactly when `addTask` does not throw, with loading false afterwards; the store's loading flag is never touched, without a user nothing is stored, and a successful write keeps the store's error |
| Login.ValidateEmail | app/login.js:15-17 | the scan accepts exactly the strings holding `\S@\S+\.\S` |
| Login.StepDescribes | app/login.js:16 | each character read keeps the scan state in step with the prefix read |
| Login.StepMiddle | app/login.js:16 | the `\S@\S+` state after one more character |
| Login.StepMatch | app/login.js:16 | the whole-match state after one more character |
| Login.Scan | app/login.js:16 | the scan from any position agrees with a match in the whole string |
| Login.CheckLogin | app/login.js:22-36 | blank email or password gives "All fields are required", then a bad email gives its message, then a password under 4 UTF-16 units; proceeds exactly when all pass |
| Login.EmailFieldError | app/login.js:60 | the email field is in error exactly while a message shows and the email fails the pattern |
| Login.HighlightThresholdMismatch | app/login.js:33-70 | a password of 4 or 5 UTF-16 units passes the check yet is drawn in error after a failed sign-in, while the email field is not |
| Login.AstralPasswords | app/login.js:22-36 | with a valid email, a password made only of characters above U+FFFF has twice as many units as characters, so it passes from two characters on, one alone is too short and an empty one is missing |
| Login.LoginScreen.constructor | app/login.js:12-13 | no message, not loading |
| Login.LoginScreen.HandleLogin | app/login.js:19-47 | the first failing check's message with no `signIn`; otherwise `signIn`, "Invalid email or password" on failure, home on success, loading false |
| Signup.CheckSignup | app/signup.js:16-25 | an empty field, untrimmed, gives "Please fill in all fields"; then differing passwords give "Passwords do not match"; proceeds exactly otherwise |
| Signup.BlankFieldsPass | app/signup.js:16-25 | any non-empty all-whitespace email and password pass both sign-up checks, though the login screen rejects the same pair as missing |
| Signup.SignupScreen.constructor | app/signup.js:12-13 | no message, not loading |
| Signup.SignupScreen.HandleSignup | app/signup.js:16-36 | a rejected attempt shows its message without `signIn`; otherwise the message is cleared, `signIn` is called, "Signup failed" on failure, loading false |
| DatePicker.WithClockOf | components/common/DateTimePickerButton.js:27-42 | `setHours`/`setMinutes` on a copy: the hours and minutes of one date, everything else of the other |
| DatePicker.WithClockOfTwice | components/common/DateTimePickerButton.js:27-42 | the time step's hours and minutes replace the ones the date step borrowed |
| DatePicker.DateTimePickerButton.constructor | components/common/DateTimePickerButton.js:9-11 | hidden, date step, `tempDate = value` |
| DatePicker.DateTimePickerButton.HandlePress | components/common/DateTimePickerButton.js:13-17 | opens on the date step with `tempDate = value` |
| DatePicker.DateTimePickerButton.HandleChange | components/common/DateTimePickerButton.js:19-51 | a missing selection falls back to `tempDate`; Android always closes, ignores a non-"set" event, takes the date and keeps the clock on the date step and schedules the reopen, keeps the date and takes the clock on the time step and emits exactly that; iOS only records the selection |
| DatePicker.DateTimePickerButton.ReopenForTime | components/common/DateTimePickerButton.js:34-37 | the timer reopens the picker on the time step |
| DatePicker.DateTimePickerButton.HandleIOSConfirm | components/common/DateTimePickerButton.js:53-62 | "Next" moves to the time step and emits nothing; "Confirm" closes and emits `tempDate` |
| DatePicker.DateTimePickerButton.HandleIOSCancel | components/common/DateTimePickerButton.js:64-74 | resets `tempDate` to the value; goes back to the date step from the time step, closes from the date step |
| DatePicker.AndroidSelection | components/common/DateTimePickerButton.js:13-45 | a full Android selection emits the picked date with the picked hours and minutes |
| DatePicker.IOSSelection | components/common/DateTimePickerButton.js:13-62 | a full iOS selection emits the last value the spinner reported |

## Left out

- Storage is a `map` from key to task sequence. AsyncStorage, JSON
  encoding and decoding, and a `JSON.parse` failure on corrupt data are not
  modelled; a failed read is the `readOk` flag.
- Timestamps are whole milliseconds. `toISOString`, the date-fns `format`
  calls, invalid dates (`NaN`) and local-timezone behaviour of
  `setHours`/`setMinutes` are not modelled. Picker dates are field records.
- Timers are methods the caller runs when the timer fires.
  - `setInterval` in contexts/TaskContext.js:36-41 is
    `CheckExpiredTasks`. The interval exists only while the collection is
    non-empty; that condition has no member of its own, because on an empty
    collection nothing is overdue and `CheckExpiredTasks` changes nothing.
  - `setInterval` in components/tasks/TaskCard.js:38 is `Countdown.Tick`.
  - `setTimeout` in components/common/DateTimePickerButton.js:34 is
    `ReopenForTime`.
  - Timer cancellation on unmount is not modelled.
- Concurrency is not modelled. Each store operation runs as one atomic step
  on the latest state. In the code, an operation reads the `tasks` snapshot
  of its render and awaits AsyncStorage, so interleaved calls can lose an
  update. Examples are two quick completes from app/home.js:161, or the
  minute sweep firing during an add.
- Ids from `Date.now().toString()` are parameters. Uniqueness is not
  guaranteed by the code and not assumed.
- `Text.ToLower` lower-cases ASCII letters only. Full Unicode case mapping
  is not modelled.
- Strings are sequences of Unicode scalar values. A JavaScript string can
  also hold a lone UTF-16 surrogate, which `length` counts as one unit; such
  strings are not represented.
- contexts/AuthContext.js is not part of this model. The signed-in user is
  an input to the store.
- Navigation, React rendering and hooks, `console` logging and
  `_debugPrintTasks` are not modelled.
- The UI-only files are not part of this model: LoadingScreen.js,
  ScreenTransition.js, animatedtaskslists.js, ConfirmationDialogue.js,
  taskfilters.js, theme.js, `_layout.js` and index.js.
- app/tasks/[id].js, the edit screen, is not part of this model. It calls
  `updateTask`, `deleteTask` and `getTaskById`, which are modelled. Its own
  `isValid` is not, nor is its `hasChanges`; that `isValid` skips the
  future-date test for a task that is not pending.
- Tasks.TaskStore.AddTask: requires the data to supply title, description,
  priority and expiry time. The task record has these four fields always
  present, and the one caller, app/tasks/create.js:63-68, always supplies them.
- Tasks.TaskStore.Load: the `new Date()` read for each task
  (contexts/TaskContext.js:53) is one instant `now` for the whole load, so
  the load agrees with a sweep at that one instant.
- Tasks.TaskStore.CompleteTask: the two `new Date()` calls
  (contexts/TaskContext.js:111 and 138) are one instant `now`.
- Home.HomeScreen.HandlePress: the warning dialog's `task` key is not kept.
  The code sets it only to `null`.
- Home.SortTasks: stability is not stated. An insertion sort stands in for
  the engine's `Array.prototype.sort`, and only the order by the comparator
  and the permutation are promised.
- CreateTask.CreateTaskScreen.HandleCreateTask: the `isValid` memo is taken
  at an instant `validAt` given by the caller. The memo is recomputed only
  when its inputs change, not when time passes.
- Priority changes on the create screen (`setPriority`) and text edits are
  plain field assignments and have no method of their own.
- DatePicker.IOSSelection: the native iOS spinner combines the date and the
  time itself. The model takes each reported value as given.
