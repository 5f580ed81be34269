# Diary: the record stores and their helpers, in Dafny

Diary is a small React diary app. This project models the logic it runs under
its pages:

- **The todo store** (`TodoStorage`). Local storage key `todos` holds a JSON
  object that maps a date (`YYYY-MM-DD`) to that day's ordered task list. The
  model covers:
  - upsert by id and delete by id (a date whose list becomes empty is removed);
  - flat listing and export;
  - the validating bulk import;
  - read and write failures, which become `appError` events and are never
    thrown.
  The store is a class whose fields are the storage slot and the event log of
  the window.
- **The mood store** (`MoodStorage`). Key `selectedMood` holds a JSON object
  from a date to a mood name. The model covers:
  - the migration of a bare legacy value into today's entry;
  - setting and clearing today's mood;
  - lookup by date;
  - the newest-first listing;
  - the rotation flag and the glow colour.
- **The mood table** (`MoodConfig`). Six moods in display order, and the
  order-preserving filter that keeps the moods that have a picture.
- **The yearly tracker page** (`YearlyTracker`, `CellMaps`, `Fills`,
  `DateFormat`). The model covers:
  - the day/month validity rule (365 valid cells of 372);
  - zero-padded date strings and why comparing them as text is calendar order;
  - the nested loops that build the 31 × 12 colour and mood maps;
  - the per-mood counting loops;
  - the completed/incomplete split and the completion toggle;
  - the tooltip text.
- **The notification provider** (`Notifications`). A FIFO queue with at most
  one message on screen at a time, fed by `appInfo` and `appError` events.
- **The task dialog and the task card** (`TodoModal`, `TodoCard`). The save
  rule and the payload normalisation, the form reset and prefill, and the
  priority and location labels.
- **The Lego button colours** (`LegoButton`). `darkenColor` and `lightenColor`:
  shift-and-mask channel extraction, clamping, and hex re-encoding.

Helper modules stand in for the JavaScript built-ins the core relies on:

- `Base`: `null` as `Option`.
- `Seqs`: `filter`, `findIndex`, `find`.
- `Text`: `String(n)`, `padStart`, `includes`, `trim`, string `<`.
- `Hex`: `parseInt(s, 16)`, `toString(16)`.
- `Json`: parsed values, `String(v)`, `Boolean(v)`.
- `Storage`: one local-storage key as seen through `JSON.parse`.
- `Events`: window events, kept as an appended log.
- `TodoTypes`: the task record.

Several things the source reads from its surroundings are parameters of the
model:

- today's date;
- `Date.now()` ids;
- whether a storage write succeeds;
- the list of mood pictures;
- the current year;
- the mood map the tracker reads.

The tracker page subscribes to a `moodChanged` event. No code dispatches it, so
the model follows the code: saving a mood emits no event.

## Model

| member | source | states |
|---|---|---|
| TodoStorage.LocalDateString | src/utils/todoStorage.ts:10-16 | The local date is the year's digits, a dash, a two-digit field that reads back as the month index plus one, a dash, and a two-digit field that reads back as the day. |
| TodoStorage.TodoStore.GetTodosStorageData | src/utils/todoStorage.ts:21-36 | Returns the decoded map. Nothing stored or empty text gives `{}`. Text that does not parse gives `{}` and exactly one `appError` with the read-failure message. The slot is never written. |
| TodoStorage.TodoStore.SaveTodosStorageData | src/utils/todoStorage.ts:41-52 | A successful write replaces the slot with the object and emits nothing. A failed write leaves the slot as it was and emits one `appError` with the quota message. |
| TodoStorage.TodoStore.GetTodosByDate | src/utils/todoStorage.ts:57-60 | Returns the stored list for the date, or `[]` when the date is absent; emits the read events. |
| TodoStorage.AllTodos | src/utils/todoStorage.ts:65-68 | The flat listing is every date's list, whole and in order, one after another, each date taken exactly once. Its length is the total number of stored tasks. |
| TodoStorage.TodoStore.GetAllTodos | src/utils/todoStorage.ts:65-68 | The flat listing of the decoded store, with the same guarantees as AllTodos. |
| TodoStorage.Upsert | src/utils/todoStorage.ts:75-83 | If no task in the list has the new task's id, the task is appended at the end. Otherwise the first task with that id is replaced, and every other position keeps its task. |
| TodoStorage.SavedData | src/utils/todoStorage.ts:73-86 | Only the key `todo.date` is added or changed; every other date keeps its list. The saved task is in that date's list, which grows by one exactly when the id was new. |
| TodoStorage.SaveIdempotent | src/utils/todoStorage.ts:73-86 | Saving the same task twice leaves the store as saving it once. |
| TodoStorage.TodoStore.SaveTodo | src/utils/todoStorage.ts:73-90 | A successful write stores SavedData of the decoded store, and a failed one leaves the slot. The log gets the read events, the write events and then `todoChanged` with the task, even when the write failed. |
| TodoStorage.WithoutId | src/utils/todoStorage.ts:99 | The filtered list keeps each task with another id exactly as often as it occurs, in order, and no task with the id. |
| TodoStorage.DeletedData | src/utils/todoStorage.ts:95-104 | The date stays exactly when some task with another id remains. It then holds WithoutId of its list: those tasks, each as often as before, in order. Every other date is untouched. |
| TodoStorage.DeleteUndoesNewSave | src/utils/todoStorage.ts:73-104 | Deleting a task just saved under a date where its id was new gives back the original store. The date must be absent or hold tasks; a date stored with an empty list would be removed. |
| TodoStorage.TodoStore.DeleteTodo | src/utils/todoStorage.ts:95-110 | A successful write stores DeletedData of the decoded store, and a failed one leaves the slot. The log gets the read and write events, then a `todoChanged` with no detail. |
| TodoStorage.TodoStore.ExportTodosData | src/utils/todoStorage.ts:142-144 | Export returns the decoded store; its only effect is the read events. |
| TodoStorage.ImportEntry | src/utils/todoStorage.ts:163-186 | An entry is accepted exactly when it is an object with title, author, priority, location and date keys. |
| TodoStorage.ImportedFields | src/utils/todoStorage.ts:173-183 | For an accepted entry:<br>- a string id is kept; any other id becomes the fallback id;<br>- `completed` is the truthiness of the stored value;<br>- string title, author and date are kept;<br>- a missing or falsy description or mood becomes "";<br>- priority and location pass through. |
| TodoStorage.ImportList | src/utils/todoStorage.ts:162-187 | The result holds every accepted entry and nothing else, and is never longer than the array. An array with no accepted entry gives `[]`. |
| TodoStorage.ImportedData | src/utils/todoStorage.ts:159-188 | The imported object has a key exactly for each date whose value is an array. That key holds only converted accepted entries of that array, so it holds `[]` when all of them fail. |
| TodoStorage.BuildImport | src/utils/todoStorage.ts:159-188 | The `for` loop over the dates builds exactly ImportedData. |
| TodoStorage.ImportExportedEntry | src/utils/todoStorage.ts:173-183 | A task written by export is accepted on import and converted back to itself. |
| TodoStorage.ImportListOfExported | src/utils/todoStorage.ts:162-187 | Importing an exported list gives back the list, order included. |
| TodoStorage.ExportImportRoundTrip | src/utils/todoStorage.ts:142-196 | Importing what export produced restores the store exactly. |
| TodoStorage.TodoStore.ImportTodosData | src/utils/todoStorage.ts:149-196 | The result depends on the input:<br>- `undefined`: success, and nothing is written or emitted;<br>- null, an array or a primitive: failure with the bad-format message, and nothing is written or emitted;<br>- an object: success. A successful write stores ImportedData, and a failed one leaves the slot. The log gets the write events, then `todoChanged("imported")`, then `appInfo`. |
| MoodStorage.Migrated | src/utils/moodStorage.ts:15-36 | Non-empty text that is not JSON becomes the one-entry object `{today: text}`. Everything else is left as it is, including JSON and nothing stored. |
| MoodStorage.MoodStore.MigrateOldFormat | src/utils/moodStorage.ts:15-36 | The slot after migration is Migrated of the slot before. |
| MoodStorage.AfterRead | src/utils/moodStorage.ts:41-59 | After a read, a stored JSON string `s` has become `{today: s}`. Blank slots, objects and other JSON are left alone. Any other non-blank slot ends up as an object. |
| MoodStorage.ReadMoods | src/utils/moodStorage.ts:41-59 | A blank slot reads as `{}`; otherwise the read returns the object left in the slot. |
| MoodStorage.MigrationIdempotent | src/utils/moodStorage.ts:41-59 | A second read, on any day, rewrites nothing and returns the same data. |
| MoodStorage.MoodStore.GetMoodStorageData | src/utils/moodStorage.ts:41-59 | The slot becomes AfterRead of the old slot, and the result is ReadMoods of the old slot. |
| MoodStorage.WithMood | src/utils/moodStorage.ts:64-75 | A non-empty mood becomes today's entry; `null` or "" removes today's key. Every other date keeps its presence and its value. |
| MoodStorage.MoodStore.SaveMoodForToday | src/utils/moodStorage.ts:64-75 | The slot becomes the object WithMood of the data read. |
| MoodStorage.Lookup | src/utils/moodStorage.ts:80-83 | Gives a mood exactly when the date is present with a non-empty name, and then that name. |
| MoodStorage.SaveThenLookup | src/utils/moodStorage.ts:64-83 | After a save, today's lookup returns the saved mood, or `null` after a clear. Every other date's lookup is unchanged, and reading the written object gives it back. |
| MoodStorage.MoodStore.GetMoodByDate | src/utils/moodStorage.ts:80-83 | Returns Lookup of the data read, for the date. |
| MoodStorage.InsertByDate | src/utils/moodStorage.ts:90-92 | Inserting a pair into a newest-first list keeps it newest-first and adds exactly that pair. |
| MoodStorage.SortedEntries | src/utils/moodStorage.ts:88-93 | The listing holds exactly the stored (date, mood) pairs, newest first with no date twice. |
| MoodStorage.DescendingUnique | src/utils/moodStorage.ts:90-92 | Two newest-first listings of the same pairs are equal, so the result does not depend on the order in which the map yields its entries. |
| MoodStorage.MoodStore.GetAllMoodData | src/utils/moodStorage.ts:88-93 | Returns a newest-first listing of exactly the pairs read. |
| MoodStorage.MoodStore.GetSelectedMood | src/utils/moodStorage.ts:98-104 | Returns the mood of `moods` named by today's entry, or `null` when there is no entry or no such mood. |
| MoodStorage.ShouldMoodRotate | src/utils/moodStorage.ts:125-127 | `shouldMoodRotate`; its meaning is stated by RotatingMoods. |
| MoodStorage.RotatingMoods | src/utils/moodStorage.ts:125-127 | True exactly for the first two moods of the table (awesome and good). |
| MoodStorage.MoodColor | src/utils/moodStorage.ts:132-147 | `null` or "" gives the grey default. Any other result is the rgba of a mood of `moods` with that name. |
| MoodStorage.KnownMoodColor | src/utils/moodStorage.ts:136-143 | A table mood that has a picture glows with the rgba of its own colour. |
| MoodStorage.UnknownMoodColor | src/utils/moodStorage.ts:146 | A name not in the table gets the grey default. |
| MoodStorage.HexPairBound | src/utils/moodStorage.ts:140-142 | A two-digit hex pair parses to its value, which is in 0..255. |
| MoodStorage.GlowOf | src/utils/moodStorage.ts:139-143 | For `#RRGGBB`, the rgba text has the values of the three hex pairs as its channels, each in 0..255, with alpha 0.8. |
| MoodStorage.GlowChannels | src/utils/moodStorage.ts:139-143 | Every table colour gives an rgba whose three channels are read from its hex pairs and lie in 0..255. |
| MoodConfig.ConfigNames | src/utils/moodConfig.ts:12-19 | The table has six entries with distinct names, each starting with "mood-". |
| MoodConfig.ConfigColors | src/utils/moodConfig.ts:12-19 | Every colour is "#" followed by six hex digits. |
| MoodConfig.FirstImageIndex | src/utils/moodConfig.ts:24 | Finds the first picture path containing the name, or reports that none does. |
| MoodConfig.Dressed | src/utils/moodConfig.ts:23-26 | An entry is kept exactly when some picture path contains its name. It is then its table fields plus the first such path. |
| MoodConfig.MoodsFrom | src/utils/moodConfig.ts:22-27 | The result holds every kept entry and only kept entries, and is never longer than the table. |
| MoodConfig.MoodsFromOrder | src/utils/moodConfig.ts:22-27 | Stripped of their pictures, the kept moods are a subsequence of the table, in table order. |
| MoodConfig.Moods | src/utils/moodConfig.ts:22-27 | `moods` has at most six moods: exactly the table entries that have a picture, each with its first picture. |
| MoodConfig.MoodsOrder | src/utils/moodConfig.ts:22-27 | `moods` keeps the table order. |
| MoodConfig.MoodNamed | src/utils/moodStorage.ts:103 | The mood of `moods` with the name, or `null` exactly when no mood has that name. |
| MoodConfig.MoodNamedFromTable | src/utils/moodConfig.ts:22-27 | A table name is found in `moods` exactly when a picture path contains it, and then the mood carries that table entry's fields. |
| DateFormat.DateString | src/components/YearlyTracker/YearlyTracker.tsx:94-98 | `getDateString`; its layout is stated by DateStringFields and its order by DateOrder. |
| DateFormat.Pad2Digits | src/components/YearlyTracker/YearlyTracker.tsx:95-96 | A number below 100 is padded to exactly its two decimal digits. |
| DateFormat.Pad2RoundTrip | src/components/YearlyTracker/YearlyTracker.tsx:95-96 | A padded field is two digits that read back as the number. |
| DateFormat.DateStringFields | src/components/YearlyTracker/YearlyTracker.tsx:94-98 | The date string is the year's digits, a dash, the padded month, a dash and the padded day, at fixed positions. |
| DateFormat.DateOrder | src/pages/todo/TodoModal.tsx:35-37 | Within one year, comparing two date strings as text is calendar order. |
| YearlyTracker.MoodHexColor | src/components/YearlyTracker/YearlyTracker.tsx:24-28 | `getMoodHexColor`; its meaning is stated by MoodHexColorOf. |
| YearlyTracker.MoodHexColorOf | src/components/YearlyTracker/YearlyTracker.tsx:24-28 | A colour is returned exactly for a non-empty name in the table, and it is that entry's colour; otherwise the result is `null`. |
| YearlyTracker.IsValidDay | src/components/YearlyTracker/YearlyTracker.tsx:33-45 | `isValidDay`; its meaning is stated by ValidDayIsCalendarDay, and its count by GridSize and ValidCellCount. |
| YearlyTracker.ValidDayIsCalendarDay | src/components/YearlyTracker/YearlyTracker.tsx:33-45 | A day is valid exactly when it is at most the month's length: 28 for February, 30 for April, June, September and November, 31 otherwise. There is no leap-year case. |
| YearlyTracker.GridSize | src/components/YearlyTracker/YearlyTracker.tsx:113-115 | The number of valid cells in the first `j` rows: 12 per row up to day 28, 11 per row for days 29 and 30, and 7 for day 31. |
| YearlyTracker.ValidCellCount | src/components/YearlyTracker/YearlyTracker.tsx:113-115 | Exactly 365 of the 372 (day, month) pairs are valid. |
| YearlyTracker.CellKeyInjective | src/components/YearlyTracker/YearlyTracker.tsx:116-117 | Two cell keys `${day}-${month}` are equal exactly when their day and month are. |
| YearlyTracker.CellMood | src/components/YearlyTracker/YearlyTracker.tsx:115-124 | An invalid cell shows no mood. A valid cell shows the mood stored for its date string, or `null`. |
| YearlyTracker.CellColor | src/components/YearlyTracker/YearlyTracker.tsx:115-123 | An invalid cell has no colour. A cell has a colour exactly when its mood names a table entry, and then it is that entry's colour. |
| CellMaps.FillCell | src/components/YearlyTracker/YearlyTracker.tsx:115-124 | One turn of the inner loop sets the cell's key to its colour and its mood, and changes nothing else. |
| CellMaps.FillRow | src/components/YearlyTracker/YearlyTracker.tsx:114-125 | The inner loop fills the twelve cells of one row. |
| CellMaps.BuildCellMaps | src/components/YearlyTracker/YearlyTracker.tsx:102-128 | After the nested loops, each map has a key for every cell of the grid holding that cell's value, and no other key. |
| Fills.RowFillCells | src/components/YearlyTracker/YearlyTracker.tsx:114-125 | Filling a row sets each of its cells to its value, leaves the other rows alone, and adds no other key. |
| Fills.GridFillCells | src/components/YearlyTracker/YearlyTracker.tsx:113-126 | After the first `days` rows, every cell of those rows holds its value and every key is such a cell. |
| CellMaps.GridMapCells | src/components/YearlyTracker/YearlyTracker.tsx:113-126 | The 31 filled rows form a complete grid map. |
| CellMaps.GridMapCell | src/components/YearlyTracker/YearlyTracker.tsx:113-126 | In a grid map, each cell of the grid holds the colour or mood that cell shows. |
| CellMaps.CellAt | src/components/YearlyTracker/YearlyTracker.tsx:131-138 | `getCellColor` and `getCellMood`; what they return on a built map is stated by CellAtGrid. |
| CellMaps.CellAtGrid | src/components/YearlyTracker/YearlyTracker.tsx:131-138 | `getCellColor` and `getCellMood` give each grid cell's value, and `null` for a pair outside the grid. |
| YearlyTracker.CountRow | src/components/YearlyTracker/YearlyTracker.tsx:146-154 | The inner loop adds the number of valid cells of the row that show the mood. |
| YearlyTracker.CountMood | src/components/YearlyTracker/YearlyTracker.tsx:144-155 | A mood's count is the number of valid cells showing it. |
| YearlyTracker.MoodCounts | src/components/YearlyTracker/YearlyTracker.tsx:141-158 | The counts map has a key exactly for each mood of the list, holding that mood's count. |
| YearlyTracker.MoodCount | src/components/YearlyTracker/YearlyTracker.tsx:161-163 | A name without a count gives 0. |
| YearlyTracker.MoodCountOf | src/components/YearlyTracker/YearlyTracker.tsx:161-163 | `getMoodCount` gives 0 for a name not in the list, and the mood's count for a listed name. |
| YearlyTracker.HitsAtMostOne | src/components/YearlyTracker/YearlyTracker.tsx:145-154 | For distinct mood names, a cell counts toward at most one mood, and toward none when it is invalid. |
| YearlyTracker.GridsAtBound | src/components/YearlyTracker/YearlyTracker.tsx:145-154 | For distinct names, the counts over the first `j` rows sum to at most the number of valid cells there. |
| YearlyTracker.CountsSumBound | src/components/YearlyTracker/YearlyTracker.tsx:141-158 | For distinct names, the counts sum to at most 365. |
| YearlyTracker.CountBound | src/components/YearlyTracker/YearlyTracker.tsx:144-155 | A single count is at most 365. |
| YearlyTracker.MoodsFromDistinct | src/utils/moodConfig.ts:22-27 | The moods built from a table with distinct names have distinct names. |
| YearlyTracker.PageCountsBound | src/components/YearlyTracker/YearlyTracker.tsx:141-158 | The counts of the page's moods sum to at most 365. |
| YearlyTracker.CompletedTodos | src/components/YearlyTracker/YearlyTracker.tsx:166-169 | Exactly the completed tasks, in their order. |
| YearlyTracker.IncompleteTodos | src/components/YearlyTracker/YearlyTracker.tsx:172-175 | Exactly the tasks not completed, in their order. |
| YearlyTracker.CompletedSplit | src/components/YearlyTracker/YearlyTracker.tsx:166-175 | For one date's list, the completed and incomplete filters partition it: together they hold each task exactly as often as the list does. |
| YearlyTracker.Toggled | src/components/YearlyTracker/YearlyTracker.tsx:179-182 | The copy has `completed` negated and every other field unchanged. |
| YearlyTracker.ToggleInvolution | src/components/YearlyTracker/YearlyTracker.tsx:179-182 | Toggling twice gives back the task. |
| YearlyTracker.ToggleInPlace | src/components/YearlyTracker/YearlyTracker.tsx:178-185 | Saving the toggled copy of a stored task changes only that task's position in its date's list; the list keeps its length. |
| YearlyTracker.HandleToggleComplete | src/components/YearlyTracker/YearlyTracker.tsx:178-185 | The store's new slot and event log are those of `saveTodo` with the toggled copy. |
| YearlyTracker.TooltipLabel | src/components/YearlyTracker/YearlyTracker.tsx:199-200 | The label is the name itself, or the label of a mood of `moods` with that name; it is empty only for an empty name. |
| YearlyTracker.TooltipLabelOf | src/components/YearlyTracker/YearlyTracker.tsx:199-200 | A table mood with a picture is labelled with its label, or with its name when the label is empty. |
| YearlyTracker.UnknownTooltipLabel | src/components/YearlyTracker/YearlyTracker.tsx:199-200 | A name not in the table is its own label. |
| YearlyTracker.TooltipMessage | src/components/YearlyTracker/YearlyTracker.tsx:198-208 | The message starts "You had " and continues with a digit exactly when the count is not 0. For 0 it is "You had no <label> days". |
| YearlyTracker.TooltipNumber | src/components/YearlyTracker/YearlyTracker.tsx:203-207 | For a count of at least 1, the message carries the count's digits, which read back as the count. It ends in " day" exactly when the count is 1. |
| YearlyTracker.TooltipShape | src/components/YearlyTracker/YearlyTracker.tsx:203-207 | For a count of at least 1, the message is "You had N label day(s)". |
| Notifications.EventSeverity | src/components/Notifications/NotificationProvider.tsx:35-44 | `appInfo` maps to info and `appError` to error; no other event is listened to. |
| Notifications.NotificationCenter.constructor | src/components/Notifications/NotificationProvider.tsx:17-19 | Starts with an empty queue, nothing current and the snackbar closed. |
| Notifications.NotificationCenter.Notify | src/components/Notifications/NotificationProvider.tsx:29-31 | Adds one notification at the back of the queue, with severity info by default. Nothing else changes. |
| Notifications.NotificationCenter.ShowNext | src/components/Notifications/NotificationProvider.tsx:21-27 | Does nothing while a message is current or the queue is empty. Otherwise the head becomes current, exactly that element leaves the queue, and the snackbar opens. Every message is shown in the order it was queued, once. |
| Notifications.NotificationCenter.HandleClose | src/components/Notifications/NotificationProvider.tsx:56-59 | Closes the snackbar and clears the current message; the queue is untouched. |
| Notifications.NotificationCenter.OnAppEvent | src/components/Notifications/NotificationProvider.tsx:35-42 | `appInfo` and `appError` queue their detail with severity info or error. |
| TodoModal.CanSave | src/pages/todo/TodoModal.tsx:35-37 | `canSave`; its meaning is stated by CanSaveDates and SavedDraftValid. |
| TodoModal.CanSaveDates | src/pages/todo/TodoModal.tsx:35-37 | For dates of one year, saving is allowed exactly when the title and author are not blank and the date is not later than today. |
| TodoModal.SavedMood | src/pages/todo/TodoModal.tsx:70 | A blank mood is saved as "Not specified", and any other mood is saved trimmed. |
| TodoModal.Payload | src/pages/todo/TodoModal.tsx:65-73 | Title, description and author are the trimmed inputs, and mood is SavedMood of the input. None of them has space left at either end, and mood is never empty. Priority, location and date pass unchanged. |
| TodoModal.SavedDraftValid | src/pages/todo/TodoModal.tsx:35-73 | A draft that may be saved has a non-blank trimmed title and author and a date not after today. |
| TodoModal.TodoForm.constructor | src/pages/todo/TodoModal.tsx:27-33 | Starts with empty text fields, priority medium, location home and today's date. |
| TodoModal.TodoForm.Prefill | src/pages/todo/TodoModal.tsx:39-58 | With a task being edited, its fields are copied. Otherwise the form resets to the initial values. |
| TodoModal.TodoForm.HandleSave | src/pages/todo/TodoModal.tsx:60-76 | Without `canSave`, nothing is called. Otherwise `onSave` gets the normalised payload, then `onClose` follows. |
| TodoCard.PriorityColor | src/pages/todo/TodoCard.tsx:37-48 | Exactly the three priority tokens get their own colour; any other text gets the default. |
| TodoCard.PriorityColors | src/pages/todo/TodoCard.tsx:37-48 | Low maps to success, medium to warning and high to error, so different priorities get different colours. |
| TodoCard.PriorityLabel | src/pages/todo/TodoCard.tsx:50-61 | Exactly the three priority tokens are relabelled; any other text is returned as it is. |
| TodoCard.PriorityLabelCapitalised | src/pages/todo/TodoCard.tsx:50-61 | A priority's label is its token with the first letter in upper case. |
| TodoCard.LocationLabel | src/pages/todo/TodoCard.tsx:63-71 | Exactly the four location tokens are relabelled; any other text is returned as it is. |
| TodoCard.LocationLabels | src/pages/todo/TodoCard.tsx:64-69 | дом becomes Home, работа Work, семья Family and хобби Hobby. |
| TodoCard.LocationLabelsDistinct | src/pages/todo/TodoCard.tsx:63-71 | Different locations get different labels. |
| TodoCard.CardState.constructor | src/pages/todo/TodoCard.tsx:35 | The description starts collapsed. |
| TodoCard.CardState.ToggleExpanded | src/pages/todo/TodoCard.tsx:205 | Each click negates `expanded`. |
| LegoButton.StyleOf | src/components/LegoButton/LegoButton.tsx:19-34 | `sizeStyles[size]`; its values are stated by SizeStyles. |
| LegoButton.SizeStyles | src/components/LegoButton/LegoButton.tsx:15-34 | Small is 8px 20px at 0.875rem, medium 12px 32px at 1rem, and large 16px 40px at 1.125rem; the default size is medium. |
| LegoButton.StylesDistinct | src/components/LegoButton/LegoButton.tsx:19-34 | The three sizes have pairwise different paddings and font sizes. |
| LegoButton.DefaultColorChannels | src/components/LegoButton/LegoButton.tsx:14 | The default colour `#FF6B35` has channels 255, 107 and 53. |
| LegoButton.ParseInt16 | src/components/LegoButton/LegoButton.tsx:102 | `parseInt(s, 16)` reads a string of hex digits as its value, and the empty string as NaN. |
| LegoButton.Channels | src/components/LegoButton/LegoButton.tsx:103-105 | The extracted channels are each in 0..255. |
| LegoButton.Darken | src/components/LegoButton/LegoButton.tsx:103-105 | `max(0, c - d)` never exceeds `c`. It is `c - d` when that is not negative, and 0 otherwise. |
| LegoButton.Lighten | src/components/LegoButton/LegoButton.tsx:114-116 | `min(255, c + d)` is between `c` and 255. It is `c + d` when that fits, and 255 otherwise. |
| LegoButton.Encode | src/components/LegoButton/LegoButton.tsx:106 | The result is "#" followed by exactly six hex digits. |
| LegoButton.DarkenColor | src/components/LegoButton/LegoButton.tsx:101-107 | The darkened colour is "#" followed by six hex digits. |
| LegoButton.LightenColor | src/components/LegoButton/LegoButton.tsx:112-118 | The lightened colour is "#" followed by six hex digits. |
| LegoButton.EncodeRoundTrip | src/components/LegoButton/LegoButton.tsx:102-106 | Channels written by the re-encoding are read back unchanged by the extraction. |
| LegoButton.DarkenLightenMonotone | src/components/LegoButton/LegoButton.tsx:101-118 | The result's channels are exactly the clamped channels. Darkening never raises a channel and lightening never lowers one. |
| LegoButton.ChannelsAreLow24 | src/components/LegoButton/LegoButton.tsx:103-106 | The three channels packed together are the low 24 bits of the parsed number. |
| LegoButton.ZeroAmount | src/components/LegoButton/LegoButton.tsx:101-118 | With amount 0, both helpers re-encode the same 24-bit value, and a colour they wrote comes back unchanged. |
| LegoButton.NotANumber | src/components/LegoButton/LegoButton.tsx:102-106 | Text with no hex number reads as black: darkening gives `#000000`, and lightening gives the amount, capped at 255, in every channel. |

## Left out

- Storage shape: stored JSON other than an object is read by the model as the empty map. This covers a JSON string in the `todos` key and an array, number, boolean or `null` in either key. The source returns the parsed value cast to a map, and later code may throw on it.
- Mood store writes: they are taken to succeed. The source does not catch a failing `setItem` there, so such a failure would be an uncaught exception.
- Clocks: today's date (local for tasks, UTC for moods), the yesterday date, and `Date.now()` ids are parameters. The date arithmetic of `getYesterdayDateString` (todoStorage.ts:130-137) is not modelled; only its formatting is (LocalDateString).
- TodoStorage.ImportList: one fallback id serves a whole import, where the source calls `Date.now()` for each entry.
- TodoStorage.ImportList: the contract states which entries are kept, not that they keep their relative order or how often a repeated entry is kept. Both are proved only for exported lists (ImportListOfExported).
- Imported priority and location: imported `priority` and `location` are taken to hold one of their tokens. A backup holding other text would pass them through unchecked; the model's enumerations cannot hold such text.
- JSON numbers: they are whole numbers in the model. `String(v)` of a fraction and floats in general are not modelled.
- `getTodayTodos` and `getTodayDateString` (todoStorage.ts:115-125): these are one-line wrappers over `getTodosByDate` and the date formatting, which are modelled.
- `getSelectedMoodImage` and `getSelectedMoodName` (moodStorage.ts:109-120): these only project a field of `getSelectedMood`, which is modelled.
- `getAllMoodDataAsObject`: the tracker imports it, but its body is not in the source. The mood map it returns is a parameter of BuildCellMaps.
- `localeCompare` and string `<`: both are modelled as comparison by Unicode scalar value, character by character. This agrees with the UTF-16 order JavaScript uses on text without characters beyond U+FFFF, such as ISO dates, and ignores locale rules.
- Labels lookup: `labels[location] || location` could also hit properties inherited from `Object.prototype`; the model ignores them.
- LegoButton.DarkenColor: the amount `Math.round(2.55 * percent)` is a whole number `d >= 0`. Floating-point rounding and negative percentages are not modelled.
- LegoButton.ParseInt16: values beyond 2^53 lose precision in JavaScript but not in the model. Colours the app passes have six digits.
- Task panels: `completedTodos` and `incompleteTodos` filter the lists of two dates the page keeps separately (`selectedDateForCompleted` and `selectedDateForTasks`). The model states the split for one list; which dates the panels show is page state that is not modelled.
- React timing: `useEffect` and `useMemo` scheduling, `refreshKey` re-renders, the Snackbar's 4000 ms auto-hide, and routing on button click are not modelled. The model calls ShowNext explicitly where the effect would.
- Rendering: JSX, `sx` styles, `formatDate` (display only, `toLocaleDateString`) and Alert display are not modelled.
- Window plumbing: cross-tab `storage` events and the listener set-up and tear-down are not modelled. Events are an appended log.
- `calculateCalories` is not part of this model: it is floating-point scaling over a table that is not shown.
