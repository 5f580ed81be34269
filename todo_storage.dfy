/** The todo store: the `todos` key holds a JSON object from a date
    (YYYY-MM-DD) to the ordered list of that day's tasks. Reads decode the
    key, writes replace it with the whole object, and every failure becomes
    an `appError` event instead of an exception. */
module TodoStorage {
  import opened Base
  import opened Seqs
  import opened Storage
  import opened TodoTypes
  import opened Events
  import Json
  import Text
  import DateFormat

  type TodosData = map<string, seq<TodoItem>>

  const ReadFailedMessage: string := "Не удалось прочитать задачи из хранилища. Данные сброшены."
  const WriteFailedMessage: string :=
    "Недостаточно места в хранилище задач. Очистите память или экспортируйте данные."
  const BadFormatMessage: string := "Некорректный формат файла"
  const ImportedMessage: string := "Данные задач импортированы"

  /** The date `getTodayLocalDate` and `getYesterdayDateString` format from a
      clock reading: `getMonth()` counts months from 0. */
  function LocalDateString(year: nat, monthIndex: nat, day: nat): (s: string)
    requires monthIndex < 12 && 1 <= day <= 31
    ensures var y := |Text.NatToString(year)|;
      && |s| == y + 6
      && s[..y] == Text.NatToString(year)
      && s[y] == '-' && s[y + 3] == '-'
      && Text.AllDigits(s[y + 1..y + 3]) && Text.DecimalValue(s[y + 1..y + 3]) == monthIndex + 1
      && Text.AllDigits(s[y + 4..]) && Text.DecimalValue(s[y + 4..]) == day
  {
    DateFormat.DateStringFields(year, monthIndex + 1, day);
    DateFormat.Pad2RoundTrip(monthIndex + 1);
    DateFormat.Pad2RoundTrip(day);
    DateFormat.DateString(year, monthIndex + 1, day)
  }

  /** What `getTodosStorageData` returns for what is stored. */
  function Decode(slot: Slot<TodosData>): TodosData
  {
    if slot.JsonObject? then slot.value else map[]
  }

  /** The events `getTodosStorageData` dispatches: one `appError` when the
      stored text does not parse. */
  function ReadEvents(slot: Slot<TodosData>): seq<Event>
  {
    if slot.Unparseable? && slot.raw != "" then [AppError(ReadFailedMessage)] else []
  }

  /** The events `saveTodosStorageData` dispatches. */
  function WriteEvents(writeOk: bool): seq<Event>
  {
    if writeOk then [] else [AppError(WriteFailedMessage)]
  }

  /** `data[date] || []` */
  function ForDate(data: TodosData, date: string): seq<TodoItem>
  {
    if date in data then data[date] else []
  }

  /** `list.findIndex((t) => t.id === id)` */
  function IndexOfId(list: seq<TodoItem>, id: string): int
  {
    IndexWhere(list, (t: TodoItem) => t.id == id)
  }

  /** The list `saveTodo` writes back: `todo` takes the place of the first
      task with its id, or goes at the end when no task has that id. */
  function Upsert(list: seq<TodoItem>, todo: TodoItem): (r: seq<TodoItem>)
    ensures todo in r
    ensures IndexOfId(list, todo.id) < 0 ==>
      (forall k :: 0 <= k < |list| ==> list[k].id != todo.id) && r == list + [todo]
    ensures var i := IndexOfId(list, todo.id);
      i >= 0 ==>
        && |r| == |list| && r[i] == todo && list[i].id == todo.id
        && (forall k :: 0 <= k < i ==> list[k].id != todo.id)
        && (forall k :: 0 <= k < |list| && k != i ==> r[k] == list[k])
  {
    var i := IndexOfId(list, todo.id);
    if i >= 0 then
      assert list[i := todo][i] == todo;
      list[i := todo]
    else
      assert (list + [todo])[|list|] == todo;
      list + [todo]
  }

  /** The whole object `saveTodo` writes: only `todo.date` changes, and the
      saved task can be read back from it. */
  function SavedData(data: TodosData, todo: TodoItem): (r: TodosData)
    ensures r.Keys == data.Keys + {todo.date}
    ensures forall d :: d in data && d != todo.date ==> r[d] == data[d]
    ensures todo in ForDate(r, todo.date)
    ensures |ForDate(r, todo.date)| ==
      |ForDate(data, todo.date)| + if IndexOfId(ForDate(data, todo.date), todo.id) < 0 then 1 else 0
  {
    data[todo.date := Upsert(ForDate(data, todo.date), todo)]
  }

  /** `list.filter((t) => t.id !== id)`: every task with another id is kept
      as often as it occurs, in order, and no task with the id is. */
  function WithoutId(list: seq<TodoItem>, id: string): (r: seq<TodoItem>)
    ensures IsSubsequence(r, list)
    ensures forall i :: 0 <= i < |r| ==> r[i].id != id
    ensures forall k :: 0 <= k < |list| && list[k].id != id ==> list[k] in r
    ensures forall t :: multiset(r)[t] == if t.id != id then multiset(list)[t] else 0
  {
    FilterCount((t: TodoItem) => t.id != id, list);
    Filter((t: TodoItem) => t.id != id, list)
  }

  /** The whole object `deleteTodo` writes: the date keeps the tasks with
      other ids, in order, and disappears when none is left; other dates are
      untouched. */
  function DeletedData(data: TodosData, id: string, date: string): (r: TodosData)
    ensures date in r <==> exists k :: 0 <= k < |ForDate(data, date)| && ForDate(data, date)[k].id != id
    ensures date in r ==> r[date] == WithoutId(ForDate(data, date), id)
    ensures forall d :: d != date ==> (d in r <==> d in data)
    ensures forall d :: d != date && d in data ==> r[d] == data[d]
  {
    var rest := WithoutId(ForDate(data, date), id);
    if |rest| == 0 then data - {date} else data[date := rest]
  }

  /** Saving the same task twice writes what saving it once wrote. */
  lemma SaveIdempotent(data: TodosData, todo: TodoItem)
    ensures SavedData(SavedData(data, todo), todo) == SavedData(data, todo)
  {
    var list := ForDate(data, todo.date);
    var once := Upsert(list, todo);
    var i := IndexOfId(list, todo.id);
    var j := IndexOfId(once, todo.id);
    if i >= 0 {
      assert j == i;
      assert once[j := todo] == once;
    } else {
      assert once[|list|] == todo;
      assert j == |list|;
      assert once[j := todo] == once;
    }
  }

  /** `filter` keeps a list whose every element passes. */
  lemma {:induction false} FilterAllPass<T>(p: T -> bool, s: seq<T>)
    requires forall i :: 0 <= i < |s| ==> p(s[i])
    ensures Filter(p, s) == s
  {
    if s != [] {
      FilterAllPass(p, s[1..]);
    }
  }

  /** `filter` over a concatenation is the concatenation of the filters. */
  lemma {:induction false} FilterAppend<T>(p: T -> bool, s: seq<T>, t: seq<T>)
    ensures Filter(p, s + t) == Filter(p, s) + Filter(p, t)
  {
    if s != [] {
      assert (s + t)[1..] == s[1..] + t;
      FilterAppend(p, s[1..], t);
    } else {
      assert s + t == t;
    }
  }

  /** The date was absent: the save adds it with the one task, and the
      delete removes it again. */
  lemma DeleteUndoesSaveOnNewDate(data: TodosData, todo: TodoItem)
    requires todo.date !in data
    ensures DeletedData(SavedData(data, todo), todo.id, todo.date) == data
  {
    assert Upsert([], todo) == [todo];
    var saved := SavedData(data, todo);
    assert saved[todo.date] == [todo];
    var rest := WithoutId([todo], todo.id);
    assert |rest| == 0;
    assert saved - {todo.date} == data;
  }

  /** Deleting a task that was just added under a date where its id was new
      gives back the store as it was, provided the date was absent or had
      tasks (a date stored with an empty list is removed by the delete). */
  lemma DeleteUndoesNewSave(data: TodosData, todo: TodoItem)
    requires todo.date !in data || data[todo.date] != []
    requires forall k :: 0 <= k < |ForDate(data, todo.date)| ==> ForDate(data, todo.date)[k].id != todo.id
    ensures DeletedData(SavedData(data, todo), todo.id, todo.date) == data
  {
    if todo.date !in data {
      DeleteUndoesSaveOnNewDate(data, todo);
    } else {
      assert ForDate(data, todo.date) == data[todo.date];
      DeleteUndoesSaveOnListedDate(data, todo);
    }
  }

  /** Filtering out the id of a task appended to a list without that id gives
      the list back. */
  lemma WithoutAppended(list: seq<TodoItem>, todo: TodoItem)
    requires forall k :: 0 <= k < |list| ==> list[k].id != todo.id
    ensures WithoutId(list + [todo], todo.id) == list
  {
    var p := (t: TodoItem) => t.id != todo.id;
    FilterAppend(p, list, [todo]);
    FilterAllPass(p, list);
    assert Filter(p, [todo]) == [];
  }

  /** The date had tasks: the new task was appended, and filtering it out
      gives the old list back. */
  lemma DeleteUndoesSaveOnListedDate(data: TodosData, todo: TodoItem)
    requires todo.date in data && data[todo.date] != []
    requires forall k :: 0 <= k < |data[todo.date]| ==> data[todo.date][k].id != todo.id
    ensures DeletedData(SavedData(data, todo), todo.id, todo.date) == data
  {
    var list := data[todo.date];
    assert Upsert(list, todo) == list + [todo];
    var saved := data[todo.date := list + [todo]];
    assert SavedData(data, todo) == saved;
    WithoutAppended(list, todo);
    assert |WithoutId(list + [todo], todo.id)| != 0;
    assert saved[todo.date := list] == data;
  }

  /** The lists of `data` under the dates of `order`, one after another. */
  function Concat(data: TodosData, order: seq<string>): seq<TodoItem>
    requires forall i :: 0 <= i < |order| ==> order[i] in data
  {
    if order == [] then [] else data[order[0]] + Concat(data, order[1..])
  }

  lemma {:induction false} ConcatAppend(data: TodosData, order: seq<string>, date: string)
    requires forall i :: 0 <= i < |order| ==> order[i] in data
    requires date in data
    ensures Concat(data, order + [date]) == Concat(data, order) + data[date]
  {
    if order != [] {
      assert (order + [date])[1..] == order[1..] + [date];
      ConcatAppend(data, order[1..], date);
    } else {
      assert order + [date] == [date];
    }
  }

  /** `order` lists every date of `data` exactly once. */
  ghost predicate IsKeyOrder(order: seq<string>, data: TodosData)
  {
    && (forall i :: 0 <= i < |order| ==> order[i] in data)
    && (forall i, j :: 0 <= i < j < |order| ==> order[i] != order[j])
    && (forall d :: d in data ==> d in order)
  }

  /** The number of tasks stored under the dates in `dates`. */
  ghost function CountIn(data: TodosData, dates: set<string>): nat
    requires dates <= data.Keys
    decreases dates
  {
    if dates == {} then 0
    else
      var d :| d in dates;
      |data[d]| + CountIn(data, dates - {d})
  }

  /** The number of tasks in the store. */
  ghost function TodoCount(data: TodosData): nat
  {
    CountIn(data, data.Keys)
  }

  /** The count does not depend on which date is taken first. */
  lemma {:induction false} CountInRemove(data: TodosData, dates: set<string>, d: string)
    requires dates <= data.Keys && d in dates
    ensures CountIn(data, dates) == |data[d]| + CountIn(data, dates - {d})
    decreases dates
  {
    var e :| e in dates && CountIn(data, dates) == |data[e]| + CountIn(data, dates - {e});
    if e != d {
      CountInRemove(data, dates - {e}, d);
      CountInRemove(data, dates - {d}, e);
      assert dates - {e} - {d} == dates - {d} - {e};
    }
  }

  /** `Object.values(data).flat()`: every date's list, whole and in order,
      one after another. Dates come in an order the model leaves open
      (JavaScript uses key insertion order), returned as `order`; the result
      holds exactly as many tasks as the store. */
  method AllTodos(data: TodosData) returns (all: seq<TodoItem>, ghost order: seq<string>)
    ensures IsKeyOrder(order, data)
    ensures all == Concat(data, order)
    ensures |all| == TodoCount(data)
  {
    all, order := [], [];
    var rest := data.Keys;
    while rest != {}
      invariant rest <= data.Keys
      invariant forall i :: 0 <= i < |order| ==> order[i] in data && order[i] !in rest
      invariant forall i, j :: 0 <= i < j < |order| ==> order[i] != order[j]
      invariant forall d :: d in data ==> d in rest || d in order
      invariant all == Concat(data, order)
      invariant |all| + CountIn(data, rest) == TodoCount(data)
      decreases rest
    {
      var date :| date in rest;
      CountInRemove(data, rest, date);
      ConcatAppend(data, order, date);
      all := all + data[date];
      order := order + [date];
      rest := rest - {date};
    }
  }

  // ----- importTodosData -----

  /** One element of an imported date's array, when it is an object: each
      field is `None` when its key is missing. Priority and location are
      taken to hold one of their enumerated tokens. */
  datatype RawTodo = RawTodo(
    id: Option<Json.Value>,
    title: Option<Json.Value>,
    description: Option<Json.Value>,
    author: Option<Json.Value>,
    priority: Option<Priority>,
    mood: Option<Json.Value>,
    location: Option<Location>,
    completed: Option<Json.Value>,
    date: Option<Json.Value>)

  /** An element of an imported date's array. */
  datatype RawEntry = NotARecord | Record(fields: RawTodo)

  /** The value under one date of the imported object. */
  datatype DateValue = NotAnArray | ArrayOf(entries: seq<RawEntry>)

  /** The argument of `importTodosData`. */
  datatype ImportInput =
    | Undefined
    | NullInput
    | ArrayInput
    | PrimitiveInput
    | ObjectInput(dates: map<string, DateValue>)

  /** `{ success, error? }` */
  datatype ImportResult = ImportResult(success: bool, error: Option<string>)

  /** The five keys an imported entry must have. */
  predicate HasRequiredFields(f: RawTodo)
  {
    f.title.Some? && f.author.Some? && f.priority.Some? && f.location.Some? && f.date.Some?
  }

  /** `String(v || "")` on a possibly missing field. */
  function TextOrEmpty(v: Option<Json.Value>): string
  {
    if v.Some? && Json.Truthy(v.value) then Json.ToText(v.value) else ""
  }

  /** What the `map` callback of `importTodosData` makes of one entry: an
      entry is accepted exactly when it is an object with the five required
      keys (its fields are given by ImportedFields). */
  function ImportEntry(e: RawEntry, fallbackId: string): (r: Option<TodoItem>)
    ensures r.Some? <==> e.Record? && HasRequiredFields(e.fields)
  {
    match e
    case NotARecord => None
    case Record(f) =>
      if !HasRequiredFields(f) then None
      else
        Some(TodoItem(
          id := if f.id.Some? && f.id.value.Str? then f.id.value.s else fallbackId,
          title := Json.ToText(f.title.value),
          description := TextOrEmpty(f.description),
          author := Json.ToText(f.author.value),
          priority := f.priority.value,
          mood := TextOrEmpty(f.mood),
          location := f.location.value,
          completed := f.completed.Some? && Json.Truthy(f.completed.value),
          date := Json.ToText(f.date.value)))
  }

  /** An accepted entry keeps a string id and gets `fallbackId` otherwise;
      `completed` is the truthiness of the stored value; string title,
      author and date are kept; a missing or falsy description or mood
      becomes ""; priority and location pass through. */
  lemma ImportedFields(e: RawEntry, fallbackId: string)
    requires e.Record? && HasRequiredFields(e.fields)
    ensures var t, f := ImportEntry(e, fallbackId).value, e.fields;
      && t.id == (match f.id { case Some(Str(s)) => s case _ => fallbackId })
      && (t.completed <==> f.completed.Some? && Json.Truthy(f.completed.value))
      && (forall s :: f.title == Some(Json.Str(s)) ==> t.title == s)
      && (forall s :: f.author == Some(Json.Str(s)) ==> t.author == s)
      && (forall s :: f.date == Some(Json.Str(s)) ==> t.date == s)
      && (forall s :: f.description == Some(Json.Str(s)) ==> t.description == s)
      && (forall s :: f.mood == Some(Json.Str(s)) ==> t.mood == s)
      && (f.description.None? || !Json.Truthy(f.description.value) ==> t.description == "")
      && (f.mood.None? || !Json.Truthy(f.mood.value) ==> t.mood == "")
      && t.priority == f.priority.value && t.location == f.location.value
  {
  }

  /** `todos.map(...).filter(Boolean)`: the converted entries that pass, in
      their original order. */
  function ImportList(entries: seq<RawEntry>, fallbackId: string): (r: seq<TodoItem>)
    ensures |r| <= |entries|
    ensures forall j :: 0 <= j < |entries| && ImportEntry(entries[j], fallbackId).Some? ==>
      ImportEntry(entries[j], fallbackId).value in r
    ensures forall i :: 0 <= i < |r| ==>
      exists j :: 0 <= j < |entries| && ImportEntry(entries[j], fallbackId) == Some(r[i])
    ensures (forall j :: 0 <= j < |entries| ==> ImportEntry(entries[j], fallbackId).None?) ==> r == []
  {
    if entries == [] then []
    else
      var rest := ImportList(entries[1..], fallbackId);
      assert forall i :: 0 <= i < |rest| ==>
        exists j :: 0 <= j < |entries| && ImportEntry(entries[j], fallbackId) == Some(rest[i]) by {
        forall i | 0 <= i < |rest|
          ensures exists j :: 0 <= j < |entries| && ImportEntry(entries[j], fallbackId) == Some(rest[i])
        {
          var j :| 0 <= j < |entries[1..]| && ImportEntry(entries[1..][j], fallbackId) == Some(rest[i]);
          assert entries[j + 1] == entries[1..][j];
        }
      }
      var head := ImportEntry(entries[0], fallbackId);
      var r := if head.Some? then [head.value] + rest else rest;
      assert forall j :: 0 <= j < |entries| && ImportEntry(entries[j], fallbackId).Some? ==>
        ImportEntry(entries[j], fallbackId).value in r by {
        forall j | 0 <= j < |entries| && ImportEntry(entries[j], fallbackId).Some?
          ensures ImportEntry(entries[j], fallbackId).value in r
        {
          if j > 0 {
            assert entries[1..][j - 1] == entries[j];
            assert ImportEntry(entries[j], fallbackId).value in rest;
            assert rest <= r || rest == r[1..];
          }
        }
      }
      r
  }

  /** The object `importTodosData` writes: one key per date whose value is an
      array, holding that array's accepted entries. */
  function ImportedData(dates: map<string, DateValue>, fallbackId: string): (r: TodosData)
    ensures forall d :: d in r <==> d in dates && dates[d].ArrayOf?
    ensures forall d :: d in r ==> |r[d]| <= |dates[d].entries|
    ensures forall d :: d in r ==> forall i :: 0 <= i < |r[d]| ==>
      exists j :: 0 <= j < |dates[d].entries| && ImportEntry(dates[d].entries[j], fallbackId) == Some(r[d][i])
  {
    map d | d in dates && dates[d].ArrayOf? :: ImportList(dates[d].entries, fallbackId)
  }

  /** How `exportTodosData` writes a task, as `JSON.parse` reads it back. */
  function ExportedEntry(t: TodoItem): RawEntry
  {
    Record(RawTodo(
      id := Some(Json.Str(t.id)),
      title := Some(Json.Str(t.title)),
      description := Some(Json.Str(t.description)),
      author := Some(Json.Str(t.author)),
      priority := Some(t.priority),
      mood := Some(Json.Str(t.mood)),
      location := Some(t.location),
      completed := Some(Json.Bool(t.completed)),
      date := Some(Json.Str(t.date))))
  }

  /** One date's exported array. */
  function ExportedList(list: seq<TodoItem>): (r: seq<RawEntry>)
    ensures |r| == |list| && forall i :: 0 <= i < |list| ==> r[i] == ExportedEntry(list[i])
  {
    seq(|list|, i requires 0 <= i < |list| => ExportedEntry(list[i]))
  }

  /** The exported object, as `importTodosData` receives it. */
  function ExportedDates(data: TodosData): map<string, DateValue>
  {
    map d | d in data :: ArrayOf(ExportedList(data[d]))
  }

  /** An exported task is accepted on import and converted back to itself. */
  lemma ImportExportedEntry(t: TodoItem, fallbackId: string)
    ensures ImportEntry(ExportedEntry(t), fallbackId) == Some(t)
  {
    assert TextOrEmpty(Some(Json.Str(t.description))) == t.description;
    assert TextOrEmpty(Some(Json.Str(t.mood))) == t.mood;
  }

  lemma {:induction false} ImportListOfExported(list: seq<TodoItem>, fallbackId: string)
    ensures ImportList(ExportedList(list), fallbackId) == list
  {
    var entries := ExportedList(list);
    if list != [] {
      var tail := ExportedList(list[1..]);
      assert entries[1..] == tail;
      ImportListOfExported(list[1..], fallbackId);
      ImportExportedEntry(list[0], fallbackId);
      assert entries[0] == ExportedEntry(list[0]);
      assert ImportList(entries, fallbackId) == [list[0]] + ImportList(tail, fallbackId);
      assert list == [list[0]] + list[1..];
    }
  }

  /** Importing what was exported restores the store exactly: the backup
      round trip. */
  lemma ExportImportRoundTrip(data: TodosData, fallbackId: string)
    ensures ImportedData(ExportedDates(data), fallbackId) == data
  {
    var r := ImportedData(ExportedDates(data), fallbackId);
    assert r.Keys == data.Keys;
    forall d | d in data ensures r[d] == data[d] {
      ImportExportedDate(data, d, fallbackId);
    }
  }

  /** One date of the backup round trip. */
  lemma ImportExportedDate(data: TodosData, d: string, fallbackId: string)
    requires d in data
    ensures d in ImportedData(ExportedDates(data), fallbackId)
    ensures ImportedData(ExportedDates(data), fallbackId)[d] == data[d]
  {
    assert ImportedData(ExportedDates(data), fallbackId)[d] == ImportList(ExportedList(data[d]), fallbackId);
    ImportListOfExported(data[d], fallbackId);
  }

  /** The `for` loop of `importTodosData`, filling `result` date by date. */
  method BuildImport(dates: map<string, DateValue>, fallbackId: string) returns (result: TodosData)
    ensures result == ImportedData(dates, fallbackId)
  {
    result := map[];
    var rest := dates.Keys;
    while rest != {}
      invariant rest <= dates.Keys
      invariant forall d :: d in result <==> d in dates && d !in rest && dates[d].ArrayOf?
      invariant forall d :: d in result ==> result[d] == ImportList(dates[d].entries, fallbackId)
      decreases rest
    {
      var date :| date in rest;
      match dates[date] {
        case NotAnArray =>
        case ArrayOf(entries) =>
          result := result[date := ImportList(entries, fallbackId)];
      }
      rest := rest - {date};
    }
    assert result.Keys == ImportedData(dates, fallbackId).Keys;
  }

  /** The `todos` key of local storage with the event log of the window. */
  class TodoStore {
    var slot: Slot<TodosData>
    var events: seq<Event>

    constructor (stored: Slot<TodosData>)
      ensures slot == stored && events == []
    {
      slot := stored;
      events := [];
    }

    /** `getTodosStorageData` */
    method GetTodosStorageData() returns (data: TodosData)
      modifies this`events
      ensures data == Decode(slot)
      ensures events == old(events) + ReadEvents(slot)
    {
      data := map[];
      match slot {
        case Absent =>
        case Unparseable(raw) =>
          if raw != "" {
            events := events + [AppError(ReadFailedMessage)];
          }
        case JsonString(_) =>
        case JsonObject(value) =>
          data := value;
        case OtherJson =>
      }
    }

    /** `saveTodosStorageData`: `writeOk` says whether `setItem` succeeds. */
    method SaveTodosStorageData(data: TodosData, writeOk: bool)
      modifies this
      ensures slot == if writeOk then JsonObject(data) else old(slot)
      ensures events == old(events) + WriteEvents(writeOk)
    {
      if writeOk {
        slot := JsonObject(data);
      } else {
        events := events + [AppError(WriteFailedMessage)];
      }
    }

    /** `getTodosByDate` */
    method GetTodosByDate(date: string) returns (todos: seq<TodoItem>)
      modifies this`events
      ensures todos == ForDate(Decode(slot), date)
      ensures events == old(events) + ReadEvents(slot)
    {
      var data := GetTodosStorageData();
      todos := ForDate(data, date);
    }

    /** `getAllTodos` */
    method GetAllTodos() returns (all: seq<TodoItem>, ghost order: seq<string>)
      modifies this`events
      ensures IsKeyOrder(order, Decode(slot)) && all == Concat(Decode(slot), order)
      ensures |all| == TodoCount(Decode(slot))
      ensures events == old(events) + ReadEvents(slot)
    {
      var data := GetTodosStorageData();
      all, order := AllTodos(data);
    }

    /** `saveTodo`: update the task with the same id in its date's list, or
        append it; write the whole object back; announce `todoChanged` even
        when the write failed. */
    method SaveTodo(todo: TodoItem, writeOk: bool)
      modifies this
      ensures slot == if writeOk then JsonObject(SavedData(Decode(old(slot)), todo)) else old(slot)
      ensures events == old(events) + ReadEvents(old(slot)) + WriteEvents(writeOk)
                        + [TodoChanged(SavedTodo(todo))]
    {
      var data := GetTodosStorageData();
      var dateTodos := ForDate(data, todo.date);
      var existingIndex := IndexOfId(dateTodos, todo.id);
      if existingIndex >= 0 {
        dateTodos := dateTodos[existingIndex := todo];
      } else {
        dateTodos := dateTodos + [todo];
      }
      data := data[todo.date := dateTodos];
      SaveTodosStorageData(data, writeOk);
      events := events + [TodoChanged(SavedTodo(todo))];
    }

    /** `deleteTodo` */
    method DeleteTodo(id: string, date: string, writeOk: bool)
      modifies this
      ensures slot == if writeOk then JsonObject(DeletedData(Decode(old(slot)), id, date)) else old(slot)
      ensures events == old(events) + ReadEvents(old(slot)) + WriteEvents(writeOk)
                        + [TodoChanged(NoDetail)]
    {
      var data := GetTodosStorageData();
      var dateTodos := ForDate(data, date);
      var filteredTodos := WithoutId(dateTodos, id);
      if |filteredTodos| == 0 {
        data := data - {date};
      } else {
        data := data[date := filteredTodos];
      }
      SaveTodosStorageData(data, writeOk);
      events := events + [TodoChanged(NoDetail)];
    }

    /** `exportTodosData` */
    method ExportTodosData() returns (data: TodosData)
      modifies this`events
      ensures data == Decode(slot)
      ensures events == old(events) + ReadEvents(slot)
    {
      data := GetTodosStorageData();
    }

    /** `importTodosData`: `undefined` is a successful no-op, any other
        non-object is refused untouched, and an object replaces the whole
        store with its accepted entries (reported as a success even when the
        write fails). `fallbackId` is the `Date.now()` text given to entries
        without a string id. */
    method ImportTodosData(input: ImportInput, fallbackId: string, writeOk: bool)
      returns (result: ImportResult)
      modifies this
      ensures input.Undefined? ==>
        result == ImportResult(true, None) && slot == old(slot) && events == old(events)
      ensures input.NullInput? || input.ArrayInput? || input.PrimitiveInput? ==>
        result == ImportResult(false, Some(BadFormatMessage)) && slot == old(slot) && events == old(events)
      ensures input.ObjectInput? ==>
        && result == ImportResult(true, None)
        && slot == (if writeOk then JsonObject(ImportedData(input.dates, fallbackId)) else old(slot))
        && events == old(events) + WriteEvents(writeOk) + [TodoChanged(ImportedTag), AppInfo(ImportedMessage)]
    {
      match input {
        case Undefined =>
          return ImportResult(true, None);
        case ObjectInput(dates) =>
          var imported := BuildImport(dates, fallbackId);
          SaveTodosStorageData(imported, writeOk);
          events := events + [TodoChanged(ImportedTag)];
          events := events + [AppInfo(ImportedMessage)];
          return ImportResult(true, None);
        case _ =>
          return ImportResult(false, Some(BadFormatMessage));
      }
    }
  }
}
