/** The yearly mood grid: 31 rows of days by 12 columns of months, each
    cell showing the mood stored for that date of the current year, the
    per-mood day counts under it, and the task lists beside it. */
module YearlyTracker {
  import opened Base
  import opened Seqs
  import opened Text
  import opened TodoTypes
  import opened MoodConfig
  import DateFormat
  import MoodStorage
  import TodoStorage
  import Storage
  import Events

  /** `getMoodHexColor`: the table colour of a mood name, or nothing for a
      missing, empty or unknown name. */
  function MoodHexColor(name: Option<string>): Option<string>
  {
    if name.None? || name.value == "" then None
    else
      var spec := FindFirst(Config, (m: MoodSpec) => m.name == name.value);
      if spec.Some? then Some(spec.value.color) else None
  }

  /** A colour is found exactly for a non-empty name of the table, and it is
      that entry's colour. */
  lemma MoodHexColorOf(name: Option<string>)
    ensures MoodHexColor(name).Some? <==>
      name.Some? && name.value != "" && exists i :: 0 <= i < |Config| && Config[i].name == name.value
    ensures MoodHexColor(name).Some? ==>
      exists i :: 0 <= i < |Config| && Config[i].name == name.value && MoodHexColor(name).value == Config[i].color
  {
    if MoodHexColor(name).Some? {
      var spec := FindFirst(Config, (m: MoodSpec) => m.name == name.value);
      var i :| 0 <= i < |Config| && Config[i] == spec.value;
    }
  }

  /** `isValidDay`: February has 28 days, April, June, September and
      November 30, every other month 31; there is no leap year. */
  predicate IsValidDay(day: int, month: int)
  {
    if month == 2 then day <= 28
    else if month in {4, 6, 9, 11} then day <= 30
    else day <= 31
  }

  /** The length of a month in a common year. */
  function DaysInMonth(month: int): nat
    requires 1 <= month <= 12
  {
    [31, 28, 31, 30, 31, 30, 31, 31, 30, 31, 30, 31][month - 1]
  }

  /** On the grid, a cell is valid exactly when its day exists in a common
      year. */
  lemma ValidDayIsCalendarDay(day: int, month: int)
    requires 1 <= day <= 31 && 1 <= month <= 12
    ensures IsValidDay(day, month) <==> day <= DaysInMonth(month)
  {
  }

  /** How many of the months 1..k have a day `day`. */
  function ValidRow(day: int, k: nat): (n: nat)
    ensures n <= k
  {
    if k == 0 then 0 else ValidRow(day, k - 1) + if IsValidDay(day, k) then 1 else 0
  }

  /** How many valid cells rows 1..j hold. */
  function ValidGrid(j: nat): nat
  {
    if j == 0 then 0 else ValidGrid(j - 1) + ValidRow(j, 12)
  }

  lemma RowSize(day: int)
    requires 1 <= day <= 31
    ensures ValidRow(day, 12) == if day <= 28 then 12 else if day <= 30 then 11 else 7
  {
    assert ValidRow(day, 1) == ValidRow(day, 0) + 1;
    assert ValidRow(day, 2) == ValidRow(day, 1) + (if day <= 28 then 1 else 0);
    assert ValidRow(day, 3) == ValidRow(day, 2) + 1;
    assert ValidRow(day, 4) == ValidRow(day, 3) + (if day <= 30 then 1 else 0);
    assert ValidRow(day, 5) == ValidRow(day, 4) + 1;
    assert ValidRow(day, 6) == ValidRow(day, 5) + (if day <= 30 then 1 else 0);
    assert ValidRow(day, 7) == ValidRow(day, 6) + 1;
    assert ValidRow(day, 8) == ValidRow(day, 7) + 1;
    assert ValidRow(day, 9) == ValidRow(day, 8) + (if day <= 30 then 1 else 0);
    assert ValidRow(day, 10) == ValidRow(day, 9) + 1;
    assert ValidRow(day, 11) == ValidRow(day, 10) + (if day <= 30 then 1 else 0);
    assert ValidRow(day, 12) == ValidRow(day, 11) + 1;
  }

  lemma {:induction false} GridSize(j: nat)
    requires j <= 31
    ensures ValidGrid(j) == if j <= 28 then 12 * j else if j <= 30 then 336 + 11 * (j - 28) else 365
  {
    if j > 0 {
      GridSize(j - 1);
      RowSize(j);
    }
  }

  /** 365 of the 372 cells are valid. */
  lemma ValidCellCount()
    ensures ValidGrid(31) == 365
  {
    GridSize(31);
  }

  /** `${day}-${month}`: the key of a cell in the grid maps. */
  function CellKey(day: nat, month: nat): string
  {
    NatToString(day) + "-" + NatToString(month)
  }

  /** The first dash of a key comes right after the day's digits. */
  lemma DashAfterDigits(a: string, rest: string)
    requires AllDigits(a)
    ensures IndexOf(a + "-" + rest, '-') == |a|
  {
    var s := a + "-" + rest;
    var i := IndexOf(s, '-');
    assert s[|a|] == '-';
  }

  /** Different cells have different keys. */
  lemma CellKeyInjective(d1: nat, m1: nat, d2: nat, m2: nat)
    ensures CellKey(d1, m1) == CellKey(d2, m2) <==> d1 == d2 && m1 == m2
  {
    var a, b := NatToString(d1), NatToString(d2);
    var k1, k2 := CellKey(d1, m1), CellKey(d2, m2);
    if k1 == k2 {
      DashAfterDigits(a, NatToString(m1));
      DashAfterDigits(b, NatToString(m2));
      assert a == k1[..|a|] && b == k2[..|b|];
      NatToStringInjective(d1, d2);
      assert NatToString(m1) == k1[|a| + 1..] && NatToString(m2) == k2[|b| + 1..];
      NatToStringInjective(m1, m2);
    }
  }

  /** The mood a cell shows: nothing for an invalid cell, otherwise the
      stored mood of its date in `year`, if any (`allMoodData[date] || null`). */
  function CellMood(year: nat, allMoodData: MoodStorage.MoodData, day: nat, month: nat): (r: Option<string>)
    ensures !IsValidDay(day, month) ==> r.None?
    ensures IsValidDay(day, month) ==>
      r == MoodStorage.Lookup(allMoodData, DateFormat.DateString(year, month, day))
  {
    if !IsValidDay(day, month) then None
    else MoodStorage.Lookup(allMoodData, DateFormat.DateString(year, month, day))
  }

  /** The colour a cell shows. */
  function CellColor(year: nat, allMoodData: MoodStorage.MoodData, day: nat, month: nat): (r: Option<string>)
    ensures !IsValidDay(day, month) ==> r.None?
    ensures var mood := CellMood(year, allMoodData, day, month);
      r.Some? <==> mood.Some? && exists i :: 0 <= i < |Config| && Config[i].name == mood.value
    ensures r.Some? ==>
      exists i :: 0 <= i < |Config| && Some(Config[i].name) == CellMood(year, allMoodData, day, month) && r.value == Config[i].color
  {
    MoodHexColorOf(CellMood(year, allMoodData, day, month));
    if !IsValidDay(day, month) then None else MoodHexColor(CellMood(year, allMoodData, day, month))
  }

  // ----- moodCounts -----

  /** 1 when cell (d, m) is valid and shows mood `name` in `cells`. */
  function Hit(cells: map<string, Option<string>>, name: string, d: nat, m: nat): nat
  {
    if IsValidDay(d, m) && CellKey(d, m) in cells && cells[CellKey(d, m)] == Some(name) then 1 else 0
  }

  /** Cells of row `d`, months 1..k, that show `name`. */
  function RowCount(cells: map<string, Option<string>>, name: string, d: nat, k: nat): nat
  {
    if k == 0 then 0 else RowCount(cells, name, d, k - 1) + Hit(cells, name, d, k)
  }

  /** Cells of rows 1..j that show `name`: with j = 31, the days of the
      year spent in that mood. */
  function GridCount(cells: map<string, Option<string>>, name: string, j: nat): nat
  {
    if j == 0 then 0 else GridCount(cells, name, j - 1) + RowCount(cells, name, j, 12)
  }

  /** The two `for` loops of `moodCounts` for one mood. */
  method CountMood(cells: map<string, Option<string>>, name: string) returns (count: nat)
    ensures count == GridCount(cells, name, 31)
  {
    count := 0;
    var day := 1;
    while day <= 31
      invariant 1 <= day <= 32
      invariant count == GridCount(cells, name, day - 1)
    {
      count := CountRow(cells, name, day, count);
      day := day + 1;
    }
  }

  /** The inner loop of `moodCounts`: the twelve months of row `day`, each
      valid cell showing `name` adding one to `count`. */
  method CountRow(cells: map<string, Option<string>>, name: string, day: nat, count0: nat) returns (count: nat)
    ensures count == count0 + RowCount(cells, name, day, 12)
  {
    count := count0;
    var month := 1;
    while month <= 12
      invariant 1 <= month <= 13
      invariant count == count0 + RowCount(cells, name, day, month - 1)
    {
      if IsValidDay(day, month) {
        var key := CellKey(day, month);
        if key in cells && cells[key] == Some(name) {
          count := count + 1;
        }
      }
      month := month + 1;
    }
  }

  /** The `moods.forEach` of `moodCounts`: one count per mood name. */
  method MoodCounts(cells: map<string, Option<string>>, ms: seq<Mood>) returns (counts: map<string, nat>)
    ensures forall k :: k in counts <==> exists i :: 0 <= i < |ms| && ms[i].name == k
    ensures forall i :: 0 <= i < |ms| ==> counts[ms[i].name] == GridCount(cells, ms[i].name, 31)
  {
    counts := map[];
    var n := 0;
    while n < |ms|
      invariant n <= |ms|
      invariant forall k :: k in counts <==> exists i :: 0 <= i < n && ms[i].name == k
      invariant forall i :: 0 <= i < n ==> counts[ms[i].name] == GridCount(cells, ms[i].name, 31)
    {
      var count := CountMood(cells, ms[n].name);
      counts := counts[ms[n].name := count];
      n := n + 1;
    }
  }

  /** `getMoodCount`: `moodCounts.get(name) || 0`. */
  function MoodCount(counts: map<string, nat>, name: string): (n: nat)
    ensures name !in counts ==> n == 0
  {
    if name in counts then counts[name] else 0
  }

  /** A name outside the mood list has count 0; a listed one has its
      grid count. */
  lemma MoodCountOf(cells: map<string, Option<string>>, ms: seq<Mood>, counts: map<string, nat>, name: string)
    requires forall k :: k in counts <==> exists i :: 0 <= i < |ms| && ms[i].name == k
    requires forall i :: 0 <= i < |ms| ==> counts[ms[i].name] == GridCount(cells, ms[i].name, 31)
    ensures (forall i :: 0 <= i < |ms| ==> ms[i].name != name) ==> MoodCount(counts, name) == 0
    ensures (exists i :: 0 <= i < |ms| && ms[i].name == name) ==> MoodCount(counts, name) == GridCount(cells, name, 31)
  {
  }

  /** Sums of the counts over a list of names. */
  function HitsAt(cells: map<string, Option<string>>, names: seq<string>, d: nat, m: nat): nat
  {
    if names == [] then 0 else Hit(cells, names[0], d, m) + HitsAt(cells, names[1..], d, m)
  }

  function RowsAt(cells: map<string, Option<string>>, names: seq<string>, d: nat, k: nat): nat
  {
    if names == [] then 0 else RowCount(cells, names[0], d, k) + RowsAt(cells, names[1..], d, k)
  }

  function GridsAt(cells: map<string, Option<string>>, names: seq<string>, j: nat): nat
  {
    if names == [] then 0 else GridCount(cells, names[0], j) + GridsAt(cells, names[1..], j)
  }

  predicate Distinct(names: seq<string>)
  {
    forall i, j :: 0 <= i < j < |names| ==> names[i] != names[j]
  }

  /** A cell shows at most one of several different moods. */
  lemma {:induction false} HitsAtMostOne(cells: map<string, Option<string>>, names: seq<string>, d: nat, m: nat)
    requires Distinct(names)
    ensures HitsAt(cells, names, d, m) <= if IsValidDay(d, m) then 1 else 0
  {
    if names != [] {
      HitsAtMostOne(cells, names[1..], d, m);
      if Hit(cells, names[0], d, m) == 1 {
        NoHits(cells, names[1..], names[0], d, m);
      }
    }
  }

  lemma {:induction false} NoHits(cells: map<string, Option<string>>, names: seq<string>, shown: string, d: nat, m: nat)
    requires Hit(cells, shown, d, m) == 1
    requires forall i :: 0 <= i < |names| ==> names[i] != shown
    ensures HitsAt(cells, names, d, m) == 0
  {
    if names != [] {
      NoHits(cells, names[1..], shown, d, m);
    }
  }

  lemma {:induction false} RowsAtStep(cells: map<string, Option<string>>, names: seq<string>, d: nat, k: nat)
    requires k > 0
    ensures RowsAt(cells, names, d, k) == RowsAt(cells, names, d, k - 1) + HitsAt(cells, names, d, k)
  {
    if names != [] {
      RowsAtStep(cells, names[1..], d, k);
    }
  }

  lemma {:induction false} GridsAtStep(cells: map<string, Option<string>>, names: seq<string>, j: nat)
    requires j > 0
    ensures GridsAt(cells, names, j) == GridsAt(cells, names, j - 1) + RowsAt(cells, names, j, 12)
  {
    if names != [] {
      GridsAtStep(cells, names[1..], j);
    }
  }

  lemma {:induction false} RowsAtBound(cells: map<string, Option<string>>, names: seq<string>, d: nat, k: nat)
    requires Distinct(names)
    ensures RowsAt(cells, names, d, k) <= ValidRow(d, k)
  {
    if k == 0 {
      RowsAtZero(cells, names, d);
    } else {
      RowsAtStep(cells, names, d, k);
      RowsAtBound(cells, names, d, k - 1);
      HitsAtMostOne(cells, names, d, k);
    }
  }

  lemma {:induction false} RowsAtZero(cells: map<string, Option<string>>, names: seq<string>, d: nat)
    ensures RowsAt(cells, names, d, 0) == 0
  {
    if names != [] {
      RowsAtZero(cells, names[1..], d);
    }
  }

  lemma {:induction false} GridsAtZero(cells: map<string, Option<string>>, names: seq<string>)
    ensures GridsAt(cells, names, 0) == 0
  {
    if names != [] {
      GridsAtZero(cells, names[1..]);
    }
  }

  lemma {:induction false} GridsAtBound(cells: map<string, Option<string>>, names: seq<string>, j: nat)
    requires Distinct(names)
    ensures GridsAt(cells, names, j) <= ValidGrid(j)
  {
    if j == 0 {
      GridsAtZero(cells, names);
    } else {
      GridsAtStep(cells, names, j);
      GridsAtBound(cells, names, j - 1);
      RowsAtBound(cells, names, j, 12);
    }
  }

  /** Different moods never share a day: their counts add up to at most
      the 365 valid cells. */
  lemma CountsSumBound(cells: map<string, Option<string>>, names: seq<string>)
    requires Distinct(names)
    ensures GridsAt(cells, names, 31) <= 365
  {
    GridsAtBound(cells, names, 31);
    ValidCellCount();
  }

  /** In particular no mood is counted on more than 365 days. */
  lemma CountBound(cells: map<string, Option<string>>, name: string)
    ensures GridCount(cells, name, 31) <= 365
  {
    CountsSumBound(cells, [name]);
  }

  /** The names of a list of moods. */
  function Names(ms: seq<Mood>): (r: seq<string>)
    ensures |r| == |ms| && forall i :: 0 <= i < |ms| ==> r[i] == ms[i].name
  {
    seq(|ms|, i requires 0 <= i < |ms| => ms[i].name)
  }

  /** Moods built from entries with different names have different names. */
  lemma {:induction false} MoodsFromDistinct(specs: seq<MoodSpec>, images: seq<string>)
    requires forall i, j :: 0 <= i < j < |specs| ==> specs[i].name != specs[j].name
    ensures Distinct(Names(MoodsFrom(specs, images)))
  {
    if specs != [] {
      MoodsFromDistinct(specs[1..], images);
      var names := Names(MoodsFrom(specs[1..], images));
      LaterNamesDiffer(specs, images);
      if Dressed(specs[0], images).Some? {
        var all := Names(MoodsFrom(specs, images));
        assert all == [specs[0].name] + names;
        forall i, j | 0 <= i < j < |all| ensures all[i] != all[j] {
          assert all[j] == names[j - 1];
          if i > 0 {
            assert all[i] == names[i - 1];
          }
        }
      }
    }
  }

  /** No mood built from the later entries has the first entry's name. */
  lemma LaterNamesDiffer(specs: seq<MoodSpec>, images: seq<string>)
    requires specs != []
    requires forall i, j :: 0 <= i < j < |specs| ==> specs[i].name != specs[j].name
    ensures forall k :: 0 <= k < |Names(MoodsFrom(specs[1..], images))| ==>
      Names(MoodsFrom(specs[1..], images))[k] != specs[0].name
  {
    var rest := MoodsFrom(specs[1..], images);
    forall k | 0 <= k < |rest| ensures rest[k].name != specs[0].name {
      var i :| 0 <= i < |specs[1..]| && Dressed(specs[1..][i], images) == Some(rest[k]);
      assert specs[1..][i] == specs[i + 1];
    }
  }

  /** The per-mood counts of the page add up to at most 365. */
  lemma PageCountsBound(cells: map<string, Option<string>>, images: seq<string>)
    ensures GridsAt(cells, Names(Moods(images)), 31) <= 365
  {
    ConfigNames();
    MoodsFromDistinct(Config, images);
    CountsSumBound(cells, Names(Moods(images)));
  }

  // ----- task lists -----

  /** `completedTodos`: the date's completed tasks, in order. */
  function CompletedTodos(todos: seq<TodoItem>): (r: seq<TodoItem>)
    ensures IsSubsequence(r, todos)
    ensures forall i :: 0 <= i < |r| ==> r[i].completed
    ensures forall k :: 0 <= k < |todos| && todos[k].completed ==> todos[k] in r
  {
    Filter((t: TodoItem) => t.completed, todos)
  }

  /** `incompleteTodos`: the date's open tasks, in order. */
  function IncompleteTodos(todos: seq<TodoItem>): (r: seq<TodoItem>)
    ensures IsSubsequence(r, todos)
    ensures forall i :: 0 <= i < |r| ==> !r[i].completed
    ensures forall k :: 0 <= k < |todos| && !todos[k].completed ==> todos[k] in r
  {
    Filter((t: TodoItem) => !t.completed, todos)
  }

  /** For one date's list, the completed and the incomplete filters
      partition it: together they hold each task exactly as often as the
      list does. (The page's two panels each pick their own date.) */
  lemma CompletedSplit(todos: seq<TodoItem>)
    ensures multiset(CompletedTodos(todos)) + multiset(IncompleteTodos(todos)) == multiset(todos)
    ensures |CompletedTodos(todos)| + |IncompleteTodos(todos)| == |todos|
  {
    FilterPartition((t: TodoItem) => t.completed, (t: TodoItem) => !t.completed, todos);
  }

  /** `{ ...todo, completed: !todo.completed }` */
  function Toggled(todo: TodoItem): (r: TodoItem)
    ensures r.completed == !todo.completed
    ensures r.(completed := todo.completed) == todo
  {
    todo.(completed := !todo.completed)
  }

  /** Toggling twice gives the task back. */
  lemma ToggleInvolution(todo: TodoItem)
    ensures Toggled(Toggled(todo)) == todo
  {
  }

  /** Toggling a stored task replaces it in place: the date keeps as many
      tasks, and only the first one with its id changes. */
  lemma ToggleInPlace(data: TodoStorage.TodosData, todo: TodoItem)
    requires todo in TodoStorage.ForDate(data, todo.date)
    ensures var before, after := TodoStorage.ForDate(data, todo.date),
      TodoStorage.ForDate(TodoStorage.SavedData(data, Toggled(todo)), todo.date);
      var i := TodoStorage.IndexOfId(before, todo.id);
      && 0 <= i && |after| == |before| && after[i] == Toggled(todo)
      && forall k :: 0 <= k < |before| && k != i ==> after[k] == before[k]
  {
    var before := TodoStorage.ForDate(data, todo.date);
    var k :| 0 <= k < |before| && before[k] == todo;
    assert TodoStorage.IndexOfId(before, todo.id) >= 0;
  }

  /** `handleToggleComplete` */
  method HandleToggleComplete(store: TodoStorage.TodoStore, todo: TodoItem, writeOk: bool)
    modifies store
    ensures store.slot == if writeOk then
      Storage.JsonObject(TodoStorage.SavedData(TodoStorage.Decode(old(store.slot)), Toggled(todo)))
      else old(store.slot)
    ensures store.events == old(store.events) + TodoStorage.ReadEvents(old(store.slot))
      + TodoStorage.WriteEvents(writeOk) + [Events.TodoChanged(Events.SavedTodo(Toggled(todo)))]
  {
    var updatedTodo := todo.(completed := !todo.completed);
    store.SaveTodo(updatedTodo, writeOk);
  }

  // ----- tooltip -----

  /** `mood?.label || moodName` */
  function TooltipLabel(name: string, images: seq<string>): (r: string)
    ensures r != [] || name == []
    ensures r == name || exists m :: m in Moods(images) && m.name == name && r == m.labelText
  {
    var found := MoodNamed(images, name);
    if found.Some? && found.value.labelText != "" then found.value.labelText else name
  }

  /** A mood of the table that has a picture is named by its label; a name
      the table does not hold is shown as it is. */
  lemma TooltipLabelOf(i: nat, images: seq<string>)
    requires i < |Config|
    requires exists j :: 0 <= j < |images| && Includes(images[j], Config[i].name)
    ensures TooltipLabel(Config[i].name, images) ==
      if Config[i].labelText != "" then Config[i].labelText else Config[i].name
  {
    MoodNamedFromTable(images, i);
    var m := MoodNamed(images, Config[i].name).value;
    assert m.labelText == Config[i].labelText;
  }

  lemma UnknownTooltipLabel(name: string, images: seq<string>)
    requires forall i :: 0 <= i < |Config| ==> Config[i].name != name
    ensures TooltipLabel(name, images) == name
  {
  }

  /** `getTooltipMessage`: it starts "You had ", followed by a digit exactly
      when the count is not zero; a zero count reads "You had no <label> days". */
  function TooltipMessage(name: string, count: nat, images: seq<string>): (r: string)
    ensures |r| > 8 && "You had " <= r
    ensures IsDigit(r[8]) <==> count >= 1
    ensures count == 0 ==> r == "You had no " + TooltipLabel(name, images) + " days"
  {
    var caption := TooltipLabel(name, images);
    if count == 0 then "You had no " + caption + " days"
    else if count == 1 then "You had 1 " + caption + " day"
    else "You had " + NatToString(count) + " " + caption + " days"
  }

  /** The count is written in the message and reads back as the count; the
      noun is singular exactly for one day. */
  lemma TooltipNumber(name: string, count: nat, images: seq<string>)
    requires count >= 1
    ensures var r, digits := TooltipMessage(name, count, images), NatToString(count);
      && 8 + |digits| <= |r| && r[8..8 + |digits|] == digits && DecimalValue(digits) == count
      && (count == 1 <==> r[|r| - 4..] == " day")
  {
    var digits := NatToString(count);
    var noun := if count == 1 then " day" else " days";
    var tail := " " + TooltipLabel(name, images) + noun;
    TooltipShape(name, count, images);
    DecimalRoundTrip(count);
    Embedded("You had ", digits, tail);
    var r := TooltipMessage(name, count, images);
    assert r[|r| - |noun|..] == noun;
    if count != 1 {
      assert r[|r| - 1] == 's';
    }
  }

  /** For a count of one or more, the message is "You had ", the count's
      digits, the label and the noun. */
  lemma TooltipShape(name: string, count: nat, images: seq<string>)
    requires count >= 1
    ensures TooltipMessage(name, count, images) ==
      "You had " + NatToString(count) + (" " + TooltipLabel(name, images) + (if count == 1 then " day" else " days"))
  {
    var caption := TooltipLabel(name, images);
    var r := TooltipMessage(name, count, images);
    if count == 1 {
      assert r == "You had 1 " + caption + " day";
      assert NatToString(count) == "1";
      assert "You had 1 " + caption + " day" == "You had " + "1" + (" " + caption + " day");
    } else {
      assert r == "You had " + NatToString(count) + " " + caption + " days";
      assert "You had " + NatToString(count) + " " + caption + " days" ==
        "You had " + NatToString(count) + (" " + caption + " days");
    }
  }

  /** Where the middle part of a three-part string sits. */
  lemma Embedded(p: string, x: string, q: string)
    ensures var s := p + x + q;
      && |p| + |x| <= |s| && s[|p|..|p| + |x|] == x && s[|s| - |q|..] == q
  {
  }
}
