/** The two maps of the yearly grid, from cell key `${day}-${month}` to
    the colour and to the mood the cell shows, built by the page's nested
    loops. */
module CellMaps {
  import opened Base
  import opened Fills
  import opened YearlyTracker
  import DateFormat
  import MoodStorage

  /** Which of the two grid maps. */
  datatype GridMap = ColorMap | MoodMap

  /** What a cell of the chosen map holds. */
  function CellValue(which: GridMap, year: nat, allMoodData: MoodStorage.MoodData, d: nat, m: nat): Option<string>
  {
    match which
    case ColorMap => CellColor(year, allMoodData, d, m)
    case MoodMap => CellMood(year, allMoodData, d, m)
  }

  /** The value function of the chosen map, for the fills of module Fills. */
  function CellFn(which: GridMap, year: nat, allMoodData: MoodStorage.MoodData): (nat, nat) -> Option<string>
  {
    (d: nat, m: nat) => CellValue(which, year, allMoodData, d, m)
  }

  /** A grid map after the first `days` rows. */
  function Filled(which: GridMap, year: nat, allMoodData: MoodStorage.MoodData, days: nat)
    : map<string, Option<string>>
  {
    GridFill(CellKey, CellFn(which, year, allMoodData), days)
  }

  /** A grid map after the first `months` cells of row `day`, filled over `base`. */
  function RowFilled(which: GridMap, year: nat, allMoodData: MoodStorage.MoodData,
                     base: map<string, Option<string>>, day: nat, months: nat): map<string, Option<string>>
  {
    RowFill(base, CellKey, CellFn(which, year, allMoodData), day, months)
  }

  /** A grid map of the page: the key `${d}-${m}` of each cell holds what
      that cell of the chosen map shows. */
  ghost predicate IsGridMap(f: map<string, Option<string>>, which: GridMap, year: nat,
                            allMoodData: MoodStorage.MoodData)
  {
    IsGrid(f, CellKey, CellFn(which, year, allMoodData))
  }

  /** Reading one cell of a grid map. */
  lemma GridMapCell(f: map<string, Option<string>>, which: GridMap, year: nat,
                    allMoodData: MoodStorage.MoodData, d: nat, m: nat)
    requires IsGridMap(f, which, year, allMoodData) && InGrid(d, m)
    ensures CellKey(d, m) in f && f[CellKey(d, m)] == CellValue(which, year, allMoodData, d, m)
  {
    assert CellFn(which, year, allMoodData)(d, m) == CellValue(which, year, allMoodData, d, m);
  }

  /** `getCellColor` and `getCellMood`: `map.get(`${day}-${month}`) ?? null`. */
  function CellAt(f: map<string, Option<string>>, day: nat, month: nat): Option<string>
  {
    var key := CellKey(day, month);
    if key in f then f[key] else None
  }

  /** Reading a built grid map: a cell of the 31 by 12 grid gives what that
      cell shows, and a pair outside the grid (day 0, month 13, ...) gives
      `null`. */
  lemma CellAtGrid(f: map<string, Option<string>>, which: GridMap, year: nat,
                   allMoodData: MoodStorage.MoodData, d: nat, m: nat)
    requires IsGridMap(f, which, year, allMoodData)
    ensures CellAt(f, d, m) == if InGrid(d, m) then CellValue(which, year, allMoodData, d, m) else None
  {
    if InGrid(d, m) {
      GridMapCell(f, which, year, allMoodData, d, m);
    } else {
      assert CellKey(d, m) !in f by {
        if CellKey(d, m) in f {
          var d', m' :| InGrid(d', m') && CellKey(d, m) == CellKey(d', m');
          CellKeyInjective(d, m, d', m');
          assert false;
        }
      }
    }
  }

  /** The grid's key function gives different cells different keys. */
  lemma CellKeysDistinct()
    ensures KeysDistinct(CellKey)
  {
    forall d1: nat, m1: nat, d2: nat, m2: nat | d1 != d2 || m1 != m2 ensures CellKey(d1, m1) != CellKey(d2, m2) {
      CellKeyInjective(d1, m1, d2, m2);
    }
  }

  /** With all 31 rows done, a grid map is complete. */
  lemma GridMapCells(which: GridMap, year: nat, allMoodData: MoodStorage.MoodData, days: nat)
    requires days == 31
    ensures IsGridMap(Filled(which, year, allMoodData, days), which, year, allMoodData)
  {
    CellKeysDistinct();
    GridFillComplete(CellKey, CellFn(which, year, allMoodData), days);
  }

  /** The `useMemo` that fills `cellColorsMap` and `cellMoodsMap`, row by
      row. `allMoodData` is the mood map the page reads once per refresh. */
  method BuildCellMaps(year: nat, allMoodData: MoodStorage.MoodData)
    returns (colors: map<string, Option<string>>, moods: map<string, Option<string>>)
    ensures IsGridMap(colors, ColorMap, year, allMoodData)
    ensures IsGridMap(moods, MoodMap, year, allMoodData)
  {
    colors, moods := map[], map[];
    var day := 1;
    ghost var done: nat := 0;
    while day <= 31
      invariant 1 <= day <= 32 && done == day - 1
      invariant colors == Filled(ColorMap, year, allMoodData, done)
      invariant moods == Filled(MoodMap, year, allMoodData, done)
    {
      colors, moods := FillRow(year, allMoodData, day, colors, moods, done);
      day := day + 1;
      done := done + 1;
    }
    GridMapCells(ColorMap, year, allMoodData, done);
    GridMapCells(MoodMap, year, allMoodData, done);
  }

  /** One turn of the outer loop: the twelve months of row `day`. */
  method FillRow(year: nat, allMoodData: MoodStorage.MoodData, day: nat,
                 colors0: map<string, Option<string>>, moods0: map<string, Option<string>>, ghost done: nat)
    returns (colors: map<string, Option<string>>, moods: map<string, Option<string>>)
    requires day == done + 1
    requires colors0 == Filled(ColorMap, year, allMoodData, done)
    requires moods0 == Filled(MoodMap, year, allMoodData, done)
    ensures colors == Filled(ColorMap, year, allMoodData, done + 1)
    ensures moods == Filled(MoodMap, year, allMoodData, done + 1)
  {
    colors, moods := colors0, moods0;
    var month := 1;
    while month <= 12
      invariant 1 <= month <= 13
      invariant colors == RowFilled(ColorMap, year, allMoodData, colors0, day, month - 1)
      invariant moods == RowFilled(MoodMap, year, allMoodData, moods0, day, month - 1)
    {
      colors, moods := FillCell(year, allMoodData, day, month, colors, moods);
      RowStep(ColorMap, year, allMoodData, colors0, day, month);
      RowStep(MoodMap, year, allMoodData, moods0, day, month);
      month := month + 1;
    }
  }

  /** The body of the inner loop: cell (day, month) gets `null` when the day
      does not exist, and otherwise the mood stored for its date and that
      mood's colour. */
  method FillCell(year: nat, allMoodData: MoodStorage.MoodData, day: nat, month: nat,
                  colors0: map<string, Option<string>>, moods0: map<string, Option<string>>)
    returns (colors: map<string, Option<string>>, moods: map<string, Option<string>>)
    ensures colors == colors0[CellKey(day, month) := CellValue(ColorMap, year, allMoodData, day, month)]
    ensures moods == moods0[CellKey(day, month) := CellValue(MoodMap, year, allMoodData, day, month)]
  {
    var key := CellKey(day, month);
    if !IsValidDay(day, month) {
      colors := colors0[key := None];
      moods := moods0[key := None];
    } else {
      var dateString := DateFormat.DateString(year, month, day);
      var moodName := MoodStorage.Lookup(allMoodData, dateString);
      colors := colors0[key := MoodHexColor(moodName)];
      moods := moods0[key := moodName];
    }
  }

  /** Setting cell (day, month) takes a row one cell further. */
  lemma RowStep(which: GridMap, year: nat, allMoodData: MoodStorage.MoodData,
                base: map<string, Option<string>>, day: nat, month: nat)
    requires 1 <= month
    ensures RowFilled(which, year, allMoodData, base, day, month) ==
      RowFilled(which, year, allMoodData, base, day, month - 1)[CellKey(day, month) := CellValue(which, year, allMoodData, day, month)]
  {
  }
}
