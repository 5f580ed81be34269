/** The mood store: the `selectedMood` key holds a JSON object from a UTC
    date (YYYY-MM-DD) to the name of the mood chosen that day. Older
    versions stored a bare mood name; reading migrates it to today's entry. */
module MoodStorage {
  import opened Base
  import opened Storage
  import opened Text
  import opened MoodConfig
  import Hex

  type MoodData = map<string, string>

  /** What `migrateOldFormat` leaves in the slot: text that is not JSON is a
      bare mood name from an older version and becomes today's entry;
      anything else, JSON or not stored at all, is left alone. */
  function Migrated(slot: Slot<MoodData>, today: string): (r: Slot<MoodData>)
    ensures slot.Unparseable? && slot.raw != "" ==> r == JsonObject(map[today := slot.raw])
    ensures !slot.Unparseable? || slot.raw == "" ==> r == slot
  {
    match slot
    case Unparseable(raw) => if raw != "" then JsonObject(map[today := raw]) else slot
    case _ => slot
  }

  /** What the slot holds once `getMoodStorageData` returns: the migration,
      then a stored JSON string rewritten as today's entry. */
  function AfterRead(slot: Slot<MoodData>, today: string): (r: Slot<MoodData>)
    ensures IsBlank(slot) || slot.JsonObject? || slot.OtherJson? ==> r == slot
    ensures slot.JsonString? ==> r == JsonObject(map[today := slot.s])
    ensures !IsBlank(slot) && !slot.OtherJson? ==> r.JsonObject?
  {
    var m := Migrated(slot, today);
    if m.JsonString? then JsonObject(map[today := m.s]) else m
  }

  /** What `getMoodStorageData` returns. */
  function ReadMoods(slot: Slot<MoodData>, today: string): (data: MoodData)
    ensures IsBlank(slot) ==> data == map[]
    ensures AfterRead(slot, today).JsonObject? ==> data == AfterRead(slot, today).value
  {
    var m := AfterRead(slot, today);
    if m.JsonObject? then m.value else map[]
  }

  /** Migration happens once: reading what a read left behind, on the same
      day or any later one, rewrites nothing and returns the same data. */
  lemma MigrationIdempotent(slot: Slot<MoodData>, today: string, later: string)
    ensures AfterRead(AfterRead(slot, today), later) == AfterRead(slot, today)
    ensures ReadMoods(AfterRead(slot, today), later) == ReadMoods(slot, today)
  {
  }

  /** The data `saveMoodForToday` writes: a non-empty mood becomes today's
      entry; `null` or "" removes it; other dates keep theirs. */
  function WithMood(data: MoodData, today: string, mood: Option<string>): (r: MoodData)
    ensures mood.Some? && mood.value != "" ==> today in r && r[today] == mood.value
    ensures mood.None? || mood.value == "" ==> today !in r
    ensures forall d :: d != today ==> (d in r <==> d in data)
    ensures forall d :: d != today && d in data ==> r[d] == data[d]
  {
    if mood.Some? && mood.value != "" then data[today := mood.value] else data - {today}
  }

  /** `data[date] || null` */
  function Lookup(data: MoodData, date: string): (r: Option<string>)
    ensures r.Some? <==> date in data && data[date] != ""
    ensures r.Some? ==> r.value == data[date]
  {
    if date in data && data[date] != "" then Some(data[date]) else None
  }

  /** After saving a mood, today's lookup gives it back (or nothing after a
      clear), and every other date's lookup is what it was. */
  lemma SaveThenLookup(slot: Slot<MoodData>, today: string, mood: Option<string>, date: string)
    ensures var saved := WithMood(ReadMoods(slot, today), today, mood);
      && ReadMoods(JsonObject(saved), today) == saved
      && Lookup(saved, today) == (if mood.Some? && mood.value != "" then mood else None)
      && (date != today ==> Lookup(saved, date) == Lookup(ReadMoods(slot, today), date))
  {
  }

  /** One element of `getAllMoodData`. */
  datatype MoodEntry = MoodEntry(date: string, mood: string)

  /** Newest first, no date twice. */
  ghost predicate Descending(entries: seq<MoodEntry>)
  {
    forall i, j :: 0 <= i < j < |entries| ==> Less(entries[j].date, entries[i].date)
  }

  /** `entries` lists every pair of `data` and nothing else. */
  ghost predicate ListsExactly(entries: seq<MoodEntry>, data: MoodData)
  {
    forall e :: e in entries <==> e.date in data && data[e.date] == e.mood
  }

  /** Puts `e` into a newest-first list at its place. */
  function InsertByDate(entries: seq<MoodEntry>, e: MoodEntry): (r: seq<MoodEntry>)
    requires Descending(entries)
    requires forall i :: 0 <= i < |entries| ==> entries[i].date != e.date
    ensures Descending(r)
    ensures |r| == |entries| + 1
    ensures forall x :: x in r <==> x in entries || x == e
  {
    if entries == [] then [e]
    else if Less(entries[0].date, e.date) then
      forall j | 0 <= j < |entries| ensures Less(entries[j].date, e.date) {
        if j > 0 {
          LessTransitive(entries[j].date, entries[0].date, e.date);
        }
      }
      [e] + entries
    else
      LessTotal(entries[0].date, e.date);
      var rest := InsertByDate(entries[1..], e);
      forall k | 0 <= k < |rest| ensures Less(rest[k].date, entries[0].date) {
        if rest[k] != e {
          assert rest[k] in rest;
          assert rest[k] in entries[1..];
          var j :| 0 <= j < |entries[1..]| && entries[1..][j] == rest[k];
          assert entries[j + 1] == rest[k];
        }
      }
      [entries[0]] + rest
  }

  /** `Object.entries(data).map(...).sort((a, b) => b.date.localeCompare(a.date))`:
      each pair of the map taken in turn and put at its place. */
  method SortedEntries(data: MoodData) returns (entries: seq<MoodEntry>)
    ensures Descending(entries)
    ensures ListsExactly(entries, data)
    ensures |entries| == |data|
  {
    entries := [];
    var rest := data.Keys;
    while rest != {}
      invariant rest <= data.Keys
      invariant Descending(entries)
      invariant forall e :: e in entries <==> e.date in data.Keys - rest && data[e.date] == e.mood
      invariant |entries| + |rest| == |data|
      decreases rest
    {
      var date :| date in rest;
      entries := InsertByDate(entries, MoodEntry(date, data[date]));
      rest := rest - {date};
    }
  }

  /** A newest-first list of pairs is fixed by the pairs it holds: whatever
      order the map yields its entries in, the sorted listing is the same. */
  lemma {:induction false} DescendingUnique(a: seq<MoodEntry>, b: seq<MoodEntry>)
    requires Descending(a) && Descending(b)
    requires forall e :: e in a <==> e in b
    ensures a == b
  {
    if a != [] {
      assert a[0] in b;
    }
    if b != [] {
      assert b[0] in a;
    }
    if a != [] && b != [] {
      if a[0] != b[0] {
        var i :| 0 <= i < |b| && b[i] == a[0];
        var j :| 0 <= j < |a| && a[j] == b[0];
        LessIrreflexive(a[0].date);
        if i > 0 && j > 0 {
          LessTransitive(a[0].date, b[0].date, a[0].date);
        }
        assert false;
      }
      forall e ensures e in a[1..] <==> e in b[1..] {
        if e in a[1..] {
          var k :| 0 <= k < |a[1..]| && a[1..][k] == e;
          assert a[k + 1] == e;
          LessIrreflexive(e.date);
          assert e in a && e in b;
          var l :| 0 <= l < |b| && b[l] == e;
          assert l != 0;
          assert b[1..][l - 1] == e;
        }
        if e in b[1..] {
          var k :| 0 <= k < |b[1..]| && b[1..][k] == e;
          assert b[k + 1] == e;
          LessIrreflexive(e.date);
          assert e in b && e in a;
          var l :| 0 <= l < |a| && a[l] == e;
          assert l != 0;
          assert a[1..][l - 1] == e;
        }
      }
      DescendingUnique(a[1..], b[1..]);
      assert a == [a[0]] + a[1..] && b == [b[0]] + b[1..];
    }
  }

  /** `shouldMoodRotate` */
  predicate ShouldMoodRotate(name: Option<string>)
  {
    name == Some("mood-awesome") || name == Some("mood-good")
  }

  /** Only the first two moods of the table rotate. */
  lemma RotatingMoods(name: Option<string>)
    ensures ShouldMoodRotate(name) <==> name.Some? && exists i :: 0 <= i < 2 && Config[i].name == name.value
  {
    assert Config[0].name == "mood-awesome" && Config[1].name == "mood-good";
    if name == Some("mood-awesome") {
      assert Config[0].name == name.value;
    } else if name == Some("mood-good") {
      assert Config[1].name == name.value;
    }
  }

  const DefaultGlow: string := "rgba(150, 150, 150, 0.6)"

  /** `${parseInt(part, 16)}`: NaN when `part` does not start with a hex digit. */
  function ChannelText(part: string): string
  {
    match Hex.ParseHex(part)
    case Some(v) => NatToString(v)
    case None => "NaN"
  }

  /** The glow colour for a `#RRGGBB` colour. */
  function Rgba(color: string): string
  {
    var hex := RemoveFirst(color, '#');
    "rgba(" + ChannelText(Substring(hex, 0, 2)) + ", " + ChannelText(Substring(hex, 2, 4)) + ", "
      + ChannelText(Substring(hex, 4, 6)) + ", 0.8)"
  }

  /** `getMoodColor` */
  function MoodColor(name: Option<string>, images: seq<string>): (r: string)
    ensures name.None? || name == Some("") ==> r == DefaultGlow
    ensures r == DefaultGlow || exists m :: m in Moods(images) && Some(m.name) == name && r == Rgba(m.color)
  {
    if name.None? || name.value == "" then DefaultGlow
    else
      var found := MoodNamed(images, name.value);
      if found.Some? then Rgba(found.value.color) else DefaultGlow
  }

  /** A mood of the table that has a picture glows in its own colour. */
  lemma KnownMoodColor(i: nat, images: seq<string>)
    requires i < |Config|
    requires exists j :: 0 <= j < |images| && Includes(images[j], Config[i].name)
    ensures MoodColor(Some(Config[i].name), images) == Rgba(Config[i].color)
  {
    var name := Config[i].name;
    assert name != "" by { ConfigNames(); }
    MoodNamedFromTable(images, i);
    var m := MoodNamed(images, name).value;
    assert m.color == Config[i].color;
  }

  /** A name the table does not hold gets the grey glow. */
  lemma UnknownMoodColor(name: string, images: seq<string>)
    requires forall i :: 0 <= i < |Config| ==> Config[i].name != name
    ensures MoodColor(Some(name), images) == DefaultGlow
  {
  }

  /** A two-digit hex pair is a channel value in 0..255. */
  lemma HexPairBound(s: string)
    requires |s| == 2 && Hex.AllHex(s)
    ensures Hex.ParseHex(s) == Some(Hex.HexValue(s)) && Hex.HexValue(s) < 256
  {
    assert s[..1][..0] == [];
    assert Hex.HexValue(s[..1]) < 16;
  }

  /** The glow for `#RRGGBB` has the values of the three hex pairs as its
      channels, each in 0..255. */
  lemma GlowOf(c: string)
    requires |c| == 7 && c[0] == '#' && Hex.AllHex(c[1..])
    ensures var hex := c[1..];
      && Hex.HexValue(hex[0..2]) < 256 && Hex.HexValue(hex[2..4]) < 256 && Hex.HexValue(hex[4..6]) < 256
      && Rgba(c) == "rgba(" + NatToString(Hex.HexValue(hex[0..2])) + ", " + NatToString(Hex.HexValue(hex[2..4]))
                    + ", " + NatToString(Hex.HexValue(hex[4..6])) + ", 0.8)"
  {
    var hex := c[1..];
    assert IndexOf(c, '#') == 0;
    assert RemoveFirst(c, '#') == hex by {
      assert c[..0] + c[0 + 1..] == hex;
    }
    HexPairBound(hex[0..2]);
    HexPairBound(hex[2..4]);
    HexPairBound(hex[4..6]);
  }

  /** Every colour of the table yields a glow with three channels in 0..255
      read from its hex pairs. */
  lemma GlowChannels(i: nat)
    requires i < |Config|
    ensures var hex := Config[i].color[1..];
      && Hex.HexValue(hex[0..2]) < 256 && Hex.HexValue(hex[2..4]) < 256 && Hex.HexValue(hex[4..6]) < 256
      && Rgba(Config[i].color) == "rgba(" + NatToString(Hex.HexValue(hex[0..2])) + ", "
           + NatToString(Hex.HexValue(hex[2..4])) + ", " + NatToString(Hex.HexValue(hex[4..6])) + ", 0.8)"
  {
    ConfigColors();
    GlowOf(Config[i].color);
  }

  /** The `selectedMood` key of local storage. Writes are taken to succeed. */
  class MoodStore {
    var slot: Slot<MoodData>

    constructor (stored: Slot<MoodData>)
      ensures slot == stored
    {
      slot := stored;
    }

    /** `migrateOldFormat` */
    method MigrateOldFormat(today: string)
      modifies this
      ensures slot == Migrated(old(slot), today)
    {
      match slot {
        case Unparseable(raw) =>
          if raw != "" {
            slot := JsonObject(map[today := raw]);
          }
        case _ =>
      }
    }

    /** `getMoodStorageData` */
    method GetMoodStorageData(today: string) returns (data: MoodData)
      modifies this
      ensures slot == AfterRead(old(slot), today)
      ensures data == ReadMoods(old(slot), today)
    {
      MigrateOldFormat(today);
      data := map[];
      match slot {
        case JsonString(s) =>
          data := map[today := s];
          slot := JsonObject(data);
        case JsonObject(value) =>
          data := value;
        case _ =>
      }
    }

    /** `saveMoodForToday` */
    method SaveMoodForToday(mood: Option<string>, today: string)
      modifies this
      ensures slot == JsonObject(WithMood(ReadMoods(old(slot), today), today, mood))
    {
      var data := GetMoodStorageData(today);
      if mood.Some? && mood.value != "" {
        data := data[today := mood.value];
      } else {
        data := data - {today};
      }
      slot := JsonObject(data);
    }

    /** `getMoodByDate` */
    method GetMoodByDate(date: string, today: string) returns (mood: Option<string>)
      modifies this
      ensures slot == AfterRead(old(slot), today)
      ensures mood == Lookup(ReadMoods(old(slot), today), date)
    {
      var data := GetMoodStorageData(today);
      mood := Lookup(data, date);
    }

    /** `getAllMoodData` */
    method GetAllMoodData(today: string) returns (entries: seq<MoodEntry>)
      modifies this
      ensures slot == AfterRead(old(slot), today)
      ensures Descending(entries) && ListsExactly(entries, ReadMoods(old(slot), today))
    {
      var data := GetMoodStorageData(today);
      entries := SortedEntries(data);
    }

    /** `getSelectedMood`: today's mood, when it names a mood with a picture. */
    method GetSelectedMood(today: string, images: seq<string>) returns (mood: Option<Mood>)
      modifies this
      ensures slot == AfterRead(old(slot), today)
      ensures var saved := Lookup(ReadMoods(old(slot), today), today);
        mood == if saved.None? then None else MoodNamed(images, saved.value)
    {
      var saved := GetMoodByDate(today, today);
      if saved.None? {
        return None;
      }
      mood := MoodNamed(images, saved.value);
    }
  }
}
