/** The mood table: six moods in display order, each with a label and a
    colour, and the list of moods that have a picture. */
module MoodConfig {
  import opened Base
  import opened Seqs
  import opened Text
  import Hex

  /** An entry of `moodConfig` (`label` is a reserved word in Dafny, hence `labelText`). */
  datatype MoodSpec = MoodSpec(name: string, labelText: string, color: string)

  /** A mood the selector can show: a table entry with its picture. */
  datatype Mood = Mood(name: string, labelText: string, image: string, color: string)

  /** `moodConfig`, in display order. */
  const Config: seq<MoodSpec> := [
    MoodSpec("mood-awesome", "awesome", "#FF6B35"),
    MoodSpec("mood-good", "good", "#FFD93D"),
    MoodSpec("mood-sad", "sad", "#1E3A8A"),
    MoodSpec("mood-angry", "angry", "#8B0000"),
    MoodSpec("mood-scared", "scared", "#B794F6"),
    MoodSpec("mood-anxity", "uncertain", "#808080")
  ]

  /** No two entries share a name, and every name starts with "mood-". */
  lemma ConfigNames()
    ensures |Config| == 6
    ensures forall i, j :: 0 <= i < j < |Config| ==> Config[i].name != Config[j].name
    ensures forall i :: 0 <= i < |Config| ==> "mood-" <= Config[i].name
  {
  }

  /** Every colour is "#" followed by six hex digits. */
  lemma ConfigColors()
    ensures forall i :: 0 <= i < |Config| ==>
      |Config[i].color| == 7 && Config[i].color[0] == '#' && Hex.AllHex(Config[i].color[1..])
  {
  }

  /** `allMoodImages.findIndex((img) => img.includes(name))`. */
  function FirstImageIndex(images: seq<string>, name: string): (k: int)
    ensures -1 <= k < |images|
    ensures k >= 0 ==> Includes(images[k], name) && forall j :: 0 <= j < k ==> !Includes(images[j], name)
    ensures k < 0 <==> forall j :: 0 <= j < |images| ==> !Includes(images[j], name)
  {
    IndexWhere(images, (img: string) => Includes(img, name))
  }

  /** The `map` callback: the entry with the first picture whose path
      contains its name, or nothing when no path does. */
  function Dressed(spec: MoodSpec, images: seq<string>): (r: Option<Mood>)
    ensures r.Some? <==> exists j :: 0 <= j < |images| && Includes(images[j], spec.name)
    ensures r.Some? ==>
      var k := FirstImageIndex(images, spec.name);
      0 <= k && r.value == Mood(spec.name, spec.labelText, images[k], spec.color)
  {
    var k := FirstImageIndex(images, spec.name);
    if k < 0 then None else Some(Mood(spec.name, spec.labelText, images[k], spec.color))
  }

  /** The table entries moods were made from. */
  function Undressed(ms: seq<Mood>): (r: seq<MoodSpec>)
    ensures |r| == |ms|
    ensures forall i :: 0 <= i < |ms| ==> r[i] == MoodSpec(ms[i].name, ms[i].labelText, ms[i].color)
  {
    seq(|ms|, i requires 0 <= i < |ms| => MoodSpec(ms[i].name, ms[i].labelText, ms[i].color))
  }

  /** `specs.map(...).filter(...)`: the entries that have a picture, with it,
      in table order (see MoodsFromOrder). */
  function MoodsFrom(specs: seq<MoodSpec>, images: seq<string>): (r: seq<Mood>)
    ensures |r| <= |specs|
    ensures forall i :: 0 <= i < |specs| && Dressed(specs[i], images).Some? ==>
      Dressed(specs[i], images).value in r
    ensures forall m :: m in r ==>
      exists i :: 0 <= i < |specs| && Dressed(specs[i], images) == Some(m)
  {
    if specs == [] then []
    else
      var rest := MoodsFrom(specs[1..], images);
      assert forall m :: m in rest ==>
        exists i :: 0 <= i < |specs| && Dressed(specs[i], images) == Some(m) by {
        forall m | m in rest
          ensures exists i :: 0 <= i < |specs| && Dressed(specs[i], images) == Some(m)
        {
          var i :| 0 <= i < |specs[1..]| && Dressed(specs[1..][i], images) == Some(m);
          assert specs[i + 1] == specs[1..][i];
        }
      }
      match Dressed(specs[0], images)
      case None => rest
      case Some(m) => [m] + rest
  }

  /** The kept moods, stripped of their pictures, are the table entries in
      table order with some left out. */
  lemma {:induction false} MoodsFromOrder(specs: seq<MoodSpec>, images: seq<string>)
    ensures IsSubsequence(Undressed(MoodsFrom(specs, images)), specs)
  {
    if specs != [] {
      MoodsFromOrder(specs[1..], images);
      var rest := MoodsFrom(specs[1..], images);
      match Dressed(specs[0], images)
      case None =>
      case Some(m) =>
        var all := Undressed([m] + rest);
        assert all[0] == specs[0] && all[1..] == Undressed(rest);
    }
  }

  /** `moods`: at most the six table entries, each with its picture. */
  function Moods(images: seq<string>): (r: seq<Mood>)
    ensures |r| <= 6
    ensures forall i :: 0 <= i < |Config| && Dressed(Config[i], images).Some? ==>
      Dressed(Config[i], images).value in r
    ensures forall m :: m in r ==>
      exists i :: 0 <= i < |Config| && Dressed(Config[i], images) == Some(m)
  {
    MoodsFrom(Config, images)
  }

  /** `moods` keeps the table order. */
  lemma MoodsOrder(images: seq<string>)
    ensures IsSubsequence(Undressed(Moods(images)), Config)
  {
    MoodsFromOrder(Config, images);
  }

  /** `moods.find((m) => m.name === name)` */
  function MoodNamed(images: seq<string>, name: string): (r: Option<Mood>)
    ensures r.Some? ==> r.value.name == name && r.value in Moods(images)
    ensures r.None? <==> forall m :: m in Moods(images) ==> m.name != name
  {
    var ms := Moods(images);
    var r := FindFirst(ms, (m: Mood) => m.name == name);
    assert r.None? ==> forall m :: m in ms ==> m.name != name;
    r
  }

  /** A name the table holds is found in `moods` exactly when a picture path
      contains it, and then it is its table entry. */
  lemma MoodNamedFromTable(images: seq<string>, i: nat)
    requires i < |Config|
    ensures var name := Config[i].name;
      MoodNamed(images, name).Some? <==> exists j :: 0 <= j < |images| && Includes(images[j], name)
    ensures MoodNamed(images, Config[i].name).Some? ==>
      var m := MoodNamed(images, Config[i].name).value;
      MoodSpec(m.name, m.labelText, m.color) == Config[i]
  {
    ConfigNames();
    var name := Config[i].name;
    var r := MoodNamed(images, name);
    if r.Some? {
      var i' :| 0 <= i' < |Config| && Dressed(Config[i'], images) == Some(r.value);
      assert i' == i;
    }
  }
}
