/** The maps a pair of nested loops builds when the outer loop runs over
    the days 1 to 31 and the inner one over the months 1 to 12, setting
    one key per cell. Key and value are functions of the cell, so the
    facts here hold for any map built that way. */
module Fills {
  /** The cells of the grid: day 1 to 31, month 1 to 12. */
  predicate InGrid(d: nat, m: nat)
  {
    1 <= d <= 31 && 1 <= m <= 12
  }

  /** The map the inner loop has built over `base` once it has set the
      first `months` cells of row `day`, cell (d, m) getting key `key(d, m)`
      and value `value(d, m)`. */
  function RowFill<K(==), V>(base: map<K, V>, key: (nat, nat) -> K, value: (nat, nat) -> V, day: nat, months: nat)
    : map<K, V>
  {
    if months == 0 then base
    else RowFill(base, key, value, day, months - 1)[key(day, months) := value(day, months)]
  }

  /** The map the outer loop has built once it has done the first `days`
      rows of twelve cells. */
  function GridFill<K(==), V>(key: (nat, nat) -> K, value: (nat, nat) -> V, days: nat): map<K, V>
  {
    if days == 0 then map[] else RowFill(GridFill(key, value, days - 1), key, value, days, 12)
  }

  /** No two cells share a key. */
  ghost predicate KeysDistinct<K>(key: (nat, nat) -> K)
  {
    forall d1: nat, m1: nat, d2: nat, m2: nat :: d1 != d2 || m1 != m2 ==> key(d1, m1) != key(d2, m2)
  }

  /** Filling the first `months` cells of row `day` gives each of them its
      value, leaves the cells of other rows as they were, and adds no key
      outside the row. */
  lemma {:induction false} RowFillCells<K, V>(base: map<K, V>, key: (nat, nat) -> K, value: (nat, nat) -> V,
                                             day: nat, months: nat)
    requires KeysDistinct(key)
    ensures var r := RowFill(base, key, value, day, months);
      forall m: nat :: 1 <= m <= months ==> key(day, m) in r && r[key(day, m)] == value(day, m)
    ensures var r := RowFill(base, key, value, day, months);
      forall d: nat, m: nat :: d != day && key(d, m) in base ==> key(d, m) in r && r[key(d, m)] == base[key(d, m)]
    ensures var r := RowFill(base, key, value, day, months);
      forall x :: x in r ==> x in base || exists m: nat :: 1 <= m <= months && x == key(day, m)
  {
    if months > 0 {
      RowFillCells(base, key, value, day, months - 1);
      var r := RowFill(base, key, value, day, months);
      forall x | x in r ensures x in base || exists m: nat :: 1 <= m <= months && x == key(day, m) {
        if x != key(day, months) {
          assert x in RowFill(base, key, value, day, months - 1);
        }
      }
    }
  }

  /** After the first `days` rows, every cell of those rows has its value
      and there is no other key. */
  lemma {:induction false} GridFillCells<K, V>(key: (nat, nat) -> K, value: (nat, nat) -> V, days: nat)
    requires KeysDistinct(key)
    ensures var g := GridFill(key, value, days);
      forall d: nat, m: nat :: 1 <= d <= days && 1 <= m <= 12 ==> key(d, m) in g && g[key(d, m)] == value(d, m)
    ensures var g := GridFill(key, value, days);
      forall x :: x in g ==> exists d: nat, m: nat :: 1 <= d <= days && 1 <= m <= 12 && x == key(d, m)
  {
    if days > 0 {
      var base := GridFill(key, value, days - 1);
      GridFillCells(key, value, days - 1);
      RowFillCells(base, key, value, days, 12);
      var g := GridFill(key, value, days);
      forall d: nat, m: nat | 1 <= d <= days && 1 <= m <= 12 ensures key(d, m) in g && g[key(d, m)] == value(d, m) {
        if d < days {
          assert key(d, m) in base && base[key(d, m)] == value(d, m);
        }
      }
      forall x | x in g ensures exists d: nat, m: nat :: 1 <= d <= days && 1 <= m <= 12 && x == key(d, m) {
        if x in base {
          var d: nat, m: nat :| 1 <= d <= days - 1 && 1 <= m <= 12 && x == key(d, m);
        } else {
          var m: nat :| 1 <= m <= 12 && x == key(days, m);
        }
      }
    }
  }

  /** `f` has exactly one key per cell of the 31 x 12 grid, the key
      `key(d, m)` holding `value(d, m)`. */
  ghost predicate IsGrid<K, V>(f: map<K, V>, key: (nat, nat) -> K, value: (nat, nat) -> V)
  {
    && (forall d: nat, m: nat :: InGrid(d, m) ==> key(d, m) in f && f[key(d, m)] == value(d, m))
    && (forall x :: x in f ==> exists d: nat, m: nat :: InGrid(d, m) && x == key(d, m))
  }

  /** All 31 rows of twelve cells make a complete grid. */
  lemma GridFillComplete<K, V>(key: (nat, nat) -> K, value: (nat, nat) -> V, days: nat)
    requires KeysDistinct(key) && days == 31
    ensures IsGrid(GridFill(key, value, days), key, value)
  {
    GridFillCells(key, value, days);
  }

}
