/**
 * Data preparation at module level of fboptuna.py: keep the allow-listed
 * materials, drop incomplete rows, and sum the quantity per exact
 * (date, plant, material) triple.
 *
 * Dates are day numbers (days since 1970-01-01); the CSV parsing that
 * produces them is not part of this model.
 */
module Prep {
  import opened Options

  /** `selected_materials`: the only material identifiers kept. */
  const SelectedMaterials: set<int> := {101, 102}

  /** A row as loaded from the sales file; any field may be NaN. */
  datatype RawRow = RawRow(date: Option<int>, plant: Option<int>, material: Option<int>, quantity: Option<real>)

  /**
   * A fully populated row. After aggregation the same shape is a row of
   * `grouped_data`, whose columns are renamed `ds` and `y` for `date` and
   * `quantity`.
   */
  datatype Sale = Sale(date: int, plant: int, material: int, quantity: real)

  /** The grouping key of the aggregation. */
  datatype Key = Key(date: int, plant: int, material: int)

  function KeyOf(s: Sale): Key {
    Key(s.date, s.plant, s.material)
  }

  /** Lexicographic order on keys, the order in which groupby emits groups. */
  predicate KeyLess(a: Key, b: Key) {
    || a.date < b.date
    || (a.date == b.date && a.plant < b.plant)
    || (a.date == b.date && a.plant == b.plant && a.material < b.material)
  }

  /** Each key occurs once and keys increase. */
  ghost predicate StrictlySorted(g: seq<Sale>) {
    forall i, j :: 0 <= i < j < |g| ==> KeyLess(KeyOf(g[i]), KeyOf(g[j]))
  }

  ghost function Keys(rows: seq<Sale>): set<Key> {
    set s | s in rows :: KeyOf(s)
  }

  lemma KeysCons(x: Sale, t: seq<Sale>)
    ensures Keys([x] + t) == {KeyOf(x)} + Keys(t)
  {
    forall k | k in Keys([x] + t) ensures k in {KeyOf(x)} + Keys(t) {
      var s :| s in [x] + t && KeyOf(s) == k;
    }
    forall k | k in {KeyOf(x)} + Keys(t) ensures k in Keys([x] + t) {
      if k != KeyOf(x) {
        var s :| s in t && KeyOf(s) == k;
        assert s in [x] + t;
      } else {
        assert x in [x] + t;
      }
    }
  }

  /** Sum of the quantities of the rows with key `k` (0 when there are none). */
  function SumFor(rows: seq<Sale>, k: Key): real {
    if rows == [] then 0.0
    else (if KeyOf(rows[0]) == k then rows[0].quantity else 0.0) + SumFor(rows[1..], k)
  }

  /** Sum of all quantities. */
  function Total(rows: seq<Sale>): real {
    if rows == [] then 0.0 else rows[0].quantity + Total(rows[1..])
  }

  // ---------------------------------------------------------------- isin

  predicate Selected(r: RawRow) {
    r.material.Some? && r.material.value in SelectedMaterials
  }

  /**
   * `data[data['Material'].isin(selected_materials)]`. A NaN material is
   * never in the list, so such a row is dropped here already.
   */
  function SelectMaterials(rows: seq<RawRow>): (r: seq<RawRow>)
    ensures forall x :: x in r ==> x.material == Some(101) || x.material == Some(102)
    ensures forall x :: multiset(r)[x] == if Selected(x) then multiset(rows)[x] else 0
  {
    if rows == [] then []
    else
      assert rows == [rows[0]] + rows[1..];
      (if Selected(rows[0]) then [rows[0]] else []) + SelectMaterials(rows[1..])
  }

  /** The filter keeps relative order: it distributes over concatenation. */
  lemma {:induction false} SelectMaterialsAppend(a: seq<RawRow>, b: seq<RawRow>)
    ensures SelectMaterials(a + b) == SelectMaterials(a) + SelectMaterials(b)
  {
    if a == [] {
      assert a + b == b;
    } else {
      assert (a + b)[1..] == a[1..] + b;
      SelectMaterialsAppend(a[1..], b);
    }
  }

  // -------------------------------------------------------------- dropna

  predicate Complete(r: RawRow) {
    r.date.Some? && r.plant.Some? && r.material.Some? && r.quantity.Some?
  }

  function ToSale(r: RawRow): Sale
    requires Complete(r)
  {
    Sale(r.date.value, r.plant.value, r.material.value, r.quantity.value)
  }

  /** A complete row seen again as a raw row. */
  function ToRaw(s: Sale): (r: RawRow)
    ensures Complete(r) && ToSale(r) == s
  {
    RawRow(Some(s.date), Some(s.plant), Some(s.material), Some(s.quantity))
  }

  function ToRawRows(s: seq<Sale>): (r: seq<RawRow>)
    ensures |r| == |s|
    ensures forall i :: 0 <= i < |s| ==> r[i] == ToRaw(s[i])
  {
    if s == [] then [] else [ToRaw(s[0])] + ToRawRows(s[1..])
  }

  /**
   * `data.dropna()`: exactly the complete rows survive, each as often as in
   * the input.
   */
  function DropIncomplete(rows: seq<RawRow>): (r: seq<Sale>)
    ensures forall x :: multiset(ToRawRows(r))[x] == if Complete(x) then multiset(rows)[x] else 0
  {
    if rows == [] then []
    else
      var rest := DropIncomplete(rows[1..]);
      assert rows == [rows[0]] + rows[1..];
      if Complete(rows[0]) then
        assert ToRawRows([ToSale(rows[0])] + rest) == [rows[0]] + ToRawRows(rest);
        [ToSale(rows[0])] + rest
      else rest
  }

  /** dropna keeps relative order: it distributes over concatenation. */
  lemma {:induction false} DropIncompleteAppend(a: seq<RawRow>, b: seq<RawRow>)
    ensures DropIncomplete(a + b) == DropIncomplete(a) + DropIncomplete(b)
  {
    if a == [] {
      assert a + b == b;
    } else {
      assert (a + b)[1..] == a[1..] + b;
      DropIncompleteAppend(a[1..], b);
    }
  }

  /** Every retained row came from a complete input row with the same fields. */
  lemma DropIncompleteOrigin(rows: seq<RawRow>, s: Sale)
    requires s in DropIncomplete(rows)
    ensures ToRaw(s) in rows
  {
    var r := DropIncomplete(rows);
    var i :| 0 <= i < |r| && r[i] == s;
    assert ToRawRows(r)[i] == ToRaw(s);
    assert multiset(ToRawRows(r))[ToRaw(s)] > 0;
  }

  // ------------------------------------------------------------- groupby

  /**
   * Adds one row into a strictly sorted grouping: its quantity joins the
   * row with the same key, or it becomes a new row at its place in key order.
   */
  function Insert(g: seq<Sale>, s: Sale): (r: seq<Sale>)
    requires StrictlySorted(g)
    ensures StrictlySorted(r)
    ensures Keys(r) == Keys(g) + {KeyOf(s)}
  {
    if g == [] then [s]
    else if KeyOf(g[0]) == KeyOf(s) then
      var merged := g[0].(quantity := g[0].quantity + s.quantity);
      KeysCons(g[0], g[1..]);
      KeysCons(merged, g[1..]);
      assert g == [g[0]] + g[1..];
      [merged] + g[1..]
    else if KeyLess(KeyOf(s), KeyOf(g[0])) then
      KeysCons(s, g);
      [s] + g
    else
      var rest := Insert(g[1..], s);
      KeysCons(g[0], g[1..]);
      KeysCons(g[0], rest);
      assert g == [g[0]] + g[1..];
      assert forall x :: x in rest ==> KeyLess(KeyOf(g[0]), KeyOf(x)) by {
        forall x | x in rest ensures KeyLess(KeyOf(g[0]), KeyOf(x)) {
          assert KeyOf(x) in Keys(rest);
        }
      }
      [g[0]] + rest
  }

  /**
   * `data.groupby(['Document Date', 'Plant', 'Material']).agg({'Quantity': 'sum'})`
   * followed by `reset_index()`: one row per key, in key order.
   */
  function Aggregate(rows: seq<Sale>): (r: seq<Sale>)
    ensures StrictlySorted(r)
    ensures Keys(r) == Keys(rows)
  {
    if rows == [] then []
    else
      KeysCons(rows[0], rows[1..]);
      assert rows == [rows[0]] + rows[1..];
      Insert(Aggregate(rows[1..]), rows[0])
  }

  lemma {:induction false} SumForInsert(g: seq<Sale>, s: Sale, k: Key)
    requires StrictlySorted(g)
    ensures SumFor(Insert(g, s), k) == SumFor(g, k) + (if KeyOf(s) == k then s.quantity else 0.0)
  {
    if g != [] && KeyOf(g[0]) != KeyOf(s) && !KeyLess(KeyOf(s), KeyOf(g[0])) {
      SumForInsert(g[1..], s, k);
      assert ([g[0]] + Insert(g[1..], s))[1..] == Insert(g[1..], s);
    } else if g != [] && KeyOf(g[0]) == KeyOf(s) {
      assert ([g[0].(quantity := g[0].quantity + s.quantity)] + g[1..])[1..] == g[1..];
    } else if g != [] {
      assert ([s] + g)[1..] == g;
    }
  }

  /** Aggregation conserves the quantity of every key. */
  lemma {:induction false} AggregateSumFor(rows: seq<Sale>, k: Key)
    ensures SumFor(Aggregate(rows), k) == SumFor(rows, k)
  {
    if rows != [] {
      AggregateSumFor(rows[1..], k);
      SumForInsert(Aggregate(rows[1..]), rows[0], k);
    }
  }

  lemma {:induction false} SumForAbsent(g: seq<Sale>, k: Key)
    requires k !in Keys(g)
    ensures SumFor(g, k) == 0.0
  {
    if g != [] {
      assert g[0] in g;
      assert Keys(g[1..]) <= Keys(g) by {
        forall x | x in Keys(g[1..]) ensures x in Keys(g) {
          var s :| s in g[1..] && KeyOf(s) == x;
          assert s in g;
        }
      }
      SumForAbsent(g[1..], k);
    }
  }

  /** In a strictly sorted grouping, a row holds the whole sum of its key. */
  lemma {:induction false} SumForSorted(g: seq<Sale>, i: nat)
    requires StrictlySorted(g) && i < |g|
    ensures SumFor(g, KeyOf(g[i])) == g[i].quantity
  {
    if i == 0 {
      assert forall j :: 1 <= j < |g| ==> KeyLess(KeyOf(g[0]), KeyOf(g[j]));
      assert forall s :: s in g[1..] ==> KeyOf(s) != KeyOf(g[0]);
      SumForAbsent(g[1..], KeyOf(g[0]));
    } else {
      assert KeyLess(KeyOf(g[0]), KeyOf(g[i]));
      assert g[1..][i - 1] == g[i];
      SumForSorted(g[1..], i - 1);
    }
  }

  /**
   * The aggregated table has exactly one row per distinct triple of the
   * input, and that row's quantity is the sum over the input rows with
   * that triple.
   */
  lemma AggregateRows(rows: seq<Sale>)
    ensures StrictlySorted(Aggregate(rows))
    ensures Keys(Aggregate(rows)) == Keys(rows)
    ensures forall i :: 0 <= i < |Aggregate(rows)| ==>
      Aggregate(rows)[i].quantity == SumFor(rows, KeyOf(Aggregate(rows)[i]))
  {
    var g := Aggregate(rows);
    forall i | 0 <= i < |g| ensures g[i].quantity == SumFor(rows, KeyOf(g[i])) {
      SumForSorted(g, i);
      AggregateSumFor(rows, KeyOf(g[i]));
    }
  }

  lemma {:induction false} TotalInsert(g: seq<Sale>, s: Sale)
    requires StrictlySorted(g)
    ensures Total(Insert(g, s)) == Total(g) + s.quantity
  {
    if g != [] && KeyOf(g[0]) != KeyOf(s) && !KeyLess(KeyOf(s), KeyOf(g[0])) {
      TotalInsert(g[1..], s);
      assert ([g[0]] + Insert(g[1..], s))[1..] == Insert(g[1..], s);
    } else if g != [] && KeyOf(g[0]) == KeyOf(s) {
      assert ([g[0].(quantity := g[0].quantity + s.quantity)] + g[1..])[1..] == g[1..];
    } else if g != [] {
      assert ([s] + g)[1..] == g;
    }
  }

  /** The total quantity is conserved by aggregation. */
  lemma {:induction false} AggregateTotal(rows: seq<Sale>)
    ensures Total(Aggregate(rows)) == Total(rows)
  {
    if rows != [] {
      AggregateTotal(rows[1..]);
      TotalInsert(Aggregate(rows[1..]), rows[0]);
    }
  }

  /** An already aggregated table is its own aggregation. */
  lemma {:induction false} AggregateOfSorted(g: seq<Sale>)
    requires StrictlySorted(g)
    ensures Aggregate(g) == g
  {
    if g != [] {
      AggregateOfSorted(g[1..]);
      if |g| > 1 {
        assert KeyLess(KeyOf(g[0]), KeyOf(g[1]));
      }
      assert [g[0]] + g[1..] == g;
    }
  }

  /** Re-aggregating the aggregated table leaves it unchanged. */
  lemma AggregateIdempotent(rows: seq<Sale>)
    ensures Aggregate(Aggregate(rows)) == Aggregate(rows)
  {
    AggregateOfSorted(Aggregate(rows));
  }

  // -------------------------------------------------------------- pipeline

  /**
   * `grouped_data`, from the loaded rows: one row per (date, plant,
   * material), in that key order, labelled 0 .. M-1 by `reset_index()`.
   */
  function Prepare(raw: seq<RawRow>): (r: seq<Sale>)
    ensures StrictlySorted(r)
  {
    Aggregate(DropIncomplete(SelectMaterials(raw)))
  }

  /**
   * Every row of `grouped_data` is an allow-listed material, and its keys
   * are among the keys of the complete input rows (`PrepareKeysComplete`
   * gives the converse).
   */
  lemma PrepareSelected(raw: seq<RawRow>)
    ensures forall s :: s in Prepare(raw) ==> s.material in SelectedMaterials
    ensures forall s :: s in Prepare(raw) ==> exists r :: r in raw && Complete(r) && KeyOf(ToSale(r)) == KeyOf(s)
  {
    var clean := DropIncomplete(SelectMaterials(raw));
    forall s | s in Prepare(raw)
      ensures s.material in SelectedMaterials
      ensures exists r :: r in raw && Complete(r) && KeyOf(ToSale(r)) == KeyOf(s)
    {
      assert KeyOf(s) in Keys(Prepare(raw));
      var c :| c in clean && KeyOf(c) == KeyOf(s);
      DropIncompleteOrigin(SelectMaterials(raw), c);
      assert multiset(SelectMaterials(raw))[ToRaw(c)] > 0;
      assert ToRaw(c) in raw;
    }
  }

  /**
   * Every complete allow-listed input row has its key in `grouped_data`:
   * no such row is lost.
   */
  lemma PrepareKeysComplete(raw: seq<RawRow>, r: RawRow)
    requires r in raw && Complete(r) && Selected(r)
    ensures KeyOf(ToSale(r)) in Keys(Prepare(raw))
  {
    var selected := SelectMaterials(raw);
    var clean := DropIncomplete(selected);
    assert multiset(selected)[r] == multiset(raw)[r] > 0;
    assert multiset(ToRawRows(clean))[r] == multiset(selected)[r] > 0;
    var rows := ToRawRows(clean);
    var i :| 0 <= i < |rows| && rows[i] == r;
    assert ToRaw(clean[i]) == r;
    assert clean[i] == ToSale(r);
    assert KeyOf(clean[i]) in Keys(clean);
  }
}
