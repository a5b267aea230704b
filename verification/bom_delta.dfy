/**
 * The BOM delta: `merge_and_filter_dataframes` (ECUBOMDelta.py:152-169).
 *
 * Two BOMs keyed by RefDes are outer-joined, up to four row filters chosen by
 * check boxes drop rows, and the result is sorted by RefDes.
 */
module BomDelta {
  import opened Optional
  import opened BomOrder

  type RefDes = string

  /** A spreadsheet cell: text or a number. */
  datatype Cell = Text(text: string) | Number(value: real)

  /** One BOM line: the columns of COLUMNS (ECUBOMDelta.py:42-46) other than RefDes.
      A None field is an empty cell, which pandas reads as NaN. */
  datatype Part = Part(
    partNumber: Option<Cell>,
    description: Option<Cell>,
    producerAbbreviation: Option<Cell>,
    producerPartName: Option<Cell>,
    validityFlag: Option<Cell>,
    validityFlagRemarks: Option<Cell>,
    caseSize: Option<Cell>,
    collectiveNumbers: Option<Cell>,
    quantity: Option<Cell>,
    placementSide: Option<Cell>)

  /** A BOM indexed by RefDes, each RefDes once. */
  type Bom = map<RefDes, Part>

  /** A merged row: the `_BOM1` columns and the `_BOM2` columns; a side is None
      when its BOM has no line for the RefDes. */
  datatype Merged = Merged(bom1: Option<Part>, bom2: Option<Part>)

  /** The four check boxes of the window (ECUBOMDelta.py:77-80). */
  datatype Checkboxes = Checkboxes(
    removeZeroQuantity: bool,
    removeNewZeroQuantity: bool,
    removeDeprecatedZeroQuantity: bool,
    removeUnchanged: bool)

  datatype Filter = ZeroInBoth | NewZero | DeprecatedZero | Unchanged

  function Lookup(bom: Bom, k: RefDes): Option<Part> {
    if k in bom then Some(bom[k]) else None
  }

  /** `pd.merge(..., how='outer', left_index=True, right_index=True)`: every RefDes
      of either BOM, with both sides' columns. */
  function OuterJoin(bom1: Bom, bom2: Bom): (m: map<RefDes, Merged>)
    ensures m.Keys == bom1.Keys + bom2.Keys
    ensures forall k :: k in m ==> m[k].bom1.Some? || m[k].bom2.Some?
  {
    map k | k in bom1.Keys + bom2.Keys :: Merged(Lookup(bom1, k), Lookup(bom2, k))
  }

  /** The lines of one side of a merged table. */
  function Side1(m: map<RefDes, Merged>): Bom {
    map k | k in m && m[k].bom1.Some? :: m[k].bom1.value
  }

  function Side2(m: map<RefDes, Merged>): Bom {
    map k | k in m && m[k].bom2.Some? :: m[k].bom2.value
  }

  /** The join loses nothing: each side of the merged table is its BOM again. */
  lemma JoinRoundTrip(bom1: Bom, bom2: Bom)
    ensures Side1(OuterJoin(bom1, bom2)) == bom1
    ensures Side2(OuterJoin(bom1, bom2)) == bom2
  {
    var m := OuterJoin(bom1, bom2);
    assert Side1(m).Keys == bom1.Keys;
    assert Side2(m).Keys == bom2.Keys;
  }

  function Quantity1(r: Merged): Option<Cell> {
    if r.bom1.Some? then r.bom1.value.quantity else None
  }

  function Quantity2(r: Merged): Option<Cell> {
    if r.bom2.Some? then r.bom2.value.quantity else None
  }

  /** pandas `== 0`: a number equal to zero; NaN and text never are. */
  predicate IsZero(q: Option<Cell>)
    ensures q.None? ==> !IsZero(q)
    ensures q.Some? && q.value.Text? ==> !IsZero(q)
    ensures q.Some? && q.value.Number? ==> (IsZero(q) <==> q.value.value == 0.0)
  {
    q == Some(Number(0.0))
  }

  /** `fillna('')`: an empty cell, or a missing side, reads as the empty string. */
  function Fill(c: Option<Cell>): Cell {
    if c.Some? then c.value else Text("")
  }

  /** The ten columns of one side after `fillna('')`, in column order. */
  function Filled(side: Option<Part>): (cells: seq<Cell>)
    ensures |cells| == 10
    ensures side.None? ==> forall i :: 0 <= i < 10 ==> cells[i] == Text("")
  {
    match side
    case None => [Text(""), Text(""), Text(""), Text(""), Text(""), Text(""), Text(""), Text(""), Text(""), Text("")]
    case Some(p) => [Fill(p.partNumber), Fill(p.description), Fill(p.producerAbbreviation),
                     Fill(p.producerPartName), Fill(p.validityFlag), Fill(p.validityFlagRemarks),
                     Fill(p.caseSize), Fill(p.collectiveNumbers), Fill(p.quantity), Fill(p.placementSide)]
  }

  /** The row masks of lines 157, 160, 163 and 166-167. The three quantity masks
      select only rows with a zero quantity: on both sides, in the second BOM with
      no quantity in the first, and in the first BOM with no quantity in the
      second; the unchanged mask selects every row whose two sides are the same line. */
  predicate Matches(f: Filter, r: Merged)
    ensures f == ZeroInBoth && Matches(f, r) ==> r.bom1.Some? && r.bom2.Some?
    ensures f == NewZero && Matches(f, r) ==> r.bom2.Some? && Quantity1(r).None?
    ensures f == DeprecatedZero && Matches(f, r) ==> r.bom1.Some? && Quantity2(r).None?
    ensures f != Unchanged && Matches(f, r) ==> IsZero(Quantity1(r)) || IsZero(Quantity2(r))
    ensures f == Unchanged && r.bom1 == r.bom2 ==> Matches(f, r)
  {
    match f
    case ZeroInBoth => IsZero(Quantity1(r)) && IsZero(Quantity2(r))
    case NewZero => IsZero(Quantity2(r)) && Quantity1(r).None?
    case DeprecatedZero => IsZero(Quantity1(r)) && Quantity2(r).None?
    case Unchanged => Filled(r.bom1) == Filled(r.bom2)
  }

  /** `df[~mask]`: keep the rows the mask does not select. */
  function Drop(m: map<RefDes, Merged>, f: Filter): (kept: map<RefDes, Merged>)
    ensures forall k :: k in kept <==> k in m && !Matches(f, m[k])
    ensures forall k :: k in kept ==> kept[k] == m[k]
  {
    map k | k in m && !Matches(f, m[k]) :: m[k]
  }

  /** Filters only remove rows, and two of them give the same rows in either order. */
  lemma DropCommutes(m: map<RefDes, Merged>, f: Filter, g: Filter)
    ensures Drop(Drop(m, f), g) == Drop(Drop(m, g), f)
    ensures Drop(Drop(m, f), g).Keys <= m.Keys
  {
  }

  /** The filters a set of check boxes switches on. */
  function Enabled(boxes: Checkboxes): set<Filter> {
    (if boxes.removeZeroQuantity then {ZeroInBoth} else {}) +
    (if boxes.removeNewZeroQuantity then {NewZero} else {}) +
    (if boxes.removeDeprecatedZeroQuantity then {DeprecatedZero} else {}) +
    (if boxes.removeUnchanged then {Unchanged} else {})
  }

  /** Some row of `rows` carries RefDes `k`. */
  ghost predicate Lists(rows: seq<(RefDes, Merged)>, k: RefDes) {
    exists i :: 0 <= i < |rows| && rows[i].0 == k
  }

  /** `sort_index`: the rows in ascending RefDes order. */
  ghost function SortByRefDes(m: map<RefDes, Merged>): (rows: seq<(RefDes, Merged)>)
    ensures |rows| == |m|
    ensures forall i :: 0 <= i < |rows| ==> rows[i].0 in m && rows[i].1 == m[rows[i].0]
    ensures forall k :: k in m ==> Lists(rows, k)
    ensures forall i, j :: 0 <= i < j < |rows| ==> Below(rows[i].0, rows[j].0)
  {
    var keys := SortedKeys(m.Keys);
    var rows := seq(|keys|, i requires 0 <= i < |keys| => (keys[i], m[keys[i]]));
    assert forall k :: k in m ==> rows[IndexOf(keys, k)].0 == k;
    rows
  }

  ghost function IndexOf(keys: seq<string>, k: string): (i: nat)
    requires k in keys
    ensures i < |keys| && keys[i] == k
  {
    var i :| 0 <= i < |keys| && keys[i] == k; i
  }

  /** One `if checkbox.isChecked(): df = df[~mask]` step. */
  function DropIf(m: map<RefDes, Merged>, checked: bool, f: Filter): (kept: map<RefDes, Merged>)
    ensures forall k :: k in kept <==> k in m && (checked ==> !Matches(f, m[k]))
    ensures forall k :: k in kept ==> kept[k] == m[k]
  {
    if checked then Drop(m, f) else m
  }

  /** No enabled filter selects the row. */
  predicate Survives(r: Merged, boxes: Checkboxes) {
    forall f :: f in Enabled(boxes) ==> !Matches(f, r)
  }

  lemma SurvivesEach(r: Merged, boxes: Checkboxes)
    ensures Survives(r, boxes) <==>
      (boxes.removeZeroQuantity ==> !Matches(ZeroInBoth, r)) &&
      (boxes.removeNewZeroQuantity ==> !Matches(NewZero, r)) &&
      (boxes.removeDeprecatedZeroQuantity ==> !Matches(DeprecatedZero, r)) &&
      (boxes.removeUnchanged ==> !Matches(Unchanged, r))
  {
    if !Survives(r, boxes) {
      var f :| f in Enabled(boxes) && Matches(f, r);
    }
  }

  /** Lines 156-167: each enabled filter applied in turn. Whatever the order, a row
      is kept exactly when no enabled filter selects it, and kept rows are unchanged. */
  function ApplyFilters(m: map<RefDes, Merged>, boxes: Checkboxes): (kept: map<RefDes, Merged>)
    ensures forall k :: k in kept <==> k in m && Survives(m[k], boxes)
    ensures forall k :: k in kept ==> kept[k] == m[k]
  {
    var m1 := DropIf(m, boxes.removeZeroQuantity, ZeroInBoth);
    var m2 := DropIf(m1, boxes.removeNewZeroQuantity, NewZero);
    var m3 := DropIf(m2, boxes.removeDeprecatedZeroQuantity, DeprecatedZero);
    var m4 := DropIf(m3, boxes.removeUnchanged, Unchanged);
    assert forall k :: k in m ==> (Survives(m[k], boxes) <==>
      (boxes.removeZeroQuantity ==> !Matches(ZeroInBoth, m[k])) &&
      (boxes.removeNewZeroQuantity ==> !Matches(NewZero, m[k])) &&
      (boxes.removeDeprecatedZeroQuantity ==> !Matches(DeprecatedZero, m[k])) &&
      (boxes.removeUnchanged ==> !Matches(Unchanged, m[k]))) by {
      forall k | k in m { SurvivesEach(m[k], boxes); }
    }
    m4
  }

  /** `merge_and_filter_dataframes` with the check boxes as parameters. Filters
      only remove rows, and no RefDes appears twice in the report. */
  ghost function MergeAndFilter(bom1: Bom, bom2: Bom, boxes: Checkboxes): (rows: seq<(RefDes, Merged)>)
    ensures |rows| <= |bom1.Keys + bom2.Keys|
    ensures forall i, j :: 0 <= i < j < |rows| ==> rows[i].0 != rows[j].0
  {
    var merged := OuterJoin(bom1, bom2);
    var kept := ApplyFilters(merged, boxes);
    FewerRows(kept, merged);
    var rows := SortByRefDes(kept);
    SortedRowsDistinct(rows);
    rows
  }

  /** A table whose RefDes are among another's has no more rows. */
  lemma FewerRows(kept: map<RefDes, Merged>, m: map<RefDes, Merged>)
    requires kept.Keys <= m.Keys
    ensures |kept| <= |m|
  {
    assert m.Keys == kept.Keys + (m.Keys - kept.Keys);
    assert |kept| == |kept.Keys| && |m| == |m.Keys|;
  }

  /** Rows in strictly ascending RefDes never repeat a RefDes. */
  lemma SortedRowsDistinct(rows: seq<(RefDes, Merged)>)
    requires forall i, j :: 0 <= i < j < |rows| ==> Below(rows[i].0, rows[j].0)
    ensures forall i, j :: 0 <= i < j < |rows| ==> rows[i].0 != rows[j].0
  {
    forall i, j | 0 <= i < j < |rows| ensures rows[i].0 != rows[j].0 {
      BelowIrreflexive(rows[i].0);
    }
  }

  /** The report's rows are in strictly ascending RefDes order. */
  lemma MergeAndFilterSorted(bom1: Bom, bom2: Bom, boxes: Checkboxes)
    ensures var rows := MergeAndFilter(bom1, bom2, boxes);
      forall i, j :: 0 <= i < j < |rows| ==> Below(rows[i].0, rows[j].0)
  {
  }

  /** Every report row is the unaltered merge of the two BOMs' lines for a RefDes of
      either BOM, and no enabled filter selects it. */
  lemma MergeAndFilterSound(bom1: Bom, bom2: Bom, boxes: Checkboxes)
    ensures var rows := MergeAndFilter(bom1, bom2, boxes);
      forall i :: 0 <= i < |rows| ==>
        (rows[i].0 in bom1 || rows[i].0 in bom2) &&
        rows[i].1 == Merged(Lookup(bom1, rows[i].0), Lookup(bom2, rows[i].0)) &&
        Survives(rows[i].1, boxes)
  {
    var merged := OuterJoin(bom1, bom2);
    var kept := ApplyFilters(merged, boxes);
    var rows := SortByRefDes(kept);
    forall i | 0 <= i < |rows|
      ensures (rows[i].0 in bom1 || rows[i].0 in bom2) &&
        rows[i].1 == Merged(Lookup(bom1, rows[i].0), Lookup(bom2, rows[i].0)) &&
        Survives(rows[i].1, boxes)
    {
      var k := rows[i].0;
      assert k in kept && rows[i].1 == kept[k] == merged[k];
    }
  }

  /** Every RefDes of either BOM whose merged row no enabled filter selects is in the
      report. */
  lemma MergeAndFilterComplete(bom1: Bom, bom2: Bom, boxes: Checkboxes)
    ensures var rows := MergeAndFilter(bom1, bom2, boxes);
      forall k :: k in bom1.Keys + bom2.Keys && Survives(Merged(Lookup(bom1, k), Lookup(bom2, k)), boxes) ==>
        Lists(rows, k)
  {
    var merged := OuterJoin(bom1, bom2);
    var kept := ApplyFilters(merged, boxes);
    var rows := SortByRefDes(kept);
    forall k | k in bom1.Keys + bom2.Keys && Survives(Merged(Lookup(bom1, k), Lookup(bom2, k)), boxes)
      ensures Lists(rows, k)
    {
      assert k in merged && merged[k] == Merged(Lookup(bom1, k), Lookup(bom2, k));
      assert k in kept;
    }
  }

  /** With every check box cleared the report holds every RefDes of either BOM. */
  lemma NoFiltersKeepsAll(bom1: Bom, bom2: Bom)
    ensures |MergeAndFilter(bom1, bom2, Checkboxes(false, false, false, false))| == |bom1.Keys + bom2.Keys|
  {
    var merged := OuterJoin(bom1, bom2);
    var kept := ApplyFilters(merged, Checkboxes(false, false, false, false));
    assert kept.Keys == merged.Keys;
  }
}
