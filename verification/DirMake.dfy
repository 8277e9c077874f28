/** Making and deleting directories (md2MakeNewDirectory, md2DeleteDirectory). */
module DirMake {
  import opened Records
  import opened Frames
  import opened Stores
  import opened FileShapes
  import opened DirShapes

  // ----- the table of a new directory -----

  /** Every hash value has its place in the rows. */
  lemma TableCovered(size: nat, perRow: nat)
    requires perRow > 0
    ensures Covered(size, perRow, Widths(size, perRow))
    ensures forall r :: 0 <= r < |Widths(size, perRow)| ==> 0 < Widths(size, perRow)[r] <= perRow
  {
    hide Width, RowCount;
    var w := Widths(size, perRow);
    assert forall r :: 0 <= r < |w| ==> w[r] == Width(size, perRow, r);
    forall h: nat | h < size ensures InTable(Widths(size, perRow), Spot(perRow, h)) {
      SpotInTable(size, perRow, h);
    }
    forall r | 0 <= r < |w| ensures 0 < w[r] <= perRow {
      RowUsed(size, perRow, r);
    }
  }

  /** Every bucket is the place of exactly one hash value. */
  lemma TableExact(size: nat, perRow: nat, r: nat, c: nat)
    requires perRow > 0 && r < RowCount(size, perRow) && c < Width(size, perRow, r)
    ensures r * perRow + c < size && Spot(perRow, r * perRow + c) == (r, c)
  {
    DivModUnique(r * perRow + c, perRow, r, c);
  }

  lemma SpotInTable(size: nat, perRow: nat, h: nat)
    requires perRow > 0 && h < size
    ensures h / perRow < RowCount(size, perRow) && h % perRow < Width(size, perRow, h / perRow)
  {
    var q, t := h / perRow, size / perRow;
    assert h == q * perRow + h % perRow && size == t * perRow + size % perRow;
    if q > t { Further(q, t, perRow); }
    if t > q { Further(t, q, perRow); }
  }

  lemma RowUsed(size: nat, perRow: nat, r: nat)
    requires perRow > 0 && r < RowCount(size, perRow)
    ensures 0 < Width(size, perRow, r) <= perRow && r * perRow < size
  {
    var t := size / perRow;
    assert size == t * perRow + size % perRow;
    if r < t { Further(t, r, perRow); }
  }

  // ----- making -----

  /** The shape of a new directory: every bucket is empty. */
  ghost function EmptyShape(rows: seq<Id>, widths: seq<nat>): DirShape {
    DirShape(rows, widths,
             map r, c | 0 <= r < |widths| && 0 <= c < widths[r] :: (r, c) := [],
             map[], map[])
  }

  /** The first rows of a new directory are stored. */
  ghost predicate RowsMade(recs: Recs, rows: seq<Id>, widths: seq<nat>, id: Id) {
    && Distinct(rows) && |rows| <= |widths|
    && forall r :: 0 <= r < |rows| ==> rows[r] in recs && rows[r] > id && recs[rows[r]] == RowRec(Nulls(widths[r]))
  }

  lemma EmptyDirectory(recs: Recs, lay: Layout, d: DirInode, rows: seq<Id>, widths: seq<nat>)
    requires RowsMade(recs, rows, widths, NULL) && |rows| == |widths|
    requires d.hashSize > 0 && d.perRow > 0 && d.handles == rows && Covered(d.hashSize, d.perRow, widths)
    requires widths == Widths(d.hashSize, d.perRow)
    requires forall r :: 0 <= r < |widths| ==> 0 < widths[r] <= d.perRow
    ensures DirCore(recs, lay, d, EmptyShape(rows, widths))
    ensures Entries(recs, EmptyShape(rows, widths)) == map[]
  {
    hide RowsOk, ChainsOk, RowsMade, Covered;
    EmptyRows(recs, d, rows, widths);
    EmptyChains(recs, rows, widths);
  }

  lemma EmptyRows(recs: Recs, d: DirInode, rows: seq<Id>, widths: seq<nat>)
    requires RowsMade(recs, rows, widths, NULL) && |rows| == |widths|
    requires d.hashSize > 0 && d.perRow > 0 && d.handles == rows && Covered(d.hashSize, d.perRow, widths)
    requires widths == Widths(d.hashSize, d.perRow)
    requires forall r :: 0 <= r < |widths| ==> 0 < widths[r] <= d.perRow
    ensures RowsOk(recs, d, EmptyShape(rows, widths))
  {
    hide Widths, Covered;
  }

  lemma EmptyChains(recs: Recs, rows: seq<Id>, widths: seq<nat>)
    ensures ChainsOk(recs, EmptyShape(rows, widths))
  {
  }

  lemma RowMade(r0: Recs, v: Recs, v1: Recs, rows: seq<Id>, widths: seq<nat>, id: Id, bound: Id, now: Id, row: Id)
    requires RowsMade(v, rows, widths, id) && |rows| < |widths| && Below(v, now) && row >= now && row > id && row >= bound
    requires Grown(r0, v, {}, IdSet(rows), bound) && Below(r0, bound)
    requires v1 == v[row := RowRec(Nulls(widths[|rows|]))]
    ensures RowsMade(v1, rows + [row], widths, id)
    ensures Grown(r0, v1, {}, IdSet(rows + [row]), bound)
  {
    RowMadeRows(v, v1, rows, widths, id, now, row);
    RowMadeGrown(r0, v, v1, rows, bound, now, row, RowRec(Nulls(widths[|rows|])));
  }

  lemma RowMadeRows(v: Recs, v1: Recs, rows: seq<Id>, widths: seq<nat>, id: Id, now: Id, row: Id)
    requires RowsMade(v, rows, widths, id) && |rows| < |widths| && Below(v, now) && row >= now && row > id
    requires v1 == v[row := RowRec(Nulls(widths[|rows|]))]
    ensures RowsMade(v1, rows + [row], widths, id)
  {
  }

  lemma RowMadeGrown(r0: Recs, v: Recs, v1: Recs, rows: seq<Id>, bound: Id, now: Id, row: Id, rec: Record)
    requires Grown(r0, v, {}, IdSet(rows), bound) && Below(r0, bound) && row >= bound && v1 == v[row := rec]
    ensures Grown(r0, v1, {}, IdSet(rows + [row]), bound)
  {
  }

  /** The row loop of md2MakeNewDirectory. */
  method MakeRows(db: Store, id: Id, size: nat, perRow: nat) returns (rows: seq<Id>)
    requires db.AllocOk() && id < db.Bound() && perRow > 0
    modifies db
    ensures db.AllocOk() && old(db.Bound()) <= db.Bound()
    ensures |rows| == RowCount(size, perRow) && RowsMade(db.recs, rows, Widths(size, perRow), id)
    ensures Grown(old(db.recs), db.recs, {}, IdSet(rows), old(db.Bound()))
  {
    hide Below, Width, RowCount, RowsMade, Grown, IdSet;
    ghost var r0: Recs, bound := db.recs, db.Bound();
    var i: nat, rest: int := 0, size;
    rows := [];
    NoRows(r0, Widths(size, perRow), id, bound);
    while i < RowCount(size, perRow)
      invariant db.AllocOk() && bound <= db.Bound() && id < db.Bound()
      invariant i == |rows| <= RowCount(size, perRow)
      invariant RowsMade(db.recs, rows, Widths(size, perRow), id)
      invariant Grown(r0, db.recs, {}, IdSet(rows), bound)
      invariant rest == size - i * perRow
    {
      ghost var v: Recs, now := db.recs, db.Bound();
      RowUsed(size, perRow, i);
      var row := db.NewId();
      var width: nat := if perRow > rest then rest else perRow;
      WidthAt(size, perRow, i, rest);
      db.Put(row, RowRec(Nulls(width)));
      BelowPut(v, now, db.Bound(), row, RowRec(Nulls(width)));
      RowMade(r0, v, db.recs, rows, Widths(size, perRow), id, bound, now, row);
      NextRest(size, perRow, i);
      rows, i, rest := rows + [row], i + 1, rest - perRow;
    }
  }

  lemma WidthAt(size: nat, perRow: nat, i: nat, rest: int)
    requires perRow > 0 && rest == size - i * perRow && rest > 0
    ensures Width(size, perRow, i) == if perRow > rest then rest else perRow
  {
  }

  lemma NextRest(size: nat, perRow: nat, i: nat)
    ensures size - (i + 1) * perRow == size - i * perRow - perRow
  {
  }

  lemma NoRows(recs: Recs, widths: seq<nat>, id: Id, bound: Id)
    ensures RowsMade(recs, [], widths, id) && Grown(recs, recs, {}, IdSet([]), bound)
  {
  }

  /** The flags a new directory takes over from its parent. */
  ghost function Flags(recs: Recs, parent: Id): (bool, bool) {
    if parent != ROOT && parent in recs && recs[parent].DirRec? then (recs[parent].dir.noRemove, recs[parent].dir.noMove)
    else (false, false)
  }

  /** md2MakeNewDirectory: an inode, its hash rows, and no entries. */
  method MakeNewDirectory(db: Store, parent: Id) returns (r: Result<Id>, ghost sh: DirShape)
    requires db.AllocOk()
    modifies db
    ensures db.AllocOk() && old(db.Bound()) <= db.Bound()
    ensures r.Err? <==> parent != ROOT && parent !in old(db.recs)
    ensures r.Err? ==> r == Err(NotFound) && db.recs == old(db.recs)
    ensures r.Ok? ==>
      && r.value == old(db.Bound()) && DirOk(db.recs, db.lay, r.value, sh) && Entries(db.recs, sh) == map[]
      && Grown(old(db.recs), db.recs, {}, DirIds(r.value, sh), old(db.Bound()))
      && var d := db.recs[r.value].dir;
         && d.parent == parent && d.tag == NULL
         && d.noRemove == Flags(old(db.recs), parent).0 && d.noMove == Flags(old(db.recs), parent).1
         && d.hashSize == db.lay.hashSize && d.perRow == db.lay.pointers
  {
    hide DirCore, Below, Covered, Width, RowCount, Entries, RowsMade, Grown, IdSet, EmptyShape, DirIds, Widths;
    ghost var r0: Recs, bound := db.recs, db.Bound();
    var id := db.NewId();
    BelowUp(r0, bound, db.Bound());
    var noRemove, noMove := false, false;
    if parent != ROOT {
      var up := db.Get(parent);
      if up.None? { return Err(NotFound), EmptyShape([], []); }
      if up.value.DirRec? {
        noRemove, noMove := up.value.dir.noRemove, up.value.dir.noMove;
      }
    }
    var size, perRow := db.lay.hashSize, db.lay.pointers;
    ghost var bound1 := db.Bound();
    var rows := MakeRows(db, id, size, perRow);
    ghost var r1: Recs := db.recs;
    var dir := DirInode(parent, 0, NULL, noRemove, noMove, size, perRow, rows);
    db.Put(id, DirRec(dir));
    BelowPut(r1, db.Bound(), db.Bound(), id, DirRec(dir));
    sh := EmptyShape(rows, Widths(size, perRow));
    Made(r0, r1, db.lay, bound, bound1, id, dir, rows);
    r := Ok(id);
  }

  lemma Made(r0: Recs, r1: Recs, lay: Layout, bound: Id, bound1: Id, id: Id, d: DirInode, rows: seq<Id>)
    requires id == bound < bound1 && bound > ROOT && Below(r0, bound)
    requires |rows| == RowCount(d.hashSize, lay.pointers) && d.perRow == lay.pointers && d.hashSize > 0
    requires RowsMade(r1, rows, Widths(d.hashSize, d.perRow), id) && Grown(r0, r1, {}, IdSet(rows), bound1)
    requires d.handles == rows && d.count == 0
    ensures var sh := EmptyShape(rows, Widths(d.hashSize, d.perRow));
            && DirOk(r1[id := DirRec(d)], lay, id, sh) && Entries(r1[id := DirRec(d)], sh) == map[]
            && Grown(r0, r1[id := DirRec(d)], {}, DirIds(id, sh), bound)
  {
    var widths := Widths(d.hashSize, d.perRow);
    var r2 := r1[id := DirRec(d)];
    RowsKept(r1, r2, rows, widths, id);
    hide DirCore, RowsMade, Covered, Width, RowCount;
    TableCovered(d.hashSize, d.perRow);
    EmptyDirectory(r2, lay, d, rows, widths);
    MadeGrown(r0, r1, r2, bound, bound1, id, rows, widths, DirRec(d));
  }

  lemma RowsKept(r1: Recs, r2: Recs, rows: seq<Id>, widths: seq<nat>, id: Id)
    requires RowsMade(r1, rows, widths, id) && SameOutside(r1, r2, {id})
    ensures RowsMade(r2, rows, widths, NULL)
  {
  }

  lemma MadeGrown(r0: Recs, r1: Recs, r2: Recs, bound: Id, bound1: Id, id: Id, rows: seq<Id>, widths: seq<nat>, rec: Record)
    requires Grown(r0, r1, {}, IdSet(rows), bound1) && Below(r0, bound) && id == bound < bound1
    requires r2 == r1[id := rec]
    ensures Grown(r0, r2, {}, DirIds(id, EmptyShape(rows, widths)), bound)
  {
  }
}
