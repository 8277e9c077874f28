/** The compactor on the whole store. */
module FsShrink {
  import opened Records
  import opened Frames
  import opened Stores
  import opened DirShapes
  import opened TagShapes
  import opened TagValues
  import opened Worlds
  import opened FileSystems
  import opened Shrink

  lemma DirIdsHas(n: Id, sh: DirShape, x: Id)
    ensures x in DirIds(n, sh) <==> x == n || x in sh.rows || x in sh.home
    ensures x in CoreIds(sh) <==> x in sh.rows || x in sh.home
  {
  }

  lemma ReplacedWithin(r0: Recs, r1: Recs, core: set<Id>, ids0: set<Id>, ids1: set<Id>)
    requires SameOutside(r0, r1, core)
    requires forall x :: x in core ==> x in ids0
    requires forall x :: x in ids1 ==> x in ids0 && x in r1
    requires forall x :: x in ids0 && x !in ids1 ==> x !in r1
    ensures Replaced(r0, r1, ids0, ids1, 0) && ids1 <= ids0
  {
  }

  lemma ShrunkReplaced(r0: Recs, sh0: DirShape, r1: Recs, sh1: DirShape, lay: Layout, n: Id)
    requires Shrunk(r0, sh0, r1, sh1) && DirOk(r0, lay, n, sh0) && DirOk(r1, lay, n, sh1)
    ensures Replaced(r0, r1, DirIds(n, sh0), DirIds(n, sh1), 0) && DirIds(n, sh1) <= DirIds(n, sh0)
  {
    hide DirOk, DirIds, CoreIds, Replaced;
    DirIdsStored(r1, lay, n, sh1);
    forall x {:trigger x in DirIds(n, sh0)} {:trigger x in DirIds(n, sh1)} {:trigger x in CoreIds(sh0)}
      ensures x in CoreIds(sh0) ==> x in DirIds(n, sh0)
      ensures x in DirIds(n, sh1) ==> x in DirIds(n, sh0) && x in r1
      ensures x in DirIds(n, sh0) && x !in DirIds(n, sh1) ==> x !in r1
    {
      DirIdsHas(n, sh0, x);
      DirIdsHas(n, sh1, x);
    }
    ReplacedWithin(r0, r1, CoreIds(sh0), DirIds(n, sh0), DirIds(n, sh1));
  }

  lemma SameView(w: World, lay: Layout, r1: Recs, d: Id, dir1: DirShape)
    requires Settled(w, lay) && d in w.recs && w.recs[d].DirRec?
    requires Entries(r1, dir1) == Entries(w.recs, DirAt(w, d))
    ensures var v := ViewOf(w, lay); d in v && v[d].DirNode? && v[d := v[d].(entries := Entries(r1, dir1))] == v
  {
    hide Partition, ShapesOk, Entries, ViewOf, DirShapeOk;
    DirKnown(w, lay, d);
    SameMap(ViewOf(w, lay), d, Entries(r1, dir1));
  }

  lemma SameMap(v: View, d: Id, entries: map<Name, Item>)
    requires d in v && v[d].DirNode? && v[d].entries == entries
    ensures v[d := v[d].(entries := entries)] == v
  {
  }

  /** md_shrink_dir gives up blocks of one directory; the file system stands for the same. */
  method CompactDirectory(fs: FileSystem, d: Id) returns (r: Result<()>)
    requires fs.Sound()
    modifies fs, fs.db
    ensures fs.Sound() && fs.View() == old(fs.View()) && SameTags(old(fs.db.recs), fs.db.recs)
    ensures r == if d !in old(fs.db.recs) then Err(NotFound) else if !old(fs.db.recs)[d].DirRec? then Err(NotDirectory) else Ok(())
    ensures r.Err? ==> fs.W() == old(fs.W())
    ensures fs.db.recs.Keys <= old(fs.db.recs).Keys
    ensures forall x :: IsTag(old(fs.db.recs), x) ==> Value(fs.db.recs, x) == Value(old(fs.db.recs), x)
  {
    hide Partition, ShapesOk, DirOk, TagInv, After, ViewOf, NodeOf, Replaced, Value, Entries, Shrunk, BusyBlocks, DirIds;
    ghost var w: World, bound := fs.W(), fs.db.Bound();
    DirKnown(w, fs.db.lay, d);
    ghost var dir := DirAt(w, d);
    var a, dir1 := ShrinkDirectory(fs.db, d, dir);
    if a.Err? { return a; }
    ShrunkReplaced(w.recs, dir, fs.db.recs, dir1, fs.db.lay, d);
    ShrunkStep(w, fs.db.lay, fs.db.recs, d, dir1, bound);
    SameView(w, fs.db.lay, fs.db.recs, d, dir1);
    ghost var w1 := After(w, fs.db.recs, d, Some(DirShaped(dir1, TagsAt(w, d))));
    AfterFields(w, fs.db.recs, d, Some(DirShaped(dir1, TagsAt(w, d))));
    fs.shapes, fs.owner := w1.shapes, w1.owner;
    ShrunkKeys(w.recs, dir, fs.db.recs, dir1);
    r := a;
  }

  lemma ShrunkKeys(r0: Recs, sh0: DirShape, r1: Recs, sh1: DirShape)
    requires Shrunk(r0, sh0, r1, sh1)
    ensures r1.Keys <= r0.Keys
  {
  }
}
