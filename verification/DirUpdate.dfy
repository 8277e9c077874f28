/** Replacing the item of a name (mdUpdateDirectoryEntry, md2lib.c). */
module DirUpdate {
  import opened Records
  import opened Stores
  import opened DirShapes
  import opened Dirs

  /** A block with the item in the slot of a name replaced by one of the same name. */
  lemma SetBlock(r0: Recs, r1: Recs, lay: Layout, d: DirInode, sh: DirShape, name: Name, item: Item, x: Id)
    requires x in sh.home && BlockOk(r0, lay, d, sh, x) && name in sh.slot && SlotOk(r0, sh, name)
    requires item.name == name && item.id != NULL
    requires var (id, m) := sh.slot[name];
             r1 == r0[id := SlotsRec(r0[id].slots.(items := r0[id].slots.items[m := item]))]
    ensures BlockOk(r1, lay, d, sh, x)
  {
    hide BucketOf;
    var (id, m) := sh.slot[name];
    assert r1[x] == if x == id then SlotsRec(r0[id].slots.(items := r0[id].slots.items[m := item])) else r0[x];
    forall k | 0 <= k < lay.slots && SlotLive(r1[x].slots, k)
      ensures SlotLive(r0[x].slots, k) && r1[x].slots.items[k].name == r0[x].slots.items[k].name
    {
    }
  }

  lemma SetName(r0: Recs, r1: Recs, sh: DirShape, name: Name, item: Item, other: Name)
    requires name in sh.slot && SlotOk(r0, sh, name) && other in sh.slot && SlotOk(r0, sh, other)
    requires item.name == name && item.id != NULL
    requires var (id, m) := sh.slot[name];
             r1 == r0[id := SlotsRec(r0[id].slots.(items := r0[id].slots.items[m := item]))]
    ensures SlotOk(r1, sh, other)
    ensures ItemAt(r1, sh.slot[other]) == if other == name then item else ItemAt(r0, sh.slot[other])
  {
    var (id, m) := sh.slot[name];
    var (x, k) := sh.slot[other];
    assert r1[x] == if x == id then SlotsRec(r0[id].slots.(items := r0[id].slots.items[m := item])) else r0[x];
    assert other != name ==> x != id || k != m;
  }

  lemma SetItem(r0: Recs, r1: Recs, lay: Layout, d: DirInode, sh: DirShape, name: Name, item: Item)
    requires DirCore(r0, lay, d, sh) && name in sh.slot && SlotOk(r0, sh, name)
    requires item.name == name && item.id != NULL
    requires var (id, m) := sh.slot[name];
             r1 == r0[id := SlotsRec(r0[id].slots.(items := r0[id].slots.items[m := item]))]
    ensures DirCore(r1, lay, d, sh) && Entries(r1, sh) == Entries(r0, sh)[name := item]
  {
    hide RowsOk, ChainsOk, BlockOk, SlotOk, BucketOf, ItemAt;
    SlotBlock(r0, sh, name);
    RowsUntouched(r0, r1, d, sh, sh, sh.slot[name].0);
    ChainsFrame(r0, r1, sh);
    forall x | x in sh.home ensures BlockOk(r1, lay, d, sh, x) {
      SetBlock(r0, r1, lay, d, sh, name, item, x);
    }
    forall other | other in sh.slot
      ensures SlotOk(r1, sh, other) && ItemAt(r1, sh.slot[other]) == if other == name then item else ItemAt(r0, sh.slot[other])
    {
      SetName(r0, r1, sh, name, item, other);
    }
  }

  lemma SlotBlock(r0: Recs, sh: DirShape, name: Name)
    requires name in sh.slot && SlotOk(r0, sh, name)
    ensures IsSlots(r0, sh.slot[name].0) && sh.slot[name].1 < |r0[sh.slot[name].0].slots.items|
  {
  }

  /** mdUpdateDirectoryEntry: the map has the new item under the same name; nothing else changes. */
  method UpdateDirectoryEntry(db: Store, dirID: Id, item: Item, ghost sh: DirShape) returns (r: Result<()>)
    requires Known(db.recs, db.lay, dirID, sh) && item.id != NULL
    modifies db`recs
    ensures r == match Guard(old(db.recs), dirID, item.name)
                 case Some(e) => Err(e)
                 case None => if item.name in Entries(old(db.recs), sh) then Ok(()) else Err(NotFound)
    ensures r.Err? ==> db.recs == old(db.recs)
    ensures r.Ok? ==>
      && DirOk(db.recs, db.lay, dirID, sh) && Entries(db.recs, sh) == Entries(old(db.recs), sh)[item.name := item]
      && SameOutside(old(db.recs), db.recs, sh.home.Keys) && db.recs.Keys == old(db.recs).Keys
  {
    var p := GetDirectoryInfos(db, dirID, item.name, sh);
    if p.Err? { return Err(p.error); }
    hide DirCore, BucketOf, Entries;
    ghost var b := BucketOf(p.value.dir.hashSize, p.value.dir.perRow, item.name);
    var hit, k := SearchChain(db, p.value.row[p.value.column], item.name, p.value.dir, sh, b);
    EntryAt(db.recs, sh, item.name);
    if hit.None? { return Err(NotFound); }
    r := Ok(());
    PutHit(db, dirID, hit.value, item, sh);
  }

  method PutHit(db: Store, dirID: Id, hit: Hit, item: Item, ghost sh: DirShape)
    requires DirOk(db.recs, db.lay, dirID, sh) && item.name in sh.slot && item.id != NULL
    requires sh.slot[item.name] == (hit.id, hit.index) && IsSlots(db.recs, hit.id) && db.recs[hit.id] == SlotsRec(hit.block)
    modifies db`recs
    ensures DirOk(db.recs, db.lay, dirID, sh) && Entries(db.recs, sh) == Entries(old(db.recs), sh)[item.name := item]
    ensures SameOutside(old(db.recs), db.recs, sh.home.Keys) && db.recs.Keys == old(db.recs).Keys
  {
    hide DirCore, Entries, SlotOk;
    ghost var r0: Recs := db.recs;
    SlotFacts(r0, db.lay, r0[dirID].dir, sh, item.name);
    SlotBlock(r0, sh, item.name);
    DirFacts(r0, db.lay, dirID, sh);
    db.Put(hit.id, SlotsRec(hit.block.(items := hit.block.items[hit.index := item])));
    SetItem(r0, db.recs, db.lay, r0[dirID].dir, sh, item.name, item);
  }

  lemma SlotFacts(recs: Recs, lay: Layout, d: DirInode, sh: DirShape, name: Name)
    requires DirCore(recs, lay, d, sh) && name in sh.slot
    ensures SlotOk(recs, sh, name) && sh.slot[name].0 in sh.home
  {
    assert SlotOk(recs, sh, name);
  }
}
