/** Directory operations (md2lib.c): lookup, update, add and remove.  Each is proved against the map
    the directory stands for. */
module Dirs {
  import opened Records
  import opened Frames
  import opened Stores
  import opened FileShapes
  import opened DirShapes
  import opened DirLinks

  /** If `n` is a directory inode, `sh` describes it. */
  ghost predicate Known(recs: Recs, lay: Layout, n: Id, sh: DirShape) {
    n in recs && recs[n].DirRec? ==> DirOk(recs, lay, n, sh)
  }

  /** The inodes differ in the entry count only. */
  ghost predicate SameInode(d0: DirInode, d1: DirInode) {
    d1 == d0.(count := d1.count)
  }

  /** The errors every directory operation starts with. */
  ghost function Guard(recs: Recs, n: Id, name: string): Option<Error> {
    if n !in recs then Some(NotFound)
    else if !recs[n].DirRec? then Some(NotDirectory)
    else if name == "" then Some(BadName)
    else None
  }

  /** md2HushFunc0. */
  method HushFunc0(name: string, size: nat) returns (rc: int)
    requires size > 0
    ensures rc == if name == "" then -1 else NameSum(name) % size
  {
    var i: nat, sum: nat := 0, 0;
    while i < |name|
      invariant i <= |name| && sum == NameSum(name[..i])
    {
      assert name[..i + 1][..i] == name[..i];
      sum := sum + name[i] as nat * PRIM[i % |PRIM|];
      i := i + 1;
    }
    assert name[..|name|] == name;
    rc := if i == 0 then -1 else sum % size;
  }

  datatype BucketPlace = BucketPlace(dir: DirInode, hashId: Id, row: seq<Id>, column: nat)

  /** md2GetDirectoryInfos: the row and column of a name.  On a well-formed directory the two range
      checks, the ones that answer Panic, never fire. */
  method GetDirectoryInfos(db: Store, dirID: Id, name: string, ghost sh: DirShape) returns (r: Result<BucketPlace>)
    requires Known(db.recs, db.lay, dirID, sh)
    ensures Guard(db.recs, dirID, name).Some? ==> r == Err(Guard(db.recs, dirID, name).value)
    ensures Guard(db.recs, dirID, name).None? ==>
      && r.Ok? && r.value.dir == db.recs[dirID].dir
      && var b := BucketOf(r.value.dir.hashSize, r.value.dir.perRow, name);
         && b in sh.chains && IsBucket(sh, b) && b.0 < |sh.rows| && r.value.hashId == sh.rows[b.0] && r.value.column == b.1
         && r.value.hashId in db.recs && db.recs[r.value.hashId] == RowRec(r.value.row)
         && b.1 < |r.value.row| && r.value.row[b.1] == Head(sh.chains[b])
  {
    var rec := db.Get(dirID);
    if rec.None? { return Err(NotFound); }
    if !rec.value.DirRec? { return Err(NotDirectory); }
    var dir := rec.value.dir;
    var rc := HushFunc0(name, dir.hashSize);
    if rc < 0 { return Err(BadName); }
    BucketInRange(db.recs, dir, sh, name);
    var row, column := rc / dir.perRow, rc % dir.perRow;
    if row >= |dir.handles| { return Err(Panic); }
    var hash := db.Get(dir.handles[row]);
    if column >= |hash.value.row| { return Err(Panic); }
    r := Ok(BucketPlace(dir, dir.handles[row], hash.value.row, column));
  }

  /** The slot loop the lookups share: the first live slot below the high-water mark with this name. */
  method FindInBlock(block: DirBlock, name: string) returns (i: nat)
    requires block.highWater <= |block.items|
    ensures i <= block.highWater
    ensures i < block.highWater ==> SlotLive(block, i) && block.items[i].name == name
    ensures forall k :: 0 <= k < i && SlotLive(block, k) ==> block.items[k].name != name
  {
    i := 0;
    while i < block.highWater && (block.items[i].id == NULL || block.items[i].name != name)
      invariant i <= block.highWater
      invariant forall k :: 0 <= k < i && SlotLive(block, k) ==> block.items[k].name != name
    {
      i := i + 1;
    }
  }

  datatype Hit = Hit(id: Id, block: DirBlock, index: nat, lastId: Id, last: DirBlock)

  /** Where in the chain of its bucket a name was found. */
  ghost predicate HitAt(recs: Recs, sh: DirShape, b: Bucket, k: nat, hit: Hit)
    requires b in sh.chains
  {
    && k < |sh.chains[b]| && hit.id == sh.chains[b][k]
    && IsSlots(recs, hit.id) && recs[hit.id] == SlotsRec(hit.block)
    && if k == 0 then hit.lastId == NULL
       else hit.lastId == sh.chains[b][k - 1] && IsSlots(recs, hit.lastId) && recs[hit.lastId] == SlotsRec(hit.last)
  }

  /** The chain loop of mdFindDirectoryEntry, mdUpdateDirectoryEntry and md2ExtRemoveFromDirectory. */
  method SearchChain(db: Store, first: Id, name: Name, ghost d: DirInode, ghost sh: DirShape, ghost b: Bucket)
    returns (hit: Option<Hit>, ghost k: nat)
    requires DirCore(db.recs, db.lay, d, sh) && b in sh.chains && first == Head(sh.chains[b])
    requires b == BucketOf(d.hashSize, d.perRow, name)
    ensures hit.Some? <==> name in sh.slot
    ensures hit.Some? ==> sh.slot[name] == (hit.value.id, hit.value.index) && HitAt(db.recs, sh, b, k, hit.value)
                          && hit.value.id in sh.home
  {
    hide DirCore, BucketOf, ChainLinked;
    ChainAt(db.recs, db.lay, d, sh, b, name);
    var xid, lastId, last := first, NULL, DirBlock(NULL, 0, []);
    k := 0;
    while xid != NULL
      invariant k <= |sh.chains[b]|
      invariant xid == if k < |sh.chains[b]| then sh.chains[b][k] else NULL
      invariant k == 0 ==> lastId == NULL
      invariant k > 0 ==> lastId == sh.chains[b][k - 1] && IsSlots(db.recs, lastId) && db.recs[lastId] == SlotsRec(last)
      invariant name in sh.slot ==> sh.slot[name].0 !in sh.chains[b][..k]
      decreases |sh.chains[b]| - k
    {
      var r := db.Get(xid);
      var block := r.value.slots;
      BlockSearched(db.recs, db.lay, d, sh, xid, name);
      var i := FindInBlock(block, name);
      if i < block.highWater {
        return Some(Hit(xid, block, i, lastId, last)), k;
      }
      lastId, last, xid := xid, block, block.next;
      assert sh.chains[b][..k + 1] == sh.chains[b][..k] + [lastId];
      k := k + 1;
    }
    assert sh.chains[b][..k] == sh.chains[b];
    hit := None;
  }

  lemma ChainAt(recs: Recs, lay: Layout, d: DirInode, sh: DirShape, b: Bucket, name: Name)
    requires DirCore(recs, lay, d, sh) && b in sh.chains && b == BucketOf(d.hashSize, d.perRow, name)
    ensures forall k :: 0 <= k < |sh.chains[b]| ==>
              sh.chains[b][k] in sh.home && IsSlots(recs, sh.chains[b][k])
              && recs[sh.chains[b][k]].slots.next == NextIn(sh.chains[b], k)
    ensures name in sh.slot ==> sh.slot[name].0 in sh.chains[b]
  {
    assert ChainLinked(recs, sh, b);
    if name in sh.slot { NameInChain(recs, lay, d, sh, name); }
  }

  /** A block holds a name if and only if the slot of the name lies in it. */
  lemma BlockSearched(recs: Recs, lay: Layout, d: DirInode, sh: DirShape, id: Id, name: Name)
    requires DirCore(recs, lay, d, sh) && id in sh.home
    ensures IsSlots(recs, id) && recs[id].slots.highWater <= |recs[id].slots.items| == lay.slots
    ensures forall i :: 0 <= i < lay.slots && SlotLive(recs[id].slots, i) && recs[id].slots.items[i].name == name ==>
              name in sh.slot && sh.slot[name] == (id, i)
    ensures name in sh.slot && sh.slot[name].0 == id ==>
              var i := sh.slot[name].1;
              SlotLive(recs[id].slots, i) && recs[id].slots.items[i].name == name && i < recs[id].slots.highWater
  {
  }

  /** mdFindDirectoryEntry is lookup in the map. */
  method FindDirectoryEntry(db: Store, dirID: Id, name: Name, ghost sh: DirShape) returns (r: Result<Item>)
    requires Known(db.recs, db.lay, dirID, sh)
    ensures r == match Guard(db.recs, dirID, name)
                 case Some(e) => Err(e)
                 case None => if name in Entries(db.recs, sh) then Ok(Entries(db.recs, sh)[name]) else Err(NotFound)
  {
    var p := GetDirectoryInfos(db, dirID, name, sh);
    if p.Err? { return Err(p.error); }
    ghost var b := BucketOf(p.value.dir.hashSize, p.value.dir.perRow, name);
    hide DirCore, BucketOf;
    var hit, k := SearchChain(db, p.value.row[p.value.column], name, p.value.dir, sh, b);
    if hit.None? { return Err(NotFound); }
    r := Ok(hit.value.block.items[hit.value.index]);
  }

  // ----- remove -----

  /** Lowering the high-water mark to the last live slot. */
  method AdjustHighWater(items: seq<Item>, highWater0: nat) returns (highWater: nat)
    requires highWater0 <= |items|
    ensures highWater <= highWater0
    ensures forall k :: highWater <= k < highWater0 ==> items[k].id == NULL
    ensures highWater > 0 ==> items[highWater - 1].id != NULL
  {
    highWater := highWater0;
    var i := highWater0 - 1;
    while i >= 0 && items[i].id == NULL
      invariant i == highWater - 1 && highWater <= highWater0
      invariant forall k :: highWater <= k < highWater0 ==> items[k].id == NULL
    {
      highWater := highWater - 1;
      i := i - 1;
    }
  }

  /** Writing the inode back with a new count changes neither the chains nor the map. */
  lemma PutInode(r0: Recs, lay: Layout, n: Id, d: DirInode, sh: DirShape)
    requires DirCore(r0, lay, d, sh) && n in r0 && n != NULL && r0[n].DirRec? && d.count == |sh.slot|
    ensures DirOk(r0[n := DirRec(d)], lay, n, sh)
    ensures Entries(r0[n := DirRec(d)], sh) == Entries(r0, sh)
  {
    hide DirCore, Entries, CoreIds;
    CoreStored(r0, lay, d, sh);
    CoreFrame(r0, r0[n := DirRec(d)], lay, d, sh);
  }

  /** Only the hash parameters of the inode matter for its rows and blocks. */
  lemma CoreSame(recs: Recs, lay: Layout, d: DirInode, d1: DirInode, sh: DirShape)
    requires DirCore(recs, lay, d, sh)
    requires d1.hashSize == d.hashSize && d1.perRow == d.perRow && d1.handles == d.handles
    ensures DirCore(recs, lay, d1, sh)
  {
  }

  lemma CoreCount(recs: Recs, lay: Layout, d: DirInode, sh: DirShape, count: int)
    requires DirCore(recs, lay, d, sh)
    ensures DirCore(recs, lay, d.(count := count), sh) && SameInode(d, d.(count := count))
  {
  }

  /** What is known where a name was found. */
  ghost predicate Found(recs: Recs, sh: DirShape, p: BucketPlace, hit: Hit, b: Bucket, k: nat) {
    && b in sh.chains && b.0 < |sh.rows| && HitAt(recs, sh, b, k, hit) && hit.id in sh.home
    && p.hashId == sh.rows[b.0] && p.column == b.1
    && p.hashId in recs && recs[p.hashId] == RowRec(p.row) && b.1 < |p.row|
  }

  /** What unlinking the block of a hit leaves in the store. */
  ghost function Unlinked(r: Recs, p: BucketPlace, hit: Hit, next: Id): Recs {
    if hit.lastId == NULL then (r - {hit.id})[p.hashId := RowRec(if p.column < |p.row| then p.row[p.column := next] else p.row)]
    else (r - {hit.id})[hit.lastId := SlotsRec(hit.last.(next := next))]
  }

  lemma UnlinkedIsRelink(r0: Recs, v: Recs, d: DirInode, sh: DirShape, p: BucketPlace, hit: Hit, block: DirBlock, b: Bucket, k: nat)
    requires ChainsOk(v, sh)
    requires Found(r0, sh, p, hit, b, k) && v == r0[hit.id := SlotsRec(block)]
    ensures Unlinked(r0, p, hit, block.next) == Relink(v, sh, b, k, block.next) - {hit.id}
  {
    LastInChain(r0, v, sh, p, hit, b, k);
    hide ChainsOk, Found;
    var to := block.next;
    if k == 0 {
      assert Relink(v, sh, b, k, to) == v[p.hashId := RowRec(p.row[p.column := to])];
    } else {
      assert Relink(v, sh, b, k, to) == v[hit.lastId := SlotsRec(hit.last.(next := to))];
    }
    hide Relink;
    PutMinus(r0, hit.id, SlotsRec(block), if k == 0 then p.hashId else hit.lastId,
             if k == 0 then RowRec(p.row[p.column := to]) else SlotsRec(hit.last.(next := to)));
  }

  lemma PutMinus(r0: Recs, id: Id, rec: Record, other: Id, rec1: Record)
    requires id != other
    ensures (r0 - {id})[other := rec1] == r0[id := rec][other := rec1] - {id}
  {
  }

  lemma LastInChain(r0: Recs, v: Recs, sh: DirShape, p: BucketPlace, hit: Hit, b: Bucket, k: nat)
    requires ChainsOk(v, sh) && Found(r0, sh, p, hit, b, k)
    ensures b in sh.chains && k < |sh.chains[b]| && hit.id in sh.home && hit.id in r0
    ensures p.hashId in r0 && b.0 < |sh.rows| && p.hashId == sh.rows[b.0] && p.hashId != hit.id
    ensures r0[p.hashId] == RowRec(p.row) && p.column == b.1 < |p.row|
    ensures if k == 0 then hit.lastId == NULL
            else && hit.lastId == sh.chains[b][k - 1] && hit.lastId != NULL && hit.lastId != hit.id && hit.lastId in sh.home
                 && hit.lastId in r0 && r0[hit.lastId] == SlotsRec(hit.last)
  {
    assert ChainLinked(v, sh, b);
  }

  lemma UnlinkedFrame(r0: Recs, v: Recs, sh: DirShape, p: BucketPlace, hit: Hit, next: Id, b: Bucket, k: nat)
    requires ChainsOk(v, sh) && Found(r0, sh, p, hit, b, k)
    ensures SameOutside(r0, Unlinked(r0, p, hit, next), CoreIds(sh))
    ensures Unlinked(r0, p, hit, next).Keys == r0.Keys - {hit.id}
  {
    LastInChain(r0, v, sh, p, hit, b, k);
    hide ChainsOk, Found;
  }

  /** Taking the emptied block of a hit out of the store and its chain. */
  method UnlinkHit(db: Store, p: BucketPlace, hit: Hit, block: DirBlock,
                   ghost v: Recs, ghost sh: DirShape, ghost b: Bucket, ghost k: nat)
    returns (ghost sh1: DirShape)
    requires Found(db.recs, sh, p, hit, b, k) && NoLive(block)
    requires v == db.recs[hit.id := SlotsRec(block)] && DirCore(v, db.lay, p.dir, sh)
    modifies db`recs
    ensures sh1.slot == sh.slot && sh1.rows == sh.rows && sh1.home == sh.home - {hit.id}
    ensures DirCore(db.recs, db.lay, p.dir, sh1) && Entries(db.recs, sh1) == Entries(v, sh)
    ensures SameOutside(old(db.recs), db.recs, CoreIds(sh))
    ensures db.recs.Keys == old(db.recs).Keys - {hit.id}
  {
    UnlinkedIsRelink(db.recs, v, p.dir, sh, p, hit, block, b, k);
    UnlinkedFrame(db.recs, v, sh, p, hit, block.next, b, k);
    hide DirCore, Relink, Entries, NoLive;
    db.Delete(hit.id);
    if hit.lastId == NULL {
      db.Put(p.hashId, RowRec(p.row[p.column := block.next]));
    } else {
      db.Put(hit.lastId, SlotsRec(hit.last.(next := block.next)));
    }
    UnlinkBlock(v, db.recs, db.lay, p.dir, sh, b, k);
    sh1 := WithChain(sh, b, Without(sh.chains[b], k), sh.home - {hit.id});
  }

  /** The block has a name other than this one. */
  ghost predicate InUse(sh: DirShape, name: Name, id: Id) {
    exists other: Name :: other in sh.slot && other != name && sh.slot[other].0 == id
  }

  lemma StillInUse(recs: Recs, lay: Layout, d: DirInode, sh: DirShape, name: Name, id: Id, m: nat, block: DirBlock)
    requires DirCore(recs, lay, d, sh) && name in sh.slot && sh.slot[name] == (id, m) && id in sh.home && IsSlots(recs, id)
    requires m < |recs[id].slots.items| && block.highWater <= |recs[id].slots.items|
    requires block.items == recs[id].slots.items[m := recs[id].slots.items[m].(id := NULL)]
    requires block.highWater > 0 ==> block.items[block.highWater - 1].id != NULL
    requires block.highWater == 0 ==> NoLive(block)
    ensures block.highWater > 0 <==> InUse(sh, name, id)
  {
    hide DirCore;
    NamedLive(recs, lay, d, sh, name);
    if block.highWater > 0 {
      var l := block.highWater - 1;
      LiveNamed(recs, lay, d, sh, id, l);
      assert block.items[l].name in sh.slot && sh.slot[block.items[l].name] == (id, l);
    }
    if InUse(sh, name, id) {
      var other: Name :| other in sh.slot && other != name && sh.slot[other].0 == id;
      NamedLive(recs, lay, d, sh, other);
      assert SlotLive(block, sh.slot[other].1);
    }
  }

  lemma LiveNamed(recs: Recs, lay: Layout, d: DirInode, sh: DirShape, id: Id, m: nat)
    requires DirCore(recs, lay, d, sh) && id in sh.home && IsSlots(recs, id) && SlotLive(recs[id].slots, m)
    ensures recs[id].slots.items[m].name in sh.slot && sh.slot[recs[id].slots.items[m].name] == (id, m)
  {
    assert BlockOk(recs, lay, d, sh, id);
  }

  lemma NamedLive(recs: Recs, lay: Layout, d: DirInode, sh: DirShape, name: Name)
    requires DirCore(recs, lay, d, sh) && name in sh.slot
    ensures var (id, m) := sh.slot[name];
            IsSlots(recs, id) && SlotLive(recs[id].slots, m) && recs[id].slots.items[m].name == name
  {
    assert SlotOk(recs, sh, name);
  }

  /** The slot cleared, and the high-water mark lowered. */
  method ClearSlot(db: Store, hit: Hit, name: Name, ghost d: DirInode, ghost sh: DirShape) returns (block: DirBlock)
    requires DirCore(db.recs, db.lay, d, sh) && name in sh.slot && sh.slot[name] == (hit.id, hit.index)
    requires IsSlots(db.recs, hit.id) && db.recs[hit.id] == SlotsRec(hit.block) && hit.id in sh.home
    ensures var v: Recs := db.recs[hit.id := SlotsRec(block)];
            var sh1 := sh.(slot := sh.slot - {name});
            DirCore(v, db.lay, d, sh1) && Entries(v, sh1) == Entries(db.recs, sh) - {name}
    ensures block.highWater == 0 ==> NoLive(block)
    ensures block.highWater > 0 <==> InUse(sh, name, hit.id)
  {
    assert SlotOk(db.recs, sh, name);
    BlockSearched(db.recs, db.lay, d, sh, hit.id, name);
    hide DirCore, Entries, NoLive;
    var items := hit.block.items[hit.index := hit.block.items[hit.index].(id := NULL)];
    var highWater := AdjustHighWater(items, hit.block.highWater);
    block := DirBlock(hit.block.next, highWater, items);
    HighWaterBounds(db.recs, db.lay, d, sh, hit.id, hit.index, block);
    DropItem(db.recs, db.recs[hit.id := SlotsRec(block)], db.lay, d, sh, name, block);
    StillInUse(db.recs, db.lay, d, sh, name, hit.id, hit.index, block);
  }

  /** The body of md2ExtRemoveFromDirectory once the name is found: clear the slot and unlink the block
      if it is empty now. */
  method RemoveHit(db: Store, p: BucketPlace, hit: Hit, name: Name, ghost sh: DirShape, ghost b: Bucket, ghost k: nat)
    returns (ghost sh1: DirShape)
    requires DirCore(db.recs, db.lay, p.dir, sh) && Found(db.recs, sh, p, hit, b, k)
    requires name in sh.slot && sh.slot[name] == (hit.id, hit.index)
    modifies db`recs
    ensures DirCore(db.recs, db.lay, p.dir, sh1)
    ensures Entries(db.recs, sh1) == Entries(old(db.recs), sh) - {name}
    ensures sh1.slot == sh.slot - {name} && sh1.rows == sh.rows
    ensures SameOutside(old(db.recs), db.recs, CoreIds(sh))
    ensures sh1.home == if InUse(sh, name, hit.id) then sh.home else sh.home - {hit.id}
    ensures db.recs.Keys == old(db.recs).Keys - (sh.home.Keys - sh1.home.Keys)
  {
    hide DirCore, Entries, NoLive, InUse;
    sh1 := sh.(slot := sh.slot - {name});
    var block := ClearSlot(db, hit, name, p.dir, sh);
    ghost var v: Recs := db.recs[hit.id := SlotsRec(block)];
    if block.highWater > 0 {
      db.Put(hit.id, SlotsRec(block));
    } else {
      FoundSlot(db.recs, sh, sh1, p, hit, b, k);
      hide Found;
      sh1 := UnlinkHit(db, p, hit, block, v, sh1, b, k);
    }
  }

  lemma FoundSlot(recs: Recs, sh: DirShape, sh1: DirShape, p: BucketPlace, hit: Hit, b: Bucket, k: nat)
    requires Found(recs, sh, p, hit, b, k) && sh1.chains == sh.chains && sh1.rows == sh.rows && sh1.home == sh.home
    ensures Found(recs, sh1, p, hit, b, k)
  {
  }

  /** Clearing a slot and lowering the mark over empty slots keeps the live slots below the mark. */
  lemma HighWaterBounds(recs: Recs, lay: Layout, d: DirInode, sh: DirShape, id: Id, m: nat, block: DirBlock)
    requires DirCore(recs, lay, d, sh) && id in sh.home && IsSlots(recs, id) && m < |recs[id].slots.items|
    requires block.items == recs[id].slots.items[m := recs[id].slots.items[m].(id := NULL)]
    requires block.highWater <= recs[id].slots.highWater
    requires forall k :: block.highWater <= k < recs[id].slots.highWater && k < |block.items| ==> block.items[k].id == NULL
    ensures forall k :: 0 <= k < |block.items| && SlotLive(block, k) ==> k < block.highWater
    ensures block.highWater <= lay.slots
    ensures block.highWater == 0 ==> NoLive(block)
  {
    assert BlockOk(recs, lay, d, sh, id);
    forall k | 0 <= k < |block.items| && SlotLive(block, k) ensures k < block.highWater {
      assert SlotLive(recs[id].slots, k);
    }
    if block.highWater == 0 {
      forall k | 0 <= k < |block.items| ensures block.items[k].id == NULL {
        assert SlotLive(block, k) ==> k < block.highWater;
      }
    }
  }

  /** md2ExtRemoveFromDirectory is removal from the map. */
  method RemoveFromDirectory(db: Store, dirID: Id, name: Name, ghost sh: DirShape)
    returns (r: Result<Item>, ghost sh1: DirShape)
    requires Known(db.recs, db.lay, dirID, sh)
    modifies db`recs
    ensures r.Err? ==> db.recs == old(db.recs) && sh1 == sh
    ensures r == match Guard(old(db.recs), dirID, name)
                 case Some(e) => Err(e)
                 case None =>
                   if old(db.recs)[dirID].dir.noRemove then Err(NotAllowed)
                   else if name in Entries(old(db.recs), sh) then Ok(Entries(old(db.recs), sh)[name])
                   else Err(NotFound)
    ensures r.Ok? ==>
      && DirOk(db.recs, db.lay, dirID, sh1)
      && Entries(db.recs, sh1) == Entries(old(db.recs), sh) - {name}
      && Replaced(old(db.recs), db.recs, DirIds(dirID, sh), DirIds(dirID, sh1), 0)
      && DirIds(dirID, sh1) <= DirIds(dirID, sh)
      && SameInode(old(db.recs)[dirID].dir, db.recs[dirID].dir)
      && name in sh.slot
      && sh1.home == if InUse(sh, name, sh.slot[name].0) then sh.home else sh.home - {sh.slot[name].0}
  {
    sh1 := sh;
    var p := GetDirectoryInfos(db, dirID, name, sh);
    if p.Err? { return Err(p.error), sh; }
    hide DirCore, BucketOf, Entries, Replaced, HitAt, InUse;
    if p.value.dir.noRemove { return Err(NotAllowed), sh; }
    ghost var b := BucketOf(p.value.dir.hashSize, p.value.dir.perRow, name);
    var hit, k := SearchChain(db, p.value.row[p.value.column], name, p.value.dir, sh, b);
    EntryAt(db.recs, sh, name);
    if hit.None? { return Err(NotFound), sh; }
    FoundAt(db.recs, sh, p.value, hit.value, b, k);
    hide Found;
    sh1 := RemoveFound(db, dirID, p.value, hit.value, name, sh, b, k);
    r := Ok(hit.value.block.items[hit.value.index]);
  }

  lemma EntryAt(recs: Recs, sh: DirShape, name: Name)
    ensures name in Entries(recs, sh) <==> name in sh.slot
    ensures name in sh.slot ==> Entries(recs, sh)[name] == ItemAt(recs, sh.slot[name])
  {
  }

  /** The removal, the count, and the inode put back. */
  method RemoveFound(db: Store, dirID: Id, p: BucketPlace, hit: Hit, name: Name, ghost sh: DirShape, ghost b: Bucket, ghost k: nat)
    returns (ghost sh1: DirShape)
    requires DirOk(db.recs, db.lay, dirID, sh) && p.dir == db.recs[dirID].dir
    requires Found(db.recs, sh, p, hit, b, k) && name in sh.slot && sh.slot[name] == (hit.id, hit.index)
    modifies db`recs
    ensures DirOk(db.recs, db.lay, dirID, sh1)
    ensures Entries(db.recs, sh1) == Entries(old(db.recs), sh) - {name}
    ensures Replaced(old(db.recs), db.recs, DirIds(dirID, sh), DirIds(dirID, sh1), 0)
    ensures DirIds(dirID, sh1) <= DirIds(dirID, sh)
    ensures SameInode(old(db.recs)[dirID].dir, db.recs[dirID].dir)
    ensures sh1.home == if InUse(sh, name, hit.id) then sh.home else sh.home - {hit.id}
  {
    hide DirCore, Entries, Replaced, Found, SameInode, InUse;
    ghost var r0: Recs := db.recs;
    DirIdsStored(r0, db.lay, dirID, sh);
    DirIdsApart(r0, db.lay, dirID, sh);
    sh1 := RemoveHit(db, p, hit, name, sh, b, k);
    ghost var r1: Recs := db.recs;
    var dir := p.dir.(count := p.dir.count - 1);
    SlotCount(sh.slot, name);
    CoreCount(r1, db.lay, p.dir, sh1, dir.count);
    assert dirID in DirIds(dirID, sh) && r1[dirID] == r0[dirID];
    PutInode(r1, db.lay, dirID, dir, sh1);
    db.Put(dirID, DirRec(dir));
    InodeReplaced(r0, r1, dirID, sh, sh1, DirRec(dir));
  }

  lemma DirFacts(recs: Recs, lay: Layout, n: Id, sh: DirShape)
    requires DirOk(recs, lay, n, sh)
    ensures n in recs && n != NULL && recs[n].DirRec? && DirCore(recs, lay, recs[n].dir, sh) && recs[n].dir.count == |sh.slot|
    ensures n !in CoreIds(sh)
  {
    DirIdsApart(recs, lay, n, sh);
  }

  lemma DirIdsApart(recs: Recs, lay: Layout, n: Id, sh: DirShape)
    requires DirOk(recs, lay, n, sh)
    ensures forall id :: id in sh.home ==> id != n && id !in sh.rows
    ensures n !in sh.rows && n !in CoreIds(sh)
  {
    forall id | id in sh.home ensures IsSlots(recs, id) {
      assert BlockOk(recs, lay, recs[n].dir, sh, id);
    }
    forall id | id in sh.rows ensures id in recs && recs[id].RowRec? {
      var r :| 0 <= r < |sh.rows| && sh.rows[r] == id;
      assert RowOk(recs, sh, r);
    }
  }

  lemma InodeReplaced(r0: Recs, r1: Recs, n: Id, sh: DirShape, sh1: DirShape, rec: Record)
    requires SameOutside(r0, r1, CoreIds(sh))
    requires sh1.rows == sh.rows && sh1.home.Keys <= sh.home.Keys
    requires r1.Keys == r0.Keys - (sh.home.Keys - sh1.home.Keys)
    requires DirIds(n, sh) <= r0.Keys && (forall id :: id in sh.home ==> id != n && id !in sh.rows)
    ensures Replaced(r0, r1[n := rec], DirIds(n, sh), DirIds(n, sh1), 0)
    ensures DirIds(n, sh1) <= DirIds(n, sh)
  {
  }

  lemma FoundAt(recs: Recs, sh: DirShape, p: BucketPlace, hit: Hit, b: Bucket, k: nat)
    requires b in sh.chains && b.0 < |sh.rows| && HitAt(recs, sh, b, k, hit) && hit.id in sh.home
    requires p.hashId == sh.rows[b.0] && p.column == b.1
    requires p.hashId in recs && recs[p.hashId] == RowRec(p.row) && b.1 < |p.row|
    ensures Found(recs, sh, p, hit, b, k)
  {
  }

  lemma SlotCount(slot: map<Name, Slot>, name: Name)
    requires name in slot
    ensures |slot - {name}| == |slot| - 1
  {
  }

  // ----- add -----

  /** The shape after a new empty block at the end of a chain. */
  ghost function Appended(sh: DirShape, b: Bucket, id: Id): DirShape
    requires b in sh.chains
  {
    WithChain(sh, b, sh.chains[b] + [id], sh.home[id := b])
  }

  /** The first block of a bucket, made and linked to its row if there is none. */
  method EnsureFirst(db: Store, p: BucketPlace, ghost sh: DirShape, ghost b: Bucket) returns (first: Id, ghost sh1: DirShape)
    requires db.AllocOk() && DirCore(db.recs, db.lay, p.dir, sh)
    requires b in sh.chains && b.0 < |sh.rows| && p.hashId == sh.rows[b.0] && p.column == b.1
    requires p.hashId in db.recs && db.recs[p.hashId] == RowRec(p.row) && b.1 < |p.row| && p.row[b.1] == Head(sh.chains[b])
    modifies db
    ensures db.AllocOk() && old(db.Bound()) <= db.Bound()
    ensures DirCore(db.recs, db.lay, p.dir, sh1) && Entries(db.recs, sh1) == Entries(old(db.recs), sh)
    ensures sh1.slot == sh.slot && sh1.rows == sh.rows && b in sh1.chains && sh1.chains[b] != [] && first == sh1.chains[b][0]
    ensures Grown(old(db.recs), db.recs, CoreIds(sh), CoreIds(sh1), old(db.Bound()))
    ensures sh.chains[b] != [] ==> sh1 == sh && db.recs == old(db.recs)
  {
    hide DirCore, Entries, Grown, CoreIds, Below, Relink, EmptySlots;
    ghost var r0: Recs := db.recs;
    sh1, first := sh, p.row[p.column];
    CoreStored(r0, db.lay, p.dir, sh);
    ChainHead(r0, db.lay, p.dir, sh, b);
    if first == NULL {
      FreshId(r0, db.Bound());
      first := db.NewId();
      db.Put(p.hashId, RowRec(p.row[p.column := first]));
      db.Put(first, SlotsRec(EmptySlots(db.lay)));
      BelowBoth(r0, db.recs, old(db.Bound()), db.Bound(), p.hashId, RowRec(p.row[p.column := first]), first, SlotsRec(EmptySlots(db.lay)));
      AppendFirst(r0, db.recs, db.lay, p, sh, b, first);
      sh1 := Appended(sh, b, first);
      AppendedIds(r0, db.recs, sh, sh1, b, first, p.hashId, old(db.Bound()));
    } else {
      NothingGrown(r0, CoreIds(sh), db.Bound());
    }
  }

  lemma ChainHead(recs: Recs, lay: Layout, d: DirInode, sh: DirShape, b: Bucket)
    requires DirCore(recs, lay, d, sh) && b in sh.chains
    ensures Head(sh.chains[b]) == NULL ==> sh.chains[b] == []
    ensures b.0 < |sh.rows| ==> sh.rows[b.0] in CoreIds(sh)
  {
  }

  lemma AppendFirst(r0: Recs, r1: Recs, lay: Layout, p: BucketPlace, sh: DirShape, b: Bucket, id: Id)
    requires DirCore(r0, lay, p.dir, sh) && b in sh.chains && sh.chains[b] == [] && id !in r0 && id != NULL
    requires b.0 < |sh.rows| && p.hashId == sh.rows[b.0] && p.column == b.1
    requires p.hashId in r0 && r0[p.hashId] == RowRec(p.row) && b.1 < |p.row|
    requires r1 == r0[p.hashId := RowRec(p.row[p.column := id])][id := SlotsRec(EmptySlots(lay))]
    ensures DirCore(r1, lay, p.dir, Appended(sh, b, id)) && Entries(r1, Appended(sh, b, id)) == Entries(r0, sh)
  {
    hide DirCore, Entries;
    AppendBlock(r0, r1, lay, p.dir, sh, b, id);
  }

  lemma NothingGrown(r: Recs, ids: set<Id>, bound: Id)
    requires ids <= r.Keys
    ensures Grown(r, r, ids, ids, bound)
  {
  }

  lemma AppendedIds(r0: Recs, r1: Recs, sh: DirShape, sh1: DirShape, b: Bucket, id: Id, changed: Id, bound: Id)
    requires id !in r0 && id >= bound && id in r1 && CoreIds(sh) <= r0.Keys && changed in CoreIds(sh)
    requires SameOutside(r0, r1, {changed, id}) && changed in r1
    requires sh1.rows == sh.rows && sh1.home == sh.home[id := b]
    ensures Grown(r0, r1, CoreIds(sh), CoreIds(sh1), bound)
  {
  }

  datatype Space = Space(id: Id, block: DirBlock, index: nat)

  /** The slot loop of md2ExtAddToDirectory: the first empty slot below the high-water mark, or the mark. */
  method EmptySlot(block: DirBlock) returns (i: nat)
    requires block.highWater <= |block.items|
    ensures i <= block.highWater && (i < block.highWater ==> block.items[i].id == NULL)
    ensures forall k :: 0 <= k < i ==> block.items[k].id != NULL
  {
    i := 0;
    while i < block.highWater && block.items[i].id != NULL
      invariant i <= block.highWater
      invariant forall k :: 0 <= k < i ==> block.items[k].id != NULL
    {
      i := i + 1;
    }
  }

  /** Every slot of the blocks is taken. */
  ghost predicate Full(recs: Recs, chain: seq<Id>) {
    forall k :: 0 <= k < |chain| ==>
      IsSlots(recs, chain[k]) && forall m :: 0 <= m < |recs[chain[k]].slots.items| ==> SlotLive(recs[chain[k]].slots, m)
  }

  /** The chain loop of md2ExtAddToDirectory: the first block with room, or the last block. */
  method FindSpace(db: Store, first: Id, ghost d: DirInode, ghost sh: DirShape, ghost b: Bucket)
    returns (s: Space, room: bool)
    requires DirCore(db.recs, db.lay, d, sh) && b in sh.chains && sh.chains[b] != [] && first == sh.chains[b][0]
    ensures s.id in sh.home && sh.home[s.id] == b && IsSlots(db.recs, s.id) && db.recs[s.id] == SlotsRec(s.block)
    ensures |s.block.items| == db.lay.slots
    ensures if room then s.index < db.lay.slots && s.index <= s.block.highWater && !SlotLive(s.block, s.index)
            else s.id == sh.chains[b][|sh.chains[b]| - 1]
    ensures if room then exists k :: 0 <= k < |sh.chains[b]| && sh.chains[b][k] == s.id && Full(db.recs, sh.chains[b][..k])
            else Full(db.recs, sh.chains[b])
    ensures forall m :: 0 <= m < s.index && m < |s.block.items| ==> SlotLive(s.block, m)
  {
    hide DirCore, Full;
    var xid := first;
    ghost var k: nat := 0;
    ghost var chain := sh.chains[b];
    NoneFull(db.recs);
    assert chain[..0] == [];
    while true
      invariant k < |chain| && xid == chain[k] && Full(db.recs, chain[..k])
      decreases |chain| - k
    {
      LinkBounds(db.recs, db.lay, d, sh, b, k);
      var r := db.Get(xid);
      var block := r.value.slots;
      var i := EmptySlot(block);
      if i < |block.items| {
        return Space(xid, block, i), true;
      }
      FullMore(db.recs, chain, k);
      if block.next == NULL {
        assert chain[..|chain|] == chain;
        return Space(xid, block, i), false;
      }
      xid := block.next;
      k := k + 1;
    }
  }

  lemma FullMore(recs: Recs, chain: seq<Id>, k: nat)
    requires k < |chain| && Full(recs, chain[..k]) && IsSlots(recs, chain[k])
    requires forall m :: 0 <= m < |recs[chain[k]].slots.items| ==> SlotLive(recs[chain[k]].slots, m)
    ensures Full(recs, chain[..k + 1])
  {
  }

  lemma LinkBounds(recs: Recs, lay: Layout, d: DirInode, sh: DirShape, b: Bucket, k: nat)
    requires DirCore(recs, lay, d, sh) && b in sh.chains && k < |sh.chains[b]|
    ensures var id := sh.chains[b][k];
            && id in sh.home && sh.home[id] == b && IsSlots(recs, id)
            && |recs[id].slots.items| == lay.slots && recs[id].slots.highWater <= lay.slots
            && (forall i :: recs[id].slots.highWater <= i < lay.slots ==> recs[id].slots.items[i].id == NULL)
            && (recs[id].slots.next == NULL <==> k + 1 == |sh.chains[b]|)
            && (k + 1 < |sh.chains[b]| ==> recs[id].slots.next == sh.chains[b][k + 1])
  {
    assert ChainLinked(recs, sh, b);
    BlockBounds(recs, lay, d, sh, sh.chains[b][k]);
    assert k + 1 < |sh.chains[b]| ==> IsSlots(recs, sh.chains[b][k + 1]) && sh.chains[b][k + 1] in sh.home;
    hide SlotsOk, RowsOk;
  }

  lemma BlockBounds(recs: Recs, lay: Layout, d: DirInode, sh: DirShape, id: Id)
    requires DirCore(recs, lay, d, sh) && id in sh.home
    ensures IsSlots(recs, id) && |recs[id].slots.items| == lay.slots && recs[id].slots.highWater <= lay.slots
    ensures forall i :: recs[id].slots.highWater <= i < lay.slots ==> recs[id].slots.items[i].id == NULL
  {
  }

  /** Storing the item: in the slot found, or in a new block at the end of the chain. */
  method StoreItem(db: Store, s: Space, room: bool, item: Item, ghost d: DirInode, ghost sh: DirShape, ghost b: Bucket)
    returns (ghost sh1: DirShape)
    requires db.AllocOk() && DirCore(db.recs, db.lay, d, sh) && b in sh.chains && sh.chains[b] != []
    requires s.id in sh.home && sh.home[s.id] == b && IsSlots(db.recs, s.id) && db.recs[s.id] == SlotsRec(s.block)
    requires |s.block.items| == db.lay.slots
    requires if room then s.index < db.lay.slots && s.index <= s.block.highWater && !SlotLive(s.block, s.index)
             else s.id == sh.chains[b][|sh.chains[b]| - 1]
    requires item.id != NULL && item.name != "" && item.name !in sh.slot && BucketOf(d.hashSize, d.perRow, item.name) == b
    modifies db
    ensures db.AllocOk() && old(db.Bound()) <= db.Bound()
    ensures DirCore(db.recs, db.lay, d, sh1) && Entries(db.recs, sh1) == Entries(old(db.recs), sh)[item.name := item]
    ensures Grown(old(db.recs), db.recs, CoreIds(sh), CoreIds(sh1), old(db.Bound()))
    ensures room ==> sh1.home == sh.home
  {
    hide DirCore, Entries, BucketOf, Grown;
    if room {
      ghost var r0: Recs := db.recs;
      db.Put(s.id, SlotsRec(DirBlock(s.block.next, Max(s.block.highWater, s.index + 1), s.block.items[s.index := item])));
      PutItem(r0, db.recs, db.lay, d, sh, s.id, s.index, item);
      sh1 := sh.(slot := sh.slot[item.name := (s.id, s.index)]);
      CoreStored(r0, db.lay, d, sh);
      ChangedGrown(r0, db.recs, CoreIds(sh), s.id, db.Bound());
    } else {
      sh1 := ExtendChain(db, s, item, d, sh, b);
    }
  }

  /** The last branch of md2ExtAddToDirectory: every block is full. */
  method ExtendChain(db: Store, s: Space, item: Item, ghost d: DirInode, ghost sh: DirShape, ghost b: Bucket)
    returns (ghost sh1: DirShape)
    requires db.AllocOk() && DirCore(db.recs, db.lay, d, sh) && b in sh.chains && sh.chains[b] != []
    requires s.id in sh.home && s.id == sh.chains[b][|sh.chains[b]| - 1]
    requires IsSlots(db.recs, s.id) && db.recs[s.id] == SlotsRec(s.block)
    requires item.id != NULL && item.name != "" && item.name !in sh.slot && BucketOf(d.hashSize, d.perRow, item.name) == b
    modifies db
    ensures db.AllocOk() && old(db.Bound()) <= db.Bound()
    ensures DirCore(db.recs, db.lay, d, sh1) && Entries(db.recs, sh1) == Entries(old(db.recs), sh)[item.name := item]
    ensures Grown(old(db.recs), db.recs, CoreIds(sh), CoreIds(sh1), old(db.Bound()))
  {
    hide DirCore, Entries, BucketOf, Grown, EmptySlots, CoreIds, FirstItem, Below;
    ghost var r0: Recs := db.recs;
    CoreStored(r0, db.lay, d, sh);
    FreshId(r0, db.Bound());
    var id := db.NewId();
    var block := FirstItem(db.lay, item);
    db.Put(s.id, SlotsRec(s.block.(next := id)));
    db.Put(id, SlotsRec(block));
    BelowPut(r0, old(db.Bound()), db.Bound(), s.id, SlotsRec(s.block.(next := id)));
    BelowPut(r0[s.id := SlotsRec(s.block.(next := id))], db.Bound(), db.Bound(), id, SlotsRec(block));
    AppendedItem(r0, db.recs, db.lay, d, sh, b, s, id, item);
    sh1 := Appended(sh, b, id).(slot := sh.slot[item.name := (id, 0)]);
    AppendedIds(r0, db.recs, sh, sh1, b, id, s.id, old(db.Bound()));
  }

  /** A new block with one item. */
  function FirstItem(lay: Layout, item: Item): DirBlock {
    EmptySlots(lay).(highWater := 1, items := EmptySlots(lay).items[0 := item])
  }

  lemma AppendedItem(r0: Recs, r1: Recs, lay: Layout, d: DirInode, sh: DirShape, b: Bucket, s: Space, id: Id, item: Item)
    requires DirCore(r0, lay, d, sh) && b in sh.chains && sh.chains[b] != [] && s.id == sh.chains[b][|sh.chains[b]| - 1]
    requires IsSlots(r0, s.id) && r0[s.id] == SlotsRec(s.block) && id !in r0 && id != NULL
    requires item.id != NULL && item.name != "" && item.name !in sh.slot && BucketOf(d.hashSize, d.perRow, item.name) == b
    requires r1 == r0[s.id := SlotsRec(s.block.(next := id))][id := SlotsRec(FirstItem(lay, item))]
    ensures var sh1 := Appended(sh, b, id).(slot := sh.slot[item.name := (id, 0)]);
            DirCore(r1, lay, d, sh1) && Entries(r1, sh1) == Entries(r0, sh)[item.name := item]
  {
    hide DirCore, Entries, BucketOf;
    var v: Recs := r0[s.id := SlotsRec(s.block.(next := id))][id := SlotsRec(EmptySlots(lay))];
    assert v == Relink(r0, sh, b, |sh.chains[b]|, id)[id := SlotsRec(EmptySlots(lay))];
    AppendBlock(r0, v, lay, d, sh, b, id);
    assert r1 == v[id := SlotsRec(FirstItem(lay, item))];
    PutItem(v, r1, lay, d, Appended(sh, b, id), id, 0, item);
  }

  lemma ChangedGrown(r0: Recs, r1: Recs, ids: set<Id>, changed: Id, bound: Id)
    requires ids <= r0.Keys && changed in ids && SameOutside(r0, r1, {changed}) && changed in r1
    ensures Grown(r0, r1, ids, ids, bound)
  {
  }

  /** md2ExtAddToDirectory of an absent name is insertion into the map. */
  method AddToDirectory(db: Store, dirID: Id, item: Item, ghost sh: DirShape)
    returns (r: Result<()>, ghost sh1: DirShape)
    requires db.AllocOk() && Known(db.recs, db.lay, dirID, sh) && item.id != NULL
    requires Guard(db.recs, dirID, item.name).None? ==> item.name !in Entries(db.recs, sh)
    modifies db
    ensures db.AllocOk() && old(db.Bound()) <= db.Bound()
    ensures r == match Guard(old(db.recs), dirID, item.name) case Some(e) => Err(e) case None => Ok(())
    ensures r.Err? ==> db.recs == old(db.recs) && sh1 == sh
    ensures r.Ok? ==>
      && DirOk(db.recs, db.lay, dirID, sh1)
      && Entries(db.recs, sh1) == Entries(old(db.recs), sh)[item.name := item]
      && Grown(old(db.recs), db.recs, DirIds(dirID, sh), DirIds(dirID, sh1), old(db.Bound()))
      && SameInode(old(db.recs)[dirID].dir, db.recs[dirID].dir)
      && var d := old(db.recs)[dirID].dir;
         var b := BucketOf(d.hashSize, d.perRow, item.name);
         b in sh.chains && (!Full(old(db.recs), sh.chains[b]) ==> sh1.home == sh.home)
  {
    sh1 := sh;
    var p := GetDirectoryInfos(db, dirID, item.name, sh);
    if p.Err? { return Err(p.error), sh; }
    ghost var b := BucketOf(p.value.dir.hashSize, p.value.dir.perRow, item.name);
    EntryAt(db.recs, sh, item.name);
    hide DirCore, Entries, BucketOf, Grown, SameInode, Full;
    sh1 := AddItem(db, dirID, p.value, item, sh, b);
    r := Ok(());
  }

  method AddItem(db: Store, dirID: Id, p: BucketPlace, item: Item, ghost sh: DirShape, ghost b: Bucket)
    returns (ghost sh1: DirShape)
    requires db.AllocOk() && DirOk(db.recs, db.lay, dirID, sh) && p.dir == db.recs[dirID].dir
    requires b in sh.chains && b.0 < |sh.rows| && p.hashId == sh.rows[b.0] && p.column == b.1
    requires p.hashId in db.recs && db.recs[p.hashId] == RowRec(p.row) && b.1 < |p.row| && p.row[b.1] == Head(sh.chains[b])
    requires item.id != NULL && item.name != "" && item.name !in sh.slot
    requires BucketOf(p.dir.hashSize, p.dir.perRow, item.name) == b
    modifies db
    ensures db.AllocOk() && old(db.Bound()) <= db.Bound()
    ensures DirOk(db.recs, db.lay, dirID, sh1)
    ensures Entries(db.recs, sh1) == Entries(old(db.recs), sh)[item.name := item]
    ensures Grown(old(db.recs), db.recs, DirIds(dirID, sh), DirIds(dirID, sh1), old(db.Bound()))
    ensures SameInode(old(db.recs)[dirID].dir, db.recs[dirID].dir)
    ensures !Full(old(db.recs), sh.chains[b]) ==> sh1.home == sh.home
  {
    hide DirOk, DirCore, Entries, BucketOf, Grown, CoreIds, DirIds, Below, SameInode, Full;
    ghost var r0: Recs := db.recs;
    DirFacts(r0, db.lay, dirID, sh);
    sh1 := AddCore(db, p, item, sh, b);
    ghost var r1: Recs := db.recs;
    NewCount(r0, r1, sh, sh1, p.dir.count, item);
    var dir := p.dir.(count := p.dir.count + 1);
    CoreCount(r1, db.lay, p.dir, sh1, dir.count);
    BelowAt(r0, old(db.Bound()), dirID);
    InodeKept(r0, r1, dirID, sh, sh1, old(db.Bound()));
    PutInode(r1, db.lay, dirID, dir, sh1);
    db.Put(dirID, DirRec(dir));
    BelowPut(r1, db.Bound(), db.Bound(), dirID, DirRec(dir));
    DirGrown(r0, r1, dirID, sh, sh1, DirRec(dir), old(db.Bound()));
  }

  method AddCore(db: Store, p: BucketPlace, item: Item, ghost sh: DirShape, ghost b: Bucket)
    returns (ghost sh1: DirShape)
    requires db.AllocOk() && DirCore(db.recs, db.lay, p.dir, sh)
    requires b in sh.chains && b.0 < |sh.rows| && p.hashId == sh.rows[b.0] && p.column == b.1
    requires p.hashId in db.recs && db.recs[p.hashId] == RowRec(p.row) && b.1 < |p.row| && p.row[b.1] == Head(sh.chains[b])
    requires item.id != NULL && item.name != "" && item.name !in sh.slot
    requires BucketOf(p.dir.hashSize, p.dir.perRow, item.name) == b
    modifies db
    ensures db.AllocOk() && old(db.Bound()) <= db.Bound()
    ensures DirCore(db.recs, db.lay, p.dir, sh1)
    ensures Entries(db.recs, sh1) == Entries(old(db.recs), sh)[item.name := item]
    ensures Grown(old(db.recs), db.recs, CoreIds(sh), CoreIds(sh1), old(db.Bound()))
    ensures !Full(old(db.recs), sh.chains[b]) ==> sh1.home == sh.home
  {
    ghost var r0: Recs := db.recs;
    NoneFull(r0);
    hide DirCore, Entries, BucketOf, Grown, CoreIds, Full;
    var first, shf := EnsureFirst(db, p, sh, b);
    ghost var r1: Recs, bound1 := db.recs, db.Bound();
    var s, room := FindSpace(db, first, p.dir, shf, b);
    sh1 := StoreItem(db, s, room, item, p.dir, shf, b);
    GrownTwice(r0, r1, db.recs, CoreIds(sh), CoreIds(shf), CoreIds(sh1), old(db.Bound()), bound1);
  }

  lemma NoneFull(recs: Recs)
    ensures Full(recs, [])
  {
  }

  lemma GrownTwice(r0: Recs, r1: Recs, r2: Recs, ids0: set<Id>, ids1: set<Id>, ids2: set<Id>, bound: Id, bound1: Id)
    requires Grown(r0, r1, ids0, ids1, bound) && Grown(r1, r2, ids1, ids2, bound1) && bound <= bound1 && Below(r0, bound)
    ensures Grown(r0, r2, ids0, ids2, bound)
  {
  }

  lemma NewCount(r0: Recs, r1: Recs, sh: DirShape, sh1: DirShape, count: int, item: Item)
    requires Entries(r1, sh1) == Entries(r0, sh)[item.name := item]
    requires item.name !in sh.slot && count == |sh.slot|
    ensures count + 1 == |sh1.slot|
  {
    hide ItemAt;
    assert sh1.slot.Keys == Entries(r1, sh1).Keys;
    assert Entries(r0, sh).Keys == sh.slot.Keys;
    assert |Entries(r0, sh)[item.name := item].Keys| == |Entries(r0, sh).Keys| + 1;
  }

  /** The inode is none of the records a change to rows and blocks touches. */
  lemma InodeKept(r0: Recs, r1: Recs, n: Id, sh: DirShape, sh1: DirShape, bound: Id)
    requires Grown(r0, r1, CoreIds(sh), CoreIds(sh1), bound) && n in r0 && n < bound && n !in CoreIds(sh)
    ensures n !in CoreIds(sh1) && n in r1 && r1[n] == r0[n]
  {
  }

  lemma DirGrown(r0: Recs, r1: Recs, n: Id, sh: DirShape, sh1: DirShape, rec: Record, bound: Id)
    requires Grown(r0, r1, CoreIds(sh), CoreIds(sh1), bound) && n in r0
    ensures Grown(r0, r1[n := rec], DirIds(n, sh), DirIds(n, sh1), bound)
  {
  }
}
