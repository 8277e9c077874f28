/** What the records of one directory mean.  A directory inode names hash rows, a row points to
    bucket chains, a chain links blocks of item slots.  All of it stands for a map from names
    to items; the ghost shape says where each name is kept. */
module DirShapes {
  import opened Records
  import opened FileShapes

  type Bucket = (nat, nat)          // row, column
  type Slot = (Id, nat)             // block, index

  datatype DirShape = DirShape(
    rows: seq<Id>,
    widths: seq<nat>,
    chains: map<Bucket, seq<Id>>,
    home: map<Id, Bucket>,          // bucket of each block
    slot: map<Name, Slot>)          // slot of each name

  // ----- the name hash -----

  const PRIM: seq<nat> := [2, 3, 5, 7, 11, 13, 17, 19, 23, 29, 31]

  /** The weighted character sum of md2HushFunc0. */
  function NameSum(name: string): nat {
    if name == "" then 0
    else
      var l := |name| - 1;
      NameSum(name[..l]) + name[l] as nat * PRIM[l % |PRIM|]
  }

  /** Character `n` counts as often as the prime number in place `n` modulo 11 says. */
  lemma NameSumStep(name: string, c: char)
    ensures NameSum("") == 0
    ensures NameSum(name + [c]) == NameSum(name) + c as nat * [2, 3, 5, 7, 11, 13, 17, 19, 23, 29, 31][|name| % 11]
  {
    assert (name + [c])[..|name|] == name;
  }

  /** The row and column of a hash value. */
  function Spot(perRow: nat, h: nat): Bucket {
    if perRow == 0 then (0, 0) else (h / perRow, h % perRow)
  }

  function BucketOf(hashSize: nat, perRow: nat, name: string): Bucket {
    if hashSize == 0 then (0, 0) else Spot(perRow, NameSum(name) % hashSize)
  }

  // ----- invariants -----

  ghost predicate InTable(widths: seq<nat>, b: Bucket) {
    b.0 < |widths| && b.1 < widths[b.0]
  }

  ghost predicate IsBucket(sh: DirShape, b: Bucket) {
    InTable(sh.widths, b)
  }

  /** Every value of the name hash has a row and a column. */
  ghost predicate Covered(hashSize: nat, perRow: nat, widths: seq<nat>) {
    forall h: nat :: h < hashSize ==> InTable(widths, Spot(perRow, h))
  }

  /** The columns of row `r`. */
  function Width(size: nat, perRow: nat, r: nat): nat
    requires perRow > 0
  {
    if r * perRow >= size then 0 else Min(perRow, size - r * perRow)
  }

  function RowCount(size: nat, perRow: nat): nat
    requires perRow > 0
  {
    size / perRow + if size % perRow != 0 then 1 else 0
  }

  ghost function Widths(size: nat, perRow: nat): (w: seq<nat>)
    requires perRow > 0
    ensures |w| == RowCount(size, perRow)
  {
    seq(RowCount(size, perRow), (r: nat) => Width(size, perRow, r))
  }

  ghost function Head(chain: seq<Id>): Id {
    if chain == [] then NULL else chain[0]
  }

  ghost predicate Table(d: DirInode, rows: seq<Id>, widths: seq<nat>) {
    && d.hashSize > 0 && d.perRow > 0 && Covered(d.hashSize, d.perRow, widths) && widths == Widths(d.hashSize, d.perRow)
    && d.handles == rows && |widths| == |rows| && Distinct(rows)
    && forall r :: 0 <= r < |widths| ==> 0 < widths[r] <= d.perRow
  }

  /** The hash rows cover every value of the name hash, and point to the chains. */
  ghost predicate RowsOk(recs: Recs, d: DirInode, sh: DirShape) {
    Table(d, sh.rows, sh.widths) && forall r :: 0 <= r < |sh.rows| ==> RowOk(recs, sh, r)
  }

  ghost predicate RowOk(recs: Recs, sh: DirShape, r: nat) {
    && r < |sh.rows| && r < |sh.widths|
    && sh.rows[r] in recs && sh.rows[r] != NULL && recs[sh.rows[r]].RowRec?
    && |recs[sh.rows[r]].row| == sh.widths[r]
    && forall c :: 0 <= c < sh.widths[r] ==>
         (r, c) in sh.chains && recs[sh.rows[r]].row[c] == Head(sh.chains[(r, c)])
  }

  ghost predicate IsSlots(recs: Recs, id: Id) {
    id in recs && id != NULL && recs[id].SlotsRec?
  }

  ghost predicate ChainLinked(recs: Recs, sh: DirShape, b: Bucket)
    requires b in sh.chains
  {
    var chain := sh.chains[b];
    && Distinct(chain)
    && forall k :: 0 <= k < |chain| ==>
         chain[k] in sh.home && sh.home[chain[k]] == b && IsSlots(recs, chain[k])
         && recs[chain[k]].slots.next == NextIn(chain, k)
  }

  ghost predicate ChainsOk(recs: Recs, sh: DirShape) {
    && (forall b :: b in sh.chains ==> IsBucket(sh, b) && ChainLinked(recs, sh, b))
    && (forall id :: id in sh.home ==> sh.home[id] in sh.chains && id in sh.chains[sh.home[id]])
  }

  ghost predicate SlotLive(block: DirBlock, m: nat) {
    m < |block.items| && block.items[m].id != NULL
  }

  /** The live slots of a block are the slots of the names they hold; the high-water mark bounds them. */
  ghost predicate BlockOk(recs: Recs, lay: Layout, d: DirInode, sh: DirShape, id: Id)
    requires id in sh.home
  {
    IsSlots(recs, id) &&
    var block := recs[id].slots;
    && |block.items| == lay.slots && block.highWater <= lay.slots
    && forall m :: 0 <= m < lay.slots && SlotLive(block, m) ==>
         && m < block.highWater
         && block.items[m].name != ""
         && block.items[m].name in sh.slot && sh.slot[block.items[m].name] == (id, m)
         && BucketOf(d.hashSize, d.perRow, block.items[m].name) == sh.home[id]
  }

  ghost predicate SlotOk(recs: Recs, sh: DirShape, name: Name)
    requires name in sh.slot
  {
    var (id, m) := sh.slot[name];
    id in sh.home && IsSlots(recs, id) && SlotLive(recs[id].slots, m) && recs[id].slots.items[m].name == name
  }

  ghost predicate SlotsOk(recs: Recs, lay: Layout, d: DirInode, sh: DirShape) {
    && (forall id :: id in sh.home ==> BlockOk(recs, lay, d, sh, id))
    && (forall name :: name in sh.slot ==> SlotOk(recs, sh, name))
  }

  /** Everything but the entry count. */
  ghost predicate DirCore(recs: Recs, lay: Layout, d: DirInode, sh: DirShape) {
    RowsOk(recs, d, sh) && ChainsOk(recs, sh) && SlotsOk(recs, lay, d, sh)
  }

  ghost predicate DirOk(recs: Recs, lay: Layout, n: Id, sh: DirShape) {
    && n in recs && n != NULL && recs[n].DirRec?
    && DirCore(recs, lay, recs[n].dir, sh)
    && recs[n].dir.count == |sh.slot|
  }

  ghost function CoreIds(sh: DirShape): set<Id> {
    (set r | r in sh.rows) + sh.home.Keys
  }

  ghost function DirIds(n: Id, sh: DirShape): set<Id> {
    {n} + (set r | r in sh.rows) + sh.home.Keys
  }

  ghost function ItemAt(recs: Recs, s: Slot): Item {
    if IsSlots(recs, s.0) && s.1 < |recs[s.0].slots.items| then recs[s.0].slots.items[s.1] else EMPTY_ITEM
  }

  /** The abstract value of a directory. */
  ghost function Entries(recs: Recs, sh: DirShape): map<Name, Item> {
    map name | name in sh.slot :: ItemAt(recs, sh.slot[name])
  }

  // ----- consequences -----

  /** A name is only ever kept in the chain its hash selects. */
  lemma NameInChain(recs: Recs, lay: Layout, d: DirInode, sh: DirShape, name: Name)
    requires DirCore(recs, lay, d, sh) && name in sh.slot
    ensures var b := BucketOf(d.hashSize, d.perRow, name);
            b in sh.chains && sh.slot[name].0 in sh.chains[b]
  {
    assert SlotOk(recs, sh, name);
    var (id, m) := sh.slot[name];
    assert BlockOk(recs, lay, d, sh, id) && SlotLive(recs[id].slots, m);
  }

  /** The row and column computed from a name are always in range. */
  lemma BucketInRange(recs: Recs, d: DirInode, sh: DirShape, name: string)
    requires RowsOk(recs, d, sh)
    ensures var b := BucketOf(d.hashSize, d.perRow, name);
            && IsBucket(sh, b) && b in sh.chains && RowOk(recs, sh, b.0)
            && b.0 < |d.handles| && b.1 < |recs[d.handles[b.0]].row|
  {
    var h := NameSum(name) % d.hashSize;
    assert InTable(sh.widths, Spot(d.perRow, h));
    assert RowOk(recs, sh, Spot(d.perRow, h).0);
  }

  lemma DirIdsStored(recs: Recs, lay: Layout, n: Id, sh: DirShape)
    requires DirOk(recs, lay, n, sh)
    ensures forall id :: id in DirIds(n, sh) ==>
              id in recs && id != NULL && (recs[id].DirRec? || recs[id].RowRec? || recs[id].SlotsRec?)
  {
    hide DirCore;
    CoreStored(recs, lay, recs[n].dir, sh);
  }

  lemma CoreStored(recs: Recs, lay: Layout, d: DirInode, sh: DirShape)
    requires DirCore(recs, lay, d, sh)
    ensures forall id :: id in CoreIds(sh) ==> id in recs && id != NULL && (recs[id].RowRec? || recs[id].SlotsRec?)
    ensures CoreIds(sh) <= recs.Keys && sh.home.Keys <= CoreIds(sh)
  {
    hide ChainsOk, SlotOk, Covered;
    forall id | id in sh.rows ensures id in recs && id != NULL && recs[id].RowRec? {
      var r :| 0 <= r < |sh.rows| && sh.rows[r] == id;
      assert RowOk(recs, sh, r);
    }
    forall id | id in sh.home ensures IsSlots(recs, id) {
      assert BlockOk(recs, lay, d, sh, id);
    }
  }

  /** A directory depends only on its own records. */
  lemma DirFrame(r0: Recs, r1: Recs, lay: Layout, n: Id, sh: DirShape)
    requires DirOk(r0, lay, n, sh)
    requires SameInside(r0, r1, DirIds(n, sh))
    ensures DirOk(r1, lay, n, sh)
    ensures Entries(r1, sh) == Entries(r0, sh)
  {
    CoreFrame(r0, r1, lay, r0[n].dir, sh);
  }

  lemma CoreFrame(r0: Recs, r1: Recs, lay: Layout, d: DirInode, sh: DirShape)
    requires DirCore(r0, lay, d, sh)
    requires SameInside(r0, r1, CoreIds(sh))
    ensures DirCore(r1, lay, d, sh)
    ensures Entries(r1, sh) == Entries(r0, sh)
  {
    RowsFrame(r0, r1, d, sh);
    ChainsFrame(r0, r1, sh);
    SlotsFrame(r0, r1, lay, d, sh);
  }

  lemma RowsFrame(r0: Recs, r1: Recs, d: DirInode, sh: DirShape)
    requires RowsOk(r0, d, sh)
    requires forall id :: id in sh.rows ==> id in r0 && id in r1 && r0[id] == r1[id]
    ensures RowsOk(r1, d, sh)
  {
    forall r | 0 <= r < |sh.rows| ensures RowOk(r1, sh, r) {
      assert RowOk(r0, sh, r) && sh.rows[r] in sh.rows;
    }
  }

  /** Chains depend on the link fields only. */
  lemma ChainsFrame(r0: Recs, r1: Recs, sh: DirShape)
    requires ChainsOk(r0, sh)
    requires forall id :: id in sh.home && IsSlots(r0, id) ==> IsSlots(r1, id) && r0[id].slots.next == r1[id].slots.next
    ensures ChainsOk(r1, sh)
  {
  }

  /** The blocks keep their slots; only links may differ. */
  ghost predicate LinksOnly(r0: Recs, r1: Recs, sh: DirShape) {
    forall id :: id in sh.home && IsSlots(r0, id) ==>
      IsSlots(r1, id) && r0[id].slots.items == r1[id].slots.items && r0[id].slots.highWater == r1[id].slots.highWater
  }

  lemma SlotsFrame(r0: Recs, r1: Recs, lay: Layout, d: DirInode, sh: DirShape)
    requires SlotsOk(r0, lay, d, sh) && LinksOnly(r0, r1, sh)
    ensures SlotsOk(r1, lay, d, sh)
    ensures Entries(r1, sh) == Entries(r0, sh)
  {
    forall id | id in sh.home ensures BlockOk(r1, lay, d, sh, id) {
      assert BlockOk(r0, lay, d, sh, id);
    }
    forall name | name in sh.slot ensures SlotOk(r1, sh, name) && ItemAt(r1, sh.slot[name]) == ItemAt(r0, sh.slot[name]) {
      assert SlotOk(r0, sh, name);
    }
  }

  // ----- the steps of an update -----

  /** Storing an item of a new name in a free slot of its bucket. */
  lemma PutItem(r0: Recs, r1: Recs, lay: Layout, d: DirInode, sh: DirShape, id: Id, m: nat, item: Item)
    requires DirCore(r0, lay, d, sh) && id in sh.home && IsSlots(r0, id) && |r0[id].slots.items| == lay.slots
    requires m < lay.slots && !SlotLive(r0[id].slots, m) && m <= r0[id].slots.highWater
    requires item.id != NULL && item.name != "" && item.name !in sh.slot
    requires BucketOf(d.hashSize, d.perRow, item.name) == sh.home[id]
    requires r1 == r0[id := SlotsRec(DirBlock(r0[id].slots.next, Max(r0[id].slots.highWater, m + 1), r0[id].slots.items[m := item]))]
    ensures DirCore(r1, lay, d, sh.(slot := sh.slot[item.name := (id, m)]))
    ensures Entries(r1, sh.(slot := sh.slot[item.name := (id, m)])) == Entries(r0, sh)[item.name := item]
  {
    hide RowsOk, ChainsOk, BlockOk, BucketOf, SlotOk, ItemAt;
    var sh1 := sh.(slot := sh.slot[item.name := (id, m)]);
    RowsUntouched(r0, r1, d, sh, sh1, id);
    ChainsFrame(r0, r1, sh);
    ChainsShape(r1, sh, sh1);
    forall x | x in sh1.home ensures BlockOk(r1, lay, d, sh1, x) {
      PutBlock(r0, r1, lay, d, sh, id, m, item, x);
    }
    forall name | name in sh1.slot
      ensures SlotOk(r1, sh1, name)
      ensures ItemAt(r1, sh1.slot[name]) == if name == item.name then item else ItemAt(r0, sh.slot[name])
    {
      if name in sh.slot { assert SlotOk(r0, sh, name); }
      PutName(r0, r1, lay, sh, id, m, item, name);
    }
  }

  lemma PutName(r0: Recs, r1: Recs, lay: Layout, sh: DirShape, id: Id, m: nat, item: Item, name: Name)
    requires name in sh.slot[item.name := (id, m)] && item.name !in sh.slot && item.id != NULL
    requires name in sh.slot ==> SlotOk(r0, sh, name)
    requires id in sh.home && IsSlots(r0, id) && m < |r0[id].slots.items| && !SlotLive(r0[id].slots, m)
    requires id in r1 && r1[id].SlotsRec? && r1[id].slots.items == r0[id].slots.items[m := item] && SameOutside(r0, r1, {id})
    ensures SlotOk(r1, sh.(slot := sh.slot[item.name := (id, m)]), name)
    ensures ItemAt(r1, sh.slot[item.name := (id, m)][name]) == if name == item.name then item else ItemAt(r0, sh.slot[name])
  {
    if name != item.name {
      var (x, k) := sh.slot[name];
      assert x == id ==> k != m;
    }
  }

  lemma PutBlock(r0: Recs, r1: Recs, lay: Layout, d: DirInode, sh: DirShape, id: Id, m: nat, item: Item, x: Id)
    requires x in sh.home && BlockOk(r0, lay, d, sh, x)
    requires id in sh.home && IsSlots(r0, id) && |r0[id].slots.items| == lay.slots && m < lay.slots && m <= r0[id].slots.highWater
    requires item.name != "" && item.name !in sh.slot && BucketOf(d.hashSize, d.perRow, item.name) == sh.home[id]
    requires r1 == r0[id := SlotsRec(DirBlock(r0[id].slots.next, Max(r0[id].slots.highWater, m + 1), r0[id].slots.items[m := item]))]
    ensures BlockOk(r1, lay, d, sh.(slot := sh.slot[item.name := (id, m)]), x)
  {
  }

  lemma RowsUntouched(r0: Recs, r1: Recs, d: DirInode, sh: DirShape, sh1: DirShape, id: Id)
    requires RowsOk(r0, d, sh) && IsSlots(r0, id) && SameOutside(r0, r1, {id})
    requires sh1.rows == sh.rows && sh1.widths == sh.widths && sh1.chains == sh.chains
    ensures RowsOk(r1, d, sh1)
  {
    forall r | 0 <= r < |sh.rows| ensures RowOk(r1, sh1, r) {
      assert RowOk(r0, sh, r);
    }
  }

  lemma ChainsShape(recs: Recs, sh: DirShape, sh1: DirShape)
    requires ChainsOk(recs, sh)
    requires sh1.rows == sh.rows && sh1.widths == sh.widths && sh1.chains == sh.chains && sh1.home == sh.home
    ensures ChainsOk(recs, sh1)
  {
  }

  lemma DropBlock(r0: Recs, r1: Recs, lay: Layout, d: DirInode, sh: DirShape, name: Name, block: DirBlock, x: Id)
    requires x in sh.home && BlockOk(r0, lay, d, sh, x)
    requires name in sh.slot && SlotOk(r0, sh, name)
    requires var (id, m) := sh.slot[name];
             && block.items == r0[id].slots.items[m := r0[id].slots.items[m].(id := NULL)]
             && block.highWater <= lay.slots
             && (forall k :: 0 <= k < |block.items| && SlotLive(block, k) ==> k < block.highWater)
             && r1 == r0[id := SlotsRec(block)]
    ensures BlockOk(r1, lay, d, sh.(slot := sh.slot - {name}), x)
  {
    hide BucketOf;
    var was, now := r0[x].slots, r1[x].slots;
    assert r1[x] == if x == sh.slot[name].0 then SlotsRec(block) else r0[x];
    forall k | 0 <= k < lay.slots && SlotLive(now, k)
      ensures SlotLive(was, k) && was.items[k] == now.items[k] && k < now.highWater && (x, k) != sh.slot[name]
    {
    }
  }

  /** Clearing the slot of a name; the new high-water mark still bounds the live slots. */
  lemma DropItem(r0: Recs, r1: Recs, lay: Layout, d: DirInode, sh: DirShape, name: Name, block: DirBlock)
    requires DirCore(r0, lay, d, sh) && name in sh.slot && SlotOk(r0, sh, name)
    requires var (id, m) := sh.slot[name];
             && block.items == r0[id].slots.items[m := r0[id].slots.items[m].(id := NULL)]
             && block.next == r0[id].slots.next && block.highWater <= lay.slots
             && (forall k :: 0 <= k < |block.items| && SlotLive(block, k) ==> k < block.highWater)
             && r1 == r0[id := SlotsRec(block)]
    ensures DirCore(r1, lay, d, sh.(slot := sh.slot - {name}))
    ensures Entries(r1, sh.(slot := sh.slot - {name})) == Entries(r0, sh) - {name}
  {
    hide RowsOk, ChainsOk, BlockOk, BucketOf, ItemAt;
    var sh1 := sh.(slot := sh.slot - {name});
    var (id, m) := sh.slot[name];
    RowsUntouched(r0, r1, d, sh, sh1, id);
    ChainsFrame(r0, r1, sh);
    ChainsShape(r1, sh, sh1);
    forall x | x in sh1.home ensures BlockOk(r1, lay, d, sh1, x) {
      DropBlock(r0, r1, lay, d, sh, name, block, x);
    }
    forall other | other in sh1.slot
      ensures SlotOk(r1, sh1, other) && ItemAt(r1, sh1.slot[other]) == ItemAt(r0, sh.slot[other])
    {
      assert SlotOk(r0, sh, other);
      DropName(r0, r1, sh, name, block, other);
    }
  }

  lemma DropName(r0: Recs, r1: Recs, sh: DirShape, name: Name, block: DirBlock, other: Name)
    requires name in sh.slot && SlotOk(r0, sh, name) && other in sh.slot && SlotOk(r0, sh, other) && other != name
    requires var (id, m) := sh.slot[name];
             block.items == r0[id].slots.items[m := r0[id].slots.items[m].(id := NULL)] && r1 == r0[id := SlotsRec(block)]
    ensures SlotOk(r1, sh.(slot := sh.slot - {name}), other)
    ensures ItemAt(r1, sh.slot[other]) == ItemAt(r0, sh.slot[other])
  {
    var (x, k) := sh.slot[other];
    assert sh.slot[name] != (x, k);
  }
}
