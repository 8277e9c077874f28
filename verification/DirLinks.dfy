/** Growing and shrinking bucket chains: a new block is linked at the end, an empty block is
    unlinked from its place.  Neither changes the map the directory stands for. */
module DirLinks {
  import opened Records
  import opened FileShapes
  import opened DirShapes

  function EmptySlots(lay: Layout): DirBlock {
    DirBlock(NULL, 0, seq(lay.slots, i => EMPTY_ITEM))
  }

  /** The store after the link that leads to position `k` of the chain of bucket `b` is set to `to`. */
  ghost function Relink(r: Recs, sh: DirShape, b: Bucket, k: nat, to: Id): Recs
    requires b in sh.chains && k <= |sh.chains[b]|
  {
    if k == 0 then
      if b.0 < |sh.rows| && sh.rows[b.0] in r && r[sh.rows[b.0]].RowRec? && b.1 < |r[sh.rows[b.0]].row|
      then r[sh.rows[b.0] := RowRec(r[sh.rows[b.0]].row[b.1 := to])] else r
    else
      var p := sh.chains[b][k - 1];
      if IsSlots(r, p) then r[p := SlotsRec(r[p].slots.(next := to))] else r
  }

  ghost function WithChain(sh: DirShape, b: Bucket, chain: seq<Id>, home: map<Id, Bucket>): DirShape {
    sh.(chains := sh.chains[b := chain], home := home)
  }

  lemma RelinkKeeps(r: Recs, d: DirInode, sh: DirShape, b: Bucket, k: nat, to: Id)
    requires RowsOk(r, d, sh) && ChainsOk(r, sh) && b in sh.chains && k <= |sh.chains[b]|
    ensures var r1 := Relink(r, sh, b, k, to);
            && r1.Keys == r.Keys && LinksOnly(r, r1, sh)
            && var x := if k == 0 then sh.rows[b.0] else sh.chains[b][k - 1];
               && x in r && SameOutside(r, r1, {x})
               && if k == 0 then r[x].RowRec? && r1[x].RowRec?
                  else IsSlots(r, x) && r1[x] == SlotsRec(r[x].slots.(next := to)) && sh.home[x] == b
  {
    hide Covered;
    assert IsBucket(sh, b) && RowOk(r, sh, b.0);
    if k > 0 {
      hide RowsOk, RowOk;
      assert ChainLinked(r, sh, b);
    }
  }

  // ----- appending -----

  lemma AppendBlock(r0: Recs, r1: Recs, lay: Layout, d: DirInode, sh: DirShape, b: Bucket, id: Id)
    requires DirCore(r0, lay, d, sh) && b in sh.chains && id !in r0 && id != NULL
    requires r1 == Relink(r0, sh, b, |sh.chains[b]|, id)[id := SlotsRec(EmptySlots(lay))]
    ensures var sh1 := WithChain(sh, b, sh.chains[b] + [id], sh.home[id := b]);
            DirCore(r1, lay, d, sh1) && Entries(r1, sh1) == Entries(r0, sh)
  {
    var sh1 := WithChain(sh, b, sh.chains[b] + [id], sh.home[id := b]);
    AppendRows(r0, r1, lay, d, sh, b, id);
    AppendChains(r0, r1, lay, d, sh, b, id);
    AppendSlots(r0, r1, lay, d, sh, b, id);
  }

  lemma AppendRows(r0: Recs, r1: Recs, lay: Layout, d: DirInode, sh: DirShape, b: Bucket, id: Id)
    requires RowsOk(r0, d, sh) && ChainsOk(r0, sh) && b in sh.chains && id !in r0 && id != NULL
    requires r1 == Relink(r0, sh, b, |sh.chains[b]|, id)[id := SlotsRec(EmptySlots(lay))]
    ensures RowsOk(r1, d, WithChain(sh, b, sh.chains[b] + [id], sh.home[id := b]))
  {
    var sh1 := WithChain(sh, b, sh.chains[b] + [id], sh.home[id := b]);
    RelinkRows(r0, d, sh, b, |sh.chains[b]|, id, sh1);
    assert RowsOk(Relink(r0, sh, b, |sh.chains[b]|, id), d, sh1);
    forall x | x in sh.rows ensures x in r0 { var r :| 0 <= r < |sh.rows| && sh.rows[r] == x; assert RowOk(r0, sh, r); }
    RowsFrame(Relink(r0, sh, b, |sh.chains[b]|, id), r1, d, sh1);
  }

  /** Rows after a relink agree with the chains if the new head of the bucket is `to`, or the head kept. */
  lemma RelinkRows(r0: Recs, d: DirInode, sh: DirShape, b: Bucket, k: nat, to: Id, sh1: DirShape)
    requires RowsOk(r0, d, sh) && ChainsOk(r0, sh) && b in sh.chains && k <= |sh.chains[b]|
    requires sh1.rows == sh.rows && sh1.widths == sh.widths && b in sh1.chains && sh1.chains == sh.chains[b := sh1.chains[b]]
    requires Head(sh1.chains[b]) == if k == 0 then to else Head(sh.chains[b])
    ensures RowsOk(Relink(r0, sh, b, k, to), d, sh1)
  {
    hide Covered, Widths;
    var r1 := Relink(r0, sh, b, k, to);
    if k > 0 { assert ChainLinked(r0, sh, b); assert IsSlots(r0, sh.chains[b][k - 1]); }
    forall r | 0 <= r < |sh1.rows| ensures RowOk(r1, sh1, r) {
      assert RowOk(r0, sh, r);
      if r == b.0 { assert IsBucket(sh, b); }
    }
  }

  /** The links after a block `id` was appended to the chain of bucket `b`. */
  ghost predicate NextsWith(r0: Recs, r1: Recs, sh: DirShape, b: Bucket, id: Id)
    requires b in sh.chains
  {
    && id !in sh.home && IsSlots(r1, id) && r1[id].slots.next == NULL
    && forall x :: x in sh.home ==>
         && IsSlots(r0, x) && IsSlots(r1, x)
         && r1[x].slots.next == if sh.chains[b] != [] && x == sh.chains[b][|sh.chains[b]| - 1] then id else r0[x].slots.next
  }

  lemma AppendNexts(r0: Recs, r1: Recs, lay: Layout, d: DirInode, sh: DirShape, b: Bucket, id: Id)
    requires RowsOk(r0, d, sh) && ChainsOk(r0, sh) && b in sh.chains && id !in r0 && id != NULL
    requires r1 == Relink(r0, sh, b, |sh.chains[b]|, id)[id := SlotsRec(EmptySlots(lay))]
    ensures NextsWith(r0, r1, sh, b, id)
  {
    hide RowsOk, ChainsOk, Relink, LinksOnly;
    RelinkKeeps(r0, d, sh, b, |sh.chains[b]|, id);
    HomeSlots(r0, sh);
  }

  lemma AppendChains(r0: Recs, r1: Recs, lay: Layout, d: DirInode, sh: DirShape, b: Bucket, id: Id)
    requires RowsOk(r0, d, sh) && ChainsOk(r0, sh) && b in sh.chains && id !in r0 && id != NULL
    requires r1 == Relink(r0, sh, b, |sh.chains[b]|, id)[id := SlotsRec(EmptySlots(lay))]
    ensures ChainsOk(r1, WithChain(sh, b, sh.chains[b] + [id], sh.home[id := b]))
  {
    hide RowsOk, Relink, EmptySlots;
    var sh1 := WithChain(sh, b, sh.chains[b] + [id], sh.home[id := b]);
    AppendNexts(r0, r1, lay, d, sh, b, id);
    forall y | y in sh1.chains ensures IsBucket(sh1, y) && ChainLinked(r1, sh1, y) {
      assert IsBucket(sh, y) && ChainLinked(r0, sh, y) && ChainLinked(r0, sh, b);
      AppendChain(r0, r1, sh, b, id, sh1, y);
    }
    forall x | x in sh1.home ensures sh1.home[x] in sh1.chains && x in sh1.chains[sh1.home[x]] {
      assert sh1.chains[b][|sh.chains[b]|] == id;
    }
  }

  lemma ChainGrown(r0: Recs, r1: Recs, sh: DirShape, sh1: DirShape, b: Bucket, id: Id)
    requires b in sh.chains && ChainLinked(r0, sh, b) && id !in sh.home
    requires b in sh1.chains && sh1.chains[b] == sh.chains[b] + [id] && sh1.home == sh.home[id := b]
    requires IsSlots(r1, id) && r1[id].slots.next == NULL
    requires forall k :: 0 <= k < |sh.chains[b]| ==>
               IsSlots(r1, sh.chains[b][k]) && r1[sh.chains[b][k]].slots.next == if k + 1 < |sh.chains[b]| then r0[sh.chains[b][k]].slots.next else id
    ensures ChainLinked(r1, sh1, b)
  {
  }

  lemma AppendChain(r0: Recs, r1: Recs, sh: DirShape, b: Bucket, id: Id, sh1: DirShape, y: Bucket)
    requires b in sh.chains && y in sh.chains && ChainLinked(r0, sh, b) && ChainLinked(r0, sh, y)
    requires NextsWith(r0, r1, sh, b, id)
    requires sh1 == WithChain(sh, b, sh.chains[b] + [id], sh.home[id := b])
    ensures ChainLinked(r1, sh1, y)
  {
    if y == b {
      ChainGrown(r0, r1, sh, sh1, b, id);
    } else {
      ChainKept(r0, r1, sh, sh1, y);
    }
  }

  /** A chain none of whose links changed. */
  lemma ChainKept(r0: Recs, r1: Recs, sh: DirShape, sh1: DirShape, y: Bucket)
    requires y in sh.chains && ChainLinked(r0, sh, y) && y in sh1.chains && sh1.chains[y] == sh.chains[y]
    requires forall x :: x in sh.home && sh.home[x] == y && IsSlots(r0, x) ==>
               IsSlots(r1, x) && r1[x].slots.next == r0[x].slots.next && x in sh1.home && sh1.home[x] == y
    ensures ChainLinked(r1, sh1, y)
  {
  }

  lemma AppendSlots(r0: Recs, r1: Recs, lay: Layout, d: DirInode, sh: DirShape, b: Bucket, id: Id)
    requires RowsOk(r0, d, sh) && ChainsOk(r0, sh) && SlotsOk(r0, lay, d, sh)
    requires b in sh.chains && id !in r0 && id != NULL
    requires r1 == Relink(r0, sh, b, |sh.chains[b]|, id)[id := SlotsRec(EmptySlots(lay))]
    ensures var sh1 := WithChain(sh, b, sh.chains[b] + [id], sh.home[id := b]);
            SlotsOk(r1, lay, d, sh1) && Entries(r1, sh1) == Entries(r0, sh)
  {
    hide RowsOk, ChainsOk, BucketOf, Relink;
    RelinkKeeps(r0, d, sh, b, |sh.chains[b]|, id);
    HomeSlots(r0, sh);
    var sh1 := WithChain(sh, b, sh.chains[b] + [id], sh.home[id := b]);
    SlotsFrame(r0, r1, lay, d, sh);
    SlotsRehome(r1, lay, d, sh, sh1);
  }

  lemma HomeSlots(recs: Recs, sh: DirShape)
    requires ChainsOk(recs, sh)
    ensures forall x :: x in sh.home ==> IsSlots(recs, x)
  {
  }

  /** More blocks, all empty, or fewer, none of which holds a name: the map stays. */
  lemma SlotsRehome(recs: Recs, lay: Layout, d: DirInode, sh: DirShape, sh1: DirShape)
    requires forall x :: x in sh.home && x in sh1.home ==> BlockOk(recs, lay, d, sh, x) && sh1.home[x] == sh.home[x]
    requires forall x :: x in sh1.home && x !in sh.home ==> IsSlots(recs, x) && recs[x].slots == EmptySlots(lay)
    requires forall name :: name in sh.slot ==> SlotOk(recs, sh, name) && sh.slot[name].0 in sh1.home
    requires sh1.slot == sh.slot
    ensures SlotsOk(recs, lay, d, sh1) && Entries(recs, sh1) == Entries(recs, sh)
  {
    hide BucketOf;
    forall x | x in sh1.home ensures BlockOk(recs, lay, d, sh1, x) {
      if x in sh.home { assert BlockOk(recs, lay, d, sh, x); }
    }
    forall name | name in sh1.slot ensures SlotOk(recs, sh1, name) {
      assert SlotOk(recs, sh, name);
    }
  }

  // ----- unlinking -----

  ghost function Without(chain: seq<Id>, k: nat): seq<Id>
    requires k < |chain|
  {
    chain[..k] + chain[k + 1..]
  }

  ghost predicate NoLive(block: DirBlock) {
    forall m :: 0 <= m < |block.items| ==> block.items[m].id == NULL
  }

  /** Taking the `k`-th block of a chain out: the link to it takes over its successor, and its record goes. */
  lemma UnlinkBlock(r0: Recs, r1: Recs, lay: Layout, d: DirInode, sh: DirShape, b: Bucket, k: nat)
    requires DirCore(r0, lay, d, sh) && b in sh.chains && k < |sh.chains[b]|
    requires IsSlots(r0, sh.chains[b][k]) && NoLive(r0[sh.chains[b][k]].slots)
    requires r1 == Relink(r0, sh, b, k, r0[sh.chains[b][k]].slots.next) - {sh.chains[b][k]}
    ensures var sh1 := WithChain(sh, b, Without(sh.chains[b], k), sh.home - {sh.chains[b][k]});
            DirCore(r1, lay, d, sh1) && Entries(r1, sh1) == Entries(r0, sh)
  {
    var id, to := sh.chains[b][k], r0[sh.chains[b][k]].slots.next;
    var sh1 := WithChain(sh, b, Without(sh.chains[b], k), sh.home - {id});
    assert ChainLinked(r0, sh, b);
    assert to == NextIn(sh.chains[b], k);
    UnlinkRows(r0, r1, d, sh, b, k, sh1);
    UnlinkChains(r0, r1, d, sh, b, k, sh1);
    UnlinkSlots(r0, r1, lay, d, sh, b, k, sh1);
  }

  lemma UnlinkRows(r0: Recs, r1: Recs, d: DirInode, sh: DirShape, b: Bucket, k: nat, sh1: DirShape)
    requires RowsOk(r0, d, sh) && ChainsOk(r0, sh) && b in sh.chains && k < |sh.chains[b]|
    requires IsSlots(r0, sh.chains[b][k])
    requires r1 == Relink(r0, sh, b, k, NextIn(sh.chains[b], k)) - {sh.chains[b][k]}
    requires sh1 == WithChain(sh, b, Without(sh.chains[b], k), sh.home - {sh.chains[b][k]})
    ensures RowsOk(r1, d, sh1)
  {
    var r := Relink(r0, sh, b, k, NextIn(sh.chains[b], k));
    RelinkRows(r0, d, sh, b, k, NextIn(sh.chains[b], k), sh1);
    RelinkKeeps(r0, d, sh, b, k, NextIn(sh.chains[b], k));
    forall x | x in sh.rows ensures x in r && r[x].RowRec? {
      var i :| 0 <= i < |sh.rows| && sh.rows[i] == x;
      assert RowOk(r, sh1, i);
    }
    hide Relink, LinksOnly, Covered;
    RowsFrame(r, r1, d, sh1);
  }

  ghost predicate NextsAfter(r0: Recs, r1: Recs, sh: DirShape, b: Bucket, k: nat)
    requires b in sh.chains && k < |sh.chains[b]|
  {
    forall x :: x in sh.home && x != sh.chains[b][k] ==>
      && IsSlots(r0, x) && IsSlots(r1, x)
      && r1[x].slots.next == if k > 0 && x == sh.chains[b][k - 1] then NextIn(sh.chains[b], k) else r0[x].slots.next
  }

  lemma UnlinkNexts(r0: Recs, r1: Recs, d: DirInode, sh: DirShape, b: Bucket, k: nat)
    requires RowsOk(r0, d, sh) && ChainsOk(r0, sh) && b in sh.chains && k < |sh.chains[b]|
    requires r1 == Relink(r0, sh, b, k, NextIn(sh.chains[b], k)) - {sh.chains[b][k]}
    ensures NextsAfter(r0, r1, sh, b, k)
  {
    hide RowsOk, ChainsOk, Relink, LinksOnly;
    RelinkKeeps(r0, d, sh, b, k, NextIn(sh.chains[b], k));
    HomeSlots(r0, sh);
  }

  lemma UnlinkChains(r0: Recs, r1: Recs, d: DirInode, sh: DirShape, b: Bucket, k: nat, sh1: DirShape)
    requires RowsOk(r0, d, sh) && ChainsOk(r0, sh) && b in sh.chains && k < |sh.chains[b]|
    requires r1 == Relink(r0, sh, b, k, NextIn(sh.chains[b], k)) - {sh.chains[b][k]}
    requires sh1 == WithChain(sh, b, Without(sh.chains[b], k), sh.home - {sh.chains[b][k]})
    ensures ChainsOk(r1, sh1)
  {
    hide RowsOk, Relink;
    UnlinkNexts(r0, r1, d, sh, b, k);
    forall y | y in sh1.chains ensures IsBucket(sh1, y) && ChainLinked(r1, sh1, y) {
      assert IsBucket(sh, y) && ChainLinked(r0, sh, y) && ChainLinked(r0, sh, b);
      UnlinkChain(r0, r1, sh, b, k, sh1, y);
    }
    forall x | x in sh1.home ensures sh1.home[x] in sh1.chains && x in sh1.chains[sh1.home[x]] {
      WithoutKeeps(sh.chains[b], k, x);
    }
  }

  lemma WithoutKeeps(chain: seq<Id>, k: nat, x: Id)
    requires k < |chain|
    ensures x in chain && x != chain[k] ==> x in Without(chain, k)
  {
  }

  lemma UnlinkChain(r0: Recs, r1: Recs, sh: DirShape, b: Bucket, k: nat, sh1: DirShape, y: Bucket)
    requires b in sh.chains && k < |sh.chains[b]| && y in sh.chains
    requires ChainLinked(r0, sh, b) && ChainLinked(r0, sh, y) && NextsAfter(r0, r1, sh, b, k)
    requires sh1 == WithChain(sh, b, Without(sh.chains[b], k), sh.home - {sh.chains[b][k]})
    ensures ChainLinked(r1, sh1, y)
  {
    if y == b {
      ChainShrunk(r0, r1, sh, sh1, b, k);
    } else {
      ChainKept(r0, r1, sh, sh1, y);
    }
  }

  lemma ChainShrunk(r0: Recs, r1: Recs, sh: DirShape, sh1: DirShape, b: Bucket, k: nat)
    requires b in sh.chains && ChainLinked(r0, sh, b) && k < |sh.chains[b]|
    requires b in sh1.chains && sh1.chains[b] == Without(sh.chains[b], k) && sh1.home == sh.home - {sh.chains[b][k]}
    requires forall i :: 0 <= i < |sh.chains[b]| && i != k ==>
               IsSlots(r1, sh.chains[b][i]) && r1[sh.chains[b][i]].slots.next == if i + 1 == k then NextIn(sh.chains[b], k) else r0[sh.chains[b][i]].slots.next
    ensures ChainLinked(r1, sh1, b)
  {
    var chain, chain1 := sh.chains[b], sh1.chains[b];
    forall i | 0 <= i < |chain1|
      ensures chain1[i] in sh1.home && sh1.home[chain1[i]] == b && IsSlots(r1, chain1[i])
              && r1[chain1[i]].slots.next == NextIn(chain1, i)
    {
      var j := if i < k then i else i + 1;
      assert chain1[i] == chain[j] && chain[j] in sh.home;
    }
  }

  lemma UnlinkSlots(r0: Recs, r1: Recs, lay: Layout, d: DirInode, sh: DirShape, b: Bucket, k: nat, sh1: DirShape)
    requires RowsOk(r0, d, sh) && ChainsOk(r0, sh) && SlotsOk(r0, lay, d, sh) && b in sh.chains && k < |sh.chains[b]|
    requires IsSlots(r0, sh.chains[b][k]) && NoLive(r0[sh.chains[b][k]].slots)
    requires r1 == Relink(r0, sh, b, k, NextIn(sh.chains[b], k)) - {sh.chains[b][k]}
    requires sh1 == WithChain(sh, b, Without(sh.chains[b], k), sh.home - {sh.chains[b][k]})
    ensures SlotsOk(r1, lay, d, sh1) && Entries(r1, sh1) == Entries(r0, sh)
  {
    var id := sh.chains[b][k];
    var r := Relink(r0, sh, b, k, NextIn(sh.chains[b], k));
    RelinkKeeps(r0, d, sh, b, k, NextIn(sh.chains[b], k));
    HomeSlots(r0, sh);
    assert IsSlots(r, id) && NoLive(r[id].slots) && id in sh.home by { assert ChainLinked(r0, sh, b); }
    hide RowsOk, ChainsOk, Relink, BucketOf, NoLive, NextIn;
    SlotsFrame(r0, r, lay, d, sh);
    UnlinkSlotsDone(r, r1, lay, d, sh, sh1, id);
  }

  lemma UnlinkSlotsDone(r: Recs, r1: Recs, lay: Layout, d: DirInode, sh: DirShape, sh1: DirShape, id: Id)
    requires SlotsOk(r, lay, d, sh) && IsSlots(r, id) && NoLive(r[id].slots)
    requires r1 == r - {id} && sh1.home == sh.home - {id} && sh1.slot == sh.slot
    ensures SlotsOk(r1, lay, d, sh1) && Entries(r1, sh1) == Entries(r, sh)
  {
    UnlinkNames(r, lay, d, sh, sh1, id);
    SlotsRehome(r, lay, d, sh, sh1);
    SlotsFrame(r, r1, lay, d, sh1);
  }

  /** No name is kept in an empty block. */
  lemma UnlinkNames(r: Recs, lay: Layout, d: DirInode, sh: DirShape, sh1: DirShape, id: Id)
    requires SlotsOk(r, lay, d, sh) && IsSlots(r, id) && NoLive(r[id].slots) && sh1.home == sh.home - {id}
    ensures forall name :: name in sh.slot ==> sh.slot[name].0 in sh1.home
  {
  }
}
