/** The offline compactor of directories, md_shrink_dir (md3tool.c): blocks whose high-water mark is 0 are taken
    out of their chains and deleted. */
module Shrink {
  import opened Records
  import opened Stores
  import opened FileShapes
  import opened DirShapes
  import opened DirLinks
  import opened Dirs
  import opened DirScan

  ghost predicate Busy(recs: Recs, id: Id) {
    IsSlots(recs, id) && recs[id].slots.highWater > 0
  }

  /** The blocks of a chain that are in use, in order. */
  ghost function BusyBlocks(recs: Recs, chain: seq<Id>): (s: seq<Id>)
    ensures forall id :: id in s <==> id in chain && Busy(recs, id)
  {
    if chain == [] then []
    else
      var l := |chain| - 1;
      BusyBlocks(recs, chain[..l]) + (if Busy(recs, chain[l]) then [chain[l]] else [])
  }

  /** The blocks that stay keep their slots; the ones that went were empty. */
  ghost predicate Shrunk(r0: Recs, sh0: DirShape, r1: Recs, sh1: DirShape) {
    && sh1.slot == sh0.slot && sh1.rows == sh0.rows && sh1.widths == sh0.widths && sh1.chains.Keys == sh0.chains.Keys
    && sh1.home.Keys <= sh0.home.Keys
    && (forall id :: id in sh1.home ==>
          IsSlots(r0, id) && IsSlots(r1, id) && r1[id].slots.items == r0[id].slots.items && r1[id].slots.highWater == r0[id].slots.highWater)
    && (forall id :: id in sh0.home && id !in sh1.home ==> !Busy(r0, id) && id !in r1)
    && r1.Keys == r0.Keys - (sh0.home.Keys - sh1.home.Keys)
    && SameOutside(r0, r1, CoreIds(sh0))
  }

  lemma ShrunkNone(r: Recs, sh: DirShape)
    requires forall id :: id in sh.home ==> IsSlots(r, id)
    ensures Shrunk(r, sh, r, sh)
  {
  }

  lemma ShrunkTwice(r0: Recs, sh0: DirShape, r1: Recs, sh1: DirShape, r2: Recs, sh2: DirShape)
    requires Shrunk(r0, sh0, r1, sh1) && Shrunk(r1, sh1, r2, sh2)
    ensures Shrunk(r0, sh0, r2, sh2)
  {
    hide CoreIds;
    CoresWithin(sh0, sh1);
    KeysTwice(r0, sh0, r1, sh1, r2, sh2);
    forall id | id in sh0.home && id !in sh2.home ensures !Busy(r0, id) && id !in r2 {
      if id in sh1.home { assert !Busy(r1, id); }
    }
  }

  lemma KeysTwice(r0: Recs, sh0: DirShape, r1: Recs, sh1: DirShape, r2: Recs, sh2: DirShape)
    requires sh2.home.Keys <= sh1.home.Keys <= sh0.home.Keys
    requires r1.Keys == r0.Keys - (sh0.home.Keys - sh1.home.Keys) && r2.Keys == r1.Keys - (sh1.home.Keys - sh2.home.Keys)
    ensures r2.Keys == r0.Keys - (sh0.home.Keys - sh2.home.Keys)
  {
  }

  lemma CoresWithin(sh0: DirShape, sh1: DirShape)
    requires sh1.rows == sh0.rows && sh1.home.Keys <= sh0.home.Keys
    ensures CoreIds(sh1) <= CoreIds(sh0)
  {
  }

  // ----- one chain -----

  /** The store as it will be once the row and the last block in hand are put. */
  ghost function Over(recs: Recs, hashId: Id, row: seq<Id>, lastId: Id, last: DirBlock): Recs {
    if lastId == NULL then recs[hashId := RowRec(row)]
    else recs[hashId := RowRec(row)][lastId := SlotsRec(last)]
  }

  /** Where the loop is in the chain of bucket `b`: the link to position `k` is in the row, or in the last block. */
  ghost predicate AtLink(v: Recs, sh: DirShape, b: Bucket, k: nat, hashId: Id, row: seq<Id>, lastId: Id, last: DirBlock, link: Id) {
    && b in sh.chains && k <= |sh.chains[b]| && b.0 < |sh.rows| && sh.rows[b.0] == hashId && b.1 < |row|
    && (lastId == NULL <==> k == 0)
    && (k > 0 ==> lastId == sh.chains[b][k - 1] && lastId in v && v[lastId] == SlotsRec(last))
    && hashId in v && v[hashId] == RowRec(row)
    && link == (if k == 0 then row[b.1] else last.next)
  }

  lemma LinkAt(v: Recs, lay: Layout, d: DirInode, sh: DirShape, b: Bucket, k: nat, hashId: Id, row: seq<Id>, lastId: Id, last: DirBlock, link: Id)
    requires DirCore(v, lay, d, sh) && AtLink(v, sh, b, k, hashId, row, lastId, last, link)
    ensures link == if k < |sh.chains[b]| then sh.chains[b][k] else NULL
    ensures k < |sh.chains[b]| ==>
              link in sh.home && IsSlots(v, link) && link != hashId && link != lastId && hashId != lastId
              && v[link].slots.next == NextIn(sh.chains[b], k) && link !in sh.chains[b][..k]
              && (!Busy(v, link) ==> NoLive(v[link].slots))
  {
    assert ChainLinked(v, sh, b);
    assert IsBucket(sh, b);
    assert RowOk(v, sh, b.0);
    if k < |sh.chains[b]| {
      assert BlockOk(v, lay, d, sh, sh.chains[b][k]);
      BlockBounds(v, lay, d, sh, sh.chains[b][k]);
    }
  }

  lemma OverUnlink(recs: Recs, v: Recs, lay: Layout, d: DirInode, sh: DirShape, b: Bucket, k: nat,
                   hashId: Id, row: seq<Id>, lastId: Id, last: DirBlock, link: Id)
    requires DirCore(v, lay, d, sh) && AtLink(v, sh, b, k, hashId, row, lastId, last, link) && k < |sh.chains[b]|
    requires v == Over(recs, hashId, row, lastId, last) && IsSlots(v, link)
    ensures var to := v[link].slots.next;
            Over(recs - {link}, hashId, if k == 0 then row[b.1 := to] else row, lastId, if k == 0 then last else last.(next := to)) ==
            Relink(v, sh, b, k, to) - {link}
  {
    hide DirCore;
    LinkAt(v, lay, d, sh, b, k, hashId, row, lastId, last, link);
  }

  /** An empty block is deleted, and the link to it takes over its successor. */
  lemma SkipEmpty(recs: Recs, v: Recs, lay: Layout, d: DirInode, sh: DirShape, b: Bucket, k: nat,
                  hashId: Id, row: seq<Id>, lastId: Id, last: DirBlock, link: Id, v1: Recs, row1: seq<Id>, last1: DirBlock)
    requires DirCore(v, lay, d, sh) && AtLink(v, sh, b, k, hashId, row, lastId, last, link) && k < |sh.chains[b]|
    requires v == Over(recs, hashId, row, lastId, last) && IsSlots(v, link) && !Busy(v, link)
    requires row1 == if k == 0 then row[b.1 := v[link].slots.next] else row
    requires last1 == if k == 0 then last else last.(next := v[link].slots.next)
    requires v1 == Over(recs - {link}, hashId, row1, lastId, last1)
    ensures var sh1 := WithChain(sh, b, Without(sh.chains[b], k), sh.home - {link});
            && DirCore(v1, lay, d, sh1) && Entries(v1, sh1) == Entries(v, sh) && Shrunk(v, sh, v1, sh1)
            && AtLink(v1, sh1, b, k, hashId, row1, lastId, last1, v[link].slots.next)
  {
    hide DirCore, Entries, Over, Busy, Shrunk, Relink, NoLive;
    LinkAt(v, lay, d, sh, b, k, hashId, row, lastId, last, link);
    OverUnlink(recs, v, lay, d, sh, b, k, hashId, row, lastId, last, link);
    UnlinkBlock(v, v1, lay, d, sh, b, k);
    UnlinkShrunk(v, v1, lay, d, sh, b, k);
    OverAt(recs - {link}, hashId, row1, lastId, last1);
  }

  lemma OverAt(recs: Recs, hashId: Id, row: seq<Id>, lastId: Id, last: DirBlock)
    requires hashId != lastId
    ensures hashId in Over(recs, hashId, row, lastId, last) && Over(recs, hashId, row, lastId, last)[hashId] == RowRec(row)
    ensures lastId != NULL ==> lastId in Over(recs, hashId, row, lastId, last) && Over(recs, hashId, row, lastId, last)[lastId] == SlotsRec(last)
  {
  }

  lemma UnlinkShrunk(v: Recs, v1: Recs, lay: Layout, d: DirInode, sh: DirShape, b: Bucket, k: nat)
    requires DirCore(v, lay, d, sh) && b in sh.chains && k < |sh.chains[b]|
    requires IsSlots(v, sh.chains[b][k]) && !Busy(v, sh.chains[b][k])
    requires v1 == Relink(v, sh, b, k, v[sh.chains[b][k]].slots.next) - {sh.chains[b][k]}
    ensures Shrunk(v, sh, v1, WithChain(sh, b, Without(sh.chains[b], k), sh.home - {sh.chains[b][k]}))
  {
    hide RowsOk, ChainsOk, SlotsOk, Relink, LinksOnly, Busy, CoreIds;
    var id, to := sh.chains[b][k], v[sh.chains[b][k]].slots.next;
    RelinkKeeps(v, d, sh, b, k, to);
    HomeSlots(v, sh);
    LinkInCore(v, d, sh, b, k);
    ShrunkBy(v, Relink(v, sh, b, k, to), sh, b, k, if k == 0 then sh.rows[b.0] else sh.chains[b][k - 1]);
  }

  lemma LinkInCore(v: Recs, d: DirInode, sh: DirShape, b: Bucket, k: nat)
    requires RowsOk(v, d, sh) && ChainsOk(v, sh) && b in sh.chains && k < |sh.chains[b]|
    ensures b.0 < |sh.rows| && sh.chains[b][k] in sh.home
    ensures (if k == 0 then sh.rows[b.0] else sh.chains[b][k - 1]) in CoreIds(sh)
  {
  }

  lemma ShrunkBy(v: Recs, r: Recs, sh: DirShape, b: Bucket, k: nat, x: Id)
    requires b in sh.chains && k < |sh.chains[b]| && sh.chains[b][k] in sh.home && !Busy(v, sh.chains[b][k])
    requires r.Keys == v.Keys && LinksOnly(v, r, sh) && SameOutside(v, r, {x}) && x in CoreIds(sh)
    requires forall y :: y in sh.home ==> IsSlots(v, y)
    ensures Shrunk(v, sh, r - {sh.chains[b][k]}, WithChain(sh, b, Without(sh.chains[b], k), sh.home - {sh.chains[b][k]}))
  {
  }

  /** A block in use stays; the last block in hand is put if its link changed. */
  lemma PassBusy(recs: Recs, v: Recs, lay: Layout, d: DirInode, sh: DirShape, b: Bucket, k: nat,
                 hashId: Id, row: seq<Id>, lastId: Id, last: DirBlock, link: Id, recs1: Recs)
    requires DirCore(v, lay, d, sh) && AtLink(v, sh, b, k, hashId, row, lastId, last, link) && k < |sh.chains[b]|
    requires v == Over(recs, hashId, row, lastId, last) && IsSlots(v, link)
    requires lastId == NULL ==> recs1 == recs
    requires lastId != NULL ==> recs1 == recs[lastId := SlotsRec(last)] || (recs1 == recs && lastId in recs && recs[lastId] == SlotsRec(last))
    ensures v == Over(recs1, hashId, row, link, v[link].slots)
    ensures AtLink(v, sh, b, k + 1, hashId, row, link, v[link].slots, v[link].slots.next)
    ensures link in recs1 && recs1[link] == v[link]
  {
    hide DirCore;
    LinkAt(v, lay, d, sh, b, k, hashId, row, lastId, last, link);
  }

  /** The chain of a bucket while it is filtered: `t` of its blocks have been looked at. */
  ghost predicate Filtered(v0: Recs, chain0: seq<Id>, t: nat, chain: seq<Id>, k: nat) {
    && t <= |chain0| && k == |BusyBlocks(v0, chain0[..t])|
    && chain == BusyBlocks(v0, chain0[..t]) + chain0[t..]
  }

  lemma FilteredNext(v0: Recs, chain0: seq<Id>, t: nat, chain: seq<Id>, k: nat)
    requires Filtered(v0, chain0, t, chain, k) && k < |chain|
    ensures t < |chain0| && chain[k] == chain0[t]
    ensures if Busy(v0, chain[k]) then Filtered(v0, chain0, t + 1, chain, k + 1) else Filtered(v0, chain0, t + 1, Without(chain, k), k)
  {
    assert chain0[..t + 1][..t] == chain0[..t];
    assert chain[k] == chain0[t];
    assert chain0[t..] == [chain0[t]] + chain0[t + 1..];
  }

  lemma FilteredDone(v0: Recs, chain0: seq<Id>, t: nat, chain: seq<Id>, k: nat)
    requires Filtered(v0, chain0, t, chain, k) && k == |chain|
    ensures chain == BusyBlocks(v0, chain0)
  {
    assert chain0[..|chain0|] == chain0;
  }

  lemma FilteredStart(v0: Recs, chain0: seq<Id>)
    ensures Filtered(v0, chain0, 0, chain0, 0)
  {
  }

  /** What is known while the chain of bucket `b` is filtered. */
  ghost predicate Shrinking(v0: Recs, sh0: DirShape, v: Recs, lay: Layout, d: DirInode, sh: DirShape, b: Bucket, t: nat, k: nat) {
    && DirCore(v, lay, d, sh) && Entries(v, sh) == Entries(v0, sh0) && Shrunk(v0, sh0, v, sh)
    && b in sh0.chains && b in sh.chains && sh.chains == sh0.chains[b := sh.chains[b]]
    && Filtered(v0, sh0.chains[b], t, sh.chains[b], k)
  }

  lemma ShrinkingStart(v0: Recs, lay: Layout, d: DirInode, sh0: DirShape, b: Bucket)
    requires DirCore(v0, lay, d, sh0) && b in sh0.chains
    ensures Shrinking(v0, sh0, v0, lay, d, sh0, b, 0, 0)
  {
    hide Entries, Shrunk, SlotsOk, RowsOk;
    HomeSlots(v0, sh0);
    ShrunkNone(v0, sh0);
    FilteredStart(v0, sh0.chains[b]);
  }

  lemma ShrinkingSkip(v0: Recs, sh0: DirShape, v: Recs, lay: Layout, d: DirInode, sh: DirShape, b: Bucket, t: nat, k: nat, v1: Recs)
    requires Shrinking(v0, sh0, v, lay, d, sh, b, t, k) && k < |sh.chains[b]| && sh.chains[b][k] in sh.home && !Busy(v, sh.chains[b][k])
    requires var sh1 := WithChain(sh, b, Without(sh.chains[b], k), sh.home - {sh.chains[b][k]});
             DirCore(v1, lay, d, sh1) && Entries(v1, sh1) == Entries(v, sh) && Shrunk(v, sh, v1, sh1)
    ensures Shrinking(v0, sh0, v1, lay, d, WithChain(sh, b, Without(sh.chains[b], k), sh.home - {sh.chains[b][k]}), b, t + 1, k)
    ensures t < |sh0.chains[b]|
  {
    hide DirCore, Entries, Shrunk, Filtered, Busy;
    var sh1 := WithChain(sh, b, Without(sh.chains[b], k), sh.home - {sh.chains[b][k]});
    BusySame(v0, sh0, v, sh, sh.chains[b][k]);
    ShrunkTwice(v0, sh0, v, sh, v1, sh1);
    FilteredNext(v0, sh0.chains[b], t, sh.chains[b], k);
  }

  lemma BusySame(v0: Recs, sh0: DirShape, v: Recs, sh: DirShape, id: Id)
    requires Shrunk(v0, sh0, v, sh) && id in sh.home
    ensures Busy(v0, id) <==> Busy(v, id)
  {
  }

  lemma ShrinkingPass(v0: Recs, sh0: DirShape, v: Recs, lay: Layout, d: DirInode, sh: DirShape, b: Bucket, t: nat, k: nat)
    requires Shrinking(v0, sh0, v, lay, d, sh, b, t, k) && k < |sh.chains[b]| && sh.chains[b][k] in sh.home && Busy(v, sh.chains[b][k])
    ensures Shrinking(v0, sh0, v, lay, d, sh, b, t + 1, k + 1)
    ensures t < |sh0.chains[b]|
  {
    hide DirCore, Entries, Shrunk, Filtered, Busy;
    BusySame(v0, sh0, v, sh, sh.chains[b][k]);
    FilteredNext(v0, sh0.chains[b], t, sh.chains[b], k);
  }

  lemma StartLink(recs: Recs, v0: Recs, sh0: DirShape, b: Bucket, hashId: Id, row: seq<Id>, last: DirBlock)
    requires v0 == recs[hashId := RowRec(row)] && b in sh0.chains && b.0 < |sh0.rows| && sh0.rows[b.0] == hashId && b.1 < |row|
    ensures v0 == Over(recs, hashId, row, NULL, last) && AtLink(v0, sh0, b, 0, hashId, row, NULL, last, row[b.1])
  {
  }

  lemma AtBlock(recs: Recs, v0: Recs, sh0: DirShape, v: Recs, lay: Layout, d: DirInode, sh: DirShape, b: Bucket, t: nat, k: nat,
                hashId: Id, row: seq<Id>, lastId: Id, last: DirBlock, link: Id)
    requires Shrinking(v0, sh0, v, lay, d, sh, b, t, k) && AtLink(v, sh, b, k, hashId, row, lastId, last, link)
    requires v == Over(recs, hashId, row, lastId, last) && link != NULL
    ensures DirCore(v, lay, d, sh) && b in sh.chains && k < |sh.chains[b]| && link == sh.chains[b][k]
    ensures link in sh.home && IsSlots(v, link) && link != hashId && link != lastId && hashId != lastId
    ensures link in recs && recs[link] == v[link]
    ensures Busy(v, link) <==> v[link].slots.highWater > 0
    ensures lastId == NULL <==> k == 0
  {
    hide DirCore;
    LinkAt(v, lay, d, sh, b, k, hashId, row, lastId, last, link);
  }

  lemma AtEnd(recs: Recs, v0: Recs, sh0: DirShape, v: Recs, lay: Layout, d: DirInode, sh: DirShape, b: Bucket, t: nat, k: nat,
              hashId: Id, row: seq<Id>, lastId: Id, last: DirBlock)
    requires Shrinking(v0, sh0, v, lay, d, sh, b, t, k) && AtLink(v, sh, b, k, hashId, row, lastId, last, NULL)
    requires v == Over(recs, hashId, row, lastId, last)
    ensures DirCore(v, lay, d, sh) && Entries(v, sh) == Entries(v0, sh0) && Shrunk(v0, sh0, v, sh)
    ensures sh.chains == sh0.chains[b := BusyBlocks(v0, sh0.chains[b])]
    ensures lastId != NULL ==> lastId != hashId
    ensures lastId == NULL ==> v == recs[hashId := RowRec(row)]
    ensures lastId != NULL ==> v == recs[lastId := SlotsRec(last)][hashId := RowRec(row)]
    ensures lastId != NULL && lastId in recs && recs[lastId] == SlotsRec(last) ==> v == recs[hashId := RowRec(row)]
  {
    hide DirCore, Entries, Shrunk;
    LinkAt(v, lay, d, sh, b, k, hashId, row, lastId, last, NULL);
    ChainEnds(v, lay, d, sh, b, k);
    FilteredDone(v0, sh0.chains[b], t, sh.chains[b], k);
  }

  lemma ChainEnds(v: Recs, lay: Layout, d: DirInode, sh: DirShape, b: Bucket, k: nat)
    requires DirCore(v, lay, d, sh) && b in sh.chains
    ensures k < |sh.chains[b]| ==> sh.chains[b][k] != NULL
  {
  }

  /** The chain loop of md_shrink_dir.  The row and the last block stay in hand; they are put when a block behind
      them was taken out. */
  method ShrinkChain(db: Store, hashId: Id, row0: seq<Id>, j: nat, hashModified0: bool,
                     ghost i: nat, ghost d: DirInode, ghost sh0: DirShape)
    returns (row: seq<Id>, hashModified: bool, ghost sh: DirShape)
    requires hashId in db.recs && DirCore(db.recs[hashId := RowRec(row0)], db.lay, d, sh0)
    requires (i, j) in sh0.chains && i < |sh0.rows| && sh0.rows[i] == hashId && j < |row0|
    requires !hashModified0 ==> db.recs[hashId] == RowRec(row0)
    modifies db`recs
    ensures |row| == |row0| && hashId in db.recs && (!hashModified ==> db.recs[hashId] == RowRec(row))
    ensures var v0: Recs, v: Recs := old(db.recs)[hashId := RowRec(row0)], db.recs[hashId := RowRec(row)];
            && DirCore(v, db.lay, d, sh) && Entries(v, sh) == Entries(v0, sh0) && Shrunk(v0, sh0, v, sh)
            && sh.chains == sh0.chains[(i, j) := BusyBlocks(v0, sh0.chains[(i, j)])]
  {
    hide DirCore, Entries, Shrunk, Filtered, AtLink, Over, Shrinking, Busy;
    ghost var b: Bucket := (i, j);
    ghost var v0: Recs := db.recs[hashId := RowRec(row0)];
    ghost var v, t: nat, k: nat := v0, 0, 0;
    row, hashModified, sh := row0, hashModified0, sh0;
    var link, lastId, last, wasModified := row[j], NULL, DirBlock(NULL, 0, []), false;
    ShrinkingStart(v0, db.lay, d, sh0, b);
    StartLink(db.recs, v0, sh0, b, hashId, row, last);
    while link != NULL
      invariant |row| == |row0| && hashId in db.recs
      invariant Shrinking(v0, sh0, v, db.lay, d, sh, b, t, k)
      invariant v == Over(db.recs, hashId, row, lastId, last) && AtLink(v, sh, b, k, hashId, row, lastId, last, link)
      invariant !wasModified && lastId != NULL ==> lastId in db.recs && db.recs[lastId] == SlotsRec(last)
      invariant !hashModified && !(wasModified && lastId == NULL) ==> db.recs[hashId] == RowRec(row)
      decreases |sh0.chains[b]| - t
    {
      AtBlock(db.recs, v0, sh0, v, db.lay, d, sh, b, t, k, hashId, row, lastId, last, link);
      var r := db.Get(link);
      var data := r.value.slots;
      if data.highWater == 0 {
        ghost var row1 := if k == 0 then row[j := data.next] else row;
        ghost var last1 := if k == 0 then last else last.(next := data.next);
        ghost var v1: Recs := Over(db.recs - {link}, hashId, row1, lastId, last1);
        SkipEmpty(db.recs, v, db.lay, d, sh, b, k, hashId, row, lastId, last, link, v1, row1, last1);
        ShrinkingSkip(v0, sh0, v, db.lay, d, sh, b, t, k, v1);
        db.Delete(link);
        if lastId == NULL {
          row := row[j := data.next];
        } else {
          last := last.(next := data.next);
        }
        v, sh, t := v1, WithChain(sh, b, Without(sh.chains[b], k), sh.home - {link}), t + 1;
        link, wasModified := data.next, true;
      } else {
        ghost var recs0: Recs := db.recs;
        if wasModified {
          if lastId != NULL {
            db.Put(lastId, SlotsRec(last));
          } else {
            hashModified := true;
          }
          wasModified := false;
        }
        PassBusy(recs0, v, db.lay, d, sh, b, k, hashId, row, lastId, last, link, db.recs);
        ShrinkingPass(v0, sh0, v, db.lay, d, sh, b, t, k);
        lastId, last, link, t, k := link, data, data.next, t + 1, k + 1;
      }
    }
    AtEnd(db.recs, v0, sh0, v, db.lay, d, sh, b, t, k, hashId, row, lastId, last);
    if wasModified {
      if lastId != NULL {
        db.Put(lastId, SlotsRec(last));
      } else {
        hashModified := true;
      }
    }
  }

  // ----- rows and directories -----

  ghost predicate Before(b: Bucket, r: nat, c: nat) {
    b.0 < r || (b.0 == r && b.1 < c)
  }

  /** The buckets before (r, c) are filtered, the others are as they were. */
  ghost predicate Compacted(r0: Recs, sh0: DirShape, sh: DirShape, r: nat, c: nat) {
    && sh.chains.Keys == sh0.chains.Keys
    && forall b :: b in sh0.chains ==> sh.chains[b] == if Before(b, r, c) then BusyBlocks(r0, sh0.chains[b]) else sh0.chains[b]
  }

  ghost predicate PartShrunk(r0: Recs, sh0: DirShape, v: Recs, lay: Layout, d: DirInode, sh: DirShape, r: nat, c: nat) {
    && DirCore(v, lay, d, sh) && Entries(v, sh) == Entries(r0, sh0) && Shrunk(r0, sh0, v, sh) && Compacted(r0, sh0, sh, r, c)
  }

  lemma {:induction false} BusySameChain(r0: Recs, sh0: DirShape, v: Recs, sh: DirShape, chain: seq<Id>)
    requires Shrunk(r0, sh0, v, sh) && forall id :: id in chain ==> id in sh.home
    ensures BusyBlocks(v, chain) == BusyBlocks(r0, chain)
  {
    hide Shrunk;
    if chain != [] {
      var l := |chain| - 1;
      BusySame(r0, sh0, v, sh, chain[l]);
      BusySameChain(r0, sh0, v, sh, chain[..l]);
    }
  }

  lemma PartShrunkChain(r0: Recs, sh0: DirShape, v: Recs, lay: Layout, d: DirInode, sh: DirShape, r: nat, c: nat, v1: Recs, sh1: DirShape)
    requires PartShrunk(r0, sh0, v, lay, d, sh, r, c) && (r, c) in sh0.chains && (r, c) in sh.chains
    requires DirCore(v1, lay, d, sh1) && Entries(v1, sh1) == Entries(v, sh) && Shrunk(v, sh, v1, sh1)
    requires sh1.chains == sh.chains[(r, c) := BusyBlocks(v, sh.chains[(r, c)])]
    ensures PartShrunk(r0, sh0, v1, lay, d, sh1, r, c + 1)
  {
    hide RowsOk, SlotsOk, Entries, Shrunk, BusyBlocks;
    ShrunkTwice(r0, sh0, v, sh, v1, sh1);
    assert ChainLinked(v, sh, (r, c));
    BusySameChain(r0, sh0, v, sh, sh.chains[(r, c)]);
    hide ChainsOk;
  }

  /** The column loop of md_shrink_dir. */
  method ShrinkRow(db: Store, hashId: Id, row0: seq<Id>, i: nat, ghost r0: Recs, ghost d: DirInode, ghost sh0: DirShape, ghost shs: DirShape)
    returns (ghost sh: DirShape)
    requires PartShrunk(r0, sh0, db.recs, db.lay, d, shs, i, 0) && i < |sh0.rows| && sh0.rows[i] == hashId
    requires hashId in db.recs && db.recs[hashId] == RowRec(row0)
    modifies db`recs
    ensures PartShrunk(r0, sh0, db.recs, db.lay, d, sh, i, |row0|)
  {
    hide DirCore, Entries, Shrunk, Compacted, BusyBlocks, PartShrunk;
    var row, hashModified, j: nat := row0, false, 0;
    sh := shs;
    SameRow(db.recs, hashId, row);
    while j < |row|
      invariant |row| == |row0| && j <= |row| && hashId in db.recs
      invariant !hashModified ==> db.recs[hashId] == RowRec(row)
      invariant PartShrunk(r0, sh0, db.recs[hashId := RowRec(row)], db.lay, d, sh, i, j)
    {
      ghost var v: Recs, shv := db.recs[hashId := RowRec(row)], sh;
      ProgressFacts(r0, sh0, v, db.lay, d, sh, i, j, hashId, row);
      row, hashModified, sh := ShrinkChain(db, hashId, row, j, hashModified, i, d, sh);
      PartShrunkChain(r0, sh0, v, db.lay, d, shv, i, j, db.recs[hashId := RowRec(row)], sh);
      j := j + 1;
    }
    if hashModified {
      db.Put(hashId, RowRec(row));
    } else {
      SameRow(db.recs, hashId, row);
    }
  }

  lemma SameRow(recs: Recs, id: Id, row: seq<Id>)
    requires id in recs && recs[id] == RowRec(row)
    ensures recs[id := RowRec(row)] == recs
  {
  }

  lemma ProgressFacts(r0: Recs, sh0: DirShape, v: Recs, lay: Layout, d: DirInode, sh: DirShape, r: nat, c: nat, hashId: Id, row: seq<Id>)
    requires PartShrunk(r0, sh0, v, lay, d, sh, r, c) && r < |sh0.rows| && sh0.rows[r] == hashId
    requires hashId in v && v[hashId] == RowRec(row) && c < |row|
    ensures DirCore(v, lay, d, sh) && sh.rows == sh0.rows && (r, c) in sh.chains && (r, c) in sh0.chains
  {
    assert RowOk(v, sh, r);
  }

  lemma NextRow(r0: Recs, sh0: DirShape, v: Recs, lay: Layout, d: DirInode, sh: DirShape, r: nat)
    requires r < |sh0.widths| && PartShrunk(r0, sh0, v, lay, d, sh, r, sh0.widths[r]) && DirCore(r0, lay, d, sh0)
    ensures PartShrunk(r0, sh0, v, lay, d, sh, r + 1, 0)
  {
    hide Entries, Shrunk, BusyBlocks;
    forall b | b in sh0.chains ensures Before(b, r, sh0.widths[r]) <==> Before(b, r + 1, 0) {
      assert IsBucket(sh0, b);
    }
    hide DirCore;
  }

  /** md_shrink_dir: every chain becomes its blocks in use, exactly the other blocks are deleted, and the directory
      is the same map with the same count. */
  method ShrinkDirectory(db: Store, dirID: Id, ghost sh0: DirShape) returns (r: Result<()>, ghost sh: DirShape)
    requires Known(db.recs, db.lay, dirID, sh0)
    modifies db`recs
    ensures r == if dirID !in old(db.recs) then Err(NotFound) else if !old(db.recs)[dirID].DirRec? then Err(NotDirectory) else Ok(())
    ensures r.Err? ==> db.recs == old(db.recs)
    ensures r.Ok? ==>
      && DirOk(db.recs, db.lay, dirID, sh) && Entries(db.recs, sh) == Entries(old(db.recs), sh0)
      && Shrunk(old(db.recs), sh0, db.recs, sh) && db.recs[dirID] == old(db.recs)[dirID]
      && sh.chains.Keys == sh0.chains.Keys
      && forall b :: b in sh0.chains ==> sh.chains[b] == BusyBlocks(old(db.recs), sh0.chains[b])
  {
    hide DirCore, Entries, Shrunk, BusyBlocks, PartShrunk;
    sh := sh0;
    ghost var r0: Recs := db.recs;
    var rec := db.Get(dirID);
    if rec.None? { return Err(NotFound), sh; }
    if !rec.value.DirRec? { return Err(NotDirectory), sh; }
    var dir := rec.value.dir;
    ShrinkStart(r0, db.lay, dir, sh0);
    var i: nat := 0;
    while i < |dir.handles|
      invariant i <= |sh0.rows| && PartShrunk(r0, sh0, db.recs, db.lay, dir, sh, i, 0)
    {
      RowInProgress(r0, sh0, db.recs, db.lay, dir, sh, i);
      var hash := db.Get(dir.handles[i]);
      sh := ShrinkRow(db, dir.handles[i], hash.value.row, i, r0, dir, sh0, sh);
      NextRow(r0, sh0, db.recs, db.lay, dir, sh, i);
      i := i + 1;
    }
    ShrinkEnd(r0, sh0, db.recs, db.lay, dirID, sh);
    r := Ok(());
  }

  lemma ShrinkStart(r0: Recs, lay: Layout, d: DirInode, sh0: DirShape)
    requires DirCore(r0, lay, d, sh0)
    ensures PartShrunk(r0, sh0, r0, lay, d, sh0, 0, 0)
    ensures d.handles == sh0.rows && |sh0.rows| == |sh0.widths|
  {
    hide Entries, SlotsOk, BusyBlocks;
    HomeSlots(r0, sh0);
    ShrunkNone(r0, sh0);
  }

  lemma RowInProgress(r0: Recs, sh0: DirShape, v: Recs, lay: Layout, d: DirInode, sh: DirShape, r: nat)
    requires PartShrunk(r0, sh0, v, lay, d, sh, r, 0) && r < |sh0.rows| && |sh0.widths| == |sh0.rows| && d.handles == sh0.rows
    ensures sh0.rows[r] in v && v[sh0.rows[r]].RowRec? && |v[sh0.rows[r]].row| == sh0.widths[r]
  {
    assert RowOk(v, sh, r);
  }

  lemma ShrinkEnd(r0: Recs, sh0: DirShape, v: Recs, lay: Layout, n: Id, sh: DirShape)
    requires DirOk(r0, lay, n, sh0) && PartShrunk(r0, sh0, v, lay, r0[n].dir, sh, |sh0.rows|, 0)
    ensures DirOk(v, lay, n, sh) && v[n] == r0[n] && Entries(v, sh) == Entries(r0, sh0) && Shrunk(r0, sh0, v, sh)
    ensures sh.chains.Keys == sh0.chains.Keys
    ensures forall b :: b in sh0.chains ==> sh.chains[b] == BusyBlocks(r0, sh0.chains[b])
  {
    hide DirCore, Entries, BusyBlocks, CoreIds;
    DirFacts(r0, lay, n, sh0);
    AllBefore(r0, lay, r0[n].dir, sh0);
    assert v[n] == r0[n];
  }

  lemma AllBefore(r0: Recs, lay: Layout, d: DirInode, sh0: DirShape)
    requires DirCore(r0, lay, d, sh0)
    ensures forall b :: b in sh0.chains ==> Before(b, |sh0.rows|, 0)
  {
  }
}
