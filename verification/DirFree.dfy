/** Deleting a directory (md2DeleteDirectory, md2RemoveTags): exactly its own records go. */
module DirFree {
  import opened Records
  import opened Frames
  import opened Stores
  import opened FileShapes
  import opened DirShapes
  import opened Dirs
  import opened TagShapes

  // ----- the tags -----

  /** md2RemoveTags: the tag list is deleted, and the inode points to no tag. */
  method RemoveTags(db: Store, dirID: Id, ghost tags: seq<Id>)
    requires dirID in db.recs && db.recs[dirID].DirRec? && TagsOk(db.recs, dirID, db.recs[dirID].dir.tag, tags)
    modifies db`recs
    ensures db.recs == (old(db.recs) - IdSet(tags))[dirID := DirRec(old(db.recs)[dirID].dir.(tag := NULL))]
  {
    hide IdSet;
    ghost var r0: Recs := db.recs;
    var rec := db.Get(dirID);
    var dir := rec.value.dir;
    var id := dir.tag;
    ghost var k: nat := 0;
    NoneGone(r0, tags);
    while id != NULL
      invariant k <= |tags| && id == if k < |tags| then tags[k] else NULL
      invariant db.recs == r0 - IdSet(tags[..k])
      decreases |tags| - k
    {
      OneMore(r0, tags, k);
      var tag := db.Get(id);
      db.Delete(id);
      id, k := tag.value.tag.next, k + 1;
    }
    assert tags[..k] == tags;
    db.Put(dirID, DirRec(dir.(tag := NULL)));
  }

  lemma NoneGone(r0: Recs, ids: seq<Id>)
    ensures r0 == r0 - IdSet(ids[..0])
  {
  }

  lemma OneMore(r0: Recs, ids: seq<Id>, k: nat)
    requires k < |ids| && Distinct(ids)
    ensures ids[k] !in IdSet(ids[..k]) && r0 - IdSet(ids[..k]) - {ids[k]} == r0 - IdSet(ids[..k + 1])
  {
  }

  // ----- the blocks and rows -----

  /** What is gone once the first `c` buckets of row `r`, and all rows before it, are deleted. */
  ghost function Gone(sh: DirShape, r: nat, c: nat): set<Id>
    requires r <= |sh.rows|
  {
    IdSet(sh.rows[..r]) + BlocksBefore(sh, r, c)
  }

  ghost function BlocksBefore(sh: DirShape, r: nat, c: nat): set<Id> {
    set id | id in sh.home && (sh.home[id].0 < r || (sh.home[id].0 == r && sh.home[id].1 < c))
  }

  ghost predicate ChainLinked(recs: Recs, chain: seq<Id>) {
    Distinct(chain) && forall k :: 0 <= k < |chain| ==> IsSlots(recs, chain[k]) && recs[chain[k]].slots.next == NextIn(chain, k)
  }

  lemma ChainStill(r0: Recs, lay: Layout, d: DirInode, sh: DirShape, r: nat, c: nat)
    requires DirCore(r0, lay, d, sh) && r < |sh.rows| && c < sh.widths[r]
    ensures (r, c) in sh.chains && ChainLinked(r0 - Gone(sh, r, c), sh.chains[(r, c)])
    ensures RowOk(r0, sh, r) && r0[sh.rows[r]].row[c] == Head(sh.chains[(r, c)])
    ensures r0 - Gone(sh, r, c) - IdSet(sh.chains[(r, c)]) == r0 - Gone(sh, r, c + 1)
  {
    hide DirCore, Gone, IdSet, RowOk;
    ChainBlocks(r0, lay, d, sh, r, c);
    CoreKinds(r0, lay, d, sh);
    var chain := sh.chains[(r, c)];
    MinusMinus(r0, Gone(sh, r, c), IdSet(chain));
    ChainGone(sh, r, c, chain);
  }

  lemma ChainGone(sh: DirShape, r: nat, c: nat, chain: seq<Id>)
    requires r <= |sh.rows|
    requires forall id :: id in chain <==> id in sh.home && sh.home[id] == (r, c)
    requires forall id :: id in sh.rows ==> id !in sh.home
    ensures forall id :: id in chain ==> id !in Gone(sh, r, c)
    ensures Gone(sh, r, c) + IdSet(chain) == Gone(sh, r, c + 1)
  {
  }

  lemma ChainBlocks(recs: Recs, lay: Layout, d: DirInode, sh: DirShape, r: nat, c: nat)
    requires DirCore(recs, lay, d, sh) && r < |sh.rows| && c < sh.widths[r]
    ensures (r, c) in sh.chains && ChainLinked(recs, sh.chains[(r, c)])
    ensures forall id :: id in sh.chains[(r, c)] <==> id in sh.home && sh.home[id] == (r, c)
    ensures RowOk(recs, sh, r) && recs[sh.rows[r]].row[c] == Head(sh.chains[(r, c)])
    ensures Head(sh.chains[(r, c)]) == NULL ==> sh.chains[(r, c)] == []
  {
  }

  /** Rows and blocks are different records, and every block is in the table. */
  lemma CoreKinds(recs: Recs, lay: Layout, d: DirInode, sh: DirShape)
    requires DirCore(recs, lay, d, sh)
    ensures Distinct(sh.rows) && d.handles == sh.rows && |sh.widths| == |sh.rows|
    ensures forall id :: id in sh.rows ==> id in recs && recs[id].RowRec? && id !in sh.home
    ensures forall id :: id in sh.home ==> InTable(sh.widths, sh.home[id])
  {
    forall id | id in sh.rows ensures id in recs && recs[id].RowRec? {
      var r :| 0 <= r < |sh.rows| && sh.rows[r] == id;
      assert RowOk(recs, sh, r);
    }
    forall id | id in sh.home ensures InTable(sh.widths, sh.home[id]) && IsSlots(recs, id) {
      assert IsBucket(sh, sh.home[id]);
      assert BlockOk(recs, lay, d, sh, id);
    }
  }

  lemma RowStill(r0: Recs, lay: Layout, d: DirInode, sh: DirShape, r: nat)
    requires DirCore(r0, lay, d, sh) && r < |sh.rows|
    ensures RowOk(r0, sh, r) && sh.rows[r] !in Gone(sh, r, 0) && sh.rows[r] !in Gone(sh, r, sh.widths[r])
    ensures r0 - Gone(sh, r, sh.widths[r]) - {sh.rows[r]} == r0 - Gone(sh, r + 1, 0)
  {
    CoreKinds(r0, lay, d, sh);
    assert RowOk(r0, sh, r);
    hide DirCore;
    MinusMinus(r0, Gone(sh, r, sh.widths[r]), {sh.rows[r]});
    assert IdSet(sh.rows[..r + 1]) == IdSet(sh.rows[..r]) + {sh.rows[r]};
    assert BlocksBefore(sh, r, sh.widths[r]) == BlocksBefore(sh, r + 1, 0);
    assert Gone(sh, r, sh.widths[r]) + {sh.rows[r]} == Gone(sh, r + 1, 0);
  }

  lemma AllGone(r0: Recs, lay: Layout, d: DirInode, sh: DirShape)
    requires DirCore(r0, lay, d, sh)
    ensures Gone(sh, 0, 0) == {} && Gone(sh, |sh.rows|, 0) == CoreIds(sh)
  {
    CoreKinds(r0, lay, d, sh);
    hide DirCore;
    assert sh.rows[..|sh.rows|] == sh.rows;
    assert BlocksBefore(sh, |sh.rows|, 0) == sh.home.Keys;
  }

  /** The chain loop. */
  method DeleteBlocks(db: Store, first: Id, ghost chain: seq<Id>)
    requires ChainLinked(db.recs, chain) && first == Head(chain)
    modifies db`recs
    ensures db.recs == old(db.recs) - IdSet(chain)
  {
    hide IdSet;
    ghost var r0: Recs := db.recs;
    var id := first;
    ghost var k: nat := 0;
    NoneGone(r0, chain);
    while id != NULL
      invariant k <= |chain| && id == if k < |chain| then chain[k] else NULL
      invariant db.recs == r0 - IdSet(chain[..k])
      decreases |chain| - k
    {
      OneMore(r0, chain, k);
      var block := db.Get(id);
      var next := block.value.slots.next;
      db.Delete(id);
      id, k := next, k + 1;
    }
    assert chain[..k] == chain;
  }

  /** The column loop. */
  method DeleteColumns(db: Store, row: seq<Id>, ghost r: nat, ghost r0: Recs, ghost d: DirInode, ghost sh: DirShape)
    requires DirCore(r0, db.lay, d, sh) && RowOk(r0, sh, r) && r0[sh.rows[r]] == RowRec(row)
    requires db.recs == r0 - Gone(sh, r, 0)
    modifies db`recs
    ensures db.recs == r0 - Gone(sh, r, sh.widths[r])
  {
    hide DirCore, Gone, IdSet, ChainLinked;
    var j: nat := 0;
    while j < |row|
      invariant j <= |row| && db.recs == r0 - Gone(sh, r, j)
    {
      ChainStill(r0, db.lay, d, sh, r, j);
      ChainBlocks(r0, db.lay, d, sh, r, j);
      if row[j] != NULL {
        DeleteBlocks(db, row[j], sh.chains[(r, j)]);
      } else {
        NothingGone(db.recs);
      }
      j := j + 1;
    }
  }

  lemma NothingGone(r: Recs)
    ensures r - IdSet([]) == r
  {
  }

  /** The row loop. */
  method DeleteRows(db: Store, dir: DirInode, ghost sh: DirShape)
    requires DirCore(db.recs, db.lay, dir, sh)
    modifies db`recs
    ensures db.recs == old(db.recs) - CoreIds(sh)
  {
    hide DirCore, Gone, CoreIds;
    ghost var r0: Recs := db.recs;
    CoreKinds(r0, db.lay, dir, sh);
    AllGone(r0, db.lay, dir, sh);
    assert r0 == r0 - {};
    var i: nat := 0;
    while i < |dir.handles|
      invariant i <= |sh.rows| && db.recs == r0 - Gone(sh, i, 0)
    {
      RowStill(r0, db.lay, dir, sh, i);
      var id := dir.handles[i];
      var hash := db.Get(id);
      DeleteColumns(db, hash.value.row, i, r0, dir, sh);
      db.Delete(id);
      i := i + 1;
    }
  }

  /** md2DeleteDirectory: an empty directory goes with its rows, blocks and tags, and nothing else does. */
  method DeleteDirectory(db: Store, dirID: Id, ghost sh: DirShape, ghost tags: seq<Id>) returns (r: Result<()>)
    requires Known(db.recs, db.lay, dirID, sh)
    requires dirID in db.recs && db.recs[dirID].DirRec? ==> TagsOk(db.recs, dirID, db.recs[dirID].dir.tag, tags)
    modifies db`recs
    ensures r == if dirID !in old(db.recs) then Err(NotFound)
                 else if !old(db.recs)[dirID].DirRec? then Err(NotDirectory)
                 else if Entries(old(db.recs), sh) != map[] then Err(NotEmpty)
                 else Ok(())
    ensures db.recs == if r.Ok? then old(db.recs) - (DirIds(dirID, sh) + IdSet(tags)) else old(db.recs)
  {
    hide DirCore, CoreIds, DirIds, IdSet;
    ghost var r0: Recs := db.recs;
    var rec := db.Get(dirID);
    if rec.None? { return Err(NotFound); }
    if !rec.value.DirRec? { return Err(NotDirectory); }
    CountEmpty(r0, sh);
    if rec.value.dir.count > 0 { return Err(NotEmpty); }
    RemoveTags(db, dirID, tags);
    CoreUntouched(r0, db.recs, db.lay, dirID, sh, tags);
    ghost var r1: Recs := db.recs;
    DeleteRows(db, rec.value.dir, sh);
    db.Delete(dirID);
    DirectoryGone(r0, r1, db.recs, dirID, sh, tags);
    r := Ok(());
  }

  lemma CountEmpty(recs: Recs, sh: DirShape)
    ensures Entries(recs, sh) == map[] <==> |sh.slot| == 0
  {
    assert Entries(recs, sh).Keys == sh.slot.Keys;
    assert |sh.slot| == 0 <==> sh.slot.Keys == {};
  }

  lemma CoreUntouched(r0: Recs, r1: Recs, lay: Layout, n: Id, sh: DirShape, tags: seq<Id>)
    requires DirOk(r0, lay, n, sh) && TagsOk(r0, n, r0[n].dir.tag, tags)
    requires r1 == (r0 - IdSet(tags))[n := DirRec(r0[n].dir.(tag := NULL))]
    ensures DirCore(r1, lay, r0[n].dir, sh)
  {
    hide DirCore, CoreIds;
    DirFacts(r0, lay, n, sh);
    CoreStored(r0, lay, r0[n].dir, sh);
    CoreFrame(r0, r1, lay, r0[n].dir, sh);
  }

  lemma DirectoryGone(r0: Recs, r1: Recs, r2: Recs, n: Id, sh: DirShape, tags: seq<Id>)
    requires n in r0 && r0[n].DirRec? && r1 == (r0 - IdSet(tags))[n := DirRec(r0[n].dir.(tag := NULL))]
    requires r2 == r1 - CoreIds(sh) - {n}
    ensures r2 == r0 - (DirIds(n, sh) + IdSet(tags))
  {
  }
}
