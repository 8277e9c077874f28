/** Freeing file levels: md2DeleteChain (md2lib.c) removes exactly the records of one level. */
module FileFree {
  import opened Records
  import opened Frames
  import opened Stores
  import opened FileShapes
  import opened FileWrite

  /** The records of the first `t` hash records and of their blocks. */
  ghost function Prefix(hashes: seq<Id>, blocks: map<Place, Id>, t: nat): set<Id>
    requires t <= |hashes|
  {
    (set h | h in hashes[..t]) + RowBlocks(blocks, t, 0)
  }

  /** The blocks placed before (t, j) in row order. */
  ghost function RowBlocks(blocks: map<Place, Id>, t: nat, j: nat): set<Id> {
    set k: Place | k in blocks && (k.0 < t || (k.0 == t && k.1 < j)) :: blocks[k]
  }

  /** The inner loop of md2DeleteChain: delete the blocks of hash record `t`. */
  method DeleteRow(db: Store, hash: FileHash, ghost r0: Recs, ghost hashes: seq<Id>, ghost blocks: map<Place, Id>, ghost t: nat)
    requires t < |hashes| && HashOk(r0, db.lay, hashes, blocks, t) && r0[hashes[t]] == HashRec(hash)
    requires ChainOk(r0, db.lay, hashes, blocks)
    requires db.recs == r0 - Prefix(hashes, blocks, t)
    modifies db`recs
    ensures db.recs == r0 - (Prefix(hashes, blocks, t) + RowBlocks(blocks, t, db.lay.pointers))
  {
    assert BlocksOk(r0, db.lay, |hashes|, blocks);
    hide ChainOk, RowBlocks;
    ghost var gone := Prefix(hashes, blocks, t);
    assert gone == gone + RowBlocks(blocks, t, 0);
    var h: nat := 0;
    while h < |hash.pointers|
      invariant h <= db.lay.pointers
      invariant db.recs == r0 - (gone + RowBlocks(blocks, t, h))
    {
      RowBlocksStep(r0, blocks, gone, t, h);
      if hash.pointers[h] != NULL {
        db.Delete(hash.pointers[h]);
      }
      h := h + 1;
    }
  }

  lemma RowBlocksStep(r0: Recs, blocks: map<Place, Id>, gone: set<Id>, t: nat, j: nat)
    ensures r0 - (gone + RowBlocks(blocks, t, j + 1)) ==
            if (t, j) in blocks then r0 - (gone + RowBlocks(blocks, t, j)) - {blocks[(t, j)]}
            else r0 - (gone + RowBlocks(blocks, t, j))
  {
  }

  lemma PrefixStep(recs: Recs, lay: Layout, hashes: seq<Id>, blocks: map<Place, Id>, t: nat)
    requires ChainOk(recs, lay, hashes, blocks) && t < |hashes|
    ensures Prefix(hashes, blocks, t + 1) == Prefix(hashes, blocks, t) + RowBlocks(blocks, t, lay.pointers) + {hashes[t]}
    ensures hashes[t] !in Prefix(hashes, blocks, t)
  {
    assert hashes[..t + 1] == hashes[..t] + [hashes[t]];
    assert HashOk(recs, lay, hashes, blocks, t);
    forall k: Place | k in blocks ensures blocks[k] != hashes[t] && k.1 < lay.pointers {
      assert IsBlock(recs, lay, blocks[k]);
    }
    forall k: Place | k in blocks && k.0 < t + 1 ensures blocks[k] in RowBlocks(blocks, t, lay.pointers) {}
    forall id | id in RowBlocks(blocks, t + 1, 0) ensures id in RowBlocks(blocks, t, lay.pointers) {}
    forall id | id in RowBlocks(blocks, t, lay.pointers) ensures id in RowBlocks(blocks, t + 1, 0) {}
  }

  lemma PrefixWhole(recs: Recs, lay: Layout, hashes: seq<Id>, blocks: map<Place, Id>)
    requires ChainOk(recs, lay, hashes, blocks)
    ensures Prefix(hashes, blocks, |hashes|) == Used(hashes, blocks)
  {
  }

  /** md2DeleteChain: afterwards the store is what it was without the records of this level. */
  method DeleteChain(db: Store, chain: Id, ghost lvl: Level, ghost sh: LevelShape)
    requires LevelOk(db.recs, db.lay, lvl, sh) && chain == lvl.chain
    modifies db`recs
    ensures db.recs == old(db.recs) - LevelIds(sh)
  {
    ghost var r0: Recs := db.recs;
    LevelHead(r0, db.lay, lvl, sh);
    if chain == NULL {
      assert r0 - {} == r0;
      return;
    }
    var r := db.Get(chain);
    if r.value.HashRec? {
      DeleteHashes(db, chain, r.value.hash, sh.hashes, sh.blocks);
    } else {
      db.Delete(chain);
    }
  }

  /** The outer loop of md2DeleteChain. */
  method DeleteHashes(db: Store, id0: Id, hash0: FileHash, ghost hashes: seq<Id>, ghost blocks: map<Place, Id>)
    requires ChainOk(db.recs, db.lay, hashes, blocks) && hashes != []
    requires id0 == hashes[0] && id0 in db.recs && db.recs[id0] == HashRec(hash0)
    modifies db`recs
    ensures db.recs == old(db.recs) - Used(hashes, blocks)
  {
    ghost var r0: Recs := db.recs;
    assert forall i :: 0 <= i < |hashes| ==> HashOk(r0, db.lay, hashes, blocks, i);
    hide ChainOk, Prefix, Used, RowBlocks;
    var id, hash, first := id0, hash0, true;
    ghost var t: nat := 0;
    PrefixEmpty(hashes, blocks);
    assert r0 - {} == r0;
    while id != NULL
      invariant t <= |hashes|
      invariant id == if t < |hashes| then hashes[t] else NULL
      invariant first ==> t == 0 && hash == hash0
      invariant db.recs == r0 - Prefix(hashes, blocks, t)
      decreases |hashes| - t
    {
      assert HashOk(r0, db.lay, hashes, blocks, t);
      PrefixStep(r0, db.lay, hashes, blocks, t);
      if !first {
        var r := db.Get(id);
        hash := r.value.hash;
      }
      DeleteRow(db, hash, r0, hashes, blocks, t);
      db.Delete(id);
      MinusMinus(r0, Prefix(hashes, blocks, t) + RowBlocks(blocks, t, db.lay.pointers), {id});
      id, first, t := hash.next, false, t + 1;
    }
    assert t < |hashes| ==> HashOk(r0, db.lay, hashes, blocks, t);
    PrefixWhole(r0, db.lay, hashes, blocks);
  }

  lemma PrefixEmpty(hashes: seq<Id>, blocks: map<Place, Id>)
    ensures Prefix(hashes, blocks, 0) == {}
  {
  }
}
