/** Writing file levels: md2WriteDataLow and its three helpers (md2lib.c). */
module FileWrite {
  import opened Records
  import opened Frames
  import opened Stores
  import opened FileShapes

  /** The bytes of the level once the first `n` bytes of `b` are in place. */
  ghost predicate Written(r0: Recs, lay: Layout, sh: LevelShape, b: seq<byte>, off: nat, n: nat,
                          v: Recs, blocks: map<Place, Id>)
    requires n <= |b|
  {
    forall p: nat :: ByteAt(v, lay, blocks, p) ==
                     if off <= p < off + n then b[p - off] else ByteAt(r0, lay, Blocks(sh), p)
  }

  ghost function PlaceOf(lay: Layout, p: nat): Place {
    (Row(lay, p), Column(lay, p))
  }

  /** Some byte of a write of `n` bytes at `off` lies in block `k`. */
  ghost predicate Touched(lay: Layout, k: Place, off: nat, n: nat) {
    exists p: nat :: off <= p < off + n && PlaceOf(lay, p) == k
  }

  /** Exactly the blocks that were there and those the first `n` bytes touch are there: skipped places stay holes. */
  ghost predicate Filled(lay: Layout, sh: LevelShape, off: nat, n: nat, blocks: map<Place, Id>) {
    forall k: Place :: k in blocks <==> k in Blocks(sh) || Touched(lay, k, off, n)
  }

  lemma FilledStart(lay: Layout, sh: LevelShape, off: nat)
    ensures Filled(lay, sh, off, 0, Blocks(sh))
  {
  }

  /** `cpy` more bytes, all of them in block (i, j). */
  lemma FilledMore(lay: Layout, sh: LevelShape, off: nat, n: nat, blocks: map<Place, Id>, blocks1: map<Place, Id>,
                   i: nat, j: nat, o: nat, cpy: nat)
    requires Filled(lay, sh, off, n, blocks) && blocks1.Keys == blocks.Keys + {(i, j)}
    requires j < lay.pointers && 0 < cpy && o + cpy <= lay.dataUnits && off + n == Address(lay, i, j, o)
    ensures Filled(lay, sh, off, n + cpy, blocks1)
  {
    hide Row, Column, Offset, Address;
    forall p: nat | off + n <= p < off + n + cpy ensures PlaceOf(lay, p) == (i, j) {
      Locate(lay, i, j, o, cpy, p);
    }
    forall k: Place ensures Touched(lay, k, off, n + cpy) <==> Touched(lay, k, off, n) || k == (i, j) {
      if Touched(lay, k, off, n) {
        var p: nat :| off <= p < off + n && PlaceOf(lay, p) == k;
      }
      if k == (i, j) { assert PlaceOf(lay, off + n) == k; }
    }
  }

  /** A write within the first block of a level that has no other. */
  lemma FilledFirst(lay: Layout, sh: LevelShape, off: nat, n: nat, id: Id)
    requires !sh.HashChain? && 0 < n && off + n <= lay.dataUnits
    ensures Filled(lay, sh, off, n, map[(0, 0) := id])
  {
    hide Row, Column, Offset;
    FilledStart(lay, sh, off);
    var blocks := Blocks(sh);
    FilledMore(lay, sh, off, 0, blocks, blocks[(0, 0) := id], 0, 0, off, n);
  }

  /** How far a write has come.  `v` is the store as it will be once the hash record held in
      a local variable has been put; the first `n` bytes of `b` are in place. */
  ghost predicate Progress(r0: Recs, lay: Layout, sh: LevelShape, bound: Id, b: seq<byte>, off: nat, n: nat,
                           v: Recs, hashes: seq<Id>, blocks: map<Place, Id>)
  {
    && n <= |b|
    && ChainOk(v, lay, hashes, blocks)
    && Grown(r0, v, LevelIds(sh), Used(hashes, blocks), bound)
    && Written(r0, lay, sh, b, off, n, v, blocks)
  }

  /** The last hash record of the chain now points to `h`. */
  ghost function Linked(v: Recs, hashes: seq<Id>, h: Id): Recs {
    if hashes == [] then v
    else
      var l := hashes[|hashes| - 1];
      if l in v && v[l].HashRec? then v[l := HashRec(v[l].hash.(next := h))] else v
  }

  lemma ProgressAppend(r0: Recs, lay: Layout, sh: LevelShape, bound: Id, b: seq<byte>, off: nat, n: nat,
                       v: Recs, hashes: seq<Id>, blocks: map<Place, Id>, h: Id, v1: Recs)
    requires Progress(r0, lay, sh, bound, b, off, n, v, hashes, blocks) && Below(r0, bound)
    requires h !in v && h != NULL && h >= bound
    requires v1 == Linked(v, hashes, h)[h := HashRec(FileHash(NULL, Nulls(lay.pointers)))]
    ensures Progress(r0, lay, sh, bound, b, off, n, v1, hashes + [h], blocks)
  {
    if hashes != [] { assert HashOk(v, lay, hashes, blocks, |hashes| - 1); }
    AppendHash(v, v1, lay, hashes, blocks, h);
    GrownStep(r0, v, v1, LevelIds(sh), Used(hashes, blocks), bound,
              if hashes == [] then h else hashes[|hashes| - 1], {h});
  }

  lemma ProgressFill(r0: Recs, lay: Layout, sh: LevelShape, bound: Id, b: seq<byte>, off: nat, n: nat,
                     v: Recs, hashes: seq<Id>, blocks: map<Place, Id>, i: nat, j: nat, id: Id, v1: Recs)
    requires Progress(r0, lay, sh, bound, b, off, n, v, hashes, blocks) && Below(r0, bound)
    requires i < |hashes| && j < lay.pointers && (i, j) !in blocks
    requires HashOk(v, lay, hashes, blocks, i)
    requires id !in v && id != NULL && id >= bound
    requires v1 == v[hashes[i] := HashRec(v[hashes[i]].hash.(pointers := v[hashes[i]].hash.pointers[j := id]))]
                    [id := DataRec(Zeros(lay.dataUnits))]
    ensures Progress(r0, lay, sh, bound, b, off, n, v1, hashes, blocks[(i, j) := id])
  {
    hide ChainOk, ByteAt, Grown, Below, Used;
    var blocks1 := blocks[(i, j) := id];
    FillHole(v, v1, lay, hashes, blocks, i, j, id);
    UsedAt(hashes, blocks, i);
    forall p: nat ensures ByteAt(v1, lay, blocks1, p) == ByteAt(v, lay, blocks, p) {}
    GrownStep(r0, v, v1, LevelIds(sh), Used(hashes, blocks), bound, hashes[i], {id});
  }

  lemma UsedAt(hashes: seq<Id>, blocks: map<Place, Id>, i: nat)
    requires i < |hashes|
    ensures hashes[i] in Used(hashes, blocks)
  {
  }

  lemma BlockUsed(hashes: seq<Id>, blocks: map<Place, Id>, k: Place)
    requires k in blocks
    ensures blocks[k] in Used(hashes, blocks)
  {
  }

  lemma ProgressCopy(r0: Recs, lay: Layout, sh: LevelShape, bound: Id, b: seq<byte>, off: nat, n: nat,
                     v: Recs, hashes: seq<Id>, blocks: map<Place, Id>, i: nat, j: nat, o: nat, cpy: nat, v1: Recs)
    requires Progress(r0, lay, sh, bound, b, off, n, v, hashes, blocks) && Below(r0, bound)
    requires (i, j) in blocks && IsBlock(v, lay, blocks[(i, j)])
    requires o + cpy <= lay.dataUnits && n + cpy <= |b| && off + n == Address(lay, i, j, o)
    requires v1 == v[blocks[(i, j)] := DataRec(Patch(v[blocks[(i, j)]].data, b[n..n + cpy], o))]
    ensures Progress(r0, lay, sh, bound, b, off, n + cpy, v1, hashes, blocks)
  {
    hide ChainOk, ByteAt, Grown, Below, Used, Address;
    BlockUsed(hashes, blocks, (i, j));
    OverwriteBlock(v, v1, lay, hashes, blocks, i, j, o, b[n..n + cpy]);
    GrownStep(r0, v, v1, LevelIds(sh), Used(hashes, blocks), bound, blocks[(i, j)], {});
    assert Used(hashes, blocks) + {} == Used(hashes, blocks);
  }

  /** The inode of a regular file, as md2MakeNewFile builds it. */
  ghost predicate InodeOk(base: FileInode, lay: Layout) {
    |base.levels| == LEVELS && base.bytesPerBlock == lay.dataUnits && base.blocksPerHash == lay.pointers
  }

  ghost predicate Stored(db: Store, id: Id, hash: FileHash)
    reads db
  {
    id in db.recs && db.recs[id] == HashRec(hash)
  }

  /** The pointer at (i, pos) of a chain under construction. */
  lemma ProgressAt(r0: Recs, lay: Layout, sh: LevelShape, bound: Id, b: seq<byte>, off: nat, n: nat,
                   v: Recs, hashes: seq<Id>, blocks: map<Place, Id>, i: nat, j: nat)
    requires Progress(r0, lay, sh, bound, b, off, n, v, hashes, blocks)
    requires i < |hashes| && j < lay.pointers
    ensures HashOk(v, lay, hashes, blocks, i)
    ensures if (i, j) in blocks
            then v[hashes[i]].hash.pointers[j] == blocks[(i, j)] && IsBlock(v, lay, blocks[(i, j)]) && blocks[(i, j)] != hashes[i]
            else v[hashes[i]].hash.pointers[j] == NULL
  {
  }

  /** One pass of the block loop of md2WriteDataLowLarge: the part of the write that falls into
      block `pos` of the hash record held in `hash0`. */
  method WriteBlock(db: Store, hashId: Id, hash0: FileHash, pos: nat, whichOff: nat, b: seq<byte>, n0: nat,
                    ghost r0: Recs, ghost sh: LevelShape, ghost bound: Id, ghost off: nat,
                    ghost hashes: seq<Id>, ghost blocks0: map<Place, Id>, ghost i: nat)
    returns (hash: FileHash, n: nat, ghost blocks: map<Place, Id>)
    requires db.RangeOk() && bound <= db.Bound()
    requires var v: Recs := db.recs[hashId := HashRec(hash0)];
             && Progress(r0, db.lay, sh, bound, b, off, n0, v, hashes, blocks0) && Below(r0, bound)
             && Below(v, db.Bound())
    requires i < |hashes| && hashes[i] == hashId && pos < db.lay.pointers && whichOff < db.lay.dataUnits
    requires n0 < |b| && off + n0 == Address(db.lay, i, pos, whichOff) && Filled(db.lay, sh, off, n0, blocks0)
    requires Stored(db, hashId, hash0) || hash0.pointers == Nulls(db.lay.pointers)
    modifies db
    ensures db.RangeOk() && old(db.Bound()) <= db.Bound()
    ensures hash.next == hash0.next && Stored(db, hashId, hash)
    ensures Progress(r0, db.lay, sh, bound, b, off, n, db.recs, hashes, blocks)
    ensures Below(db.recs, db.Bound())
    ensures n == n0 + Min(|b| - n0, db.lay.dataUnits - whichOff) && Filled(db.lay, sh, off, n, blocks)
  {
    hide Progress, Below, Filled;
    ghost var v0: Recs := db.recs[hashId := HashRec(hash0)];
    ghost var v := v0;
    ProgressAt(r0, db.lay, sh, bound, b, off, n0, v, hashes, blocks0, i, pos);
    var block: seq<byte>, id: Id;
    if hash0.pointers[pos] == NULL {
      FreshId(v, db.Bound());
      id := db.NewId();
      block := Zeros(db.lay.dataUnits);
      hash := hash0.(pointers := hash0.pointers[pos := id]);
      db.Put(hashId, HashRec(hash));
      blocks := blocks0[(i, pos) := id];
      ghost var v1: Recs := v[hashId := HashRec(hash)][id := DataRec(block)];
      ProgressFill(r0, db.lay, sh, bound, b, off, n0, v, hashes, blocks0, i, pos, id, v1);
      v := v1;
    } else {
      id, hash, blocks := hash0.pointers[pos], hash0, blocks0;
      var r := db.Get(id);
      block := r.value.data;
    }
    var cpy := Min(|b| - n0, db.lay.dataUnits - whichOff);
    block := Patch(block, b[n0..n0 + cpy], whichOff);
    n := n0 + cpy;
    db.Put(id, DataRec(block));
    assert db.recs == v[id := DataRec(block)];
    ProgressCopy(r0, db.lay, sh, bound, b, off, n0, v, hashes, blocks, i, pos, whichOff, cpy, db.recs);
    BelowBoth(v0, db.recs, old(db.Bound()), db.Bound(), hashId, HashRec(hash), id, DataRec(block));
    assert blocks.Keys == blocks0.Keys + {(i, pos)};
    FilledMore(db.lay, sh, off, n0, blocks0, blocks, i, pos, whichOff, cpy);
  }

  /** The outcome of a write to level `mode` of inode `base0`. */
  ghost predicate WriteDone(r0: Recs, r1: Recs, lay: Layout, base0: FileInode, base: FileInode, mode: nat,
                            b: seq<byte>, off: nat, sh: LevelShape, sh1: LevelShape, bound: Id)
    requires mode < |base0.levels|
  {
    && mode < |base.levels|
    && base == base0.(levels := base0.levels[mode := base.levels[mode]])
    && LevelOk(r1, lay, base.levels[mode], sh1)
    && Contents(r1, lay, base.levels[mode], sh1) == WriteFlat(Contents(r0, lay, base0.levels[mode], sh), b, off)
    && Grown(r0, r1, LevelIds(sh), LevelIds(sh1), bound)
    && (Filled(lay, sh, off, |b|, Blocks(sh1)) || (b == [] && sh.NoData? && sh1.OneBlock?))
  }

  lemma ProgressStart(r0: Recs, lay: Layout, lvl: Level, sh: LevelShape, bound: Id, b: seq<byte>, off: nat)
    returns (hashes: seq<Id>, blocks: map<Place, Id>)
    requires LevelOk(r0, lay, lvl, sh) && !sh.OneBlock?
    ensures Progress(r0, lay, sh, bound, b, off, 0, r0, hashes, blocks)
    ensures lvl.chain == if hashes == [] then NULL else hashes[0]
    ensures sh.HashChain? ==> hashes != []
    ensures Filled(lay, sh, off, 0, blocks)
  {
    hashes, blocks := if sh.NoData? then [] else sh.hashes, Blocks(sh);
    LevelIdsStored(r0, lay, lvl, sh);
  }

  lemma ProgressEnd(r0: Recs, lay: Layout, sh: LevelShape, bound: Id, b: seq<byte>, off: nat, n: nat,
                    v: Recs, hashes: seq<Id>, blocks: map<Place, Id>, t: nat)
    requires Progress(r0, lay, sh, bound, b, off, n, v, hashes, blocks) && t <= |hashes|
    requires if t == 0 then (if hashes == [] then NULL else hashes[0]) == NULL else NextIn(hashes, t - 1) == NULL
    ensures t == |hashes|
    ensures t > 0 ==> HashOk(v, lay, hashes, blocks, t - 1)
  {
    assert t < |hashes| ==> HashOk(v, lay, hashes, blocks, t);
  }

  lemma ProgressChain(r0: Recs, lay: Layout, sh: LevelShape, bound: Id, b: seq<byte>, off: nat, n: nat,
                      v: Recs, hashes: seq<Id>, blocks: map<Place, Id>, t: nat)
    requires Progress(r0, lay, sh, bound, b, off, n, v, hashes, blocks) && t < |hashes|
    ensures HashOk(v, lay, hashes, blocks, t)
    ensures t > 0 ==> hashes[t] != hashes[t - 1]
  {
  }

  lemma ProgressDone(r0: Recs, lay: Layout, base0: FileInode, base: FileInode, mode: nat,
                     sh: LevelShape, bound: Id, b: seq<byte>, off: nat,
                     v: Recs, hashes: seq<Id>, blocks: map<Place, Id>)
    requires mode < |base0.levels| && LevelOk(r0, lay, base0.levels[mode], sh)
    requires Progress(r0, lay, sh, bound, b, off, |b|, v, hashes, blocks) && hashes != []
    requires Filled(lay, sh, off, |b|, blocks)
    requires var l := Level(if hashes == [] then NULL else hashes[0], Max(base0.levels[mode].entries, off + |b|));
             base == base0.(levels := base0.levels[mode := l])
    ensures WriteDone(r0, v, lay, base0, base, mode, b, off, sh, HashChain(hashes, blocks), bound)
  {
    hide ChainOk, Grown, Filled;
    WrittenContents(r0, lay, base0.levels[mode], sh, b, off, v, base.levels[mode], HashChain(hashes, blocks));
  }

  lemma EmptyLevel(r0: Recs, lay: Layout, lvl: Level)
    requires LevelOk(r0, lay, lvl, NoData)
    ensures lvl.chain == NULL && lvl.entries == 0
  {
  }

  /** Once every byte is in place the level holds the flat file after the write. */
  lemma WrittenContents(r0: Recs, lay: Layout, lvl0: Level, sh: LevelShape, b: seq<byte>, off: nat,
                        v: Recs, lvl: Level, sh1: LevelShape)
    requires LevelOk(r0, lay, lvl0, sh)
    requires Written(r0, lay, sh, b, off, |b|, v, Blocks(sh1))
    requires lvl.entries == Max(lvl0.entries, off + |b|)
    ensures forall p: nat :: lvl.entries <= p ==> ByteAt(v, lay, Blocks(sh1), p) == 0
    ensures Contents(v, lay, lvl, sh1) == WriteFlat(Contents(r0, lay, lvl0, sh), b, off)
  {
    var c, d := Contents(r0, lay, lvl0, sh), Contents(v, lay, lvl, sh1);
    forall p | 0 <= p < |d| ensures d[p] == WriteFlat(c, b, off)[p] {
      WriteFlatAt(c, b, off, p);
    }
  }

  lemma WriteFlatAt(c: seq<byte>, b: seq<byte>, off: nat, p: nat)
    requires p < Max(|c|, off + |b|)
    ensures WriteFlat(c, b, off)[p] ==
            if off <= p < off + |b| then b[p - off] else if p < |c| then c[p] else 0
  {
  }

  /** Reading back what was written gives the bytes written. */
  lemma WriteThenSlice(c: seq<byte>, b: seq<byte>, off: nat)
    ensures Slice(WriteFlat(c, b, off), off, |b|) == b
    ensures forall o: nat, n: nat :: Slice(c, o, n) == if o >= |c| then [] else if o + n <= |c| then c[o..o + n] else c[o..]
  {
  }

  /** Where a transfer at offset `off` starts: hash record, block, byte. */
  method StartPosition(lay: Layout, base: FileInode, off: nat) returns (whichHash: nat, whichBlock: nat, whichOff: nat)
    requires base.bytesPerBlock == lay.dataUnits && base.blocksPerHash == lay.pointers
    ensures whichBlock < lay.pointers && whichOff < lay.dataUnits
    ensures off == Address(lay, whichHash, whichBlock, whichOff)
  {
    var bytesPerHash := base.bytesPerBlock * base.blocksPerHash;
    whichHash := off / bytesPerHash;
    var rest: nat := off - whichHash * bytesPerHash;
    whichBlock := rest / base.bytesPerBlock;
    whichOff := rest - whichBlock * base.bytesPerBlock;
    assert whichBlock >= base.blocksPerHash ==> whichBlock * base.bytesPerBlock >= bytesPerHash;
    assert (whichHash * lay.pointers + whichBlock) * lay.dataUnits
        == whichHash * (lay.dataUnits * lay.pointers) + whichBlock * lay.dataUnits;
  }

  /** The block loop of md2WriteDataLowLarge over one hash record, up to the end of the write or
      of the record. */
  method WriteRow(db: Store, base: FileInode, hashId: Id, hash0: FileHash, whichBlock: nat, whichOff0: nat,
                  b: seq<byte>, n0: nat,
                  ghost r0: Recs, ghost sh: LevelShape, ghost bound: Id, ghost off: nat,
                  ghost hashes: seq<Id>, ghost blocks0: map<Place, Id>, ghost i: nat)
    returns (hash: FileHash, n: nat, ghost blocks: map<Place, Id>)
    requires db.RangeOk() && bound <= db.Bound() && InodeOk(base, db.lay)
    requires var v: Recs := db.recs[hashId := HashRec(hash0)];
             && Progress(r0, db.lay, sh, bound, b, off, n0, v, hashes, blocks0) && Below(r0, bound)
             && Below(v, db.Bound())
    requires i < |hashes| && hashes[i] == hashId && whichBlock < db.lay.pointers && whichOff0 < db.lay.dataUnits
    requires n0 < |b| && off + n0 == Address(db.lay, i, whichBlock, whichOff0) && Filled(db.lay, sh, off, n0, blocks0)
    requires db.recs == db.recs[hashId := HashRec(hash0)] || hash0.pointers == Nulls(db.lay.pointers)
    modifies db
    ensures db.RangeOk() && old(db.Bound()) <= db.Bound()
    ensures hash.next == hash0.next && db.recs == db.recs[hashId := HashRec(hash)]
    ensures Progress(r0, db.lay, sh, bound, b, off, n, db.recs, hashes, blocks)
    ensures Below(db.recs, db.Bound())
    ensures n0 < n <= |b| && Filled(db.lay, sh, off, n, blocks)
    ensures n < |b| ==> off + n == Address(db.lay, i + 1, 0, 0)
  {
    hide Progress, Below, Address, Filled;
    hash, n, blocks := hash0, n0, blocks0;
    assert db.recs == db.recs[hashId := HashRec(hash0)] ==> hashId in db.recs[hashId := HashRec(hash0)];
    var pos: nat, whichOff: nat := whichBlock, whichOff0;
    while n < |b| && pos < base.blocksPerHash
      invariant db.RangeOk() && old(db.Bound()) <= db.Bound()
      invariant whichBlock <= pos <= db.lay.pointers && whichOff < db.lay.dataUnits && n0 <= n <= |b|
      invariant var v: Recs := db.recs[hashId := HashRec(hash)];
                && Progress(r0, db.lay, sh, bound, b, off, n, v, hashes, blocks) && Below(v, db.Bound())
      invariant Stored(db, hashId, hash) || (pos == whichBlock && hash.pointers == Nulls(db.lay.pointers))
      invariant if pos > whichBlock then n > n0 && Stored(db, hashId, hash) else n == n0
      invariant hash.next == hash0.next && Filled(db.lay, sh, off, n, blocks)
      invariant n < |b| ==> off + n == Address(db.lay, i, pos, whichOff)
      invariant pos == db.lay.pointers ==> whichOff == 0
      decreases db.lay.pointers - pos
    {
      NextAddress(db.lay, i, pos, whichOff);
      hash, n, blocks := WriteBlock(db, hashId, hash, pos, whichOff, b, n, r0, sh, bound, off, hashes, blocks, i);
      assert db.recs == db.recs[hashId := HashRec(hash)];
      pos, whichOff := pos + 1, 0;
    }
    assert db.recs == db.recs[hashId := HashRec(hash)];
    NextAddress(db.lay, i, 0, 0);
  }

  /** The head of the hash loop of md2WriteDataLowLarge: step to hash record `thisHash`, or append a
      new one.  A new record stays in the local variable until a block is linked to it. */
  method NextHash(db: Store, chain0: Id, thisHash: nat, lastId: Id, last0: FileHash,
                  ghost n: nat, ghost v0: Recs, ghost r0: Recs, ghost sh: LevelShape, ghost bound: Id, ghost b: seq<byte>, ghost off: nat,
                  ghost hashes0: seq<Id>, ghost blocks: map<Place, Id>)
    returns (chain: Id, hashId: Id, hash: FileHash, ghost hashes: seq<Id>)
    requires db.RangeOk() && bound <= db.Bound() && Below(r0, bound) && thisHash <= |hashes0|
    requires chain0 == if hashes0 == [] then NULL else hashes0[0]
    requires if thisHash == 0 then lastId == NULL
             else lastId == hashes0[thisHash - 1] && last0.next == NextIn(hashes0, thisHash - 1)
    requires v0 == if thisHash > 0 then db.recs[lastId := HashRec(last0)] else db.recs
    requires Progress(r0, db.lay, sh, bound, b, off, n, v0, hashes0, blocks) && Below(v0, db.Bound())
    requires v0 == db.recs || thisHash == |hashes0|
    modifies db
    ensures db.RangeOk() && old(db.Bound()) <= db.Bound()
    ensures thisHash < |hashes| && hashId == hashes[thisHash] && hash.next == NextIn(hashes, thisHash)
    ensures chain == hashes[0]
    ensures var v: Recs := db.recs[hashId := HashRec(hash)];
            && Progress(r0, db.lay, sh, bound, b, off, n, v, hashes, blocks) && Below(v, db.Bound())
    ensures db.recs == db.recs[hashId := HashRec(hash)] || (thisHash + 1 == |hashes| && hash.pointers == Nulls(db.lay.pointers))
  {
    hide Progress, Below;
    chain, hashes := chain0, hashes0;
    var last := last0;
    ghost var v := v0;
    var cur := if thisHash == 0 then chain else last.next;
    if cur == NULL {
      ProgressEnd(r0, db.lay, sh, bound, b, off, n, v, hashes, blocks, thisHash);
      FreshId(v, db.Bound());
      hashId := db.NewId();
      hash := FileHash(NULL, Nulls(db.lay.pointers));
      if thisHash == 0 {
        chain := hashId;
      } else {
        last := last.(next := hashId);
      }
      if lastId != NULL {
        db.Put(lastId, HashRec(last));
      }
      ghost var v1: Recs := db.recs[hashId := HashRec(hash)];
      assert v1 == Linked(v, hashes, hashId)[hashId := HashRec(hash)];
      ProgressAppend(r0, db.lay, sh, bound, b, off, n, v, hashes, blocks, hashId, v1);
      BelowBoth(v, v1, old(db.Bound()), db.Bound(), lastId, HashRec(last), hashId, HashRec(hash));
      hashes := hashes + [hashId];
    } else {
      ProgressChain(r0, db.lay, sh, bound, b, off, n, v, hashes, blocks, thisHash);
      hashId := cur;
      var r := db.Get(hashId);
      hash := r.value.hash;
      assert v == db.recs[hashId := HashRec(hash)];
    }
  }

  /** md2WriteDataLowLarge: walk and extend the chain of hash records, filling blocks. */
  method WriteDataLowLarge(db: Store, base0: FileInode, mode: nat, b: seq<byte>, off: nat, ghost sh: LevelShape)
    returns (base: FileInode, ghost sh1: LevelShape)
    requires db.AllocOk() && InodeOk(base0, db.lay) && mode < LEVELS
    requires LevelOk(db.recs, db.lay, base0.levels[mode], sh) && !sh.OneBlock?
    modifies db
    ensures db.AllocOk() && old(db.Bound()) <= db.Bound()
    ensures if b == [] && sh.NoData?
            then db.recs == old(db.recs) && base == SizeOnly(base0, mode, off)
            else WriteDone(old(db.recs), db.recs, db.lay, base0, base, mode, b, off, sh, sh1, old(db.Bound()))
  {
    assert Below(db.recs, db.Bound());
    hide Progress, Below, Address, LevelOk, WriteDone, Filled;
    ghost var r0: Recs, bound := db.recs, db.Bound();
    ghost var hashes: seq<Id>, blocks := ProgressStart(r0, db.lay, base0.levels[mode], sh, bound, b, off);
    var whichHash: nat, whichBlock: nat, whichOff: nat := StartPosition(db.lay, base0, off);
    var chain, hashId: Id, hash := base0.levels[mode].chain, NULL, FileHash(NULL, []);
    var n: nat, thisHash: nat := 0, 0;
    ghost var v: Recs := db.recs;
    while n < |b|
      invariant db.RangeOk() && bound <= db.Bound()
      invariant n <= |b| && thisHash <= |hashes| && (n < |b| ==> thisHash <= whichHash)
      invariant whichBlock < db.lay.pointers && whichOff < db.lay.dataUnits
      invariant n < |b| ==> off + n == Address(db.lay, whichHash, whichBlock, whichOff)
      invariant chain == if hashes == [] then NULL else hashes[0]
      invariant if thisHash == 0 then hashId == NULL
                else hashId == hashes[thisHash - 1] && hash.next == NextIn(hashes, thisHash - 1)
      invariant v == if thisHash > 0 then db.recs[hashId := HashRec(hash)] else db.recs
      invariant Progress(r0, db.lay, sh, bound, b, off, n, v, hashes, blocks) && Below(v, db.Bound())
      invariant v == db.recs || (thisHash == |hashes| && n < |b|)
      invariant sh.HashChain? || n > 0 ==> hashes != []
      invariant Filled(db.lay, sh, off, n, blocks)
      invariant b == [] ==> db.recs == r0 && chain == base0.levels[mode].chain
      decreases |b| - n, whichHash - thisHash
    {
      chain, hashId, hash, hashes := NextHash(db, chain, thisHash, hashId, hash, n, v, r0, sh, bound, b, off, hashes, blocks);
      v := db.recs[hashId := HashRec(hash)];
      if thisHash == whichHash {
        hash, n, blocks := WriteRow(db, base0, hashId, hash, whichBlock, whichOff, b, n, r0, sh, bound, off, hashes, blocks, thisHash);
        v := db.recs;
        if n < |b| {
          whichHash, whichBlock, whichOff := whichHash + 1, 0, 0;
        }
      }
      thisHash := thisHash + 1;
    }
    var entries := Max(base0.levels[mode].entries, off + |b|);
    base := base0.(levels := base0.levels[mode := Level(chain, entries)]);
    sh1 := if hashes == [] then NoData else HashChain(hashes, blocks);
    if b != [] || !sh.NoData? {
      ProgressDone(r0, db.lay, base0, base, mode, sh, bound, b, off, db.recs, hashes, blocks);
    } else {
      assert base0.levels[mode].entries == 0 by { EmptyLevel(r0, db.lay, base0.levels[mode]); }
    }
  }

  /** md2WriteDataLowSmall: the write fits the single data block. */
  method WriteDataLowSmall(db: Store, base0: FileInode, mode: nat, b: seq<byte>, off: nat, ghost sh: LevelShape)
    returns (base: FileInode, ghost sh1: LevelShape)
    requires db.AllocOk() && InodeOk(base0, db.lay) && mode < LEVELS && off + |b| <= db.lay.dataUnits
    requires LevelOk(db.recs, db.lay, base0.levels[mode], sh) && !sh.HashChain?
    modifies db
    ensures db.AllocOk() && old(db.Bound()) <= db.Bound()
    ensures WriteDone(old(db.recs), db.recs, db.lay, base0, base, mode, b, off, sh, sh1, old(db.Bound()))
  {
    ghost var r0: Recs := db.recs;
    var chain, block := base0.levels[mode].chain, Zeros(db.lay.dataUnits);
    if chain == NULL {
      chain := db.NewId();
    } else {
      var r := db.Get(chain);
      block := r.value.data;
    }
    block := Patch(block, b, off);
    var entries := Max(base0.levels[mode].entries, off + |b|);
    base := base0.(levels := base0.levels[mode := Level(chain, entries)]);
    db.Put(chain, DataRec(block));
    sh1 := OneBlock(chain);
    SmallWritten(r0, db.lay, base0.levels[mode], sh, b, off, db.recs, chain, block);
    WrittenContents(r0, db.lay, base0.levels[mode], sh, b, off, db.recs, base.levels[mode], sh1);
    SmallFilled(db.lay, sh, off, b, chain);
  }

  lemma SmallFilled(lay: Layout, sh: LevelShape, off: nat, b: seq<byte>, id: Id)
    requires !sh.HashChain? && off + |b| <= lay.dataUnits && (sh.OneBlock? ==> id == sh.block)
    ensures Filled(lay, sh, off, |b|, map[(0, 0) := id]) || (b == [] && sh.NoData?)
  {
    hide Filled;
    if b != [] { FilledFirst(lay, sh, off, |b|, id); } else { FilledStart(lay, sh, off); }
  }

  lemma SmallWritten(r0: Recs, lay: Layout, lvl: Level, sh: LevelShape, b: seq<byte>, off: nat,
                     v: Recs, id: Id, block: seq<byte>)
    requires LevelOk(r0, lay, lvl, sh) && !sh.HashChain? && off + |b| <= lay.dataUnits
    requires v == r0[id := DataRec(block)] && (sh.OneBlock? ==> id == sh.block)
    requires block == Patch(if sh.NoData? then Zeros(lay.dataUnits) else r0[sh.block].data, b, off)
    ensures Written(r0, lay, sh, b, off, |b|, v, map[(0, 0) := id])
  {
    LevelHead(r0, lay, lvl, sh);
    hide LevelOk, ByteAt;
    var data := if sh.NoData? then Zeros(lay.dataUnits) else r0[sh.block].data;
    forall p: nat
      ensures ByteAt(v, lay, map[(0, 0) := id], p) ==
              if off <= p < off + |b| then b[p - off] else ByteAt(r0, lay, Blocks(sh), p)
    {
      PatchedByte(v, lay, id, data, b, off, p);
      if sh.OneBlock? { LoneBlock(r0, lay, id, data, p); } else { NoBlock(r0, lay, p); }
    }
  }

  lemma PatchedByte(v: Recs, lay: Layout, id: Id, data: seq<byte>, b: seq<byte>, off: nat, p: nat)
    requires |data| == lay.dataUnits && off + |b| <= lay.dataUnits
    requires id in v && v[id] == DataRec(Patch(data, b, off))
    ensures ByteAt(v, lay, map[(0, 0) := id], p) ==
            if off <= p < off + |b| then b[p - off] else if p < lay.dataUnits then data[p] else 0
  {
    hide ByteAt;
    LoneBlock(v, lay, id, Patch(data, b, off), p);
  }

  lemma NoBlock(recs: Recs, lay: Layout, p: nat)
    ensures ByteAt(recs, lay, map[], p) == 0
  {
  }

  lemma LoneBlock(recs: Recs, lay: Layout, id: Id, data: seq<byte>, p: nat)
    requires id in recs && recs[id] == DataRec(data) && |data| == lay.dataUnits
    ensures ByteAt(recs, lay, map[(0, 0) := id], p) == if p < lay.dataUnits then data[p] else 0
  {
    hide Row, Column, Offset;
    FirstBlock(lay, 0, lay.dataUnits, p);
    AddressOf(lay, p);
  }

  /** md2WriteDataLowUpgrade: the single block becomes the first block of a new hash record. */
  method WriteDataLowUpgrade(db: Store, base0: FileInode, mode: nat, block: Id, data: seq<byte>)
    returns (base: FileInode, ghost sh1: LevelShape)
    requires db.AllocOk() && InodeOk(base0, db.lay) && mode < LEVELS
    requires LevelOk(db.recs, db.lay, base0.levels[mode], OneBlock(block)) && db.recs[block] == DataRec(data)
    modifies db
    ensures db.AllocOk() && old(db.Bound()) <= db.Bound() && sh1.HashChain?
    ensures mode < |base.levels| && base == base0.(levels := base0.levels[mode := base.levels[mode]])
    ensures LevelOk(db.recs, db.lay, base.levels[mode], sh1)
    ensures Contents(db.recs, db.lay, base.levels[mode], sh1)
            == Contents(old(db.recs), db.lay, base0.levels[mode], OneBlock(block))
    ensures Grown(old(db.recs), db.recs, {block}, LevelIds(sh1), old(db.Bound()))
    ensures Blocks(sh1) == Blocks(OneBlock(block))
  {
    ghost var r0: Recs := db.recs;
    var hashId := db.NewId();
    base := base0.(levels := base0.levels[mode := base0.levels[mode].(chain := hashId)]);
    var hash := FileHash(NULL, Nulls(base.blocksPerHash)[0 := block]);
    db.Put(hashId, HashRec(hash));
    db.Put(block, DataRec(data));
    sh1 := HashChain([hashId], map[(0, 0) := block]);
    forall p: nat ensures ByteAt(db.recs, db.lay, Blocks(sh1), p) == ByteAt(r0, db.lay, Blocks(OneBlock(block)), p) {}
  }

  /** The most a level other than 0 holds. */
  const MAX_META: nat := 4096

  /** An empty write past the first block of an empty level: the only write that is not flat. */
  predicate SizeOnlyWrite(lay: Layout, lvl: Level, b: seq<byte>, off: nat) {
    b == [] && lvl.chain == NULL && off > lay.dataUnits
  }

  function SizeOnly(base: FileInode, mode: nat, off: nat): FileInode
    requires mode < |base.levels|
  {
    base.(levels := base.levels[mode := Level(base.levels[mode].chain, off)])
  }

  /** What a write leaves: the flat write, or only another recorded size. */
  ghost predicate LowWritten(r0: Recs, r1: Recs, lay: Layout, base0: FileInode, base: FileInode, mode: nat,
                             b: seq<byte>, off: nat, sh: LevelShape, sh1: LevelShape, bound: Id)
    requires mode < |base0.levels|
  {
    if SizeOnlyWrite(lay, base0.levels[mode], b, off) then r1 == r0 && base == SizeOnly(base0, mode, off)
    else WriteDone(r0, r1, lay, base0, base, mode, b, off, sh, sh1, bound)
  }

  /** md2WriteDataLow: choose the form of the level.  A level other than 0 takes no more than 4096 bytes. */
  method WriteDataLow(db: Store, base0: FileInode, mode: nat, b0: seq<byte>, off: nat, ghost sh: LevelShape)
    returns (r: Result<FileInode>, ghost sh1: LevelShape)
    requires db.AllocOk() && InodeOk(base0, db.lay) && mode < LEVELS
    requires LevelOk(db.recs, db.lay, base0.levels[mode], sh)
    modifies db
    ensures db.AllocOk() && old(db.Bound()) <= db.Bound()
    ensures r.Err? <==> mode != 0 && off + 4 > 4096
    ensures r.Err? ==> r.error == NoSpace && db.recs == old(db.recs)
    ensures r.Ok? && (mode == 0 || off + |b0| <= 4096) ==>
      LowWritten(old(db.recs), db.recs, db.lay, base0, r.value, mode, b0, off, sh, sh1, old(db.Bound()))
    ensures r.Ok? && mode != 0 && off + |b0| > 4096 ==>
      LowWritten(old(db.recs), db.recs, db.lay, base0, r.value, mode, b0[..4096 - off], off, sh, sh1, old(db.Bound()))
  {
    sh1 := sh;
    var b := b0;
    if mode != 0 {
      if off + 4 > MAX_META { return Err(NoSpace), sh; }
      if off + |b| > MAX_META { b := b[..MAX_META - off]; }
    }
    LevelHead(db.recs, db.lay, base0.levels[mode], sh);
    hide LevelOk, WriteDone;
    var base: FileInode;
    if base0.levels[mode].chain == NULL {
      if off + |b| <= db.lay.dataUnits {
        base, sh1 := WriteDataLowSmall(db, base0, mode, b, off, sh);
      } else {
        base, sh1 := WriteDataLowLarge(db, base0, mode, b, off, sh);
      }
    } else {
      var rec := db.Get(base0.levels[mode].chain);
      if rec.value.HashRec? {
        base, sh1 := WriteDataLowLarge(db, base0, mode, b, off, sh);
      } else if off + |b| <= db.lay.dataUnits {
        base, sh1 := WriteDataLowSmall(db, base0, mode, b, off, sh);
      } else {
        ghost var r0: Recs, bound := db.recs, db.Bound();
        base, sh1 := WriteDataLowUpgrade(db, base0, mode, base0.levels[mode].chain, rec.value.data);
        ghost var r1: Recs, bound1, base1, shu := db.recs, db.Bound(), base, sh1;
        base, sh1 := WriteDataLowLarge(db, base, mode, b, off, sh1);
        WriteAfter(r0, r1, db.recs, db.lay, base0, base1, base, mode, b, off, sh, shu, sh1, bound, bound1);
      }
    }
    r := Ok(base);
  }

  lemma LevelHead(recs: Recs, lay: Layout, lvl: Level, sh: LevelShape)
    requires LevelOk(recs, lay, lvl, sh)
    ensures sh.NoData? <==> lvl.chain == NULL
    ensures !sh.NoData? ==> lvl.chain in recs
    ensures sh.OneBlock? ==> IsBlock(recs, lay, sh.block) && lvl.chain == sh.block
    ensures sh.HashChain? ==> recs[lvl.chain].HashRec?
  {
    if sh.HashChain? { assert HashOk(recs, lay, sh.hashes, sh.blocks, 0); }
  }

  /** A step that keeps the contents, followed by a write, is that write. */
  lemma WriteAfter(r0: Recs, r1: Recs, r2: Recs, lay: Layout, base0: FileInode, base1: FileInode, base2: FileInode,
                   mode: nat, b: seq<byte>, off: nat, sh0: LevelShape, sh1: LevelShape, sh2: LevelShape, bound: Id, bound1: Id)
    requires mode < |base0.levels| && mode < |base1.levels| && bound <= bound1
    requires base1 == base0.(levels := base0.levels[mode := base1.levels[mode]])
    requires Contents(r1, lay, base1.levels[mode], sh1) == Contents(r0, lay, base0.levels[mode], sh0)
    requires Grown(r0, r1, LevelIds(sh0), LevelIds(sh1), bound) && Below(r0, bound)
    requires WriteDone(r1, r2, lay, base1, base2, mode, b, off, sh1, sh2, bound1)
    requires Blocks(sh1) == Blocks(sh0) && sh1.HashChain?
    ensures WriteDone(r0, r2, lay, base0, base2, mode, b, off, sh0, sh2, bound)
  {
    hide LevelOk, Contents, WriteFlat, Touched;
  }
}
