/** Reading file levels: md2ReadDataLow and its helpers (md2lib.c).  The block loop keeps the
    starting offset while it skips holes, so a read is the flat slice only under a condition on
    the first block; ReadExact states it in both directions. */
module FileRead {
  import opened Records
  import opened Stores
  import opened FileShapes
  import opened FileWrite

  datatype ReadResult =
    | Bytes(data: seq<byte>)
    | BadCopy                  // memcpy with a negative length

  // ----- the loop as a function -----

  /** The bytes the block loop delivers from block (i, j) on, with `n` bytes to go and the
      variable whichOff at `o`.  Only a block that is present resets whichOff. */
  ghost function ReadWalk(recs: Recs, lay: Layout, rows: nat, blocks: map<Place, Id>, i: nat, j: nat, o: nat, n: nat): seq<byte>
    requires BlocksOk(recs, lay, rows, blocks)
    requires o < lay.dataUnits
    decreases n, if i < rows then rows - i else 0, if j < lay.pointers then 0 else 1
  {
    if n == 0 then []
    else if i >= rows then Zeros(n)
    else if j >= lay.pointers then ReadWalk(recs, lay, rows, blocks, i + 1, 0, 0, n)
    else
      var cpy := Min(n, lay.dataUnits - o);
      if (i, j) in blocks then
        recs[blocks[(i, j)]].data[o..o + cpy] + ReadWalk(recs, lay, rows, blocks, i, j + 1, 0, n - cpy)
      else
        Zeros(cpy) + ReadWalk(recs, lay, rows, blocks, i, j + 1, o, n - cpy)
  }

  /** What keeps a read that starts in block (i, j) at byte `o` in step with the file. */
  ghost predicate InStep(lay: Layout, blocks: map<Place, Id>, i: nat, j: nat, o: nat, n: nat) {
    o == 0 || (i, j) in blocks || o + n <= lay.dataUnits || j + 1 == lay.pointers
  }

  lemma RowBeyond(lay: Layout, i: nat, k: nat)
    ensures Row(lay, Address(lay, i, 0, 0) + k) >= i
  {
    var p := Address(lay, i, 0, 0) + k;
    AddressOf(lay, p);
    if Row(lay, p) < i {
      Further(i, Row(lay, p), lay.pointers);
      Further(i * lay.pointers, Row(lay, p) * lay.pointers + Column(lay, p), lay.dataUnits);
    }
  }

  /** `w` is what the flat file holds from address `a` on. */
  ghost predicate FlatFrom(recs: Recs, lay: Layout, blocks: map<Place, Id>, a: nat, w: seq<byte>) {
    forall k :: 0 <= k < |w| ==> w[k] == ByteAt(recs, lay, blocks, a + k)
  }

  lemma FlatJoin(recs: Recs, lay: Layout, blocks: map<Place, Id>, a: nat, w0: seq<byte>, w1: seq<byte>)
    requires FlatFrom(recs, lay, blocks, a, w0) && FlatFrom(recs, lay, blocks, a + |w0|, w1)
    ensures FlatFrom(recs, lay, blocks, a, w0 + w1)
  {
  }

  lemma FlatBlock(recs: Recs, lay: Layout, rows: nat, blocks: map<Place, Id>, i: nat, j: nat, o: nat, n: nat)
    requires BlocksOk(recs, lay, rows, blocks) && j < lay.pointers && o + n <= lay.dataUnits
    ensures FlatFrom(recs, lay, blocks, Address(lay, i, j, o),
                     if (i, j) in blocks then recs[blocks[(i, j)]].data[o..o + n] else Zeros(n))
  {
    hide Address, Row, Column, Offset;
    var a := Address(lay, i, j, o);
    var w := if (i, j) in blocks then recs[blocks[(i, j)]].data[o..o + n] else Zeros(n);
    forall k | 0 <= k < |w| ensures w[k] == ByteAt(recs, lay, blocks, a + k) {
      Locate(lay, i, j, o, n, a + k);
    }
  }

  lemma FlatBeyond(recs: Recs, lay: Layout, rows: nat, blocks: map<Place, Id>, i: nat, j: nat, o: nat, n: nat)
    requires BlocksOk(recs, lay, rows, blocks) && i >= rows
    ensures FlatFrom(recs, lay, blocks, Address(lay, i, j, o), Zeros(n))
  {
    hide Address, Row, Column, Offset;
    AddressFrom(lay, i, j, o);
    var a, w := Address(lay, i, j, o), Zeros(n);
    forall k | 0 <= k < |w| ensures w[k] == ByteAt(recs, lay, blocks, a + k) {
      RowBeyond(lay, i, a + k - Address(lay, i, 0, 0));
    }
  }

  lemma AddressFrom(lay: Layout, i: nat, j: nat, o: nat)
    ensures Address(lay, i, j, o) >= Address(lay, i, 0, 0)
  {
  }

  /** A read in step delivers the bytes of the flat file. */
  lemma {:induction false} ReadWalkFlat(recs: Recs, lay: Layout, rows: nat, blocks: map<Place, Id>, i: nat, j: nat, o: nat, n: nat)
    requires BlocksOk(recs, lay, rows, blocks) && o < lay.dataUnits && j <= lay.pointers
    requires InStep(lay, blocks, i, j, o, n) && (j == lay.pointers ==> o == 0)
    ensures |ReadWalk(recs, lay, rows, blocks, i, j, o, n)| == n
    ensures FlatFrom(recs, lay, blocks, Address(lay, i, j, o), ReadWalk(recs, lay, rows, blocks, i, j, o, n))
    decreases n, if i < rows then rows - i else 0, if j < lay.pointers then 0 else 1
  {
    hide Address, ByteAt, FlatFrom, BlocksOk;
    if n == 0 {
      FlatNone(recs, lay, blocks, Address(lay, i, j, o));
    } else if i >= rows {
      FlatBeyond(recs, lay, rows, blocks, i, j, o, n);
    } else if j >= lay.pointers {
      NextAddress(lay, i, j, 0);
      ReadWalkFlat(recs, lay, rows, blocks, i + 1, 0, 0, n);
    } else {
      var cpy := Min(n, lay.dataUnits - o);
      FlatBlock(recs, lay, rows, blocks, i, j, o, cpy);
      NextAddress(lay, i, j, o);
      BlockLength(recs, lay, rows, blocks, i, j);
      var first := if (i, j) in blocks then recs[blocks[(i, j)]].data[o..o + cpy] else Zeros(cpy);
      var o1 := if (i, j) in blocks then 0 else o;
      var rest := ReadWalk(recs, lay, rows, blocks, i, j + 1, o1, n - cpy);
      if n == cpy {
        assert first + rest == first;
      } else {
        if o1 == 0 {
          ReadWalkFlat(recs, lay, rows, blocks, i, j + 1, 0, n - cpy);
        } else {
          // the hole is the last block of its row, and the next row starts at offset 0
          ReadWalkFlat(recs, lay, rows, blocks, i + 1, 0, 0, n - cpy);
        }
        FlatJoin(recs, lay, blocks, Address(lay, i, j, o), first, rest);
      }
    }
  }

  lemma FlatNone(recs: Recs, lay: Layout, blocks: map<Place, Id>, a: nat)
    ensures FlatFrom(recs, lay, blocks, a, [])
  {
  }

  lemma BlockLength(recs: Recs, lay: Layout, rows: nat, blocks: map<Place, Id>, i: nat, j: nat)
    requires BlocksOk(recs, lay, rows, blocks)
    ensures (i, j) in blocks ==> IsBlock(recs, lay, blocks[(i, j)])
  {
  }

  // ----- the exact condition -----

  /** What a read of level `lvl` at `off` starts with. */
  ghost predicate ReadInStep(lay: Layout, lvl: Level, blocks: map<Place, Id>, off: nat, size: nat) {
    off >= lvl.entries
    || InStep(lay, blocks, Row(lay, off), Column(lay, off), Offset(lay, off), Min(size, lvl.entries - off))
  }

  ghost function ReadChain(recs: Recs, lay: Layout, lvl: Level, rows: nat, blocks: map<Place, Id>, off: nat, size: nat): seq<byte>
    requires BlocksOk(recs, lay, rows, blocks)
  {
    if off >= lvl.entries then []
    else ReadWalk(recs, lay, rows, blocks, Row(lay, off), Column(lay, off), Offset(lay, off), Min(size, lvl.entries - off))
  }

  lemma ReadChainFlat(recs: Recs, lay: Layout, lvl: Level, sh: LevelShape, off: nat, size: nat)
    requires LevelOk(recs, lay, lvl, sh) && sh.HashChain?
    requires ReadInStep(lay, lvl, sh.blocks, off, size)
    ensures BlocksOk(recs, lay, |sh.hashes|, sh.blocks)
    ensures ReadChain(recs, lay, lvl, |sh.hashes|, sh.blocks, off, size) == Slice(Contents(recs, lay, lvl, sh), off, size)
  {
    hide Address, Row, Column, Offset, ByteAt, ChainOk, ReadWalk;
    ChainBlocks(recs, lay, sh);
    if off < lvl.entries {
      AddressOf(lay, off);
      ReadWalkFlat(recs, lay, |sh.hashes|, sh.blocks, Row(lay, off), Column(lay, off), Offset(lay, off),
                   Min(size, lvl.entries - off));
    }
  }

  lemma ChainBlocks(recs: Recs, lay: Layout, sh: LevelShape)
    requires sh.HashChain? && ChainOk(recs, lay, sh.hashes, sh.blocks)
    ensures BlocksOk(recs, lay, |sh.hashes|, sh.blocks)
  {
  }

  /** After a hole, the block that follows in the same row is read from byte `o` on, not from its start. */
  lemma AfterHole(recs: Recs, lay: Layout, rows: nat, blocks: map<Place, Id>, i: nat, j: nat, o: nat, n: nat)
    requires BlocksOk(recs, lay, rows, blocks) && i < rows && j + 1 < lay.pointers
    requires (i, j) !in blocks && (i, j + 1) in blocks && o < lay.dataUnits < o + n
    ensures var w := ReadWalk(recs, lay, rows, blocks, i, j, o, n);
            |w| > lay.dataUnits - o && w[lay.dataUnits - o] == recs[blocks[(i, j + 1)]].data[o]
  {
    hide BlocksOk;
    BlockLength(recs, lay, rows, blocks, i, j + 1);
    var cpy := lay.dataUnits - o;
    var w1 := ReadWalk(recs, lay, rows, blocks, i, j + 1, o, n - cpy);
    var m := Min(n - cpy, cpy);
    assert w1 == recs[blocks[(i, j + 1)]].data[o..o + m] + ReadWalk(recs, lay, rows, blocks, i, j + 2, 0, n - cpy - m);
    assert ReadWalk(recs, lay, rows, blocks, i, j, o, n) == Zeros(cpy) + w1;
  }

  /** Where the condition fails the read goes wrong: for every layout, offset and length there is a
      level whose first block is a hole and whose next block holds one non-zero byte. */
  lemma HoleReadWrong(lay: Layout, off: nat, n: nat) returns (recs: Recs, lvl: Level, sh: LevelShape)
    requires Offset(lay, off) > 0 && Offset(lay, off) + n > lay.dataUnits && Column(lay, off) + 1 < lay.pointers
    ensures LevelOk(recs, lay, lvl, sh) && sh.HashChain? && lvl.entries == off + n
    ensures (Row(lay, off), Column(lay, off)) !in sh.blocks
    ensures ReadChain(recs, lay, lvl, |sh.hashes|, sh.blocks, off, n) != Slice(Contents(recs, lay, lvl, sh), off, n)
  {
    hide Address, Row, Column, Offset, LevelOk, ChainOk, ByteAt, LoneByte, ReadWalk;
    AddressOf(lay, off);
    var i, j, o := Row(lay, off), Column(lay, off), Offset(lay, off);
    lvl := Level(IssuedId(0), off + n);
    recs, sh := LoneByte(lay, i, j + 1).0, LoneByte(lay, i, j + 1).1;
    LoneByteAt(lay, i, j + 1, recs, sh);
    NextAddress(lay, i, j, o);
    var cpy := lay.dataUnits - o;
    AfterHole(recs, lay, i + 1, sh.blocks, i, j, o, n);
    ContentsAt(recs, lay, lvl, sh, off + cpy);
    var c := Contents(recs, lay, lvl, sh);
    assert Slice(c, off, n)[cpy] == c[off + cpy];
  }

  lemma ContentsAt(recs: Recs, lay: Layout, lvl: Level, sh: LevelShape, p: nat)
    requires p < lvl.entries
    ensures Contents(recs, lay, lvl, sh)[p] == ByteAt(recs, lay, Blocks(sh), p)
  {
  }

  /** The reads that skip a hole right are known from offset and length alone: reading `n` bytes at `off`
      is the flat slice for every level whose first block is a hole if and only if the read is block
      aligned, ends in that block, or starts in the last block of a hash record. */
  lemma ReadExact(lay: Layout, off: nat, n: nat)
    ensures (forall recs, lvl, sh ::
               LevelOk(recs, lay, lvl, sh) && sh.HashChain? && off + n <= lvl.entries
               && (Row(lay, off), Column(lay, off)) !in sh.blocks ==>
               ReadAgrees(recs, lay, lvl, sh, off, n))
        <==> InStep(lay, map[], Row(lay, off), Column(lay, off), Offset(lay, off), n)
  {
    hide Address, Row, Column, Offset, LevelOk;
    AddressOf(lay, off);
    if InStep(lay, map[], Row(lay, off), Column(lay, off), Offset(lay, off), n) {
      forall recs, lvl, sh | LevelOk(recs, lay, lvl, sh) && sh.HashChain? && off + n <= lvl.entries
        && (Row(lay, off), Column(lay, off)) !in sh.blocks
        ensures ReadAgrees(recs, lay, lvl, sh, off, n)
      {
        ReadChainFlat(recs, lay, lvl, sh, off, n);
      }
    } else {
      var recs, lvl, sh := HoleReadWrong(lay, off, n);
      assert !ReadAgrees(recs, lay, lvl, sh, off, n);
    }
  }

  ghost predicate ReadAgrees(recs: Recs, lay: Layout, lvl: Level, sh: LevelShape, off: nat, n: nat) {
    && sh.HashChain? && BlocksOk(recs, lay, |sh.hashes|, sh.blocks)
    && ReadChain(recs, lay, lvl, |sh.hashes|, sh.blocks, off, n) == Slice(Contents(recs, lay, lvl, sh), off, n)
  }

  /** The IDs a new store issues, in order. */
  ghost function IssuedId(k: nat): Id { FIRST + STEP * k }

  /** A chain of i + 1 hash records whose only block, at (i, j), starts with a one. */
  ghost function LoneByte(lay: Layout, i: nat, j: nat): (r: (Recs, LevelShape))
    requires j < lay.pointers
  {
    ((map id: Id | id in LoneIds(i) ::
        if id == IssuedId(i + 1) then DataRec(Zeros(lay.dataUnits)[0 := 1])
        else if id == IssuedId(i) then HashRec(FileHash(NULL, Nulls(lay.pointers)[j := IssuedId(i + 1)]))
        else HashRec(FileHash(id + STEP, Nulls(lay.pointers)))),
     HashChain(seq(i + 1, k requires 0 <= k <= i => IssuedId(k)), map[(i, j) := IssuedId(i + 1)]))
  }

  ghost function LoneIds(i: nat): (s: set<Id>)
    ensures forall k: nat :: k <= i + 1 ==> IssuedId(k) in s
  {
    if i == 0 then {IssuedId(0), IssuedId(1)} else LoneIds(i - 1) + {IssuedId(i + 1)}
  }

  lemma LoneByteAt(lay: Layout, i: nat, j: nat, recs: Recs, sh: LevelShape)
    requires j < lay.pointers && (recs, sh) == LoneByte(lay, i, j)
    ensures forall p: nat :: ByteAt(recs, lay, sh.blocks, p) == if p == Address(lay, i, j, 0) then 1 else 0
    ensures sh.HashChain? && |sh.hashes| == i + 1 && sh.blocks == map[(i, j) := IssuedId(i + 1)]
    ensures IssuedId(i + 1) in recs && recs[IssuedId(i + 1)] == DataRec(Zeros(lay.dataUnits)[0 := 1])
    ensures BlocksOk(recs, lay, i + 1, sh.blocks)
    ensures forall entries: nat :: entries > Address(lay, i, j, 0) ==> LevelOk(recs, lay, Level(IssuedId(0), entries), sh)
  {
    hide Address, Row, Column, Offset;
    var b := IssuedId(i + 1);
    assert sh.hashes == seq(i + 1, k requires 0 <= k <= i => IssuedId(k)) && sh.blocks == map[(i, j) := b];
    assert recs[b] == DataRec(Zeros(lay.dataUnits)[0 := 1]);
    forall p: nat ensures ByteAt(recs, lay, sh.blocks, p) == if p == Address(lay, i, j, 0) then 1 else 0 {
      AddressOf(lay, p);
      Locate(lay, i, j, 0, 1, p);
      assert ByteAt(recs, lay, sh.blocks, p) == Cell(recs, sh.blocks, (Row(lay, p), Column(lay, p)), Offset(lay, p));
    }
    forall x | 0 <= x < |sh.hashes| ensures HashOk(recs, lay, sh.hashes, sh.blocks, x) {
      var h := IssuedId(x);
      assert sh.hashes[x] == h && (x < i ==> sh.hashes[x + 1] == h + STEP);
      assert recs[h] == if x == i then HashRec(FileHash(NULL, Nulls(lay.pointers)[j := b]))
                        else HashRec(FileHash(h + STEP, Nulls(lay.pointers)));
    }
  }

  // ----- the methods -----

  /** md2ReadDataLowSmall: the length of the copy is negative when `off` lies between the end of
      the file and the end of the block. */
  method ReadDataLowSmall(lay: Layout, entries: nat, block: seq<byte>, off: nat, size: nat) returns (r: ReadResult)
    requires |block| == lay.dataUnits
    ensures entries <= lay.dataUnits ==>
      (r.Bytes? <==> off <= entries || off >= lay.dataUnits)
      && (r.Bytes? ==> r.data == Slice(block[..entries], off, size))
  {
    var rend := Min(lay.dataUnits, entries);
    if off < lay.dataUnits {
      var rsize := Min(size, rend - off);
      if rsize < 0 { return BadCopy; }
      r := Bytes(block[off..off + rsize]);
    } else {
      r := Bytes([]);
    }
  }

  lemma WalkStep(recs: Recs, lay: Layout, rows: nat, blocks: map<Place, Id>, i: nat, j: nat, o: nat, n: nat)
    requires BlocksOk(recs, lay, rows, blocks) && i < rows && j < lay.pointers && o < lay.dataUnits && n > 0
    ensures (i, j) in blocks ==> IsBlock(recs, lay, blocks[(i, j)])
    ensures var cpy := Min(n, lay.dataUnits - o);
            ReadWalk(recs, lay, rows, blocks, i, j, o, n) ==
            if (i, j) in blocks
            then recs[blocks[(i, j)]].data[o..o + cpy] + ReadWalk(recs, lay, rows, blocks, i, j + 1, 0, n - cpy)
            else Zeros(cpy) + ReadWalk(recs, lay, rows, blocks, i, j + 1, o, n - cpy)
  {
  }

  lemma WalkNextRow(recs: Recs, lay: Layout, rows: nat, blocks: map<Place, Id>, i: nat, j: nat, o: nat, n: nat)
    requires BlocksOk(recs, lay, rows, blocks) && i < rows && o < lay.dataUnits
    requires n == 0 || j >= lay.pointers
    ensures ReadWalk(recs, lay, rows, blocks, i, j, o, n)
            == ReadWalk(recs, lay, rows, blocks, i + 1, 0, if n > 0 then 0 else o, n)
  {
  }

  /** One pass of the block loop: a hole leaves whichOff as it is. */
  method ReadBlock(db: Store, hash: FileHash, pos: nat, whichOff0: nat, rest: nat,
                   ghost hashes: seq<Id>, ghost blocks: map<Place, Id>, ghost i: nat)
    returns (part: seq<byte>, whichOff: nat)
    requires BlocksOk(db.recs, db.lay, |hashes|, blocks)
    requires i < |hashes| && HashOk(db.recs, db.lay, hashes, blocks, i) && db.recs[hashes[i]] == HashRec(hash)
    requires pos < db.lay.pointers && whichOff0 < db.lay.dataUnits && rest > 0
    ensures 0 < |part| <= rest && whichOff < db.lay.dataUnits
    ensures ReadWalk(db.recs, db.lay, |hashes|, blocks, i, pos, whichOff0, rest)
            == part + ReadWalk(db.recs, db.lay, |hashes|, blocks, i, pos + 1, whichOff, rest - |part|)
  {
    hide BlocksOk, ReadWalk;
    WalkStep(db.recs, db.lay, |hashes|, blocks, i, pos, whichOff0, rest);
    var cpy := Min(rest, db.lay.dataUnits - whichOff0);
    if hash.pointers[pos] == NULL {
      part, whichOff := Zeros(cpy), whichOff0;
    } else {
      var r := db.Get(hash.pointers[pos]);
      part, whichOff := r.value.data[whichOff0..whichOff0 + cpy], 0;
    }
  }

  /** The block loop of md2ReadDataLowLarge over the hash record `hash`. */
  method ReadRow(db: Store, base: FileInode, hash: FileHash, whichBlock: nat, whichOff0: nat, rest0: nat,
                 ghost hashes: seq<Id>, ghost blocks: map<Place, Id>, ghost i: nat)
    returns (b: seq<byte>, whichOff: nat, rest: nat)
    requires InodeOk(base, db.lay) && BlocksOk(db.recs, db.lay, |hashes|, blocks)
    requires i < |hashes| && HashOk(db.recs, db.lay, hashes, blocks, i) && db.recs[hashes[i]] == HashRec(hash)
    requires whichBlock < db.lay.pointers && whichOff0 < db.lay.dataUnits && rest0 > 0
    ensures rest < rest0 && whichOff < db.lay.dataUnits && (rest > 0 ==> whichOff == 0)
    ensures ReadWalk(db.recs, db.lay, |hashes|, blocks, i, whichBlock, whichOff0, rest0)
            == b + ReadWalk(db.recs, db.lay, |hashes|, blocks, i + 1, 0, whichOff, rest)
  {
    hide BlocksOk, ReadWalk, HashOk;
    b, whichOff, rest := [], whichOff0, rest0;
    var pos: nat := whichBlock;
    while rest > 0 && pos < base.blocksPerHash
      invariant whichBlock <= pos <= db.lay.pointers && whichOff < db.lay.dataUnits && rest <= rest0
      invariant pos > whichBlock ==> rest < rest0
      invariant ReadWalk(db.recs, db.lay, |hashes|, blocks, i, whichBlock, whichOff0, rest0)
                == b + ReadWalk(db.recs, db.lay, |hashes|, blocks, i, pos, whichOff, rest)
      decreases db.lay.pointers - pos
    {
      var part, o := ReadBlock(db, hash, pos, whichOff, rest, hashes, blocks, i);
      Associate(b, part, ReadWalk(db.recs, db.lay, |hashes|, blocks, i, pos + 1, o, rest - |part|));
      b, rest, pos, whichOff := b + part, rest - |part|, pos + 1, o;
    }
    WalkNextRow(db.recs, db.lay, |hashes|, blocks, i, pos, whichOff, rest);
    if rest > 0 {
      whichOff := 0;
    }
  }

  /** md2ReadDataLowLarge. */
  method ReadDataLowLarge(db: Store, base: FileInode, mode: nat, off: nat, size: nat, ghost sh: LevelShape)
    returns (b: seq<byte>)
    requires InodeOk(base, db.lay) && mode < LEVELS
    requires LevelOk(db.recs, db.lay, base.levels[mode], sh) && sh.HashChain?
    ensures BlocksOk(db.recs, db.lay, |sh.hashes|, sh.blocks)
    ensures b == ReadChain(db.recs, db.lay, base.levels[mode], |sh.hashes|, sh.blocks, off, size)
  {
    ChainBlocks(db.recs, db.lay, sh);
    hide Address, Row, Column, Offset, BlocksOk;
    var lvl := base.levels[mode];
    var whichHash: nat, whichBlock: nat, whichOff: nat := StartPosition(db.lay, base, off);
    AddressUnique(db.lay, whichHash, whichBlock, whichOff);
    var wanted := Min(off + size, lvl.entries) - off;
    if wanted <= 0 {
      return [];
    }
    var rest: nat, thisId: Id, thisHash: nat := wanted, lvl.chain, 0;
    b := [];
    while rest > 0
      invariant rest > 0 ==> thisHash <= whichHash && thisHash <= |sh.hashes|
      invariant rest > 0 ==> thisId == if thisHash < |sh.hashes| then sh.hashes[thisHash] else NULL
      invariant whichBlock < db.lay.pointers && whichOff < db.lay.dataUnits
      invariant ReadChain(db.recs, db.lay, lvl, |sh.hashes|, sh.blocks, off, size)
                == b + ReadWalk(db.recs, db.lay, |sh.hashes|, sh.blocks, whichHash, whichBlock, whichOff, rest)
      decreases rest, whichHash - thisHash
    {
      if thisId == NULL {
        assert thisHash < |sh.hashes| ==> HashOk(db.recs, db.lay, sh.hashes, sh.blocks, thisHash);
        b, rest := b + Zeros(rest), 0;
        break;
      }
      assert HashOk(db.recs, db.lay, sh.hashes, sh.blocks, thisHash);
      var r := db.Get(thisId);
      var hash := r.value.hash;
      thisId := hash.next;
      if thisHash == whichHash {
        var part, o, left := ReadRow(db, base, hash, whichBlock, whichOff, rest, sh.hashes, sh.blocks, thisHash);
        ghost var after := ReadWalk(db.recs, db.lay, |sh.hashes|, sh.blocks, whichHash + 1, 0, o, left);
        assert b + (part + after) == (b + part) + after;
        b, whichHash, whichBlock, whichOff, rest := b + part, whichHash + 1, 0, o, left;
      }
      thisHash := thisHash + 1;
    }
  }

  /** md2ReadDataLow: what a read of a well-formed level delivers. */
  method ReadDataLow(db: Store, base: FileInode, mode: nat, off: nat, size: nat, ghost sh: LevelShape)
    returns (r: ReadResult)
    requires InodeOk(base, db.lay) && mode < LEVELS
    requires LevelOk(db.recs, db.lay, base.levels[mode], sh)
    ensures r.BadCopy? <==> sh.OneBlock? && base.levels[mode].entries < off < db.lay.dataUnits
    ensures r.Bytes? && (sh.HashChain? ==> ReadInStep(db.lay, base.levels[mode], sh.blocks, off, size)) ==>
            r.data == Slice(Contents(db.recs, db.lay, base.levels[mode], sh), off, size)
    ensures sh.HashChain? ==>
      BlocksOk(db.recs, db.lay, |sh.hashes|, sh.blocks) && r.Bytes?
      && r.data == ReadChain(db.recs, db.lay, base.levels[mode], |sh.hashes|, sh.blocks, off, size)
  {
    var lvl := base.levels[mode];
    LevelHead(db.recs, db.lay, lvl, sh);
    if lvl.chain == NULL {
      return Bytes([]);
    }
    var rec := db.Get(lvl.chain);
    if rec.value.HashRec? {
      var b := ReadDataLowLarge(db, base, mode, off, size, sh);
      r := Bytes(b);
      if ReadInStep(db.lay, lvl, sh.blocks, off, size) { ReadChainFlat(db.recs, db.lay, lvl, sh, off, size); }
    } else {
      r := ReadDataLowSmall(db.lay, lvl.entries, rec.value.data, off, size);
      SmallContents(db.recs, db.lay, lvl, sh.block);
    }
  }

  lemma SmallContents(recs: Recs, lay: Layout, lvl: Level, block: Id)
    requires LevelOk(recs, lay, lvl, OneBlock(block))
    ensures Contents(recs, lay, lvl, OneBlock(block)) == recs[block].data[..lvl.entries]
  {
    forall p: nat | p < lvl.entries ensures ByteAt(recs, lay, Blocks(OneBlock(block)), p) == recs[block].data[p] {
      LoneBlock(recs, lay, block, recs[block].data, p);
    }
  }
}
