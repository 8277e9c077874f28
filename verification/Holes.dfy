/** The reads that go wrong behind a hole, on files the operations make. */
module Holes {
  import opened Records
  import opened FileShapes
  import opened FileWrite
  import opened FileRead
  import opened TagValues
  import opened Worlds
  import opened Namespace
  import opened FileSystems
  import opened FsFiles
  import opened FsOps

  /** A one at the start of the block behind (i, j), and zeros. */
  function OneByte(count: nat): (b: seq<byte>)
    requires count > 0
    ensures |b| == count && b[0] == 1 && forall k :: 0 < k < count ==> b[k] == 0
  {
    [1] + Zeros(count - 1)
  }

  /** A level to which only bytes from the start of block (i, j + 1) on were written: block (i, j) is a hole, and a
      read that starts inside it and goes on misses the one. */
  lemma HoleAnswer(recs: Recs, lay: Layout, lvl: Level, sh: LevelShape, off: nat, n: nat, next: nat, count: nat)
    requires LevelOk(recs, lay, lvl, sh) && count > 0
    requires Filled(lay, NoData, next, count, Blocks(sh)) && Contents(recs, lay, lvl, sh) == WriteFlat([], OneByte(count), next)
    requires Offset(lay, off) > 0 && Column(lay, off) + 1 < lay.pointers
    requires next == off - Offset(lay, off) + lay.dataUnits && next + count == off + n
    ensures sh.HashChain? && BlocksOk(recs, lay, |sh.hashes|, sh.blocks)
    ensures ReadChain(recs, lay, lvl, |sh.hashes|, sh.blocks, off, n) != Slice(Contents(recs, lay, lvl, sh), off, n)
  {
    hide Address, Row, Column, Offset, ByteAt, ChainOk, ReadWalk, Filled, WriteFlat, LevelOk;
    AddressOf(lay, off);
    var i, j, o := Row(lay, off), Column(lay, off), Offset(lay, off);
    NextAddress(lay, i, j, o);
    Places(lay, i, j, next, count, Blocks(sh));
    FilledChain(recs, lay, lvl, sh, i, j + 1);
    var c := Contents(recs, lay, lvl, sh);
    FlatOne(c, count, next);
    AfterHole(recs, lay, |sh.hashes|, sh.blocks, i, j, o, n);
    BlockByte(recs, lay, sh.blocks, i, j + 1, o);
    if next + o < lvl.entries {
      ContentsAt(recs, lay, lvl, sh, next + o);
    } else {
      BeyondEnd(recs, lay, lvl, sh, next + o);
    }
    assert Slice(c, off, n)[lay.dataUnits - o] == c[next];
  }

  lemma Places(lay: Layout, i: nat, j: nat, next: nat, count: nat, blocks: map<Place, Id>)
    requires Filled(lay, NoData, next, count, blocks) && count > 0 && j + 1 < lay.pointers && next == Address(lay, i, j + 1, 0)
    ensures (i, j) !in blocks && (i, j + 1) in blocks
  {
    hide Address, Row, Column, Offset;
    Locate(lay, i, j + 1, 0, lay.dataUnits, next);
    assert PlaceOf(lay, next) == (i, j + 1);
    NextAddress(lay, i, j, 0);
    forall p: nat | next <= p < next + count ensures PlaceOf(lay, p) != (i, j) {
      Locate(lay, i, j, 0, lay.dataUnits, p);
      AddressOf(lay, p);
    }
  }

  lemma FilledChain(recs: Recs, lay: Layout, lvl: Level, sh: LevelShape, i: nat, j: nat)
    requires LevelOk(recs, lay, lvl, sh) && (i, j) in Blocks(sh) && j > 0
    ensures sh.HashChain? && BlocksOk(recs, lay, |sh.hashes|, sh.blocks) && i < |sh.hashes|
    ensures IsBlock(recs, lay, sh.blocks[(i, j)])
  {
  }

  lemma FlatOne(c: seq<byte>, count: nat, next: nat)
    requires count > 0 && c == WriteFlat([], OneByte(count), next)
    ensures |c| == next + count && c[next] == 1 && forall p :: next < p < next + count ==> c[p] == 0
  {
    forall p | next <= p < next + count ensures c[p] == OneByte(count)[p - next] {
      WriteFlatAt([], OneByte(count), next, p);
    }
  }

  lemma BlockByte(recs: Recs, lay: Layout, blocks: map<Place, Id>, i: nat, j: nat, o: nat)
    requires j < lay.pointers && o < lay.dataUnits && (i, j) in blocks && IsBlock(recs, lay, blocks[(i, j)])
    ensures ByteAt(recs, lay, blocks, Address(lay, i, j, o)) == recs[blocks[(i, j)]].data[o]
    ensures Address(lay, i, j, o) == Address(lay, i, j, 0) + o
  {
    hide Address, Row, Column, Offset;
    AddressUnique(lay, i, j, o);
    Locate(lay, i, j, 0, lay.dataUnits, Address(lay, i, j, o));
  }

  lemma BeyondEnd(recs: Recs, lay: Layout, lvl: Level, sh: LevelShape, p: nat)
    requires LevelOk(recs, lay, lvl, sh) && lvl.entries <= p
    ensures ByteAt(recs, lay, Blocks(sh), p) == 0
  {
  }

  lemma NewFilled(w0: World, w1: World, lay: Layout, id: Id, next: nat, count: nat)
    requires id in w0.shapes && w0.shapes[id] == FileShaped(EmptyLevels())
    requires FilledAt(w0, w1, lay, id, 0, next, count)
    ensures Filled(lay, NoData, next, count, Blocks(LevelsAt(w1, id)[0]))
  {
    hide Filled;
  }

  /** For every layout, offset and length for which a read starts inside a block, goes on behind it, and does not
      start in the last block of a hash record, there is a file, made by one write to a new file, on which
      that read is not the slice of the contents. */
  method WrongRead(lay: Layout, off: nat, n: nat) returns (fs: FileSystem, id: Id, data: seq<byte>)
    requires !InStep(lay, map[], Row(lay, off), Column(lay, off), Offset(lay, off), n)
    ensures fresh(fs) && fresh(fs.db) && Valid(fs) && fs.db.lay == lay
    ensures id in fs.View() && fs.View()[id].FileNode? && |fs.View()[id].contents| == LEVELS
    ensures |fs.View()[id].contents[0]| == off + n && data != Slice(fs.View()[id].contents[0], off, n)
  {
    AddressOf(lay, off);
    hide ShapesOk, Partition, TagInv, ViewOf, TreeOk, Contents, LevelOk, FilledAt, Row, Column, WriteFlat, ReadChain;
    fs := new FileSystem(lay);
    EmptyTree();
    var top := MakeTop(fs);
    DirFlags(fs.W(), lay, top);
    var made := MakeFile(fs, top, "f");
    id := made.value;
    var next: nat := off - off % lay.dataUnits + lay.dataUnits;
    var count: nat := off + n - next;
    FileKnown(fs.W(), lay, id);
    ghost var w0: World := fs.W();
    var written := WriteData(fs, id, 0, OneByte(count), next);
    FileKnown(fs.W(), lay, id);
    var read := ReadData(fs, id, 0, off, n);
    LevelKnown(fs.W(), lay, id, 0);
    NewFilled(w0, fs.W(), lay, id, next, count);
    HoleAnswer(fs.db.recs, lay, fs.db.recs[id].file.levels[0], LevelsAt(fs.W(), id)[0], off, n, next, count);
    data := read.value.data;
  }
}
