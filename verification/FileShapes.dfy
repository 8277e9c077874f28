/** What the records of one file level mean.  A level is empty, a single data block, or a
    chain of hash records whose pointers name data blocks or holes; all three stand for
    the same thing, a sequence of bytes that is zero from `entries` on. */
module FileShapes {
  import opened Records

  /** A data block is found at (hash record, pointer) coordinates. */
  type Place = (nat, nat)

  datatype LevelShape =
    | NoData
    | OneBlock(block: Id)
    | HashChain(hashes: seq<Id>, blocks: map<Place, Id>)

  ghost function Used(hashes: seq<Id>, blocks: map<Place, Id>): set<Id> {
    (set h | h in hashes) + blocks.Values
  }

  ghost function Blocks(sh: LevelShape): map<Place, Id> {
    match sh
    case NoData => map[]
    case OneBlock(b) => map[(0, 0) := b]
    case HashChain(_, blocks) => blocks
  }

  ghost function LevelIds(sh: LevelShape): set<Id> {
    match sh
    case NoData => {}
    case OneBlock(b) => {b}
    case HashChain(hashes, blocks) => Used(hashes, blocks)
  }

  // ----- byte addresses -----

  ghost function Row(lay: Layout, p: nat): nat { p / lay.dataUnits / lay.pointers }
  ghost function Column(lay: Layout, p: nat): nat { p / lay.dataUnits % lay.pointers }
  ghost function Offset(lay: Layout, p: nat): nat { p % lay.dataUnits }
  ghost function Address(lay: Layout, i: nat, j: nat, o: nat): nat { (i * lay.pointers + j) * lay.dataUnits + o }

  lemma {:induction false} Further(a: nat, b: nat, d: nat)
    requires a > b
    ensures a * d >= b * d + d
    decreases a
  {
    assert a * d == (a - 1) * d + d;
    if a > b + 1 { Further(a - 1, b, d); }
  }

  lemma DivModUnique(n: nat, d: nat, q: nat, r: nat)
    requires d > 0 && r < d && n == q * d + r
    ensures n / d == q && n % d == r
  {
    if n / d > q { Further(n / d, q, d); }
    if q > n / d { Further(q, n / d, d); }
  }

  lemma AddressOf(lay: Layout, p: nat)
    ensures Column(lay, p) < lay.pointers && Offset(lay, p) < lay.dataUnits
    ensures p == Address(lay, Row(lay, p), Column(lay, p), Offset(lay, p))
  {
  }

  lemma AddressUnique(lay: Layout, i: nat, j: nat, o: nat)
    requires j < lay.pointers && o < lay.dataUnits
    ensures Row(lay, Address(lay, i, j, o)) == i
    ensures Column(lay, Address(lay, i, j, o)) == j
    ensures Offset(lay, Address(lay, i, j, o)) == o
  {
    DivModUnique(Address(lay, i, j, o), lay.dataUnits, i * lay.pointers + j, o);
    DivModUnique(i * lay.pointers + j, lay.pointers, i, j);
  }

  /** The bytes [o, o+n) of block (i, j) are the addresses from Address(i, j, o) on. */
  lemma Locate(lay: Layout, i: nat, j: nat, o: nat, n: nat, p: nat)
    requires j < lay.pointers && o + n <= lay.dataUnits
    ensures Row(lay, p) == i && Column(lay, p) == j && o <= Offset(lay, p) < o + n
            <==> Address(lay, i, j, o) <= p < Address(lay, i, j, o) + n
    ensures Row(lay, p) == i && Column(lay, p) == j ==> p - Address(lay, i, j, o) == Offset(lay, p) - o
  {
    AddressOf(lay, p);
    if Address(lay, i, j, o) <= p < Address(lay, i, j, o) + n {
      AddressUnique(lay, i, j, o + (p - Address(lay, i, j, o)));
    }
  }

  lemma FirstBlock(lay: Layout, o: nat, n: nat, p: nat)
    requires o + n <= lay.dataUnits
    ensures Row(lay, p) == 0 && Column(lay, p) == 0 && o <= Offset(lay, p) < o + n <==> o <= p < o + n
    ensures Row(lay, p) == 0 && Column(lay, p) == 0 ==> Offset(lay, p) == p
  {
    assert Address(lay, 0, 0, o) == o;
    hide Address, Row, Column, Offset;
    Locate(lay, 0, 0, o, n, p);
  }

  lemma NextAddress(lay: Layout, i: nat, j: nat, o: nat)
    requires o <= lay.dataUnits
    ensures Address(lay, i, j + 1, 0) == Address(lay, i, j, o) + (lay.dataUnits - o)
    ensures Address(lay, i + 1, 0, 0) == Address(lay, i, lay.pointers, 0)
  {
  }

  // ----- invariants -----

  ghost function NextIn(ids: seq<Id>, i: nat): Id
    requires i < |ids|
  {
    if i + 1 < |ids| then ids[i + 1] else NULL
  }

  ghost function PointerAt(blocks: map<Place, Id>, i: nat, j: nat): Id {
    if (i, j) in blocks then blocks[(i, j)] else NULL
  }

  ghost predicate HashOk(recs: Recs, lay: Layout, hashes: seq<Id>, blocks: map<Place, Id>, i: nat)
    requires i < |hashes|
  {
    var h := hashes[i];
    && h in recs && h != NULL && recs[h].HashRec?
    && recs[h].hash.next == NextIn(hashes, i)
    && |recs[h].hash.pointers| == lay.pointers
    && forall j :: 0 <= j < lay.pointers ==> recs[h].hash.pointers[j] == PointerAt(blocks, i, j)
  }

  ghost predicate IsBlock(recs: Recs, lay: Layout, id: Id) {
    id in recs && id != NULL && recs[id].DataRec? && |recs[id].data| == lay.dataUnits
  }

  ghost predicate Distinct(ids: seq<Id>) {
    forall i, k :: 0 <= i < k < |ids| ==> ids[i] != ids[k]
  }

  ghost predicate BlocksOk(recs: Recs, lay: Layout, rows: nat, blocks: map<Place, Id>) {
    && (forall k :: k in blocks ==> k.0 < rows && k.1 < lay.pointers && IsBlock(recs, lay, blocks[k]))
    && (forall k, l :: k in blocks && l in blocks && blocks[k] == blocks[l] ==> k == l)
  }

  ghost predicate ChainOk(recs: Recs, lay: Layout, hashes: seq<Id>, blocks: map<Place, Id>) {
    && (forall i :: 0 <= i < |hashes| ==> HashOk(recs, lay, hashes, blocks, i))
    && Distinct(hashes)
    && BlocksOk(recs, lay, |hashes|, blocks)
  }

  ghost function Cell(recs: Recs, blocks: map<Place, Id>, k: Place, o: nat): byte {
    if k in blocks && blocks[k] in recs && recs[blocks[k]].DataRec? && o < |recs[blocks[k]].data|
    then recs[blocks[k]].data[o] else 0
  }

  ghost function ByteAt(recs: Recs, lay: Layout, blocks: map<Place, Id>, p: nat): byte {
    Cell(recs, blocks, (Row(lay, p), Column(lay, p)), Offset(lay, p))
  }

  /** The stored form of a level: pointers, distinctness, and zeros from `entries` on. */
  ghost predicate LevelOk(recs: Recs, lay: Layout, lvl: Level, sh: LevelShape) {
    && (match sh
        case NoData => lvl.chain == NULL && lvl.entries == 0
        case OneBlock(b) => lvl.chain == b && IsBlock(recs, lay, b) && lvl.entries <= lay.dataUnits
        case HashChain(hashes, blocks) =>
          hashes != [] && lvl.chain == hashes[0] && ChainOk(recs, lay, hashes, blocks))
    && forall p: nat :: lvl.entries <= p ==> ByteAt(recs, lay, Blocks(sh), p) == 0
  }

  /** The abstract value of a level. */
  ghost function Contents(recs: Recs, lay: Layout, lvl: Level, sh: LevelShape): (s: seq<byte>)
    ensures |s| == lvl.entries
  {
    seq(lvl.entries, (p: nat) => ByteAt(recs, lay, Blocks(sh), p))
  }

  /** Writing to a flat file: extend with zeros as far as needed, then overwrite. */
  ghost function WriteFlat(c: seq<byte>, b: seq<byte>, off: nat): (s: seq<byte>)
    ensures |s| == Max(|c|, off + |b|)
  {
    var z := if |c| < off + |b| then c + Zeros(off + |b| - |c|) else c;
    z[..off] + b + z[off + |b|..]
  }

  /** What a read of a flat file returns: the slice clipped at the end of the file. */
  ghost function Slice(c: seq<byte>, off: nat, size: nat): seq<byte> {
    if off >= |c| then [] else c[off..Min(off + size, |c|)]
  }

  // ----- framing -----

  lemma LevelIdsStored(recs: Recs, lay: Layout, lvl: Level, sh: LevelShape)
    requires LevelOk(recs, lay, lvl, sh)
    ensures forall id :: id in LevelIds(sh) ==> id in recs && id != NULL && (recs[id].HashRec? || recs[id].DataRec?)
  {
    if sh.HashChain? {
      forall id | id in sh.hashes ensures id in recs && id != NULL && recs[id].HashRec? {
        var i :| 0 <= i < |sh.hashes| && sh.hashes[i] == id;
        assert HashOk(recs, lay, sh.hashes, sh.blocks, i);
      }
    }
  }

  lemma ByteFrame(r0: Recs, r1: Recs, lay: Layout, blocks: map<Place, Id>, p: nat)
    requires forall id :: id in blocks.Values ==> (id in r0 <==> id in r1) && (id in r0 ==> r0[id] == r1[id])
    ensures ByteAt(r0, lay, blocks, p) == ByteAt(r1, lay, blocks, p)
  {
  }

  /** A level depends only on its own records. */
  lemma LevelFrame(r0: Recs, r1: Recs, lay: Layout, lvl: Level, sh: LevelShape)
    requires LevelOk(r0, lay, lvl, sh)
    requires SameInside(r0, r1, LevelIds(sh))
    ensures LevelOk(r1, lay, lvl, sh)
    ensures Contents(r0, lay, lvl, sh) == Contents(r1, lay, lvl, sh)
  {
    forall p: nat ensures ByteAt(r0, lay, Blocks(sh), p) == ByteAt(r1, lay, Blocks(sh), p) {
      ByteFrame(r0, r1, lay, Blocks(sh), p);
    }
    if sh.HashChain? {
      forall i | 0 <= i < |sh.hashes| ensures HashOk(r1, lay, sh.hashes, sh.blocks, i) {
        assert HashOk(r0, lay, sh.hashes, sh.blocks, i);
        assert sh.hashes[i] in LevelIds(sh);
      }
      forall k | k in sh.blocks ensures IsBlock(r1, lay, sh.blocks[k]) {
        assert sh.blocks[k] in sh.blocks.Values;
      }
    }
  }

  // ----- the three steps of a write -----

  /** A new hash record at the end of the chain changes no byte. */
  lemma AppendHash(r0: Recs, r1: Recs, lay: Layout, hashes: seq<Id>, blocks: map<Place, Id>, h: Id)
    requires ChainOk(r0, lay, hashes, blocks) && h !in r0 && h != NULL
    requires r1 == (if hashes == [] then r0
                    else var l := hashes[|hashes| - 1]; assert HashOk(r0, lay, hashes, blocks, |hashes| - 1); r0[l := HashRec(r0[l].hash.(next := h))])
                   [h := HashRec(FileHash(NULL, Nulls(lay.pointers)))]
    ensures ChainOk(r1, lay, hashes + [h], blocks)
    ensures forall p: nat :: ByteAt(r1, lay, blocks, p) == ByteAt(r0, lay, blocks, p)
    ensures Used(hashes + [h], blocks) == Used(hashes, blocks) + {h}
  {
    forall i | 0 <= i < |hashes| + 1 ensures HashOk(r1, lay, hashes + [h], blocks, i) {
      if i < |hashes| { assert HashOk(r0, lay, hashes, blocks, i); }
    }
    forall i | 0 <= i < |hashes| ensures hashes[i] in r0 && hashes[i] != h && r0[hashes[i]].HashRec? {
      assert HashOk(r0, lay, hashes, blocks, i);
    }
    forall p: nat ensures ByteAt(r1, lay, blocks, p) == ByteAt(r0, lay, blocks, p) {
      var k := (Row(lay, p), Column(lay, p));
      if k in blocks { assert IsBlock(r0, lay, blocks[k]); }
    }
  }

  /** Filling a hole with a block of zeros changes no byte. */
  lemma FillHole(r0: Recs, r1: Recs, lay: Layout, hashes: seq<Id>, blocks: map<Place, Id>, i: nat, j: nat, b: Id)
    requires ChainOk(r0, lay, hashes, blocks) && i < |hashes| && j < lay.pointers
    requires (i, j) !in blocks && b !in r0 && b != NULL
    requires HashOk(r0, lay, hashes, blocks, i)
    requires r1 == r0[hashes[i] := HashRec(r0[hashes[i]].hash.(pointers := r0[hashes[i]].hash.pointers[j := b]))][b := DataRec(Zeros(lay.dataUnits))]
    ensures ChainOk(r1, lay, hashes, blocks[(i, j) := b])
    ensures forall p: nat :: ByteAt(r1, lay, blocks[(i, j) := b], p) == ByteAt(r0, lay, blocks, p)
    ensures Used(hashes, blocks[(i, j) := b]) == Used(hashes, blocks) + {b}
  {
    var blocks1 := blocks[(i, j) := b];
    forall x | 0 <= x < |hashes| ensures HashOk(r1, lay, hashes, blocks1, x) {
      assert HashOk(r0, lay, hashes, blocks, x);
    }
    forall k | k in blocks ensures IsBlock(r1, lay, blocks[k]) && blocks[k] != b {
      assert IsBlock(r0, lay, blocks[k]);
    }
    forall p: nat ensures ByteAt(r1, lay, blocks1, p) == ByteAt(r0, lay, blocks, p) {
      var k := (Row(lay, p), Column(lay, p));
      if k in blocks { assert IsBlock(r0, lay, blocks[k]); }
    }
    assert blocks1.Values == blocks.Values + {b} by {
      forall v | v in blocks.Values + {b} ensures v in blocks1.Values {
        if v == b { assert blocks1[(i, j)] == b; }
        else { var k :| k in blocks && blocks[k] == v; assert blocks1[k] == v; }
      }
    }
  }

  /** Copying `cpy` bytes of `b` into a block changes exactly those addresses. */
  lemma OverwriteBlock(r0: Recs, r1: Recs, lay: Layout, hashes: seq<Id>, blocks: map<Place, Id>,
                       i: nat, j: nat, o: nat, src: seq<byte>)
    requires ChainOk(r0, lay, hashes, blocks) && (i, j) in blocks && IsBlock(r0, lay, blocks[(i, j)])
    requires o + |src| <= lay.dataUnits
    requires r1 == r0[blocks[(i, j)] := DataRec(Patch(r0[blocks[(i, j)]].data, src, o))]
    ensures ChainOk(r1, lay, hashes, blocks)
    ensures forall p: nat :: ByteAt(r1, lay, blocks, p) ==
              var a := Address(lay, i, j, o);
              if a <= p < a + |src| then src[p - a] else ByteAt(r0, lay, blocks, p)
  {
    forall x | 0 <= x < |hashes| ensures HashOk(r1, lay, hashes, blocks, x) {
      assert HashOk(r0, lay, hashes, blocks, x);
    }
    var a := Address(lay, i, j, o);
    forall p: nat ensures ByteAt(r1, lay, blocks, p) ==
                          if a <= p < a + |src| then src[p - a] else ByteAt(r0, lay, blocks, p) {
      Locate(lay, i, j, o, |src|, p);
      var k := (Row(lay, p), Column(lay, p));
      if k in blocks && k != (i, j) { assert blocks[k] != blocks[(i, j)]; }
    }
  }

  /** memcpy into a buffer at offset `o`. */
  function Patch(data: seq<byte>, src: seq<byte>, o: nat): (s: seq<byte>)
    requires o + |src| <= |data|
    ensures |s| == |data|
    ensures forall k :: 0 <= k < |data| ==> s[k] == if o <= k < o + |src| then src[k - o] else data[k]
  {
    data[..o] + src + data[o + |src|..]
  }
}
