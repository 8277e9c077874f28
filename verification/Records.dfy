/** The records of the metadata database (md2ptypes.h), reduced to the fields the
    file-system logic reads and writes.  IDs are the value of the (ext, high, low)
    triple; IdArithmetic shows that the multi-word arithmetic agrees with it. */
module Records {

  type Id = nat
  const NULL: Id := 0
  const ROOT: Id := 0x100      // the root record, which is kept apart from the others

  newtype byte = x: int | 0 <= x < 256

  /** The sizes the C compiler derives from the record length.  They depend on the width
      of `long`, so they stay symbolic. */
  datatype RawLayout = RawLayout(
    dataUnits: nat,     // bytes in a data block
    pointers: nat,      // IDs in a hash record
    hashSize: nat,      // buckets in a directory
    slots: nat,         // items in a directory block
    tagSize: nat)       // bytes in a tag inode

  type Layout = l: RawLayout |
      && l.dataUnits > 0 && l.pointers > 0 && l.hashSize > 0 && l.slots > 0 && l.tagSize > 0
    witness RawLayout(928, 77, 128, 3, 100)

  datatype Level = Level(chain: Id, entries: nat)
  const LEVELS: nat := 8

  /** Names are C strings of seven-bit characters that fit the name field. */
  type Name = s: string | |s| < 200 && forall i :: 0 <= i < |s| ==> 0 < s[i] as int < 128

  datatype Item = Item(id: Id, name: Name, entryOnly: bool, expire: int)
  const EMPTY_ITEM: Item := Item(NULL, "", false, 0)

  datatype DirInode = DirInode(parent: Id, count: int, tag: Id, noRemove: bool, noMove: bool,
                               hashSize: nat, perRow: nat, handles: seq<Id>)
  datatype DirBlock = DirBlock(next: Id, highWater: nat, items: seq<Item>)
  datatype FileInode = FileInode(parent: Id, levels: seq<Level>, bytesPerBlock: nat, blocksPerHash: nat)
  datatype FileHash = FileHash(next: Id, pointers: seq<Id>)
  datatype LinkInode = LinkInode(parent: Id, levels: seq<Level>)
  datatype TagInode = TagInode(next: Id, base: Id, parent: Id, name: string,
                               inherited: bool, invalid: bool, entries: nat, data: seq<byte>)

  /** One constructor for each combination of type bits the file system stores. */
  datatype Record =
    | DirRec(dir: DirInode)         // mdtDirectory | mdtInode
    | RowRec(row: seq<Id>)          // mdtDirectory | mdtHash
    | SlotsRec(slots: DirBlock)     // mdtDirectory | mdtData
    | FileRec(file: FileInode)      // mdtRegular | mdtInode
    | HashRec(hash: FileHash)       // mdtRegular | mdtHash
    | DataRec(data: seq<byte>)      // mdtRegular | mdtData
    | LinkRec(link: LinkInode)      // mdtLink | mdtInode
    | PathRec(path: string)         // mdtLink | mdtData
    | TagRec(tag: TagInode)         // mdtTag | mdtInode

  type Recs = map<Id, Record>

  datatype Error =
    | NotFound | NotDirectory | NotRegular | NotEmpty | NotAllowed | Exists | NoSpace | BadName | Panic

  datatype Option<T> = None | Some(value: T)
  datatype Result<T> = Ok(value: T) | Err(error: Error)

  function Zeros(n: nat): (s: seq<byte>)
    ensures |s| == n && forall i :: 0 <= i < n ==> s[i] == 0
  {
    seq(n, i => 0)
  }

  function Nulls(n: nat): (s: seq<Id>)
    ensures |s| == n && forall i :: 0 <= i < n ==> s[i] == NULL
  {
    seq(n, i => NULL)
  }

  ghost function IdSet(ids: seq<Id>): set<Id> {
    set x | x in ids
  }

  lemma Associate<T>(a: seq<T>, b: seq<T>, c: seq<T>)
    ensures a + b + c == a + (b + c)
  {
  }

  function Min(a: int, b: int): int { if a < b then a else b }
  function Max(a: int, b: int): int { if a > b then a else b }

  /** The records outside `ids` are the same in both stores. */
  ghost predicate SameOutside(r0: Recs, r1: Recs, ids: set<Id>) {
    forall id :: id !in ids ==> (id in r0 <==> id in r1) && (id in r0 ==> r0[id] == r1[id])
  }

  ghost predicate SameInside(r0: Recs, r1: Recs, ids: set<Id>) {
    forall id :: id in ids ==> id in r0 && id in r1 && r0[id] == r1[id]
  }
}
