/** The whole store: which records belong to which inode, and what the inodes stand for. */
module Worlds {
  import opened Records
  import opened Frames
  import opened FileShapes
  import opened FileWrite
  import opened DirShapes
  import opened TagShapes

  datatype Shape =
    | DirShaped(dir: DirShape, tags: seq<Id>)
    | FileShaped(levels: seq<LevelShape>)
    | LinkShaped(paths: seq<Id>)

  type Shapes = map<Id, Shape>

  // ----- the records of one inode -----

  ghost function LevelsIds(levels: seq<LevelShape>): set<Id> {
    if levels == [] then {} else LevelsIds(levels[..|levels| - 1]) + LevelIds(levels[|levels| - 1])
  }

  ghost function PathIds(paths: seq<Id>): set<Id> {
    IdSet(paths) - {NULL}
  }

  /** An inode and everything reached from it without crossing another inode. */
  ghost function Foot(n: Id, sh: Shape): set<Id> {
    match sh
    case DirShaped(dir, tags) => DirIds(n, dir) + IdSet(tags)
    case FileShaped(levels) => {n} + LevelsIds(levels)
    case LinkShaped(paths) => {n} + PathIds(paths)
  }

  /** Tag names fit their field, and no directory has the same name twice. */
  ghost predicate NamesOk(recs: Recs, tags: seq<Id>) {
    && (forall k :: 0 <= k < |tags| ==> IsTag(recs, tags[k]) && |recs[tags[k]].tag.name| <= TAG_NAME)
    && forall i, k :: 0 <= i < k < |tags| && IsTag(recs, tags[i]) && IsTag(recs, tags[k]) ==>
         recs[tags[i]].tag.name != recs[tags[k]].tag.name
  }

  ghost predicate DirShapeOk(recs: Recs, lay: Layout, n: Id, dir: DirShape, tags: seq<Id>) {
    && DirOk(recs, lay, n, dir) && recs[n].dir.hashSize == lay.hashSize && recs[n].dir.perRow == lay.pointers
    && TagsOk(recs, n, recs[n].dir.tag, tags) && NamesOk(recs, tags)
  }

  ghost predicate FileShapeOk(recs: Recs, lay: Layout, n: Id, levels: seq<LevelShape>) {
    && n in recs && n != NULL && recs[n].FileRec? && InodeOk(recs[n].file, lay) && |levels| == LEVELS
    && (forall i :: 0 <= i < LEVELS ==> LevelOk(recs, lay, recs[n].file.levels[i], levels[i]))
    && forall i, k :: 0 <= i < k < LEVELS ==> LevelIds(levels[i]) !! LevelIds(levels[k])
  }

  ghost predicate PathOk(recs: Recs, l: Level, id: Id) {
    l.chain == id && (id == NULL ==> l.entries == 0) && (id != NULL ==> id in recs && recs[id].PathRec? && |recs[id].path| == l.entries)
  }

  ghost predicate LinkShapeOk(recs: Recs, n: Id, paths: seq<Id>) {
    && n in recs && n != NULL && recs[n].LinkRec? && |recs[n].link.levels| == LEVELS && |paths| == LEVELS
    && (forall i :: 0 <= i < LEVELS ==> PathOk(recs, recs[n].link.levels[i], paths[i]))
    && forall i, k :: 0 <= i < k < LEVELS && paths[i] == paths[k] ==> paths[i] == NULL
  }

  ghost predicate ShapeOk(recs: Recs, lay: Layout, n: Id, sh: Shape) {
    match sh
    case DirShaped(dir, tags) => DirShapeOk(recs, lay, n, dir, tags)
    case FileShaped(levels) => FileShapeOk(recs, lay, n, levels)
    case LinkShaped(paths) => LinkShapeOk(recs, n, paths)
  }

  // ----- what an inode stands for -----

  datatype Node =
    | DirNode(parent: Id, noRemove: bool, noMove: bool, entries: map<Name, Item>, tags: seq<Id>)
    | FileNode(parent: Id, contents: seq<seq<byte>>)
    | LinkNode(parent: Id, paths: seq<Option<string>>)

  ghost function PathAt(recs: Recs, id: Id): Option<string> {
    if id != NULL && id in recs && recs[id].PathRec? then Some(recs[id].path) else None
  }

  ghost function NodeOf(recs: Recs, lay: Layout, n: Id, sh: Shape): Node
    requires ShapeOk(recs, lay, n, sh)
  {
    match sh
    case DirShaped(dir, tags) =>
      DirNode(recs[n].dir.parent, recs[n].dir.noRemove, recs[n].dir.noMove, Entries(recs, dir), tags)
    case FileShaped(levels) =>
      FileNode(recs[n].file.parent, seq(LEVELS, i requires 0 <= i < LEVELS => Contents(recs, lay, recs[n].file.levels[i], levels[i])))
    case LinkShaped(paths) =>
      LinkNode(recs[n].link.parent, seq(LEVELS, i requires 0 <= i < LEVELS => PathAt(recs, paths[i])))
  }

  // ----- framing -----

  lemma {:induction false} LevelInLevels(levels: seq<LevelShape>, i: nat)
    requires i < |levels|
    ensures LevelIds(levels[i]) <= LevelsIds(levels)
  {
    var l := |levels| - 1;
    if i < l { LevelInLevels(levels[..l], i); }
  }

  lemma FootStored(recs: Recs, lay: Layout, n: Id, sh: Shape)
    requires ShapeOk(recs, lay, n, sh)
    ensures n in Foot(n, sh) && Foot(n, sh) <= recs.Keys
  {
    match sh
    case DirShaped(dir, tags) =>
      DirIdsStored(recs, lay, n, dir);
    case FileShaped(levels) =>
      LevelsStored(recs, lay, recs[n].file.levels, levels, LEVELS);
      assert levels[..LEVELS] == levels;
    case LinkShaped(paths) =>
      forall id | id in PathIds(paths) ensures id in recs {
        var i :| 0 <= i < |paths| && paths[i] == id;
        assert PathOk(recs, recs[n].link.levels[i], paths[i]);
      }
  }

  lemma {:induction false} LevelsStored(recs: Recs, lay: Layout, lvls: seq<Level>, levels: seq<LevelShape>, k: nat)
    requires k <= |levels| == |lvls| && forall i :: 0 <= i < |levels| ==> LevelOk(recs, lay, lvls[i], levels[i])
    ensures forall id :: id in LevelsIds(levels[..k]) ==> id in recs && (recs[id].HashRec? || recs[id].DataRec?)
  {
    if k > 0 {
      LevelsStored(recs, lay, lvls, levels, k - 1);
      assert levels[..k][..k - 1] == levels[..k - 1];
      LevelIdsStored(recs, lay, lvls[k - 1], levels[k - 1]);
    }
  }

  /** An inode's shape and meaning depend only on its own records. */
  lemma ShapeFrame(r0: Recs, r1: Recs, lay: Layout, n: Id, sh: Shape)
    requires ShapeOk(r0, lay, n, sh) && SameInside(r0, r1, Foot(n, sh))
    ensures ShapeOk(r1, lay, n, sh) && NodeOf(r1, lay, n, sh) == NodeOf(r0, lay, n, sh)
  {
    FootStored(r0, lay, n, sh);
    match sh
    case DirShaped(dir, tags) =>
      DirShapeFrame(r0, r1, lay, n, dir, tags);
    case FileShaped(levels) =>
      FileShapeFrame(r0, r1, lay, n, levels);
    case LinkShaped(paths) =>
      LinkShapeFrame(r0, r1, lay, n, paths);
  }

  lemma DirShapeFrame(r0: Recs, r1: Recs, lay: Layout, n: Id, dir: DirShape, tags: seq<Id>)
    requires DirShapeOk(r0, lay, n, dir, tags) && SameInside(r0, r1, Foot(n, DirShaped(dir, tags)))
    ensures DirShapeOk(r1, lay, n, dir, tags)
    ensures NodeOf(r1, lay, n, DirShaped(dir, tags)) == NodeOf(r0, lay, n, DirShaped(dir, tags))
  {
    hide DirOk, NamesOk, Entries;
    DirFrame(r0, r1, lay, n, dir);
    assert n in DirIds(n, dir);
    assert forall id :: id in tags ==> id in IdSet(tags);
    TagsFrame(r0, r1, n, r0[n].dir.tag, tags);
    NamesFrame(r0, r1, tags);
  }

  lemma NamesFrame(r0: Recs, r1: Recs, tags: seq<Id>)
    requires NamesOk(r0, tags) && forall id :: id in tags ==> id in r0 && id in r1 && r0[id] == r1[id]
    ensures NamesOk(r1, tags)
  {
  }

  lemma FileShapeFrame(r0: Recs, r1: Recs, lay: Layout, n: Id, levels: seq<LevelShape>)
    requires FileShapeOk(r0, lay, n, levels) && SameInside(r0, r1, Foot(n, FileShaped(levels)))
    ensures FileShapeOk(r1, lay, n, levels)
    ensures NodeOf(r1, lay, n, FileShaped(levels)) == NodeOf(r0, lay, n, FileShaped(levels))
  {
    hide LevelOk, Contents, LevelIds;
    forall i | 0 <= i < LEVELS
      ensures LevelOk(r1, lay, r0[n].file.levels[i], levels[i])
      ensures Contents(r1, lay, r0[n].file.levels[i], levels[i]) == Contents(r0, lay, r0[n].file.levels[i], levels[i])
    {
      LevelInLevels(levels, i);
      LevelFrame(r0, r1, lay, r0[n].file.levels[i], levels[i]);
    }
  }

  lemma LinkShapeFrame(r0: Recs, r1: Recs, lay: Layout, n: Id, paths: seq<Id>)
    requires LinkShapeOk(r0, n, paths) && SameInside(r0, r1, Foot(n, LinkShaped(paths)))
    ensures LinkShapeOk(r1, n, paths)
    ensures NodeOf(r1, lay, n, LinkShaped(paths)) == NodeOf(r0, lay, n, LinkShaped(paths))
  {
  }

  // ----- the whole store -----

  /** The records, the shape of every inode, and the inode every record belongs to. */
  datatype World = World(recs: Recs, shapes: Shapes, owner: map<Id, Id>)

  ghost function FootOf(w: World, a: Id): set<Id> {
    if a in w.shapes then Foot(a, w.shapes[a]) else {}
  }

  /** The records are exactly the disjoint union of the records of the inodes. */
  ghost predicate Partition(w: World) {
    && (forall a, x :: x in FootOf(w, a) ==> x in w.owner && w.owner[x] == a)
    && (forall x :: x in w.recs ==> x in w.owner && x in FootOf(w, w.owner[x]))
  }

  ghost predicate ShapesOk(w: World, lay: Layout) {
    forall a :: a in w.shapes ==> ShapeOk(w.recs, lay, a, w.shapes[a])
  }

  ghost predicate Settled(w: World, lay: Layout) {
    ShapesOk(w, lay) && Partition(w)
  }

  type View = map<Id, Node>

  ghost function ViewOf(w: World, lay: Layout): (v: View)
    requires ShapesOk(w, lay)
    ensures v.Keys == w.shapes.Keys
  {
    map a | a in w.shapes :: NodeOf(w.recs, lay, a, w.shapes[a])
  }

  /** No leak and no dangling pointer: the stored IDs are the union of the footprints, no two of which meet. */
  lemma DisjointUnion(w: World, lay: Layout)
    requires Settled(w, lay)
    ensures forall x :: x in w.recs <==> x in w.owner && x in FootOf(w, w.owner[x])
    ensures forall a :: a in w.shapes ==> FootOf(w, a) <= w.recs.Keys
    ensures forall a, b :: a in w.shapes && b in w.shapes && a != b ==> FootOf(w, a) !! FootOf(w, b)
  {
    hide Foot, ShapeOk;
    forall a | a in w.shapes ensures FootOf(w, a) <= w.recs.Keys {
      FootStored(w.recs, lay, a, w.shapes[a]);
    }
    forall x | x in w.owner && x in FootOf(w, w.owner[x]) ensures x in w.recs {
      assert w.owner[x] in w.shapes;
    }
  }

  ghost function NewFoot(a: Id, sh: Option<Shape>): set<Id> {
    if sh.Some? then Foot(a, sh.value) else {}
  }

  /** The world after an operation on inode `a`, which then has shape `sh`, or is gone. */
  ghost function After(w: World, r1: Recs, a: Id, sh: Option<Shape>): World {
    World(r1,
          if sh.Some? then w.shapes[a := sh.value] else w.shapes - {a},
          map x | x in (w.owner.Keys - FootOf(w, a)) + NewFoot(a, sh) :: if x in NewFoot(a, sh) then a else w.owner[x])
  }

  lemma OthersKept(w: World, lay: Layout, r1: Recs, a: Id, sh: Option<Shape>, bound: Id, b: Id)
    requires Settled(w, lay) && Replaced(w.recs, r1, FootOf(w, a), NewFoot(a, sh), bound)
    requires b in w.shapes && b != a
    ensures ShapeOk(w.recs, lay, b, w.shapes[b]) && ShapeOk(r1, lay, b, w.shapes[b])
    ensures NodeOf(r1, lay, b, w.shapes[b]) == NodeOf(w.recs, lay, b, w.shapes[b])
    ensures FootOf(w, b) !! NewFoot(a, sh)
  {
    hide Foot, ShapeOk, NodeOf;
    FootStored(w.recs, lay, b, w.shapes[b]);
    forall x | x in FootOf(w, b)
      ensures x !in FootOf(w, a) && x in w.recs && x !in NewFoot(a, sh) && x in r1 && r1[x] == w.recs[x]
    {
    }
    ShapeFrame(w.recs, r1, lay, b, w.shapes[b]);
  }

  /** An operation that replaces the records of one inode keeps the partition, and every other inode's meaning. */
  lemma AfterSettled(w: World, lay: Layout, r1: Recs, a: Id, sh: Option<Shape>, bound: Id)
    requires Settled(w, lay) && Replaced(w.recs, r1, FootOf(w, a), NewFoot(a, sh), bound)
    requires sh.Some? ==> ShapeOk(r1, lay, a, sh.value)
    ensures Settled(After(w, r1, a, sh), lay)
    ensures ViewOf(After(w, r1, a, sh), lay) ==
            if sh.Some? then ViewOf(w, lay)[a := NodeOf(r1, lay, a, sh.value)] else ViewOf(w, lay) - {a}
  {
    hide Foot, ShapeOk, NodeOf, Replaced;
    var w1 := After(w, r1, a, sh);
    forall b | b in w.shapes && b != a
      ensures ShapeOk(w.recs, lay, b, w.shapes[b]) && ShapeOk(r1, lay, b, w.shapes[b])
      ensures NodeOf(r1, lay, b, w.shapes[b]) == NodeOf(w.recs, lay, b, w.shapes[b])
      ensures FootOf(w, b) !! NewFoot(a, sh)
    {
      OthersKept(w, lay, r1, a, sh, bound, b);
    }
    AfterPartition(w, r1, a, sh, bound);
  }

  lemma AfterPartition(w: World, r1: Recs, a: Id, sh: Option<Shape>, bound: Id)
    requires Partition(w) && Replaced(w.recs, r1, FootOf(w, a), NewFoot(a, sh), bound)
    requires forall b :: b in w.shapes && b != a ==> FootOf(w, b) !! NewFoot(a, sh)
    ensures Partition(After(w, r1, a, sh))
  {
    hide Foot;
    var w1 := After(w, r1, a, sh);
    forall b, x | x in FootOf(w1, b) ensures x in w1.owner && w1.owner[x] == b {
      if b == a {
        assert x in NewFoot(a, sh);
        assert x in w1.owner;
      } else {
        assert x in FootOf(w, b) && b in w.shapes && FootOf(w, b) !! NewFoot(a, sh);
        assert x !in NewFoot(a, sh);
        assert x in w.owner && w.owner[x] == b;
        assert x !in FootOf(w, a);
        assert x in w1.owner;
      }
    }
    forall x | x in w1.recs ensures x in w1.owner && x in FootOf(w1, w1.owner[x]) {
      if x in NewFoot(a, sh) {
        assert w1.owner[x] == a;
      } else {
        assert x !in FootOf(w, a) && x in w.recs && x in FootOf(w, w.owner[x]);
      }
    }
  }
}
