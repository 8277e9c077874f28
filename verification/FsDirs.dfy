/** Deleting directories and moving inodes to another parent (md2lib.c), as steps of the file system. */
module FsDirs {
  import opened Records
  import opened Frames
  import opened Stores
  import opened FileShapes
  import opened DirShapes
  import opened Dirs
  import opened DirFree
  import opened TagShapes
  import opened TagValues
  import opened Worlds
  import opened FileSystems
  import opened FsFiles

  // ----- deleting -----

  /** The chain of `x` meets a tag of `gone` before it ends. */
  ghost predicate Severed(recs: Recs, x: Id, gone: set<Id>) {
    x in gone ||
    (IsTag(recs, x) && Inherits(recs[x].tag) && recs[x].tag.parent < x && Severed(recs, recs[x].tag.parent, gone))
  }

  /** Deleting tags: the tags whose chain leads through one of them have no value any more, all others keep theirs. */
  lemma {:induction false} SeveredValue(r0: Recs, r1: Recs, lay: Layout, gone: set<Id>, x: Id)
    requires TagInv(r0, lay) && IsTag(r0, x)
    requires forall y :: IsTag(r1, y) <==> IsTag(r0, y) && y !in gone
    requires forall y :: IsTag(r1, y) ==> r1[y] == r0[y]
    ensures x !in gone ==> Value(r1, x) == if Severed(r0, x, gone) then None else Value(r0, x)
    ensures Top(r1, x) == if Severed(r0, x, gone) then None else Top(r0, x)
    ensures !Severed(r0, x, gone) && Top(r0, x).Some? ==> Top(r0, x).value !in gone
  {
    assert TagOk(r0, lay, x);
    TopIsTag(r0, lay, x);
    if x !in gone && Inherits(r0[x].tag) {
      var p := r0[x].tag.parent;
      if IsTag(r0, p) {
        SeveredValue(r0, r1, lay, gone, p);
      } else {
        assert Top(r0, p) == None && Top(r1, p) == None;
      }
    }
  }

  /** The tags `gone` went: no other tag changed, but whatever inherited through one of them has no value. */
  ghost predicate Cleared(r0: Recs, r1: Recs, gone: seq<Id>) {
    forall x ::
      && (IsTag(r1, x) <==> IsTag(r0, x) && x !in gone)
      && (IsTag(r1, x) ==> r1[x] == r0[x] && Value(r1, x) == if Severed(r0, x, IdSet(gone)) then None else Value(r0, x))
  }

  lemma ClearedTags(r0: Recs, r1: Recs, lay: Layout, foot: set<Id>, gone: seq<Id>)
    requires TagInv(r0, lay) && r1 == r0 - foot
    requires forall x :: IsTag(r0, x) ==> (x in foot <==> x in gone)
    ensures TagInv(r1, lay) && Cleared(r0, r1, gone)
  {
    forall x | IsTag(r1, x) ensures TagOk(r1, lay, x) {
      assert TagOk(r0, lay, x);
    }
    forall x | IsTag(r1, x) ensures Value(r1, x) == if Severed(r0, x, IdSet(gone)) then None else Value(r0, x) {
      SeveredValue(r0, r1, lay, IdSet(gone), x);
    }
  }

  lemma FootTags(w: World, lay: Layout, d: Id, x: Id)
    requires Settled(w, lay) && d in w.recs && w.recs[d].DirRec? && IsTag(w.recs, x)
    ensures x in FootOf(w, d) <==> x in TagsAt(w, d)
  {
    hide DirOk, ShapesOk, Partition;
    DirKnown(w, lay, d);
    DirFoot(w, d);
    DirIdsStored(w.recs, lay, d, DirAt(w, d));
  }

  /** md2DeleteDirectory: an empty directory goes with its rows, blocks and tags, and nothing else does. */
  method DeleteDir(fs: FileSystem, id: Id) returns (r: Result<()>)
    requires fs.Sound()
    modifies fs, fs.db
    ensures fs.Sound() && old(fs.db.Bound()) == fs.db.Bound()
    ensures r == if id !in old(fs.db.recs) then Err(NotFound)
                 else if !old(fs.db.recs)[id].DirRec? then Err(NotDirectory)
                 else if id in old(fs.View()) && old(fs.View())[id].DirNode? && old(fs.View())[id].entries != map[] then Err(NotEmpty)
                 else Ok(())
    ensures r.Err? ==> fs.W() == old(fs.W())
    ensures r.Ok? ==>
      && id in old(fs.View()) && fs.View() == old(fs.View()) - {id}
      && fs.db.recs == old(fs.db.recs) - FootOf(old(fs.W()), id)
      && old(fs.View())[id].DirNode? && Cleared(old(fs.db.recs), fs.db.recs, old(fs.View())[id].tags)
  {
    hide Settled, TagInv, After, ViewOf, Below, Value, FootOf, Entries, DirOk, TagsOk, NamesOk, Cleared;
    ghost var w: World, bound := fs.W(), fs.db.Bound();
    DirKnown(w, fs.db.lay, id);
    var d := DeleteDirectory(fs.db, id, DirAt(w, id), TagsAt(w, id));
    if d.Err? { return d; }
    DirFoot(w, id);
    GoneStep(w, fs.db.lay, fs.db.recs, id, bound);
    forall x | IsTag(w.recs, x) ensures x in FootOf(w, id) <==> x in TagsAt(w, id) {
      FootTags(w, fs.db.lay, id, x);
    }
    ClearedTags(w.recs, fs.db.recs, fs.db.lay, FootOf(w, id), TagsAt(w, id));
    ghost var w1 := After(w, fs.db.recs, id, None);
    AfterFields(w, fs.db.recs, id, None);
    fs.shapes, fs.owner := w1.shapes, w1.owner;
    r := d;
  }

  lemma DirFoot(w: World, d: Id)
    requires d in w.shapes && w.shapes[d] == DirShaped(DirAt(w, d), TagsAt(w, d))
    ensures FootOf(w, d) == DirIds(d, DirAt(w, d)) + IdSet(TagsAt(w, d))
  {
  }

  // ----- moving -----

  /** md2ChangeParent. */
  function Reparented(rec: Record, parent: Id): Option<Record> {
    match rec
    case DirRec(d) => Some(DirRec(d.(parent := parent)))
    case FileRec(f) => Some(FileRec(f.(parent := parent)))
    case LinkRec(l) => Some(LinkRec(l.(parent := parent)))
    case TagRec(t) => Some(TagRec(t.(parent := parent)))
    case _ => None
  }

  lemma ParentShape(r0: Recs, lay: Layout, n: Id, sh: Shape, parent: Id)
    requires ShapeOk(r0, lay, n, sh) && n in r0 && Reparented(r0[n], parent).Some? && !r0[n].TagRec?
    ensures ShapeOk(r0[n := Reparented(r0[n], parent).value], lay, n, sh)
    ensures NodeOf(r0[n := Reparented(r0[n], parent).value], lay, n, sh) == NodeOf(r0, lay, n, sh).(parent := parent)
    ensures !r0[n := Reparented(r0[n], parent).value][n].TagRec?
  {
    match sh
    case DirShaped(dir, tags) => ParentDir(r0, lay, n, dir, tags, parent);
    case FileShaped(levels) => ParentFile(r0, lay, n, levels, parent);
    case LinkShaped(paths) => ParentLink(r0, lay, n, paths, parent);
  }

  lemma ParentDir(r0: Recs, lay: Layout, n: Id, dir: DirShape, tags: seq<Id>, parent: Id)
    requires DirShapeOk(r0, lay, n, dir, tags)
    ensures var r1 := r0[n := DirRec(r0[n].dir.(parent := parent))];
            && DirShapeOk(r1, lay, n, dir, tags)
            && NodeOf(r1, lay, n, DirShaped(dir, tags)) == DirNode(parent, r0[n].dir.noRemove, r0[n].dir.noMove, Entries(r0, dir), tags)
  {
    hide DirCore, Entries, NamesOk, TagsOk;
    InodeDir(r0, lay, n, dir, tags, r0[n].dir.(parent := parent));
  }

  /** The parent and the protection of a directory bear on nothing but themselves. */
  lemma InodeDir(r0: Recs, lay: Layout, n: Id, dir: DirShape, tags: seq<Id>, d: DirInode)
    requires DirShapeOk(r0, lay, n, dir, tags)
    requires d == r0[n].dir.(parent := d.parent, noRemove := d.noRemove, noMove := d.noMove)
    ensures var r1 := r0[n := DirRec(d)];
            && DirShapeOk(r1, lay, n, dir, tags)
            && NodeOf(r1, lay, n, DirShaped(dir, tags)) ==
               DirNode(d.parent, d.noRemove, d.noMove, Entries(r0, dir), tags)
  {
    hide DirCore, Entries, NamesOk;
    CoreSame(r0, lay, r0[n].dir, d, dir);
    PutInode(r0, lay, n, d, dir);
    TagIdsStored(r0, n, r0[n].dir.tag, tags);
    TagsFrame(r0, r0[n := DirRec(d)], n, d.tag, tags);
    NamesFrame(r0, r0[n := DirRec(d)], tags);
  }

  lemma ParentFile(r0: Recs, lay: Layout, n: Id, levels: seq<LevelShape>, parent: Id)
    requires FileShapeOk(r0, lay, n, levels)
    ensures var r1 := r0[n := FileRec(r0[n].file.(parent := parent))];
            && FileShapeOk(r1, lay, n, levels)
            && NodeOf(r1, lay, n, FileShaped(levels)) == FileNode(parent, NodeOf(r0, lay, n, FileShaped(levels)).contents)
  {
    hide LevelOk, Contents, LevelIds;
    var r1 := r0[n := FileRec(r0[n].file.(parent := parent))];
    forall i | 0 <= i < LEVELS
      ensures LevelOk(r1, lay, r0[n].file.levels[i], levels[i])
      ensures Contents(r1, lay, r0[n].file.levels[i], levels[i]) == Contents(r0, lay, r0[n].file.levels[i], levels[i])
    {
      LevelIdsStored(r0, lay, r0[n].file.levels[i], levels[i]);
      LevelFrame(r0, r1, lay, r0[n].file.levels[i], levels[i]);
    }
  }

  lemma ParentLink(r0: Recs, lay: Layout, n: Id, paths: seq<Id>, parent: Id)
    requires LinkShapeOk(r0, n, paths)
    ensures var r1 := r0[n := LinkRec(r0[n].link.(parent := parent))];
            && LinkShapeOk(r1, n, paths)
            && NodeOf(r1, lay, n, LinkShaped(paths)) == LinkNode(parent, NodeOf(r0, lay, n, LinkShaped(paths)).paths)
  {
  }

  method ChangeParent(fs: FileSystem, id: Id, parent: Id) returns (r: Result<()>)
    requires fs.Sound() && (id in fs.db.recs ==> !fs.db.recs[id].TagRec?)
    modifies fs, fs.db
    ensures fs.Sound() && SameTags(old(fs.db.recs), fs.db.recs) && old(fs.db.Bound()) == fs.db.Bound()
    ensures r == if id in old(fs.View()) then Ok(()) else Err(NotFound)
    ensures r.Err? ==> fs.W() == old(fs.W())
    ensures r.Ok? ==> fs.View() == old(fs.View())[id := old(fs.View())[id].(parent := parent)]
    ensures forall x :: IsTag(old(fs.db.recs), x) ==> Value(fs.db.recs, x) == Value(old(fs.db.recs), x)
  {
    hide Settled, TagInv, After, ViewOf, Below, Value, FootOf;
    ghost var w: World, bound := fs.W(), fs.db.Bound();
    var rec := fs.db.Get(id);
    InodeOnly(w, fs.db.lay, id, parent);
    if rec.None? { return Err(NotFound); }
    var moved := Reparented(rec.value, parent);
    if moved.None? { return Err(NotFound); }
    fs.db.Put(id, moved.value);
    ParentStep(w, fs.db.lay, id, parent, bound);
    BelowPut(w.recs, bound, bound, id, moved.value);
    ghost var sh := w.shapes[id];
    ghost var w1 := After(w, fs.db.recs, id, Some(sh));
    AfterFields(w, fs.db.recs, id, Some(sh));
    fs.shapes, fs.owner := w1.shapes, w1.owner;
    r := Ok(());
  }

  lemma InodeOnly(w: World, lay: Layout, id: Id, parent: Id)
    requires Settled(w, lay) && (id in w.recs ==> !w.recs[id].TagRec?)
    ensures id in w.recs && Reparented(w.recs[id], parent).Some? <==> id in ViewOf(w, lay)
    ensures id in ViewOf(w, lay) ==> id in w.shapes
  {
    hide ShapeOk, NodeOf, Foot, Partition;
    InodeKinds(w, lay, id);
  }

  lemma InodeThere(w: World, lay: Layout, n: Id)
    requires Settled(w, lay)
    ensures n in ViewOf(w, lay) <==> n in w.recs && (w.recs[n].DirRec? || w.recs[n].FileRec? || w.recs[n].LinkRec?)
    ensures n in ViewOf(w, lay) ==>
              && (ViewOf(w, lay)[n].DirNode? <==> w.recs[n].DirRec?)
              && (ViewOf(w, lay)[n].FileNode? <==> w.recs[n].FileRec?)
              && (ViewOf(w, lay)[n].LinkNode? <==> w.recs[n].LinkRec?)
  {
    hide ShapeOk, Partition, Foot, NodeOf;
    InodeKinds(w, lay, n);
    DirKnown(w, lay, n);
    FileKnown(w, lay, n);
    LinkKnown(w, lay, n);
  }

  /** The root record is kept apart: the allocator never issues its ID. */
  lemma NoRoot(fs: FileSystem)
    requires fs.Sound()
    ensures ROOT !in fs.View()
  {
    hide ShapesOk, Partition, TagInv, ViewOf;
    InodeThere(fs.W(), fs.db.lay, ROOT);
  }

  lemma ParentStep(w: World, lay: Layout, n: Id, parent: Id, bound: Id)
    requires Settled(w, lay) && TagInv(w.recs, lay) && Below(w.recs, bound) && bound > ROOT
    requires n in w.shapes && n in w.recs && !w.recs[n].TagRec? && Reparented(w.recs[n], parent).Some?
    ensures var r1 := w.recs[n := Reparented(w.recs[n], parent).value];
            var w1 := After(w, r1, n, Some(w.shapes[n]));
            && Settled(w1, lay) && n in ViewOf(w, lay) && ViewOf(w1, lay) == ViewOf(w, lay)[n := ViewOf(w, lay)[n].(parent := parent)]
            && TagInv(r1, lay) && SameTags(w.recs, r1)
            && forall x :: IsTag(w.recs, x) ==> Value(r1, x) == Value(w.recs, x)
  {
    hide ShapeOk, NodeOf, TagInv, Below, Value, Foot, Partition;
    ParentShape(w.recs, lay, n, w.shapes[n], parent);
    InodeStep(w, lay, n, Reparented(w.recs[n], parent).value, bound);
  }

  /** A change to the record of one inode. */
  lemma InodeStep(w: World, lay: Layout, n: Id, rec: Record, bound: Id)
    requires Settled(w, lay) && TagInv(w.recs, lay) && Below(w.recs, bound) && bound > ROOT
    requires n in w.shapes && n in w.recs && !w.recs[n].TagRec? && !rec.TagRec?
    requires ShapeOk(w.recs[n := rec], lay, n, w.shapes[n])
    ensures var r1 := w.recs[n := rec];
            var w1 := After(w, r1, n, Some(w.shapes[n]));
            && Settled(w1, lay) && ViewOf(w1, lay) == ViewOf(w, lay)[n := NodeOf(r1, lay, n, w.shapes[n])]
            && TagInv(r1, lay) && SameTags(w.recs, r1)
            && forall x :: IsTag(w.recs, x) ==> Value(r1, x) == Value(w.recs, x)
  {
    hide ShapeOk, NodeOf, TagInv, Below, Value, Foot, Partition;
    var r1 := w.recs[n := rec];
    FootStored(w.recs, lay, n, w.shapes[n]);
    AfterSettled(w, lay, r1, n, Some(w.shapes[n]), bound);
    OneReplaced(w.recs, n, rec, bound);
    TagsUntouched(w.recs, r1, lay, {n}, {n}, bound);
  }

  lemma OneReplaced(r0: Recs, n: Id, rec: Record, bound: Id)
    requires n in r0
    ensures Replaced(r0, r0[n := rec], {n}, {n}, bound)
  {
  }

  // ----- protecting -----

  /** The two flags that protect a directory. */
  datatype Protection = Protection(noRemove: bool, noMove: bool)

  /** The flags under the mask are taken over, the others stay. */
  function Masked(was: bool, flag: bool, mask: bool): bool {
    if mask then flag else was
  }

  /** The directory with its flags outside the mask, and those asked for inside it. */
  ghost function Protected(node: Node, flags: Protection, mask: Protection): Node {
    if !node.DirNode? then node
    else node.(noRemove := (node.noRemove && !mask.noRemove) || (flags.noRemove && mask.noRemove),
               noMove := (node.noMove && !mask.noMove) || (flags.noMove && mask.noMove))
  }

  lemma FlagsStep(w: World, lay: Layout, n: Id, d: DirInode, bound: Id)
    requires Settled(w, lay) && TagInv(w.recs, lay) && Below(w.recs, bound) && bound > ROOT
    requires n in w.recs && w.recs[n].DirRec? && d == w.recs[n].dir.(noRemove := d.noRemove, noMove := d.noMove)
    ensures var r1 := w.recs[n := DirRec(d)];
            n in w.shapes && var w1 := After(w, r1, n, Some(w.shapes[n]));
            && Settled(w1, lay) && n in ViewOf(w, lay) && ViewOf(w, lay)[n].DirNode?
            && ViewOf(w1, lay) == ViewOf(w, lay)[n := ViewOf(w, lay)[n].(noRemove := d.noRemove, noMove := d.noMove)]
            && ViewOf(w, lay)[n].noRemove == w.recs[n].dir.noRemove && ViewOf(w, lay)[n].noMove == w.recs[n].dir.noMove
            && TagInv(r1, lay) && SameTags(w.recs, r1)
            && forall x :: IsTag(w.recs, x) ==> Value(r1, x) == Value(w.recs, x)
  {
    hide DirShapeOk, TagInv, Below, Value, Foot, Partition, ShapesOk, Entries;
    DirKnown(w, lay, n);
    InodeDir(w.recs, lay, n, DirAt(w, n), TagsAt(w, n), d);
    InodeStep(w, lay, n, DirRec(d), bound);
  }

  /** md2ModFlags.  The flags of files are not part of their meaning. */
  method ModFlags(fs: FileSystem, id: Id, flags: Protection, mask: Protection) returns (r: Result<()>)
    requires fs.Sound()
    modifies fs, fs.db
    ensures fs.Sound() && SameTags(old(fs.db.recs), fs.db.recs) && old(fs.db.Bound()) == fs.db.Bound()
    ensures r == if id in old(fs.View()) && !old(fs.View())[id].LinkNode? then Ok(()) else Err(NotFound)
    ensures r.Err? ==> fs.W() == old(fs.W())
    ensures r.Ok? ==> fs.View() == old(fs.View())[id := Protected(old(fs.View())[id], flags, mask)]
    ensures forall x :: IsTag(old(fs.db.recs), x) ==> Value(fs.db.recs, x) == Value(old(fs.db.recs), x)
  {
    hide ShapesOk, Partition, TagInv, ViewOf, Value;
    ghost var v := fs.View();
    InodeThere(fs.W(), fs.db.lay, id);
    var rec := fs.db.Get(id);
    if rec.None? || !(rec.value.DirRec? || rec.value.FileRec?) { return Err(NotFound); }
    if rec.value.DirRec? {
      Protect(fs, id, rec.value.dir, flags, mask);
    } else {
      SameRecord(fs.db.recs, id);
      SameNode(v, id, flags, mask);
      fs.db.Put(id, rec.value);
    }
    r := Ok(());
  }

  method Protect(fs: FileSystem, id: Id, dir: DirInode, flags: Protection, mask: Protection)
    requires fs.Sound() && id in fs.db.recs && fs.db.recs[id] == DirRec(dir)
    requires id in fs.View() && fs.View()[id].DirNode?
    modifies fs, fs.db
    ensures fs.Sound() && SameTags(old(fs.db.recs), fs.db.recs) && old(fs.db.Bound()) == fs.db.Bound()
    ensures fs.View() == old(fs.View())[id := Protected(old(fs.View())[id], flags, mask)]
    ensures forall x :: IsTag(old(fs.db.recs), x) ==> Value(fs.db.recs, x) == Value(old(fs.db.recs), x)
  {
    hide Settled, TagInv, After, ViewOf, Below, Value, FootOf, SameTags;
    ghost var w: World, bound := fs.W(), fs.db.Bound();
    var d := dir.(noRemove := Masked(dir.noRemove, flags.noRemove, mask.noRemove), noMove := Masked(dir.noMove, flags.noMove, mask.noMove));
    fs.db.Put(id, DirRec(d));
    FlagsStep(w, fs.db.lay, id, d, bound);
    BelowPut(w.recs, bound, bound, id, DirRec(d));
    ghost var w1 := After(w, fs.db.recs, id, Some(w.shapes[id]));
    AfterFields(w, fs.db.recs, id, Some(w.shapes[id]));
    fs.shapes, fs.owner := w1.shapes, w1.owner;
  }

  lemma SameRecord(recs: Recs, id: Id)
    requires id in recs
    ensures recs[id := recs[id]] == recs
  {
  }

  lemma SameNode(v: View, id: Id, flags: Protection, mask: Protection)
    requires id in v && v[id].FileNode?
    ensures v[id := Protected(v[id], flags, mask)] == v
  {
  }
}
