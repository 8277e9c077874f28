/** The file system over one store, and the steps its operations are made of.  Every step changes one inode
    and keeps the partition of the store into the records of the inodes. */
module FileSystems {
  import opened Records
  import opened Frames
  import opened Stores
  import opened FileShapes
  import opened DirShapes
  import opened Dirs
  import opened DirMake
  import opened TagShapes
  import opened TagValues
  import opened TagLists
  import opened TagOps
  import opened Worlds

  // ----- tags and other records -----

  /** The same tags are stored, unchanged. */
  ghost predicate SameTags(r0: Recs, r1: Recs) {
    forall x :: (IsTag(r0, x) <==> IsTag(r1, x)) && (IsTag(r0, x) ==> r1[x] == r0[x])
  }

  /** The records gained are no tags' parents yet. */
  ghost predicate Newer(r0: Recs, r1: Recs, bound: Id) {
    bound > ROOT && forall x: Id :: x in r1 && x !in r0 ==> x >= bound
  }

  lemma SameTagsInv(r0: Recs, r1: Recs, lay: Layout, bound: Id)
    requires TagInv(r0, lay) && SameTags(r0, r1) && Below(r0, bound) && Newer(r0, r1, bound)
    ensures TagInv(r1, lay)
    ensures forall x :: IsTag(r0, x) ==> Value(r1, x) == Value(r0, x)
  {
    forall x | IsTag(r1, x) ensures TagOk(r1, lay, x) {
      assert TagOk(r0, lay, x);
      var p := r0[x].tag.parent;
      assert p in r0 ==> IsTag(r0, p);
    }
    forall x | IsTag(r0, x) ensures Value(r1, x) == Value(r0, x) {
      ValueFrame(r0, r1, lay, x);
    }
  }

  /** Replacing records that are no tags by records that are no tags. */
  lemma TagsUntouched(r0: Recs, r1: Recs, lay: Layout, ids0: set<Id>, ids1: set<Id>, bound: Id)
    requires Replaced(r0, r1, ids0, ids1, bound) && TagInv(r0, lay) && Below(r0, bound) && bound > ROOT
    requires forall x :: x in ids0 ==> x in r0 && !r0[x].TagRec?
    requires forall x :: x in ids1 && x in r1 ==> !r1[x].TagRec?
    ensures SameTags(r0, r1) && TagInv(r1, lay)
    ensures forall x :: IsTag(r0, x) ==> Value(r1, x) == Value(r0, x)
  {
    forall x ensures (IsTag(r0, x) <==> IsTag(r1, x)) && (IsTag(r0, x) ==> r1[x] == r0[x]) {
      assert x in ids0 + ids1 || x !in ids0 + ids1;
    }
    forall x: Id | x in r1 && x !in r0 ensures x >= bound {
      assert x in ids0 + ids1;
    }
    SameTagsInv(r0, r1, lay, bound);
  }

  /** An operation that only gives records up does not depend on the allocator. */
  lemma ReplacedShrunk(r0: Recs, r1: Recs, ids0: set<Id>, ids1: set<Id>, bound: Id)
    requires Replaced(r0, r1, ids0, ids1, 0) && ids1 <= ids0
    ensures Replaced(r0, r1, ids0, ids1, bound)
  {
  }

  // ----- one directory -----

  /** The rows and blocks of a directory changed, its tags did not. */
  lemma DirReplaced(r0: Recs, r1: Recs, lay: Layout, n: Id, dir0: DirShape, dir1: DirShape, tags: seq<Id>, bound: Id)
    requires DirShapeOk(r0, lay, n, dir0, tags) && DirOk(r1, lay, n, dir1)
    requires Replaced(r0, r1, DirIds(n, dir0), DirIds(n, dir1), bound)
    requires SameInode(r0[n].dir, r1[n].dir)
    ensures DirShapeOk(r1, lay, n, dir1, tags)
    ensures Replaced(r0, r1, Foot(n, DirShaped(dir0, tags)), Foot(n, DirShaped(dir1, tags)), bound)
  {
    hide DirOk, TagsOk, NamesOk, DirIds, IdSet, Replaced;
    DirFacts(r0, lay, n, dir0);
    DirFacts(r1, lay, n, dir1);
    DirIdsStored(r0, lay, n, dir0);
    TagIdsStored(r0, n, r0[n].dir.tag, tags);
    TagsKept(r0, r1, DirIds(n, dir0), DirIds(n, dir1), tags, bound);
    TagsFrame(r0, r1, n, r0[n].dir.tag, tags);
    NamesFrame(r0, r1, tags);
    ReplacedMore(r0, r1, DirIds(n, dir0), DirIds(n, dir1), IdSet(tags), bound);
  }

  lemma ReplacedMore(r0: Recs, r1: Recs, ids0: set<Id>, ids1: set<Id>, more: set<Id>, bound: Id)
    requires Replaced(r0, r1, ids0, ids1, bound)
    requires forall x :: x in more ==> x !in ids0 && x !in ids1 && x in r0 && x in r1 && r1[x] == r0[x]
    ensures Replaced(r0, r1, ids0 + more, ids1 + more, bound)
  {
  }

  lemma TagIdsStored(recs: Recs, n: Id, head: Id, tags: seq<Id>)
    requires TagsOk(recs, n, head, tags)
    ensures forall x :: x in IdSet(tags) <==> x in tags
    ensures forall x :: x in tags ==> IsTag(recs, x)
  {
  }

  lemma TagsKept(r0: Recs, r1: Recs, ids0: set<Id>, ids1: set<Id>, tags: seq<Id>, bound: Id)
    requires Replaced(r0, r1, ids0, ids1, bound)
    requires forall x :: x in tags ==> IsTag(r0, x)
    requires forall x :: x in ids0 ==> x in r0 && !r0[x].TagRec?
    ensures forall x :: x in tags ==> x !in ids0 && x !in ids1 && x in r0 && x in r1 && r1[x] == r0[x]
  {
  }

  // ----- the file system -----

  /** The store with the shapes of its inodes. */
  class FileSystem {
    const db: Store
    ghost var shapes: Shapes
    ghost var owner: map<Id, Id>

    ghost function W(): World
      reads this, db
    {
      World(db.recs, shapes, owner)
    }

    /** Every record belongs to exactly one inode, every inode is well-formed, and tags inherit from older tags. */
    ghost predicate Sound()
      reads this, db
    {
      db.AllocOk() && Settled(W(), db.lay) && TagInv(db.recs, db.lay)
    }

    ghost function View(): View
      requires ShapesOk(W(), db.lay)
      reads this, db
    {
      ViewOf(W(), db.lay)
    }

    constructor (lay: Layout)
      ensures Sound() && View() == map[] && db.recs == map[] && db.lay == lay && fresh(db)
    {
      db := new Store(lay);
      shapes, owner := map[], map[];
    }
  }

  // ----- making inodes -----

  lemma NewInode(w: World, lay: Layout, r1: Recs, n: Id, sh: Shape, ids: set<Id>, bound: Id)
    requires Settled(w, lay) && TagInv(w.recs, lay) && Below(w.recs, bound) && bound > ROOT && n >= bound
    requires ids == Foot(n, sh) && Grown(w.recs, r1, {}, ids, bound) && ShapeOk(r1, lay, n, sh)
    requires forall x :: x in ids && x in r1 ==> !r1[x].TagRec?
    ensures n !in w.shapes && Settled(After(w, r1, n, Some(sh)), lay)
    ensures ViewOf(After(w, r1, n, Some(sh)), lay) == ViewOf(w, lay)[n := NodeOf(r1, lay, n, sh)]
    ensures TagInv(r1, lay) && SameTags(w.recs, r1)
    ensures forall x :: IsTag(w.recs, x) ==> Value(r1, x) == Value(w.recs, x)
  {
    hide Foot, ShapeOk, NodeOf, Grown, Replaced, ShapesOk, Partition;
    if n in w.shapes { NotNew(w, lay, n, bound); }
    GrownReplaced(w.recs, r1, {}, ids, bound);
    AfterSettled(w, lay, r1, n, Some(sh), bound);
    TagsUntouched(w.recs, r1, lay, {}, ids, bound);
  }

  lemma NotNew(w: World, lay: Layout, n: Id, bound: Id)
    requires ShapesOk(w, lay) && Below(w.recs, bound) && n in w.shapes
    ensures n in w.recs && n < bound
  {
    hide Foot;
    FootStored(w.recs, lay, n, w.shapes[n]);
  }

  /** md2MakeNewDirectory: an inode no directory leads to yet. */
  method NewDirectory(fs: FileSystem, parent: Id) returns (r: Result<Id>)
    requires fs.Sound()
    modifies fs, fs.db
    ensures fs.Sound() && SameTags(old(fs.db.recs), fs.db.recs) && old(fs.db.Bound()) <= fs.db.Bound()
    ensures r.Err? <==> parent != ROOT && parent !in old(fs.db.recs)
    ensures r.Err? ==> r == Err(NotFound) && fs.View() == old(fs.View())
    ensures r.Ok? ==>
      && r.value !in old(fs.View()) && r.value == old(fs.db.Bound())
      && var (noRemove, noMove) := Flags(old(fs.db.recs), parent);
         fs.View() == old(fs.View())[r.value := DirNode(parent, noRemove, noMove, map[], [])]
    ensures r.Ok? ==> r.value in fs.shapes && r.value in fs.db.recs && fs.db.recs[r.value].DirRec? && fs.db.recs[r.value].dir.tag == NULL
    ensures old(fs.db.recs).Keys <= fs.db.recs.Keys
    ensures forall x :: IsTag(old(fs.db.recs), x) ==> Value(fs.db.recs, x) == Value(old(fs.db.recs), x)
  {
    hide Settled, DirOk, TagInv, After, ViewOf, NodeOf, Grown, Below, Value, Entries, SameTags;
    ghost var w: World, bound := fs.W(), fs.db.Bound();
    var made, dir := MakeNewDirectory(fs.db, parent);
    if made.Err? { SameTagsNone(w.recs); return made; }
    DirFacts(fs.db.recs, fs.db.lay, made.value, dir);
    GrownKeys(w.recs, fs.db.recs, DirIds(made.value, dir), bound);
    NewDir(w, fs.db.lay, fs.db.recs, made.value, dir, bound);
    ghost var w1 := After(w, fs.db.recs, made.value, Some(DirShaped(dir, [])));
    AfterFields(w, fs.db.recs, made.value, Some(DirShaped(dir, [])));
    fs.shapes, fs.owner := w1.shapes, w1.owner;
    r := made;
  }

  lemma SameTagsNone(r0: Recs)
    ensures SameTags(r0, r0)
  {
  }

  lemma GrownKeys(r0: Recs, r1: Recs, ids: set<Id>, bound: Id)
    requires Grown(r0, r1, {}, ids, bound)
    ensures r0.Keys <= r1.Keys
  {
  }

  lemma AfterFields(w: World, r1: Recs, a: Id, sh: Option<Shape>)
    ensures After(w, r1, a, sh).recs == r1
    ensures After(w, r1, a, sh).shapes == if sh.Some? then w.shapes[a := sh.value] else w.shapes - {a}
  {
  }

  lemma NewDir(w: World, lay: Layout, r1: Recs, n: Id, dir: DirShape, bound: Id)
    requires Settled(w, lay) && TagInv(w.recs, lay) && Below(w.recs, bound) && bound > ROOT && n >= bound
    requires Grown(w.recs, r1, {}, DirIds(n, dir), bound) && DirOk(r1, lay, n, dir) && Entries(r1, dir) == map[]
    requires n in r1 && r1[n].DirRec? && r1[n].dir.tag == NULL
    requires r1[n].dir.hashSize == lay.hashSize && r1[n].dir.perRow == lay.pointers
    ensures n !in w.shapes && Settled(After(w, r1, n, Some(DirShaped(dir, []))), lay)
    ensures ViewOf(After(w, r1, n, Some(DirShaped(dir, []))), lay) ==
            ViewOf(w, lay)[n := DirNode(r1[n].dir.parent, r1[n].dir.noRemove, r1[n].dir.noMove, map[], [])]
    ensures TagInv(r1, lay) && SameTags(w.recs, r1)
    ensures forall x :: IsTag(w.recs, x) ==> Value(r1, x) == Value(w.recs, x)
  {
    hide Settled, DirOk, TagInv, After, ViewOf, Grown, Below, Value, Entries, SameTags;
    DirIdsStored(r1, lay, n, dir);
    assert IdSet([]) == {};
    assert DirIds(n, dir) + {} == DirIds(n, dir);
    NewInode(w, lay, r1, n, DirShaped(dir, []), DirIds(n, dir), bound);
  }

  // ----- inodes by kind -----

  lemma FootKinds(recs: Recs, lay: Layout, n: Id, sh: Shape, x: Id)
    requires ShapeOk(recs, lay, n, sh) && x in Foot(n, sh)
    ensures x in recs
    ensures recs[x].DirRec? || recs[x].FileRec? || recs[x].LinkRec? ==> x == n
    ensures recs[n].DirRec? <==> sh.DirShaped?
    ensures recs[n].FileRec? <==> sh.FileShaped?
    ensures recs[n].LinkRec? <==> sh.LinkShaped?
  {
    match sh
    case DirShaped(dir, tags) => DirKinds(recs, lay, n, dir, tags, x);
    case FileShaped(levels) => FileKinds(recs, lay, n, levels, x);
    case LinkShaped(paths) => LinkKinds(recs, n, paths, x);
  }

  lemma DirKinds(recs: Recs, lay: Layout, n: Id, dir: DirShape, tags: seq<Id>, x: Id)
    requires DirShapeOk(recs, lay, n, dir, tags) && x in Foot(n, DirShaped(dir, tags))
    ensures n in recs && recs[n].DirRec? && x in recs && (x != n ==> recs[x].RowRec? || recs[x].SlotsRec? || recs[x].TagRec?)
  {
    hide DirCore, NamesOk;
    CoreStored(recs, lay, recs[n].dir, dir);
    TagIdsStored(recs, n, recs[n].dir.tag, tags);
    DirIdsSplit(n, dir);
    hide DirOk;
  }

  lemma DirIdsSplit(n: Id, dir: DirShape)
    ensures forall x :: x in DirIds(n, dir) <==> x == n || x in CoreIds(dir)
  {
  }

  lemma FileKinds(recs: Recs, lay: Layout, n: Id, levels: seq<LevelShape>, x: Id)
    requires FileShapeOk(recs, lay, n, levels) && x in Foot(n, FileShaped(levels))
    ensures n in recs && recs[n].FileRec? && x in recs && (x != n ==> recs[x].HashRec? || recs[x].DataRec?)
  {
    hide LevelOk;
    LevelsStored(recs, lay, recs[n].file.levels, levels, LEVELS);
    assert levels[..LEVELS] == levels;
  }

  lemma LinkKinds(recs: Recs, n: Id, paths: seq<Id>, x: Id)
    requires LinkShapeOk(recs, n, paths) && x in Foot(n, LinkShaped(paths))
    ensures n in recs && recs[n].LinkRec? && x in recs && (x != n ==> recs[x].PathRec?)
  {
  }

  /** The directory, file and link inodes of the store are those the view shows. */
  lemma InodeKinds(w: World, lay: Layout, x: Id)
    requires Settled(w, lay)
    ensures x in w.recs && w.recs[x].DirRec? <==> x in w.shapes && w.shapes[x].DirShaped?
    ensures x in w.recs && w.recs[x].FileRec? <==> x in w.shapes && w.shapes[x].FileShaped?
    ensures x in w.recs && w.recs[x].LinkRec? <==> x in w.shapes && w.shapes[x].LinkShaped?
  {
    hide ShapeOk, Foot;
    if x in w.shapes {
      FootStored(w.recs, lay, x, w.shapes[x]);
      FootKinds(w.recs, lay, x, w.shapes[x], x);
    }
    if x in w.recs {
      FootKinds(w.recs, lay, w.owner[x], w.shapes[w.owner[x]], x);
    }
  }

  ghost function DirAt(w: World, d: Id): DirShape {
    if d in w.shapes && w.shapes[d].DirShaped? then w.shapes[d].dir else EmptyShape([], [])
  }

  ghost function TagsAt(w: World, d: Id): seq<Id> {
    if d in w.shapes && w.shapes[d].DirShaped? then w.shapes[d].tags else []
  }

  lemma DirKnown(w: World, lay: Layout, d: Id)
    requires Settled(w, lay)
    ensures Known(w.recs, lay, d, DirAt(w, d))
    ensures d in ViewOf(w, lay) && ViewOf(w, lay)[d].DirNode? <==> d in w.recs && w.recs[d].DirRec?
    ensures d in w.recs && w.recs[d].DirRec? ==>
              && d in w.shapes && w.shapes[d] == DirShaped(DirAt(w, d), TagsAt(w, d))
              && DirShapeOk(w.recs, lay, d, DirAt(w, d), TagsAt(w, d))
              && ViewOf(w, lay)[d] == DirNode(w.recs[d].dir.parent, w.recs[d].dir.noRemove, w.recs[d].dir.noMove,
                                              Entries(w.recs, DirAt(w, d)), TagsAt(w, d))
  {
    InodeKinds(w, lay, d);
    hide DirOk, DirShapeOk, Foot, Partition, Entries;
    if d in w.recs && w.recs[d].DirRec? {
      assert ShapeOk(w.recs, lay, d, w.shapes[d]);
      KnownDir(w.recs, lay, d, DirAt(w, d), TagsAt(w, d));
    }
  }

  lemma KnownDir(recs: Recs, lay: Layout, d: Id, dir: DirShape, tags: seq<Id>)
    requires DirShapeOk(recs, lay, d, dir, tags)
    ensures Known(recs, lay, d, dir) && Tagged(recs, d, tags)
  {
  }

  // ----- entries -----

  /** An operation on the rows and blocks of directory `d`. */
  lemma DirStep(w: World, lay: Layout, r1: Recs, d: Id, dir1: DirShape, bound: Id)
    requires Settled(w, lay) && TagInv(w.recs, lay) && Below(w.recs, bound) && bound > ROOT
    requires d in w.recs && w.recs[d].DirRec? && DirOk(r1, lay, d, dir1)
    requires Replaced(w.recs, r1, DirIds(d, DirAt(w, d)), DirIds(d, dir1), bound)
    requires SameInode(w.recs[d].dir, r1[d].dir)
    ensures var w1 := After(w, r1, d, Some(DirShaped(dir1, TagsAt(w, d))));
            && Settled(w1, lay) && DirAt(w1, d) == dir1
            && d in ViewOf(w, lay) && ViewOf(w, lay)[d].DirNode?
            && ViewOf(w1, lay) == ViewOf(w, lay)[d := ViewOf(w, lay)[d].(entries := Entries(r1, dir1))]
    ensures TagInv(r1, lay) && SameTags(w.recs, r1)
    ensures forall x :: IsTag(w.recs, x) ==> Value(r1, x) == Value(w.recs, x)
  {
    hide Settled, DirOk, TagInv, Replaced, Entries, Below, Value, DirIds, SameTags, TagsOk, NamesOk;
    DirKnown(w, lay, d);
    DirFacts(r1, lay, d, dir1);
    var tags := TagsAt(w, d);
    DirReplaced(w.recs, r1, lay, d, DirAt(w, d), dir1, tags, bound);
    AfterSettled(w, lay, r1, d, Some(DirShaped(dir1, tags)), bound);
    DirIdsStored(w.recs, lay, d, DirAt(w, d));
    DirIdsStored(r1, lay, d, dir1);
    TagsUntouched(w.recs, r1, lay, DirIds(d, DirAt(w, d)), DirIds(d, dir1), bound);
  }

  /** The other inodes keep their shapes. */
  ghost predicate OtherShapes(s0: Shapes, s1: Shapes, d: Id) {
    forall x :: x != d ==> (x in s0 <==> x in s1) && (x in s0 ==> s1[x] == s0[x])
  }

  /** md2ExtAddToDirectory of an absent name. */
  method AddEntry(fs: FileSystem, d: Id, item: Item) returns (r: Result<()>)
    requires fs.Sound() && item.id != NULL
    requires d in fs.View() && fs.View()[d].DirNode? && item.name != "" ==> item.name !in fs.View()[d].entries
    modifies fs, fs.db
    ensures fs.Sound() && SameTags(old(fs.db.recs), fs.db.recs) && old(fs.db.Bound()) <= fs.db.Bound()
    ensures r == match Guard(old(fs.db.recs), d, item.name) case Some(e) => Err(e) case None => Ok(())
    ensures r.Err? ==> fs.W() == old(fs.W())
    ensures r.Ok? ==>
      && d in old(fs.View()) && old(fs.View())[d].DirNode?
      && fs.View() == old(fs.View())[d := old(fs.View())[d].(entries := old(fs.View())[d].entries[item.name := item])]
      && OtherShapes(old(fs.shapes), fs.shapes, d)
    ensures forall x :: IsTag(old(fs.db.recs), x) ==> Value(fs.db.recs, x) == Value(old(fs.db.recs), x)
  {
    hide Settled, DirOk, TagInv, After, ViewOf, NodeOf, Grown, Replaced, Below, Value, Entries, SameInode;
    ghost var w: World, bound := fs.W(), fs.db.Bound();
    DirKnown(w, fs.db.lay, d);
    ghost var dir := DirAt(w, d);
    var a, dir1 := AddToDirectory(fs.db, d, item, dir);
    if a.Err? { return a; }
    GrownReplaced(w.recs, fs.db.recs, DirIds(d, dir), DirIds(d, dir1), bound);
    DirStep(w, fs.db.lay, fs.db.recs, d, dir1, bound);
    ghost var w1 := After(w, fs.db.recs, d, Some(DirShaped(dir1, TagsAt(w, d))));
    AfterFields(w, fs.db.recs, d, Some(DirShaped(dir1, TagsAt(w, d))));
    fs.shapes, fs.owner := w1.shapes, w1.owner;
    r := a;
  }

  /** md2ExtRemoveFromDirectory. */
  method RemoveEntry(fs: FileSystem, d: Id, name: Name) returns (r: Result<Item>)
    requires fs.Sound()
    modifies fs, fs.db
    ensures fs.Sound() && SameTags(old(fs.db.recs), fs.db.recs) && old(fs.db.Bound()) == fs.db.Bound()
    ensures r == match Guard(old(fs.db.recs), d, name)
                 case Some(e) => Err(e)
                 case None =>
                   if d !in old(fs.View()) || !old(fs.View())[d].DirNode? then Err(NotDirectory)
                   else if old(fs.View())[d].noRemove then Err(NotAllowed)
                   else if name in old(fs.View())[d].entries then Ok(old(fs.View())[d].entries[name])
                   else Err(NotFound)
    ensures r.Err? ==> fs.W() == old(fs.W())
    ensures forall a :: a != d ==> FootOf(fs.W(), a) == FootOf(old(fs.W()), a)
    ensures r.Ok? ==> fs.View() == old(fs.View())[d := old(fs.View())[d].(entries := old(fs.View())[d].entries - {name})]
    ensures forall x :: IsTag(old(fs.db.recs), x) ==> Value(fs.db.recs, x) == Value(old(fs.db.recs), x)
  {
    hide Settled, DirOk, TagInv, After, ViewOf, NodeOf, Grown, Replaced, Value, Entries, SameInode;
    ghost var w: World, bound := fs.W(), fs.db.Bound();
    DirKnown(w, fs.db.lay, d);
    ghost var dir := DirAt(w, d);
    var a, dir1 := RemoveFromDirectory(fs.db, d, name, dir);
    if a.Err? { return a; }
    ShrunkStep(w, fs.db.lay, fs.db.recs, d, dir1, bound);
    ghost var w1 := After(w, fs.db.recs, d, Some(DirShaped(dir1, TagsAt(w, d))));
    AfterFields(w, fs.db.recs, d, Some(DirShaped(dir1, TagsAt(w, d))));
    fs.shapes, fs.owner := w1.shapes, w1.owner;
    r := a;
  }

  lemma ShrunkStep(w: World, lay: Layout, r1: Recs, d: Id, dir1: DirShape, bound: Id)
    requires Settled(w, lay) && TagInv(w.recs, lay) && Below(w.recs, bound) && bound > ROOT
    requires d in w.recs && w.recs[d].DirRec? && DirOk(r1, lay, d, dir1)
    requires Replaced(w.recs, r1, DirIds(d, DirAt(w, d)), DirIds(d, dir1), 0)
    requires DirIds(d, dir1) <= DirIds(d, DirAt(w, d)) && SameInode(w.recs[d].dir, r1[d].dir)
    ensures Replaced(w.recs, r1, DirIds(d, DirAt(w, d)), DirIds(d, dir1), bound) && Below(r1, bound)
    ensures var w1 := After(w, r1, d, Some(DirShaped(dir1, TagsAt(w, d))));
            && Settled(w1, lay) && d in ViewOf(w, lay) && ViewOf(w, lay)[d].DirNode?
            && ViewOf(w1, lay) == ViewOf(w, lay)[d := ViewOf(w, lay)[d].(entries := Entries(r1, dir1))]
    ensures TagInv(r1, lay) && SameTags(w.recs, r1)
    ensures forall x :: IsTag(w.recs, x) ==> Value(r1, x) == Value(w.recs, x)
  {
    hide Settled, DirOk, TagInv, After, ViewOf, Replaced, Below, Value, Entries, SameInode, DirIds, SameTags;
    DirKnown(w, lay, d);
    ReplacedShrunk(w.recs, r1, DirIds(d, DirAt(w, d)), DirIds(d, dir1), bound);
    DirIdsStored(w.recs, lay, d, DirAt(w, d));
    FewerBelow(w.recs, r1, DirIds(d, DirAt(w, d)), DirIds(d, dir1), bound);
    DirStep(w, lay, r1, d, dir1, bound);
  }

  lemma FewerBelow(r0: Recs, r1: Recs, ids0: set<Id>, ids1: set<Id>, bound: Id)
    requires Below(r0, bound) && Replaced(r0, r1, ids0, ids1, bound) && ids1 <= ids0
    requires forall x :: x in ids0 ==> x in r0
    ensures Below(r1, bound)
  {
  }

  // ----- inodes and tag lists of directories -----

  /** The inodes differ in their parent and tag list only. */
  ghost predicate SameTable(d0: DirInode, d1: DirInode) {
    d1 == d0.(parent := d1.parent, tag := d1.tag)
  }

  /** An operation on the inode and the tags of directory `d`. */
  lemma TagsStep(w: World, lay: Layout, r1: Recs, d: Id, tags1: seq<Id>, bound: Id)
    requires Settled(w, lay) && Below(w.recs, bound)
    requires d in w.recs && w.recs[d].DirRec? && d in r1 && r1[d].DirRec? && SameTable(w.recs[d].dir, r1[d].dir)
    requires TagsOk(r1, d, r1[d].dir.tag, tags1) && NamesOk(r1, tags1)
    requires Replaced(w.recs, r1, {d} + IdSet(TagsAt(w, d)), {d} + IdSet(tags1), bound)
    ensures var w1 := After(w, r1, d, Some(DirShaped(DirAt(w, d), tags1)));
            && Settled(w1, lay) && d in ViewOf(w, lay) && ViewOf(w, lay)[d].DirNode?
            && ViewOf(w1, lay) == ViewOf(w, lay)[d := ViewOf(w, lay)[d].(parent := r1[d].dir.parent, tags := tags1)]
  {
    hide Settled, DirOk, TagsOk, NamesOk, Replaced, Entries, Below, DirIds, IdSet;
    DirKnown(w, lay, d);
    var dir := DirAt(w, d);
    TagIdsStored(w.recs, d, w.recs[d].dir.tag, TagsAt(w, d));
    TagIdsStored(r1, d, r1[d].dir.tag, tags1);
    TagsReplaced(w.recs, r1, lay, d, dir, TagsAt(w, d), tags1, bound);
    AfterSettled(w, lay, r1, d, Some(DirShaped(dir, tags1)), bound);
  }

  lemma TagsReplaced(r0: Recs, r1: Recs, lay: Layout, d: Id, dir: DirShape, tags0: seq<Id>, tags1: seq<Id>, bound: Id)
    requires DirOk(r0, lay, d, dir) && d in r1 && r1[d].DirRec? && SameTable(r0[d].dir, r1[d].dir)
    requires Replaced(r0, r1, {d} + IdSet(tags0), {d} + IdSet(tags1), bound)
    requires forall x :: x in IdSet(tags0) ==> IsTag(r0, x)
    requires forall x :: x in IdSet(tags1) ==> IsTag(r1, x)
    ensures DirOk(r1, lay, d, dir) && Entries(r1, dir) == Entries(r0, dir)
    ensures Replaced(r0, r1, Foot(d, DirShaped(dir, tags0)), Foot(d, DirShaped(dir, tags1)), bound)
  {
    hide DirCore, Entries, IdSet, CoreIds, DirIds, Replaced;
    DirFacts(r0, lay, d, dir);
    CoreStored(r0, lay, r0[d].dir, dir);
    TagsReplacedCore(r0, r1, d, IdSet(tags0), IdSet(tags1), CoreIds(dir), bound);
    CoreFrame(r0, r1, lay, r0[d].dir, dir);
    CoreSame(r1, lay, r0[d].dir, r1[d].dir, dir);
    ReplacedMore(r0, r1, {d} + IdSet(tags0), {d} + IdSet(tags1), CoreIds(dir), bound);
    FootSplit(d, dir, tags0);
    FootSplit(d, dir, tags1);
  }

  lemma FootSplit(d: Id, dir: DirShape, tags: seq<Id>)
    ensures Foot(d, DirShaped(dir, tags)) == {d} + IdSet(tags) + CoreIds(dir)
  {
  }

  lemma TagsReplacedCore(r0: Recs, r1: Recs, d: Id, ids0: set<Id>, ids1: set<Id>, core: set<Id>, bound: Id)
    requires Replaced(r0, r1, {d} + ids0, {d} + ids1, bound) && d in r0 && d !in core
    requires forall x :: x in ids0 ==> IsTag(r0, x)
    requires forall x :: x in core ==> x in r0 && (r0[x].RowRec? || r0[x].SlotsRec?)
    ensures forall x :: x in core ==> x !in {d} + ids0 && x !in {d} + ids1 && x in r1 && r1[x] == r0[x]
    ensures SameInside(r0, r1, core)
  {
  }

  // ----- tags -----

  ghost predicate ValuesKept(r0: Recs, r1: Recs) {
    forall x :: IsTag(r0, x) ==>
      IsTag(r1, x) && Value(r1, x) == Value(r0, x) && r1[x].tag.name == r0[x].tag.name && r1[x].tag.parent == r0[x].tag.parent
  }

  /** The new tags have the names and the values of the old ones. */
  ghost predicate Mirrors(r0: Recs, tags: seq<Id>, r1: Recs, copies: seq<Id>) {
    && |copies| == |tags|
    && forall k :: 0 <= k < |tags| ==>
         && IsTag(r0, tags[k]) && IsTag(r1, copies[k]) && copies[k] !in r0
         && r1[copies[k]].tag.name == r0[tags[k]].tag.name && r1[copies[k]].tag.parent == tags[k] && r1[copies[k]].tag.entries == 0
         && Value(r1, copies[k]) == Value(r0, tags[k])
  }

  lemma CopiesStep(w: World, lay: Layout, r1: Recs, from: Id, to: Id, copies: seq<Id>, bound: Id)
    requires Settled(w, lay) && TagInv(w.recs, lay) && Below(w.recs, bound) && bound > ROOT
    requires from in w.recs && w.recs[from].DirRec? && to in w.recs && w.recs[to].DirRec? && w.recs[to].dir.tag == NULL
    requires Copied(w.recs, r1, lay, to, TagsAt(w, from), copies) && |copies| == |TagsAt(w, from)|
    requires Grown(w.recs, r1, {to}, {to} + IdSet(copies), bound)
    requires to in r1 && r1[to] == DirRec(w.recs[to].dir.(tag := Head(copies)))
    ensures var w1 := After(w, r1, to, Some(DirShaped(DirAt(w, to), copies)));
            && Settled(w1, lay) && to in ViewOf(w, lay) && ViewOf(w, lay)[to].DirNode?
            && ViewOf(w1, lay) == ViewOf(w, lay)[to := ViewOf(w, lay)[to].(tags := copies)]
    ensures TagInv(r1, lay) && ValuesKept(w.recs, r1) && Mirrors(w.recs, TagsAt(w, from), r1, copies)
  {
    hide Settled, DirOk, TagInv, Replaced, Grown, Entries, Below, DirIds, IdSet, After, ViewOf, Value, Copied;
    DirKnown(w, lay, from);
    DirKnown(w, lay, to);
    NoTags(w.recs, to, TagsAt(w, to));
    DuplicatedValues(w.recs, r1, lay, to, TagsAt(w, from), copies, bound);
    CopiedList(w.recs, r1, lay, to, TagsAt(w, from), copies, bound);
    NoIds();
    GrownReplaced(w.recs, r1, {to}, {to} + IdSet(copies), bound);
    assert {to} + {} == {to};
    TagsStep(w, lay, r1, to, copies, bound);
  }

  lemma NoIds()
    ensures IdSet([]) == {}
  {
  }

  lemma CopiedList(r0: Recs, r1: Recs, lay: Layout, to: Id, tags: seq<Id>, copies: seq<Id>, bound: Id)
    requires Copied(r0, r1, lay, to, tags, copies) && |copies| == |tags| && NamesOk(r0, tags)
    requires Grown(r0, r1, {to}, {to} + IdSet(copies), bound) && to in r0 && !r0[to].TagRec?
    ensures TagsOk(r1, to, Head(copies), copies) && NamesOk(r1, copies)
    ensures forall x :: IsTag(r0, x) ==> IsTag(r1, x) && r1[x] == r0[x]
    ensures forall k :: 0 <= k < |tags| ==>
              && IsTag(r0, tags[k]) && IsTag(r1, copies[k]) && copies[k] !in r0
              && r1[copies[k]].tag.name == r0[tags[k]].tag.name && r1[copies[k]].tag.parent == tags[k] && r1[copies[k]].tag.entries == 0
  {
    hide Zeros;
    forall x | IsTag(r0, x) ensures IsTag(r1, x) && r1[x] == r0[x] {
      assert x !in IdSet(copies);
    }
  }

  /** md2DuplicateTags into a directory without tags. */
  method CopyTags(fs: FileSystem, from: Id, to: Id) returns (r: Result<()>)
    requires fs.Sound() && from in fs.View() && fs.View()[from].DirNode?
    requires to in fs.View() && fs.View()[to].DirNode? && to in fs.db.recs && fs.db.recs[to].DirRec? && fs.db.recs[to].dir.tag == NULL
    modifies fs, fs.db
    ensures fs.Sound() && r.Ok? && old(fs.db.Bound()) <= fs.db.Bound()
    ensures to in fs.View() && fs.View()[to].DirNode? && Mirrors(old(fs.db.recs), old(fs.View())[from].tags, fs.db.recs, fs.View()[to].tags)
    ensures fs.View() == old(fs.View())[to := old(fs.View())[to].(tags := fs.View()[to].tags)]
    ensures ValuesKept(old(fs.db.recs), fs.db.recs)
  {
    hide Settled, DirOk, TagInv, Replaced, Grown, Entries, Below, DirIds, IdSet, After, ViewOf, Value, Copied, TagsOk, ValuesKept, Mirrors, NamesOk;
    ghost var w: World, bound := fs.W(), fs.db.Bound();
    DirKnown(w, fs.db.lay, from);
    DirKnown(w, fs.db.lay, to);
    BelowAt(w.recs, bound, to);
    var a, copies := DuplicateTags(fs.db, from, to, TagsAt(w, from));
    CopiesStep(w, fs.db.lay, fs.db.recs, from, to, copies, bound);
    ghost var sh := DirShaped(DirAt(w, to), copies);
    ghost var w1 := After(w, fs.db.recs, to, Some(sh));
    AfterFields(w, fs.db.recs, to, Some(sh));
    fs.shapes, fs.owner := w1.shapes, w1.owner;
    r := a;
  }

  lemma AddedTag(r0: Recs, lay: Layout, d: Id, tags: seq<Id>, id: Id, name: string, parent: Id)
    requires TagInv(r0, lay) && d in r0 && r0[d].DirRec? && TagsOk(r0, d, r0[d].dir.tag, tags) && NamesOk(r0, tags)
    requires Below(r0, id) && id > ROOT && !HasName(r0, tags, Cut(name)) && (parent == NULL || IsTag(r0, parent))
    ensures var r1 := WithTag(r0, d, tags, id, Fresh(lay, name, parent));
            && TagInv(r1, lay) && ValuesKept(r0, r1)
            && d in r1 && r1[d].DirRec? && SameTable(r0[d].dir, r1[d].dir) && r1[d].dir.parent == r0[d].dir.parent
            && TagsOk(r1, d, r1[d].dir.tag, tags + [id]) && NamesOk(r1, tags + [id])
            && Replaced(r0, r1, {d} + IdSet(tags), {d} + IdSet(tags + [id]), id)
            && IsTag(r1, id) && r1[id].tag.name == Cut(name) && r1[id].tag.parent == parent && r1[id].tag.entries == 0
            && Value(r1, id) == if parent == NULL then Some([]) else Value(r0, parent)
  {
    hide TagInv, TagsOk, NamesOk, WithTag, IdSet, Replaced, HasName, Value;
    var tag := Fresh(lay, name, parent);
    var r1 := WithTag(r0, d, tags, id, tag);
    FreshId(r0, id);
    WithTagList(r0, d, tags, id, tag);
    AddedValues(r0, r1, lay, id, tag.(base := d));
    AddedNames(r0, r1, d, tags, id, name);
    TagIdsStored(r0, d, r0[d].dir.tag, tags);
    AddedFoot(r0, r1, d, tags, id);
  }

  lemma AddedValues(r0: Recs, r1: Recs, lay: Layout, id: Id, tag: TagInode)
    requires TagInv(r0, lay) && Below(r0, id) && id > ROOT && OldTags(r0, r1)
    requires r1.Keys == r0.Keys + {id} && IsTag(r1, id) && r1[id].tag == tag
    requires forall x :: IsTag(r1, x) ==> IsTag(r0, x) || x == id
    requires !tag.invalid && tag.data == Zeros(lay.tagSize) && tag.entries == 0
    requires if tag.inherited then IsTag(r0, tag.parent) else tag.parent == NULL
    ensures TagInv(r1, lay) && ValuesKept(r0, r1)
    ensures Value(r1, id) == if tag.inherited then Value(r0, tag.parent) else Some([])
  {
    hide TagInv;
    FreshId(r0, id);
    forall x: Id | !IsTag(r0, x) ensures NewTagOk(r0, r1, lay, x, id) {
      assert IsTag(r1, x) ==> x == id;
    }
    NewTagsInv(r0, r1, lay, id);
    if tag.inherited {
      BelowAt(r0, id, tag.parent);
      assert Top(r1, id) == Top(r1, tag.parent);
    } else {
      assert Top(r1, id) == Some(id);
    }
  }

  lemma AddedNames(r0: Recs, r1: Recs, d: Id, tags: seq<Id>, id: Id, name: string)
    requires NamesOk(r0, tags) && !HasName(r0, tags, Cut(name)) && OldTags(r0, r1)
    requires IsTag(r1, id) && r1[id].tag.name == Cut(name)
    ensures NamesOk(r1, tags + [id])
  {
  }

  lemma AddedFoot(r0: Recs, r1: Recs, d: Id, tags: seq<Id>, id: Id)
    requires SameOutside(r0, r1, {d, id} + IdSet(tags)) && r1.Keys == r0.Keys + {id} && id !in r0
    requires d in r0 && forall x :: x in tags ==> x in r1
    ensures Replaced(r0, r1, {d} + IdSet(tags), {d} + IdSet(tags + [id]), id)
  {
  }

  /** md2AddNewTag; with a parent, md2AddNewTagInh. */
  method AddTag(fs: FileSystem, d: Id, parent: Id, name: string) returns (r: Result<Id>)
    requires fs.Sound() && (parent == NULL || IsTag(fs.db.recs, parent))
    requires d in fs.db.recs ==> !fs.db.recs[d].RowRec? && !fs.db.recs[d].SlotsRec?
    modifies fs, fs.db
    ensures fs.Sound() && old(fs.db.Bound()) <= fs.db.Bound()
    ensures r == if d !in old(fs.db.recs) then Err(NotFound)
                 else if !old(fs.db.recs)[d].DirRec? then Err(NotDirectory)
                 else if HasName(old(fs.db.recs), TagsAt(old(fs.W()), d), Cut(name)) then Err(Exists)
                 else Ok(old(fs.db.Bound()))
    ensures r.Err? ==> fs.W() == old(fs.W())
    ensures r.Ok? ==>
      && d in old(fs.View()) && old(fs.View())[d].DirNode?
      && fs.View() == old(fs.View())[d := old(fs.View())[d].(tags := old(fs.View())[d].tags + [r.value])]
      && r.value !in old(fs.db.recs) && IsTag(fs.db.recs, r.value)
      && fs.db.recs[r.value].tag.name == Cut(name) && fs.db.recs[r.value].tag.parent == parent && fs.db.recs[r.value].tag.entries == 0
      && Value(fs.db.recs, r.value) == if parent == NULL then Some([]) else Value(old(fs.db.recs), parent)
    ensures ValuesKept(old(fs.db.recs), fs.db.recs) && old(fs.db.recs).Keys <= fs.db.recs.Keys
  {
    hide Settled, DirOk, TagInv, Replaced, Entries, Below, IdSet, After, ViewOf, Value, TagsOk, ValuesKept, NamesOk, WithTag, HasName;
    ghost var w: World, bound := fs.W(), fs.db.Bound();
    DirKnown(w, fs.db.lay, d);
    KeptNone(w.recs);
    var a := AddNewTag(fs.db, d, parent, name, TagsAt(w, d));
    if a.Err? { return a; }
    AddedKeys(w.recs, d, TagsAt(w, d), a.value, Fresh(fs.db.lay, name, parent));
    AddedTag(w.recs, fs.db.lay, d, TagsAt(w, d), a.value, name, parent);
    FreshId(w.recs, bound);
    TagsStep(w, fs.db.lay, fs.db.recs, d, TagsAt(w, d) + [a.value], bound);
    ghost var sh := DirShaped(DirAt(w, d), TagsAt(w, d) + [a.value]);
    ghost var w1 := After(w, fs.db.recs, d, Some(sh));
    AfterFields(w, fs.db.recs, d, Some(sh));
    fs.shapes, fs.owner := w1.shapes, w1.owner;
    r := a;
  }

  lemma AddedKeys(r0: Recs, n: Id, tags: seq<Id>, id: Id, tag: TagInode)
    ensures r0.Keys <= WithTag(r0, n, tags, id, tag).Keys
  {
  }

  lemma KeptNone(r: Recs)
    ensures ValuesKept(r, r)
  {
  }

  /** A change to the value of one tag. */
  lemma OneTagStep(w: World, lay: Layout, id: Id, t: TagInode)
    requires Settled(w, lay) && IsTag(w.recs, id)
    requires t.next == w.recs[id].tag.next && t.base == w.recs[id].tag.base && t.name == w.recs[id].tag.name
    ensures var r1 := w.recs[id := TagRec(t)];
            Settled(World(r1, w.shapes, w.owner), lay) && ViewOf(World(r1, w.shapes, w.owner), lay) == ViewOf(w, lay)
  {
    hide ShapeOk, NodeOf, Foot;
    var r1 := w.recs[id := TagRec(t)];
    forall a | a in w.shapes
      ensures ShapeOk(w.recs, lay, a, w.shapes[a]) && ShapeOk(r1, lay, a, w.shapes[a])
      ensures NodeOf(r1, lay, a, w.shapes[a]) == NodeOf(w.recs, lay, a, w.shapes[a])
    {
      OneTagShape(w.recs, lay, id, t, a, w.shapes[a]);
    }
    SamePartition(w, r1);
  }

  lemma SamePartition(w: World, r1: Recs)
    requires Partition(w) && r1.Keys == w.recs.Keys
    ensures Partition(World(r1, w.shapes, w.owner))
  {
    hide Foot;
    var w1 := World(r1, w.shapes, w.owner);
    forall a, x | x in FootOf(w1, a) ensures x in w1.owner && w1.owner[x] == a {
      assert x in FootOf(w, a);
    }
    forall x | x in w1.recs ensures x in w1.owner && x in FootOf(w1, w1.owner[x]) {
      assert x in w.recs && x in FootOf(w, w.owner[x]);
    }
  }

  lemma OneTagShape(r0: Recs, lay: Layout, id: Id, t: TagInode, a: Id, sh: Shape)
    requires ShapeOk(r0, lay, a, sh) && IsTag(r0, id)
    requires t.next == r0[id].tag.next && t.base == r0[id].tag.base && t.name == r0[id].tag.name
    ensures ShapeOk(r0[id := TagRec(t)], lay, a, sh) && NodeOf(r0[id := TagRec(t)], lay, a, sh) == NodeOf(r0, lay, a, sh)
  {
    var r1 := r0[id := TagRec(t)];
    if id !in Foot(a, sh) {
      FootStored(r0, lay, a, sh);
      ShapeFrame(r0, r1, lay, a, sh);
    } else {
      FootKinds(r0, lay, a, sh, id);
      assert sh.DirShaped? by { TagFoot(r0, lay, a, sh, id); }
      OneTagDir(r0, lay, id, t, a, sh.dir, sh.tags);
    }
  }

  lemma TagFoot(r0: Recs, lay: Layout, a: Id, sh: Shape, id: Id)
    requires ShapeOk(r0, lay, a, sh) && id in Foot(a, sh) && IsTag(r0, id)
    ensures sh.DirShaped?
  {
    match sh
    case DirShaped(dir, tags) => {}
    case FileShaped(levels) => FileKinds(r0, lay, a, levels, id);
    case LinkShaped(paths) => LinkKinds(r0, a, paths, id);
  }

  lemma OneTagDir(r0: Recs, lay: Layout, id: Id, t: TagInode, a: Id, dir: DirShape, tags: seq<Id>)
    requires DirShapeOk(r0, lay, a, dir, tags) && IsTag(r0, id)
    requires t.next == r0[id].tag.next && t.base == r0[id].tag.base && t.name == r0[id].tag.name
    ensures DirShapeOk(r0[id := TagRec(t)], lay, a, dir, tags)
    ensures NodeOf(r0[id := TagRec(t)], lay, a, DirShaped(dir, tags)) == NodeOf(r0, lay, a, DirShaped(dir, tags))
  {
    hide DirCore, Entries, DirIds;
    var r1 := r0[id := TagRec(t)];
    DirIdsStored(r0, lay, a, dir);
    DirFrame(r0, r1, lay, a, dir);
    forall k | 0 <= k < |tags|
      ensures IsTag(r1, tags[k]) && r1[tags[k]].tag.base == r0[tags[k]].tag.base
      ensures r1[tags[k]].tag.next == r0[tags[k]].tag.next && r1[tags[k]].tag.name == r0[tags[k]].tag.name
    {
      assert IsTag(r0, tags[k]);
    }
  }

  /** The tag has a value of its own now: the bytes before the offset, and those written as far as they fit. */
  ghost predicate WrittenOver(lay: Layout, r0: Recs, r1: Recs, id: Id, b: seq<byte>, off: nat) {
    && IsTag(r0, id) && off < lay.tagSize == |r0[id].tag.data|
    && var t, n := r0[id].tag, Min(|b|, lay.tagSize - off);
       r1 == r0[id := TagRec(t.(entries := off + n, data := t.data[..off] + b[..n] + t.data[off + n..],
                                inherited := false, invalid := false))]
  }

  /** md2WriteTag: no inode changes; exactly the tags whose chain reaches this one uncut change their value. */
  method WriteTagData(fs: FileSystem, id: Id, b: seq<byte>, off: nat) returns (r: Result<()>)
    requires fs.Sound() && (id in fs.db.recs ==> IsTag(fs.db.recs, id))
    modifies fs.db
    ensures fs.Sound() && fs.View() == old(fs.View()) && fs.db.Bound() == old(fs.db.Bound())
    ensures r == if id !in old(fs.db.recs) || (off < fs.db.lay.tagSize && !Writable(old(fs.db.recs), id)) then Err(NotFound) else Ok(())
    ensures r.Err? || off >= fs.db.lay.tagSize ==> fs.db.recs == old(fs.db.recs)
    ensures r.Ok? && off < fs.db.lay.tagSize ==>
      && IsTag(old(fs.db.recs), id) && |old(fs.db.recs)[id].tag.data| == fs.db.lay.tagSize
      && WrittenOver(fs.db.lay, old(fs.db.recs), fs.db.recs, id, b, off)
      && forall x :: IsTag(old(fs.db.recs), x) ==>
           Value(fs.db.recs, x) ==
             if Passes(old(fs.db.recs), x, id) then Some(old(fs.db.recs)[id].tag.data[..off] + b[..Min(|b|, fs.db.lay.tagSize - off)])
             else Value(old(fs.db.recs), x)
  {
    hide Settled, TagInv, Below, ViewOf, Value, Passes, WrittenTag;
    ghost var w: World := fs.W();
    r := WriteTag(fs.db, id, b, off);
    if r.Ok? && off < fs.db.lay.tagSize {
      TagData(w.recs, fs.db.lay, id);
      WrittenInv(w.recs, fs.db.lay, id, b, off);
      WrittenIs(w.recs, fs.db.lay, id, b, off);
      WrittenLinks(fs.db.lay, w.recs[id].tag, b, off);
      OneTagStep(w, fs.db.lay, id, WrittenTag(fs.db.lay, w.recs[id].tag, b, off));
      BelowPut(w.recs, fs.db.Bound(), fs.db.Bound(), id, TagRec(WrittenTag(fs.db.lay, w.recs[id].tag, b, off)));
      forall x | IsTag(w.recs, x)
        ensures Value(fs.db.recs, x) ==
                if Passes(w.recs, x, id) then Some(w.recs[id].tag.data[..off] + b[..Min(|b|, fs.db.lay.tagSize - off)]) else Value(w.recs, x)
      {
        WriteTagValues(w.recs, fs.db.lay, id, b, off, x);
      }
    }
  }

  lemma TagData(recs: Recs, lay: Layout, id: Id)
    requires TagInv(recs, lay) && IsTag(recs, id)
    ensures |recs[id].tag.data| == lay.tagSize
  {
  }

  lemma WrittenIs(recs: Recs, lay: Layout, id: Id, b: seq<byte>, off: nat)
    requires IsTag(recs, id) && off < lay.tagSize == |recs[id].tag.data|
    ensures WrittenOver(lay, recs, recs[id := TagRec(WrittenTag(lay, recs[id].tag, b, off))], id, b, off)
  {
  }

  lemma WrittenLinks(lay: Layout, t: TagInode, b: seq<byte>, off: nat)
    requires off < lay.tagSize && |t.data| == lay.tagSize
    ensures var t1 := WrittenTag(lay, t, b, off); t1.next == t.next && t1.base == t.base && t1.name == t.name && t1.parent == t.parent
  {
  }

  /** A tag that did not inherit has no bytes any more; it inherits if it has a parent, and is invalid otherwise. */
  ghost predicate GivenUp(r0: Recs, r1: Recs, id: Id) {
    && IsTag(r0, id)
    && var t := r0[id].tag;
       if t.inherited then r1 == r0
       else r1 == r0[id := TagRec(t.(inherited := t.parent != NULL, invalid := t.parent == NULL, entries := 0))]
  }

  lemma RemovedIs(recs: Recs, lay: Layout, id: Id)
    requires TagInv(recs, lay) && IsTag(recs, id)
    ensures GivenUp(recs, recs[id := TagRec(RemovedTag(recs[id].tag))], id)
  {
    assert TagOk(recs, lay, id);
  }

  /** md2RemoveTag: the tags whose chain reaches this one take the value of its parent, or none. */
  method RemoveTagData(fs: FileSystem, id: Id) returns (r: Result<()>)
    requires fs.Sound() && (id in fs.db.recs ==> IsTag(fs.db.recs, id))
    modifies fs.db
    ensures fs.Sound() && fs.View() == old(fs.View()) && fs.db.Bound() == old(fs.db.Bound())
    ensures r == if id in old(fs.db.recs) then Ok(()) else Err(NotFound)
    ensures r.Err? ==> fs.db.recs == old(fs.db.recs)
    ensures r.Ok? ==>
      && GivenUp(old(fs.db.recs), fs.db.recs, id)
      && forall x :: IsTag(old(fs.db.recs), x) ==>
           Value(fs.db.recs, x) ==
             if !Passes(old(fs.db.recs), x, id) then Value(old(fs.db.recs), x)
             else if old(fs.db.recs)[id].tag.parent != NULL then Value(old(fs.db.recs), old(fs.db.recs)[id].tag.parent)
             else None
  {
    hide Settled, TagInv, Below, ViewOf, Value, Passes;
    ghost var w: World := fs.W();
    r := RemoveTag(fs.db, id);
    if r.Ok? {
      RemovedInv(w.recs, fs.db.lay, id);
      RemovedIs(w.recs, fs.db.lay, id);
      OneTagStep(w, fs.db.lay, id, RemovedTag(w.recs[id].tag));
      BelowPut(w.recs, fs.db.Bound(), fs.db.Bound(), id, TagRec(RemovedTag(w.recs[id].tag)));
      forall x | IsTag(w.recs, x)
        ensures Value(fs.db.recs, x) ==
             if !Passes(w.recs, x, id) then Value(w.recs, x)
             else if w.recs[id].tag.parent != NULL then Value(w.recs, w.recs[id].tag.parent)
             else None
      {
        RemoveTagValues(w.recs, fs.db.lay, id, x);
      }
    }
  }

  /** md2TagUnChain: the tags whose chain reaches this one take the bytes it had of its own. */
  method UnChainTagData(fs: FileSystem, id: Id) returns (r: Result<()>)
    requires fs.Sound() && IsTag(fs.db.recs, id)
    modifies fs.db
    ensures fs.Sound() && fs.View() == old(fs.View()) && fs.db.Bound() == old(fs.db.Bound())
    ensures r == if Writable(old(fs.db.recs), id) then Ok(()) else Err(NotFound)
    ensures r.Err? ==> fs.db.recs == old(fs.db.recs)
    ensures r.Ok? ==> UnChainedAt(old(fs.db.recs), fs.db.recs, id)
  {
    hide Settled, TagInv, Below, ViewOf, Value, Passes, UnChainedAt;
    ghost var w: World := fs.W();
    r := UnChainTag(fs.db, id);
    if r.Ok? {
      UnChainedInv(w.recs, fs.db.lay, id);
      OneTagStep(w, fs.db.lay, id, UnChained(w.recs[id].tag));
      BelowPut(w.recs, fs.db.Bound(), fs.db.Bound(), id, TagRec(UnChained(w.recs[id].tag)));
      UnChainedAll(w.recs, fs.db.lay, id);
    }
  }

  ghost predicate UnChainedAt(r0: Recs, r1: Recs, id: Id) {
    && IsTag(r0, id) && r0[id].tag.entries <= |r0[id].tag.data|
    && r1 == r0[id := TagRec(r0[id].tag.(inherited := false, invalid := false))]
    && forall x :: IsTag(r0, x) ==>
         Value(r1, x) == if Passes(r0, x, id) then Some(r0[id].tag.data[..r0[id].tag.entries]) else Value(r0, x)
  }

  lemma UnChainedAll(r0: Recs, lay: Layout, id: Id)
    requires TagInv(r0, lay) && IsTag(r0, id)
    ensures UnChainedAt(r0, r0[id := TagRec(UnChained(r0[id].tag))], id)
  {
    hide Value, Passes;
    assert TagOk(r0, lay, id);
    forall x | IsTag(r0, x)
      ensures r0[id].tag.entries <= |r0[id].tag.data|
      ensures Value(r0[id := TagRec(UnChained(r0[id].tag))], x) ==
              if Passes(r0, x, id) then Some(r0[id].tag.data[..r0[id].tag.entries]) else Value(r0, x)
    {
      UnChainValues(r0, lay, id, x);
    }
    UnChainValues(r0, lay, id, id);
  }
}
