/** The operations of the server (dbserver.c) and of md2lib.c on names, each proved against the view.  Every one
    keeps the store partitioned into the records of the inodes, and the namespace consistent. */
module FsOps {
  import opened Records
  import opened Stores
  import opened FileShapes
  import opened FileRead
  import opened DirShapes
  import opened Dirs
  import opened DirMake
  import opened TagShapes
  import opened TagValues
  import opened TagLists
  import opened TagOps
  import opened Worlds
  import opened Namespace
  import opened FileSystems
  import opened FsFiles
  import opened FsDirs

  /** What every run of operations keeps. */
  ghost predicate Valid(fs: FileSystem)
    reads fs, fs.db
  {
    fs.Sound() && TreeOk(fs.View())
  }

  /** mdFindDirectoryEntry, and md2Lookup on an ordinary name. */
  method Lookup(fs: FileSystem, d: Id, name: Name) returns (r: Result<Item>)
    requires fs.Sound()
    ensures r == if d !in fs.db.recs then Err(NotFound)
                 else if !fs.db.recs[d].DirRec? then Err(NotDirectory)
                 else if name == "" then Err(BadName)
                 else if IsEntry(fs.View(), d, name) then Ok(EntryOf(fs.View(), d, name))
                 else Err(NotFound)
    ensures d in fs.View() && fs.View()[d].DirNode? <==> d in fs.db.recs && fs.db.recs[d].DirRec?
  {
    hide ShapesOk, Partition, DirOk, ViewOf, Entries;
    DirKnown(fs.W(), fs.db.lay, d);
    r := FindDirectoryEntry(fs.db, d, name, DirAt(fs.W(), d));
  }

  /** md2MakeDirectory for the root: a directory no other directory leads to. */
  method MakeTop(fs: FileSystem) returns (id: Id)
    requires Valid(fs)
    modifies fs, fs.db
    ensures Valid(fs) && id !in old(fs.View()) && ValuesKept(old(fs.db.recs), fs.db.recs)
    ensures fs.View() == old(fs.View())[id := DirNode(ROOT, false, false, map[], [])]
  {
    hide ShapesOk, Partition, TagInv, ViewOf, Value, TreeOk;
    ghost var v, r0: Recs := fs.View(), fs.db.recs;
    var r := NewDirectory(fs, ROOT);
    id := r.value;
    TreeNew(v, id, DirNode(ROOT, false, false, map[], []));
    SameKept(r0, fs.db.recs);
  }

  lemma SameKept(r0: Recs, r1: Recs)
    requires SameTags(r0, r1) && forall x :: IsTag(r0, x) ==> Value(r1, x) == Value(r0, x)
    ensures ValuesKept(r0, r1)
  {
  }

  lemma KeptTwice(r0: Recs, r1: Recs, r2: Recs)
    requires ValuesKept(r0, r1) && ValuesKept(r1, r2)
    ensures ValuesKept(r0, r2)
  {
  }

  /** An empty directory in `d`, whose protection it takes over. */
  ghost function NewNode(v: View, d: Id, tags: seq<Id>): Node
    requires d in v && v[d].DirNode?
  {
    DirNode(d, v[d].noRemove, v[d].noMove, map[], tags)
  }

  /** The view after dbs_mkdir: an empty directory whose tags mirror those of its parent, and its entry. */
  ghost function WithDirectory(v: View, d: Id, name: Name, n: Id, tags: seq<Id>): View
    requires d in v && v[d].DirNode? && d != n
  {
    WithEntry(v[n := NewNode(v, d, tags)], d, Item(n, name, false, 0))
  }

  /** dbs_mkdir and md2MakeDirectory.  An empty name is noticed too late: the directory stays, without an entry. */
  method MakeDirectory(fs: FileSystem, d: Id, name: Name) returns (r: Result<Id>, ghost made: Id)
    requires Valid(fs) && (d in fs.db.recs ==> fs.db.recs[d].DirRec?) && d != ROOT
    modifies fs, fs.db
    ensures Valid(fs) && ValuesKept(old(fs.db.recs), fs.db.recs)
    ensures r == if d !in old(fs.db.recs) then Err(NotFound)
                 else if name == "" then Err(BadName)
                 else if IsEntry(old(fs.View()), d, name) then Err(Exists)
                 else Ok(made)
    ensures r.Err? && r.error != BadName ==> fs.View() == old(fs.View())
    ensures r.Ok? || r.error == BadName ==>
      && d in old(fs.View()) && old(fs.View())[d].DirNode? && made !in old(fs.View()) && made != d
      && made in fs.View() && fs.View()[made].DirNode?
      && fs.View() == (if r.Ok? then WithDirectory(old(fs.View()), d, name, made, fs.View()[made].tags)
                       else old(fs.View())[made := NewNode(old(fs.View()), d, fs.View()[made].tags)])
      && (r.Ok? ==> IsEntry(fs.View(), d, name) && EntryOf(fs.View(), d, name) == Item(made, name, false, 0))
      && fs.View()[made] == DirNode(d, old(fs.View())[d].noRemove, old(fs.View())[d].noMove, map[], fs.View()[made].tags)
      && Mirrors(old(fs.db.recs), old(fs.View())[d].tags, fs.db.recs, fs.View()[made].tags)
  {
    hide ShapesOk, Partition, TagInv, ViewOf, Value, TreeOk, ValuesKept, Mirrors, SameTags;
    ghost var v, r0: Recs := fs.View(), fs.db.recs;
    KeptNone(r0);
    made := NULL;
    var found := Lookup(fs, d, name);
    NoEmptyName(fs.W(), fs.db.lay, d);
    if found.Ok? { return Err(Exists), made; }
    DirFlags(fs.W(), fs.db.lay, d);
    var created := NewDirectory(fs, d);
    ghost var v1, r1: Recs := fs.View(), fs.db.recs;
    SameKept(r0, r1);
    if created.Err? { return created, made; }
    var n := created.value;
    made := n;
    TreeNew(v, n, v1[n]);
    var c := CopyTags(fs, d, n);
    ghost var v2, r2: Recs := fs.View(), fs.db.recs;
    TreeSame(v1, n, v2[n]);
    KeptTwice(r0, r1, r2);
    PutTwice(v, n, v1[n], v2[n]);
    MirrorsKept(r0, r1, v[d].tags, r2, v2[n].tags);
    DirFlags(fs.W(), fs.db.lay, d);
    var a := AddEntry(fs, d, Item(n, name, false, 0));
    if a.Err? { return Err(a.error), made; }
    TreeAdd(v2, d, Item(n, name, false, 0));
    SameKept(r2, fs.db.recs);
    KeptTwice(r0, r2, fs.db.recs);
    MirrorsFrame(r0, v[d].tags, r2, fs.db.recs, v2[n].tags);
    r := Ok(n);
  }

  lemma PutTwice(v: View, n: Id, a: Node, b: Node)
    ensures v[n := a][n := b] == v[n := b]
  {
  }

  lemma DirFlags(w: World, lay: Layout, d: Id)
    requires Settled(w, lay)
    ensures d in ViewOf(w, lay) && ViewOf(w, lay)[d].DirNode? <==> d in w.recs && w.recs[d].DirRec?
    ensures d in ViewOf(w, lay) && ViewOf(w, lay)[d].DirNode? && d != ROOT ==>
              Flags(w.recs, d) == (ViewOf(w, lay)[d].noRemove, ViewOf(w, lay)[d].noMove)
  {
    hide ShapeOk, NodeOf, Partition;
    DirKnown(w, lay, d);
  }

  lemma MirrorsKept(r0: Recs, r1: Recs, tags: seq<Id>, r2: Recs, copies: seq<Id>)
    requires Mirrors(r1, tags, r2, copies) && SameTags(r0, r1) && r0.Keys <= r1.Keys
    requires forall x :: IsTag(r0, x) ==> Value(r1, x) == Value(r0, x)
    ensures Mirrors(r0, tags, r2, copies)
  {
  }

  lemma MirrorsFrame(r0: Recs, tags: seq<Id>, r2: Recs, r3: Recs, copies: seq<Id>)
    requires Mirrors(r0, tags, r2, copies) && SameTags(r2, r3)
    requires forall x :: IsTag(r2, x) ==> Value(r3, x) == Value(r2, x)
    ensures Mirrors(r0, tags, r3, copies)
  {
  }

  /** The new-file branch of dbs_mkfile (md2MakeFilePerm). */
  method MakeFile(fs: FileSystem, d: Id, name: Name) returns (r: Result<Id>)
    requires Valid(fs)
    modifies fs, fs.db
    ensures Valid(fs) && ValuesKept(old(fs.db.recs), fs.db.recs)
    ensures match Guard(old(fs.db.recs), d, name)
            case Some(e) => r == Err(e)
            case None => if IsEntry(old(fs.View()), d, name) then r == Err(Exists) else r.Ok?
    ensures r.Err? ==> fs.View() == old(fs.View())
    ensures r.Ok? ==>
      && d in old(fs.View()) && old(fs.View())[d].DirNode? && r.value !in old(fs.View()) && r.value != d
      && fs.View() == WithEntry(old(fs.View())[r.value := FileNode(d, seq(8, i => []))], d, Item(r.value, name, false, 0))
      && r.value in fs.shapes && fs.shapes[r.value] == FileShaped(EmptyLevels())
  {
    hide ShapesOk, Partition, TagInv, ViewOf, Value, TreeOk, ValuesKept, SameTags;
    ghost var v, r0: Recs := fs.View(), fs.db.recs;
    KeptNone(r0);
    var found := Lookup(fs, d, name);
    if found.Ok? { return Err(Exists); }
    if found.error != NotFound { return Err(found.error); }
    var made := NewFile(fs, d);
    ghost var v1, r1: Recs := fs.View(), fs.db.recs;
    SameKept(r0, r1);
    if made.Err? { return made; }
    var n := made.value;
    TreeNew(v, n, v1[n]);
    DirFlags(fs.W(), fs.db.lay, d);
    var a := AddEntry(fs, d, Item(n, name, false, 0));
    assert a.Ok?;   // the directory is there, and has no such entry
    TreeAdd(v1, d, Item(n, name, false, 0));
    SameKept(r1, fs.db.recs);
    KeptTwice(r0, r1, fs.db.recs);
    r := Ok(n);
  }

  /** The view after dbs_makelink. */
  ghost function WithLink(v: View, d: Id, name: Name, n: Id, mode: nat, path: string): View
    requires d in v && v[d].DirNode? && d != n && mode < LEVELS
  {
    WithEntry(v[n := LinkNode(d, seq(LEVELS, i => None)[mode := Some(path)])], d, Item(n, name, false, 0))
  }

  /** A link of eight levels, with a path in at most one of them. */
  ghost predicate LinkIs(node: Node, d: Id, mode: nat, path: Option<string>) {
    node.LinkNode? && node.parent == d && |node.paths| == 8 && forall i :: 0 <= i < 8 ==> node.paths[i] == if i == mode then path else None
  }

  lemma LinkMade(v: View, d: Id, name: Name, n: Id, mode: nat, path: string)
    requires d in v && v[d].DirNode? && d != n && mode < LEVELS
    ensures var v2 := WithEntry(v[n := LinkNode(d, seq(LEVELS, i => None))], d, Item(n, name, false, 0));
            && n in v2 && LinkIs(v2[n], d, mode, None) && IsEntry(v2, d, name) && EntryOf(v2, d, name) == Item(n, name, false, 0)
    ensures var v2 := WithLink(v, d, name, n, mode, path);
            && n in v2 && LinkIs(v2[n], d, mode, Some(path)) && IsEntry(v2, d, name) && EntryOf(v2, d, name) == Item(n, name, false, 0)
  {
  }

  /** dbs_makelink and md2MakeLink.  A path that does not fit is noticed too late: the link stays, without a path. */
  method MakeLink(fs: FileSystem, d: Id, name: Name, mode: nat, path: string) returns (r: Result<Id>, ghost made: Id)
    requires Valid(fs) && mode < LEVELS
    modifies fs, fs.db
    ensures Valid(fs) && ValuesKept(old(fs.db.recs), fs.db.recs)
    ensures match Guard(old(fs.db.recs), d, name)
            case Some(e) => r == Err(e)
            case None =>
              r == if IsEntry(old(fs.View()), d, name) then Err(Exists)
                   else if |path| + 4 > fs.db.lay.dataUnits then Err(NoSpace)
                   else Ok(made)
    ensures r.Err? && r.error != NoSpace ==> fs.W() == old(fs.W())
    ensures r.Ok? || r.error == NoSpace ==>
      && d in old(fs.View()) && old(fs.View())[d].DirNode? && made !in old(fs.View()) && made != d
      && fs.View() == (if r.Ok? then WithLink(old(fs.View()), d, name, made, mode, path)
                       else WithEntry(old(fs.View())[made := LinkNode(d, seq(LEVELS, i => None))], d, Item(made, name, false, 0)))
      && made in fs.View() && LinkIs(fs.View()[made], d, mode, if r.Ok? then Some(path) else None)
      && IsEntry(fs.View(), d, name) && EntryOf(fs.View(), d, name) == Item(made, name, false, 0)
  {
    hide ShapesOk, Partition, TagInv, ViewOf, Value, TreeOk, ValuesKept, SameTags, WithLink, LinkIs;
    ghost var v, r0: Recs := fs.View(), fs.db.recs;
    KeptNone(r0);
    var found := Lookup(fs, d, name);
    made := NULL;
    if found.Ok? { return Err(Exists), made; }
    if found.error != NotFound || !(d in fs.db.recs) { return Err(found.error), made; }
    var n := NewLink(fs, d);
    made := n;
    ghost var v1, r1: Recs := fs.View(), fs.db.recs;
    SameKept(r0, r1);
    TreeNew(v, n, v1[n]);
    DirFlags(fs.W(), fs.db.lay, d);
    var a := AddEntry(fs, d, Item(n, name, false, 0));
    ghost var v2, r2: Recs := fs.View(), fs.db.recs;
    SameKept(r1, r2);
    KeptTwice(r0, r1, r2);
    assert a.Ok?;   // the directory is there, and has no such entry
    TreeAdd(v1, d, Item(n, name, false, 0));
    r := PutPath(fs, n, mode, path);
    KeptTwice(r0, r2, fs.db.recs);
    LinkMade(v, d, name, n, mode, path);
    if r.Ok? { LinkView(v, d, name, n, mode, path); }
  }

  method PutPath(fs: FileSystem, n: Id, mode: nat, path: string) returns (r: Result<Id>)
    requires Valid(fs) && mode < LEVELS && n in fs.View() && fs.View()[n].LinkNode?
    modifies fs, fs.db
    ensures Valid(fs) && ValuesKept(old(fs.db.recs), fs.db.recs)
    ensures r == if |path| + 4 > fs.db.lay.dataUnits then Err(NoSpace) else Ok(n)
    ensures r.Err? ==> fs.W() == old(fs.W())
    ensures r.Ok? ==> |old(fs.View())[n].paths| == LEVELS
    ensures r.Ok? ==> fs.View() == old(fs.View())[n := old(fs.View())[n].(paths := old(fs.View())[n].paths[mode := Some(path)])]
  {
    hide ShapesOk, Partition, TagInv, ViewOf, Value, TreeOk, ValuesKept, SameTags;
    ghost var v, r0: Recs := fs.View(), fs.db.recs;
    LinkThere(fs.W(), fs.db.lay, n);
    var l := WriteLink(fs, n, mode, path);
    SameKept(r0, fs.db.recs);
    if l.Err? { return Err(l.error); }
    TreeSame(v, n, fs.View()[n]);
    r := Ok(n);
  }

  lemma LinkView(v: View, d: Id, name: Name, n: Id, mode: nat, path: string)
    requires d in v && v[d].DirNode? && n !in v && mode < LEVELS
    ensures var link := LinkNode(d, seq(LEVELS, i => None));
            var v2 := WithEntry(v[n := link], d, Item(n, name, false, 0));
            && n in v2 && v2[n] == link
            && v2[n := link.(paths := link.paths[mode := Some(path)])] == WithLink(v, d, name, n, mode, path)
  {
  }

  lemma LinkThere(w: World, lay: Layout, n: Id)
    requires Settled(w, lay) && n in ViewOf(w, lay) && ViewOf(w, lay)[n].LinkNode?
    ensures n in w.recs && w.recs[n].LinkRec?
  {
    LinkKnown(w, lay, n);
  }

  /** md2RemoveFile.  The entry goes first: if it names a directory, the directory stays behind without an entry. */
  method RemoveFile(fs: FileSystem, d: Id, name: Name) returns (r: Result<()>)
    requires Valid(fs)
    modifies fs, fs.db
    ensures Valid(fs) && ValuesKept(old(fs.db.recs), fs.db.recs)
    ensures IsEntry(old(fs.View()), d, name) && name != "" && !old(fs.View())[d].noRemove ==>
              var n := EntryOf(old(fs.View()), d, name).id;
              if old(fs.View())[n].DirNode?
              then r == Err(NotRegular) && fs.View() == WithoutEntry(old(fs.View()), d, name)
              else r == Ok(()) && fs.View() == WithoutEntry(old(fs.View()), d, name) - {n}
    ensures !(IsEntry(old(fs.View()), d, name) && name != "" && !old(fs.View())[d].noRemove) ==>
              fs.W() == old(fs.W()) && r == match Guard(old(fs.db.recs), d, name)
                                            case Some(e) => Err(e)
                                            case None => Err(if IsEntry(old(fs.View()), d, name) then NotAllowed else NotFound)
  {
    hide ShapesOk, Partition, TagInv, ViewOf, Value, ValuesKept, SameTags;
    ghost var v, r0: Recs := fs.View(), fs.db.recs;
    KeptNone(r0);
    var found := Lookup(fs, d, name);
    if found.Err? { return Err(found.error); }
    var n := found.value.id;
    DirFlags(fs.W(), fs.db.lay, d);
    var e := RemoveEntry(fs, d, name);
    ghost var v1, r1: Recs := fs.View(), fs.db.recs;
    SameKept(r0, r1);
    if e.Err? { return Err(e.error); }
    TreeRemove(v, d, name);
    DirFlags(fs.W(), fs.db.lay, n);
    InodeThere(fs.W(), fs.db.lay, n);
    r := DeleteFile(fs, n);
    SameKept(r1, fs.db.recs);
    KeptTwice(r0, r1, fs.db.recs);
    if r.Ok? { TreeDelete(v1, n); }
  }

  /** md2RemoveDirectory: the entry of an empty directory goes, and with it, unless it is an entry only, the directory. */
  method RemoveDirectory(fs: FileSystem, d: Id, name: Name) returns (r: Result<()>)
    requires Valid(fs)
    modifies fs, fs.db
    ensures Valid(fs)
    ensures r.Err? ==> fs.W() == old(fs.W())
    ensures r.Ok? <==>
      && IsEntry(old(fs.View()), d, name) && name != "" && !old(fs.View())[d].noRemove
      && var n := EntryOf(old(fs.View()), d, name).id;
         old(fs.View())[n].DirNode? && old(fs.View())[n].entries == map[]
    ensures r.Err? && IsEntry(old(fs.View()), d, name) && name != "" ==>
              var n := EntryOf(old(fs.View()), d, name).id;
              r.error == if !old(fs.View())[n].DirNode? then NotDirectory else if old(fs.View())[n].entries != map[] then NotEmpty else NotAllowed
    ensures r.Ok? ==>
      var item := EntryOf(old(fs.View()), d, name);
      if item.entryOnly
      then fs.View() == WithoutEntry(old(fs.View()), d, name) && ValuesKept(old(fs.db.recs), fs.db.recs)
      else && fs.View() == WithoutEntry(old(fs.View()), d, name) - {item.id}
           && Cleared(old(fs.db.recs), fs.db.recs, old(fs.View())[item.id].tags)
  {
    hide ShapesOk, Partition, TagInv, ViewOf, Value, ValuesKept, SameTags, Cleared;
    ghost var v, r0: Recs := fs.View(), fs.db.recs;
    KeptNone(r0);
    var found := Lookup(fs, d, name);
    if found.Err? { return Err(found.error); }
    var n := found.value.id;
    var rec := fs.db.Get(n);
    InodeThere(fs.W(), fs.db.lay, n);
    if !rec.value.DirRec? { return Err(NotDirectory); }
    DirCount(fs.W(), fs.db.lay, n);
    if rec.value.dir.count > 0 { return Err(NotEmpty); }
    DirFlags(fs.W(), fs.db.lay, d);
    var e := RemoveEntry(fs, d, name);
    ghost var v1, r1: Recs := fs.View(), fs.db.recs;
    SameKept(r0, r1);
    if e.Err? { return Err(e.error); }
    TreeRemove(v, d, name);
    r := Ok(());
    if !e.value.entryOnly {
      InodeThere(fs.W(), fs.db.lay, n);
      var x := DeleteDir(fs, n);
      assert x.Ok?;   // it is a directory, and empty
      TreeDelete(v1, n);
      ClearedAfter(r0, r1, fs.db.recs, v[n].tags);
    }
  }

  lemma DirCount(w: World, lay: Layout, d: Id)
    requires Settled(w, lay) && d in w.recs && w.recs[d].DirRec?
    ensures d in ViewOf(w, lay) && ViewOf(w, lay)[d].DirNode?
    ensures w.recs[d].dir.count > 0 <==> ViewOf(w, lay)[d].entries != map[]
  {
    hide ShapeOk, NodeOf, Partition, DirCore;
    DirKnown(w, lay, d);
    CountOfEntries(w.recs, DirAt(w, d));
  }

  lemma CountOfEntries(recs: Recs, sh: DirShape)
    ensures |sh.slot| > 0 <==> Entries(recs, sh) != map[]
  {
    assert Entries(recs, sh).Keys == sh.slot.Keys;
    assert |sh.slot| == 0 <==> sh.slot.Keys == {};
  }

  lemma ClearedAfter(r0: Recs, r1: Recs, r2: Recs, gone: seq<Id>)
    requires SameTags(r0, r1) && forall x :: IsTag(r0, x) ==> Value(r1, x) == Value(r0, x)
    requires Cleared(r1, r2, gone)
    ensures Cleared(r0, r2, gone)
  {
    hide Value;
    forall x | IsTag(r2, x) ensures Severed(r1, x, IdSet(gone)) == Severed(r0, x, IdSet(gone)) {
      SeveredFrame(r0, r1, x, IdSet(gone));
    }
  }

  lemma {:induction false} SeveredFrame(r0: Recs, r1: Recs, x: Id, gone: set<Id>)
    requires SameTags(r0, r1)
    ensures Severed(r1, x, gone) == Severed(r0, x, gone)
  {
    if IsTag(r0, x) && Inherits(r0[x].tag) && r0[x].tag.parent < x {
      SeveredFrame(r0, r1, r0[x].tag.parent, gone);
    }
  }

  // ----- rename -----

  /** When a rename gets as far as changing the source directory. */
  ghost predicate Movable(v: View, from: Id, fromName: Name, to: Id, toName: Name) {
    && IsEntry(v, from, fromName) && fromName != "" && !v[from].noMove
    && to in v && v[to].DirNode? && toName != "" && !IsEntry(v, to, toName)
    && EntryOf(v, from, fromName).id != to
  }

  /** dbs_rename: add, remove, re-parent.  A directory whose entries must not be removed is noticed too late: the
      answer is Panic, and the item has both names. */
  method Rename(fs: FileSystem, from: Id, fromName: Name, to: Id, toName: Name) returns (r: Result<()>)
    requires Valid(fs) && (from in fs.db.recs ==> fs.db.recs[from].DirRec?) && (to in fs.db.recs ==> fs.db.recs[to].DirRec?)
    modifies fs, fs.db
    ensures fs.Sound() && ValuesKept(old(fs.db.recs), fs.db.recs)
    ensures r == if !(from in old(fs.View()) && old(fs.View())[from].DirNode?) then Err(NotFound)
                 else if old(fs.View())[from].noMove then Err(NotAllowed)
                 else if !(to in old(fs.View()) && old(fs.View())[to].DirNode?) then Err(NotFound)
                 else if IsEntry(old(fs.View()), to, toName) then Err(Exists)
                 else if !IsEntry(old(fs.View()), from, fromName) then Err(NotFound)
                 else if EntryOf(old(fs.View()), from, fromName).id == to then Err(NotAllowed)
                 else if toName == "" then Err(BadName)
                 else if old(fs.View())[from].noRemove then Err(Panic)
                 else Ok(())
    ensures r.Ok? <==> Movable(old(fs.View()), from, fromName, to, toName) && !old(fs.View())[from].noRemove
    ensures r == Err(Panic) <==> Movable(old(fs.View()), from, fromName, to, toName) && old(fs.View())[from].noRemove
    ensures r.Ok? ==> fs.View() == Renamed(old(fs.View()), from, fromName, to, toName)
    ensures r == Err(Panic) ==>
              fs.View() == WithEntry(old(fs.View()), to, EntryOf(old(fs.View()), from, fromName).(name := toName))
    ensures r.Err? && r.error != Panic ==> fs.W() == old(fs.W())
    ensures r != Err(Panic) ==> Valid(fs)
  {
    hide ShapesOk, Partition, TagInv, ViewOf, Value, TreeOk, ValuesKept, SameTags;
    ghost var v, r0: Recs := fs.View(), fs.db.recs;
    KeptNone(r0);
    DirMoves(fs.W(), fs.db.lay, from);
    NoEmptyName(fs.W(), fs.db.lay, from);
    NoEmptyName(fs.W(), fs.db.lay, to);
    DirFlags(fs.W(), fs.db.lay, to);
    var fromDir := fs.db.Get(from);
    if fromDir.None? { return Err(NotFound); }
    if fromDir.value.dir.noMove { return Err(NotAllowed); }
    var toDir := fs.db.Get(to);
    if toDir.None? { return Err(NotFound); }
    var there := Lookup(fs, to, toName);
    if there.Ok? { return Err(Exists); }
    var here := Lookup(fs, from, fromName);
    if here.Err? { return Err(NotFound); }
    var item := here.value;
    if item.id == to { return Err(NotAllowed); }
    EntryInode(fs.W(), fs.db.lay, from, fromName);
    r := MoveEntry(fs, from, fromName, to, item.(name := toName));
  }

  lemma NoEmptyName(w: World, lay: Layout, d: Id)
    requires Settled(w, lay)
    ensures !IsEntry(ViewOf(w, lay), d, "")
  {
    hide ShapeOk, NodeOf, Partition, DirCore;
    DirKnown(w, lay, d);
    if d in w.recs && w.recs[d].DirRec? {
      SlotNamed(w.recs, lay, w.recs[d].dir, DirAt(w, d));
    }
  }

  lemma SlotNamed(recs: Recs, lay: Layout, d: DirInode, sh: DirShape)
    requires DirCore(recs, lay, d, sh)
    ensures "" !in sh.slot && "" !in Entries(recs, sh)
  {
    forall name | name in sh.slot ensures name != "" {
      assert SlotOk(recs, sh, name);
      assert BlockOk(recs, lay, d, sh, sh.slot[name].0);
    }
  }

  lemma DirMoves(w: World, lay: Layout, d: Id)
    requires Settled(w, lay)
    ensures d in ViewOf(w, lay) && ViewOf(w, lay)[d].DirNode? <==> d in w.recs && w.recs[d].DirRec?
    ensures d in w.recs && w.recs[d].DirRec? ==> ViewOf(w, lay)[d].noMove == w.recs[d].dir.noMove
  {
    hide ShapeOk, NodeOf, Partition;
    DirKnown(w, lay, d);
  }

  lemma EntryInode(w: World, lay: Layout, d: Id, name: Name)
    requires Settled(w, lay) && TreeOk(ViewOf(w, lay)) && IsEntry(ViewOf(w, lay), d, name)
    ensures var n := EntryOf(ViewOf(w, lay), d, name).id;
            n in ViewOf(w, lay) && n in w.recs && n != NULL && !w.recs[n].TagRec?
  {
    hide Partition, NodeOf;
    var n := EntryOf(ViewOf(w, lay), d, name).id;
    InodeThere(w, lay, n);
    assert ShapeOk(w.recs, lay, n, w.shapes[n]);
  }

  /** The part of dbs_rename that changes the store. */
  method MoveEntry(fs: FileSystem, from: Id, fromName: Name, to: Id, item: Item) returns (r: Result<()>)
    requires Valid(fs) && IsEntry(fs.View(), from, fromName) && fromName != ""
    requires EntryOf(fs.View(), from, fromName).(name := item.name) == item
    requires item.id in fs.View() && item.id in fs.db.recs && item.id != NULL && !fs.db.recs[item.id].TagRec?
    requires to in fs.View() && fs.View()[to].DirNode? && !IsEntry(fs.View(), to, item.name)
    modifies fs, fs.db
    ensures fs.Sound() && ValuesKept(old(fs.db.recs), fs.db.recs)
    ensures item.name == "" ==> r == Err(BadName) && fs.W() == old(fs.W()) && Valid(fs)
    ensures item.name != "" && old(fs.View())[from].noRemove ==> r == Err(Panic) && fs.View() == WithEntry(old(fs.View()), to, item)
    ensures item.name != "" && !old(fs.View())[from].noRemove ==>
              r == Ok(()) && Valid(fs) && fs.View() == Renamed(old(fs.View()), from, fromName, to, item.name)
  {
    hide ShapesOk, Partition, TagInv, ViewOf, Value, TreeOk, ValuesKept, SameTags;
    ghost var v, r0: Recs := fs.View(), fs.db.recs;
    DirFlags(fs.W(), fs.db.lay, to);
    var a := AddEntry(fs, to, item);
    ghost var r1: Recs := fs.db.recs;
    SameKept(r0, r1);
    if a.Err? { return a; }
    DirFlags(fs.W(), fs.db.lay, from);
    var e := RemoveEntry(fs, from, fromName);
    ghost var r2: Recs := fs.db.recs;
    SameKept(r1, r2);
    KeptTwice(r0, r1, r2);
    if e.Err? { return Err(Panic); }
    NoTagMoved(r0, r1, r2, item.id);
    var c := ChangeParent(fs, item.id, to);
    SameKept(r2, fs.db.recs);
    KeptTwice(r0, r2, fs.db.recs);
    RenameMovesOne(v, from, fromName, to, item.name);
    r := c;
  }

  lemma NoTagMoved(r0: Recs, r1: Recs, r2: Recs, id: Id)
    requires SameTags(r0, r1) && SameTags(r1, r2) && id in r0 && id != NULL && !r0[id].TagRec?
    ensures id in r2 ==> !r2[id].TagRec?
  {
  }

  // ----- data and tags -----

  /** md2WriteData on a regular file. */
  method WriteData(fs: FileSystem, id: Id, mode: nat, b: seq<byte>, off: nat) returns (r: Result<()>)
    requires Valid(fs) && mode < LEVELS && FlatRequest(fs.db.recs, fs.db.lay, id, mode, b, off)
    modifies fs, fs.db
    ensures Valid(fs) && ValuesKept(old(fs.db.recs), fs.db.recs)
    ensures r == if id !in old(fs.db.recs) then Err(NotFound) else if mode != 0 && off + 4 > 4096 then Err(NoSpace) else Ok(())
    ensures r.Err? ==> fs.W() == old(fs.W())
    ensures r.Ok? ==> id in old(fs.View()) && old(fs.View())[id].FileNode? && |old(fs.View())[id].contents| == LEVELS
    ensures r.Ok? && (mode == 0 || off + |b| <= 4096) ==>
      WrittenAt(old(fs.W()), old(fs.View()), fs.W(), fs.View(), fs.db.lay, id, mode, b, off)
    ensures r.Ok? && mode != 0 && off + |b| > 4096 ==>
      WrittenAt(old(fs.W()), old(fs.View()), fs.W(), fs.View(), fs.db.lay, id, mode, b[..4096 - off], off)
  {
    hide ShapesOk, Partition, TagInv, ViewOf, Value, TreeOk, ValuesKept, SameTags, WriteFlat, FilledAt;
    ghost var v, r0: Recs := fs.View(), fs.db.recs;
    KeptNone(r0);
    r := WriteFile(fs, id, mode, b, off);
    SameKept(r0, fs.db.recs);
    if r.Ok? { TreeSame(v, id, fs.View()[id]); }
  }

  /** md2ReadData on a regular file: the slice of the flat contents, wherever the block loop stays in step. */
  method ReadData(fs: FileSystem, id: Id, mode: nat, off: nat, size: nat) returns (r: Option<ReadResult>)
    requires Valid(fs) && mode < LEVELS && (id in fs.db.recs ==> fs.db.recs[id].FileRec?)
    ensures r.None? <==> id !in fs.View() || !fs.View()[id].FileNode?
    ensures r.Some? && r.value.Bytes? ==>
      && |fs.View()[id].contents| == LEVELS && |fs.db.recs[id].file.levels| == LEVELS
      && var sh := LevelsAt(fs.W(), id)[mode];
         (sh.HashChain? ==> ReadInStep(fs.db.lay, fs.db.recs[id].file.levels[mode], sh.blocks, off, size)) ==>
         r.value.data == Slice(fs.View()[id].contents[mode], off, size)
    ensures r.Some? ==>
      && |fs.db.recs[id].file.levels| == LEVELS
      && var sh := LevelsAt(fs.W(), id)[mode];
         sh.HashChain? ==>
           && BlocksOk(fs.db.recs, fs.db.lay, |sh.hashes|, sh.blocks) && r.value.Bytes?
           && r.value.data == ReadChain(fs.db.recs, fs.db.lay, fs.db.recs[id].file.levels[mode], |sh.hashes|, sh.blocks, off, size)
  {
    hide ShapesOk, Partition, TagInv, ViewOf, TreeOk, Contents, LevelOk, ReadInStep;
    FileKnown(fs.W(), fs.db.lay, id);
    var rec := fs.db.Get(id);
    if rec.None? { return None; }
    LevelKnown(fs.W(), fs.db.lay, id, mode);
    var d := ReadDataLow(fs.db, rec.value.file, mode, off, size, LevelsAt(fs.W(), id)[mode]);
    r := Some(d);
  }

  /** md2TruncateZero: a level of a file is empty; a tag is un-chained. */
  method Truncate(fs: FileSystem, id: Id, mode: nat) returns (r: Result<()>)
    requires Valid(fs) && mode < LEVELS
    modifies fs, fs.db
    ensures Valid(fs)
    ensures r == if id !in old(fs.db.recs) then Err(NotFound)
                 else if IsTag(old(fs.db.recs), id) then (if Writable(old(fs.db.recs), id) then Ok(()) else Err(NotFound))
                 else if !old(fs.db.recs)[id].FileRec? then Err(NotRegular) else Ok(())
    ensures r.Err? ==> fs.W() == old(fs.W())
    ensures r.Ok? && IsTag(old(fs.db.recs), id) ==> fs.View() == old(fs.View()) && UnChainedAt(old(fs.db.recs), fs.db.recs, id)
    ensures r.Ok? && !IsTag(old(fs.db.recs), id) ==>
      && id in old(fs.View()) && old(fs.View())[id].FileNode? && |old(fs.View())[id].contents| == LEVELS
      && fs.View() == old(fs.View())[id := old(fs.View())[id].(contents := old(fs.View())[id].contents[mode := []])]
      && ValuesKept(old(fs.db.recs), fs.db.recs)
  {
    hide ShapesOk, Partition, TagInv, ViewOf, Value, TreeOk, ValuesKept, SameTags, UnChainedAt, Writable;
    ghost var v, r0: Recs := fs.View(), fs.db.recs;
    var rec := fs.db.Get(id);
    if rec.None? { return Err(NotFound); }
    assert id != NULL;
    if rec.value.FileRec? {
      r := TruncateFile(fs, id, mode);
      SameKept(r0, fs.db.recs);
      TreeSame(v, id, fs.View()[id]);
    } else if rec.value.TagRec? {
      r := UnChainTagData(fs, id);
    } else {
      r := Err(NotRegular);
    }
  }

  /** dbs_mkfile: an existing name answers its ID, and is truncated first if the attributes say so. */
  method CreateFile(fs: FileSystem, d: Id, name: Name, mode: nat, empty: bool) returns (r: Result<Id>)
    requires Valid(fs) && mode < LEVELS
    modifies fs, fs.db
    ensures Valid(fs) && ValuesKept(old(fs.db.recs), fs.db.recs)
    ensures Guard(old(fs.db.recs), d, name).Some? ==> r == Err(Guard(old(fs.db.recs), d, name).value) && fs.View() == old(fs.View())
    ensures Guard(old(fs.db.recs), d, name).None? && IsEntry(old(fs.View()), d, name) ==>
              var n := EntryOf(old(fs.View()), d, name).id;
              if !empty then r == Ok(n) && fs.W() == old(fs.W())
              else if !old(fs.View())[n].FileNode? then r == Err(NotRegular) && fs.W() == old(fs.W())
              else && r == Ok(n) && |old(fs.View())[n].contents| == LEVELS
                   && fs.View() == old(fs.View())[n := old(fs.View())[n].(contents := old(fs.View())[n].contents[mode := []])]
    ensures Guard(old(fs.db.recs), d, name).None? && !IsEntry(old(fs.View()), d, name) ==>
              && r.Ok? && d in old(fs.View()) && old(fs.View())[d].DirNode? && r.value !in old(fs.View()) && r.value != d
              && fs.View() == WithEntry(old(fs.View())[r.value := FileNode(d, seq(LEVELS, i => []))], d, Item(r.value, name, false, 0))
  {
    hide ShapesOk, Partition, TagInv, ViewOf, Value, ValuesKept, SameTags, UnChainedAt, Writable;
    ghost var v, r0: Recs := fs.View(), fs.db.recs;
    KeptNone(r0);
    var found := Lookup(fs, d, name);
    if found.Ok? {
      var n := found.value.id;
      InodeThere(fs.W(), fs.db.lay, n);
      if empty {
        var t := Truncate(fs, n, mode);
        if t.Err? { return Err(t.error); }
      }
      return Ok(n);
    }
    if found.error != NotFound { return Err(found.error); }
    r := MakeFile(fs, d, name);
  }

  /** md2AddNewTag: a tag of its own at the end of the list. */
  method AddNewTag(fs: FileSystem, d: Id, name: string) returns (r: Result<Id>)
    requires Valid(fs) && (d in fs.db.recs ==> !fs.db.recs[d].RowRec? && !fs.db.recs[d].SlotsRec?)
    modifies fs, fs.db
    ensures Valid(fs) && ValuesKept(old(fs.db.recs), fs.db.recs)
    ensures r == if d !in old(fs.db.recs) then Err(NotFound)
                 else if !old(fs.db.recs)[d].DirRec? then Err(NotDirectory)
                 else if HasName(old(fs.db.recs), TagsAt(old(fs.W()), d), Cut(name)) then Err(Exists)
                 else Ok(old(fs.db.Bound()))
    ensures r.Err? ==> fs.W() == old(fs.W())
    ensures r.Ok? ==>
      && d in old(fs.View()) && old(fs.View())[d].DirNode?
      && fs.View() == old(fs.View())[d := old(fs.View())[d].(tags := old(fs.View())[d].tags + [r.value])]
      && r.value !in old(fs.db.recs) && IsTag(fs.db.recs, r.value) && Value(fs.db.recs, r.value) == Some([])
      && fs.db.recs[r.value].tag.name == Cut(name) && fs.db.recs[r.value].tag.parent == NULL
  {
    hide ShapesOk, Partition, TagInv, ViewOf, Value, TreeOk, ValuesKept, HasName;
    ghost var v, r0: Recs := fs.View(), fs.db.recs;
    KeptNone(r0);
    r := AddTag(fs, d, NULL, name);
    if r.Ok? { TreeSame(v, d, fs.View()[d]); }
  }
}
