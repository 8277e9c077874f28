/** Runs of operations on the file system. */
module Runs {
  import opened Records
  import opened TagValues
  import opened TagLists
  import opened Worlds
  import opened Namespace
  import opened FileSystems
  import opened FsFiles
  import opened FsDirs
  import opened FsOps
  import opened Propagate
  import opened FsShrink
  import opened Meanings

  ghost function StateOf(fs: FileSystem): State
    requires fs.Sound()
    reads fs, fs.db
  {
    State(fs.View(), fs.db.recs)
  }

  // ----- the operations, each with its meaning -----

  method DoTop(fs: FileSystem) returns (ghost n: Id)
    requires Valid(fs)
    modifies fs, fs.db
    ensures Valid(fs) && MeansTop(old(StateOf(fs)), n, StateOf(fs))
  {
    hide ShapesOk, Partition, TagInv, ViewOf, Value, TreeOk, ValuesKept;
    var x := MakeTop(fs);
    n := x;
  }

  method DoDir(fs: FileSystem, d: Id, name: Name) returns (ghost n: Id)
    requires Valid(fs) && Sensible(fs.db.recs, fs.db.lay, MkDir(d, name))
    modifies fs, fs.db
    ensures Valid(fs) && MeansDir(old(StateOf(fs)), d, name, n, StateOf(fs))
  {
    hide ShapesOk, Partition, TagInv, ViewOf, Value, TreeOk, ValuesKept, Mirrors;
    InodeThere(fs.W(), fs.db.lay, d);
    NoEmptyName(fs.W(), fs.db.lay, d);
    var r, made := MakeDirectory(fs, d, name);
    n := made;
  }

  method DoFile(fs: FileSystem, d: Id, name: Name) returns (ghost n: Id)
    requires Valid(fs)
    modifies fs, fs.db
    ensures Valid(fs) && MeansFile(old(StateOf(fs)), d, name, n, StateOf(fs))
  {
    hide ShapesOk, Partition, TagInv, ViewOf, Value, TreeOk, ValuesKept;
    InodeThere(fs.W(), fs.db.lay, d);
    NoEmptyName(fs.W(), fs.db.lay, d);
    var r := MakeFile(fs, d, name);
    n := if r.Ok? then r.value else NULL;
  }

  method DoLink(fs: FileSystem, d: Id, name: Name, mode: nat, path: string) returns (ghost n: Id)
    requires Valid(fs) && mode < LEVELS
    modifies fs, fs.db
    ensures Valid(fs) && MeansLink(fs.db.lay, old(StateOf(fs)), d, name, mode, path, n, StateOf(fs))
  {
    hide ShapesOk, Partition, TagInv, ViewOf, Value, TreeOk, ValuesKept;
    InodeThere(fs.W(), fs.db.lay, d);
    NoEmptyName(fs.W(), fs.db.lay, d);
    var r, made := MakeLink(fs, d, name, mode, path);
    n := made;
  }

  method DoWrite(fs: FileSystem, id: Id, mode: nat, b: seq<byte>, off: nat)
    requires Valid(fs) && Sensible(fs.db.recs, fs.db.lay, Write(id, mode, b, off))
    modifies fs, fs.db
    ensures Valid(fs) && MeansWrite(old(StateOf(fs)), id, mode, b, off, StateOf(fs))
  {
    hide ShapesOk, Partition, TagInv, ViewOf, Value, TreeOk, ValuesKept, FilledAt;
    InodeThere(fs.W(), fs.db.lay, id);
    KeptNone(fs.db.recs);
    ghost var v := fs.View();
    if IsFile(v, id) { SameLevel(v, id, mode); }
    var r := WriteData(fs, id, mode, b, off);
  }

  method DoEmpty(fs: FileSystem, id: Id, mode: nat)
    requires Valid(fs) && Sensible(fs.db.recs, fs.db.lay, Empty(id, mode))
    modifies fs, fs.db
    ensures Valid(fs) && MeansEmpty(old(StateOf(fs)), id, mode, StateOf(fs))
  {
    hide ShapesOk, Partition, TagInv, ViewOf, Value, TreeOk, ValuesKept, UnChainedAt;
    InodeThere(fs.W(), fs.db.lay, id);
    KeptNone(fs.db.recs);
    var r := Truncate(fs, id, mode);
  }

  method DoFlag(fs: FileSystem, id: Id, flags: Protection, mask: Protection)
    requires Valid(fs)
    modifies fs, fs.db
    ensures Valid(fs) && MeansFlag(old(StateOf(fs)), id, flags, mask, StateOf(fs))
  {
    hide ShapesOk, Partition, TagInv, ViewOf, Value, TreeOk, ValuesKept, SameTags;
    ghost var v, r0: Recs := fs.View(), fs.db.recs;
    var r := ModFlags(fs, id, flags, mask);
    SameKept(r0, fs.db.recs);
    if r.Ok? {
      TreeSame(v, id, Protected(v[id], flags, mask));
    } else {
      SameLink(v, id, flags, mask);
    }
  }

  lemma SameLink(v: View, id: Id, flags: Protection, mask: Protection)
    requires id in v ==> v[id].LinkNode?
    ensures id in v ==> v[id := Protected(v[id], flags, mask)] == v
  {
  }

  method DoTagNew(fs: FileSystem, d: Id, tag: string) returns (ghost t: Id)
    requires Valid(fs) && Sensible(fs.db.recs, fs.db.lay, TagNew(d, tag))
    modifies fs, fs.db
    ensures Valid(fs) && MeansTagNew(old(StateOf(fs)), d, tag, t, StateOf(fs))
  {
    hide ShapesOk, Partition, TagInv, ViewOf, Value, TreeOk, ValuesKept, HasName;
    TagsSeen(fs.W(), fs.db.lay, d);
    var r := FsOps.AddNewTag(fs, d, tag);
    t := if r.Ok? then r.value else NULL;
  }

  lemma TagsSeen(w: World, lay: Layout, d: Id)
    requires Settled(w, lay)
    ensures IsDir(ViewOf(w, lay), d) <==> d in w.recs && w.recs[d].DirRec?
    ensures IsDir(ViewOf(w, lay), d) ==> ViewOf(w, lay)[d].tags == TagsAt(w, d)
  {
    hide ShapesOk, Partition, DirShapeOk;
    DirKnown(w, lay, d);
  }

  method DoTagWrite(fs: FileSystem, id: Id, b: seq<byte>, off: nat)
    requires Valid(fs) && Sensible(fs.db.recs, fs.db.lay, TagWrite(id, b, off))
    modifies fs, fs.db
    ensures Valid(fs) && MeansTagWrite(fs.db.lay, old(StateOf(fs)), id, b, off, StateOf(fs))
  {
    hide ShapesOk, Partition, TagInv, ViewOf, Value, TreeOk, Passes, WrittenOver;
    var r := WriteTagData(fs, id, b, off);
  }

  method DoTagRemove(fs: FileSystem, id: Id)
    requires Valid(fs) && Sensible(fs.db.recs, fs.db.lay, TagRemove(id))
    modifies fs, fs.db
    ensures Valid(fs) && MeansTagRemove(old(StateOf(fs)), id, StateOf(fs))
  {
    hide ShapesOk, Partition, TagInv, ViewOf, Value, TreeOk, Passes;
    var r := RemoveTagData(fs, id);
  }

  method DoTagSpread(fs: FileSystem, id: Id)
    requires Valid(fs) && Sensible(fs.db.recs, fs.db.lay, TagSpread(id))
    modifies fs, fs.db
    ensures Valid(fs) && MeansTagSpread(old(StateOf(fs)), id, StateOf(fs))
  {
    hide ShapesOk, Partition, TagInv, ViewOf, Value, TreeOk, ValuesKept, Spread, Marked, Reached;
    var r := PropagateTag(fs, id);
  }

  method DoRmFile(fs: FileSystem, d: Id, name: Name)
    requires Valid(fs)
    modifies fs, fs.db
    ensures Valid(fs) && MeansRmFile(old(StateOf(fs)), d, name, StateOf(fs))
  {
    hide ShapesOk, Partition, TagInv, ViewOf, Value, ValuesKept;
    var r := RemoveFile(fs, d, name);
  }

  method DoRmDir(fs: FileSystem, d: Id, name: Name)
    requires Valid(fs)
    modifies fs, fs.db
    ensures Valid(fs) && MeansRmDir(old(StateOf(fs)), d, name, StateOf(fs))
  {
    hide ShapesOk, Partition, TagInv, ViewOf, Value, ValuesKept, Cleared;
    var r := RemoveDirectory(fs, d, name);
  }

  method DoMove(fs: FileSystem, from: Id, fromName: Name, to: Id, toName: Name) returns (ok: bool)
    requires Valid(fs) && Sensible(fs.db.recs, fs.db.lay, Move(from, fromName, to, toName))
    modifies fs, fs.db
    ensures fs.Sound() && (ok ==> Valid(fs)) && (ok <==> !Panics(old(fs.View()), Move(from, fromName, to, toName)))
    ensures MeansMove(old(StateOf(fs)), from, fromName, to, toName, StateOf(fs))
  {
    hide ShapesOk, Partition, TagInv, ViewOf, Value, TreeOk, ValuesKept, Movable;
    var r := Rename(fs, from, fromName, to, toName);
    ok := r != Err(Panic);
  }

  method DoCompact(fs: FileSystem, d: Id)
    requires Valid(fs)
    modifies fs, fs.db
    ensures Valid(fs) && fs.View() == old(fs.View()) && ValuesKept(old(fs.db.recs), fs.db.recs)
  {
    hide ShapesOk, Partition, TagInv, ViewOf, Value, TreeOk, ValuesKept, SameTags;
    ghost var r0: Recs := fs.db.recs;
    var r := CompactDirectory(fs, d);
    SameKept(r0, fs.db.recs);
  }

  // ----- runs -----

  /** One operation has its meaning, and only a rename that ends half-way leaves the namespace inconsistent. */
  method Step(fs: FileSystem, op: Op) returns (ok: bool, ghost n: Id)
    requires Valid(fs) && Sensible(fs.db.recs, fs.db.lay, op)
    modifies fs, fs.db
    ensures fs.Sound() && (ok ==> Valid(fs)) && (ok <==> !Panics(old(fs.View()), op))
    ensures Means(fs.db.lay, old(StateOf(fs)), op, n, StateOf(fs))
  {
    hide ShapesOk, Partition, TagInv, ViewOf, Value, TreeOk, ValuesKept, Movable;
    hide MeansTop, MeansDir, MeansFile, MeansLink, MeansWrite, MeansEmpty, MeansFlag, MeansTagNew, MeansTagWrite, MeansTagRemove,
      MeansTagSpread, MeansRmFile, MeansRmDir, MeansMove;
    ok, n := true, NULL;
    match op
    case MkTop => n := DoTop(fs);
    case MkDir(d, name) => n := DoDir(fs, d, name);
    case MkFile(d, name) => n := DoFile(fs, d, name);
    case MkLink(d, name, mode, path) => n := DoLink(fs, d, name, mode, path);
    case Write(id, mode, b, off) => DoWrite(fs, id, mode, b, off);
    case Empty(id, mode) => DoEmpty(fs, id, mode);
    case Flag(id, flags, mask) => DoFlag(fs, id, flags, mask);
    case TagNew(d, tag) => n := DoTagNew(fs, d, tag);
    case TagWrite(id, b, off) => DoTagWrite(fs, id, b, off);
    case TagRemove(id) => DoTagRemove(fs, id);
    case TagSpread(id) => DoTagSpread(fs, id);
    case RmFile(d, name) => DoRmFile(fs, d, name);
    case RmDir(d, name) => DoRmDir(fs, d, name);
    case Move(from, fromName, to, toName) => ok := DoMove(fs, from, fromName, to, toName);
    case Compact(d) => DoCompact(fs, d);
  }

  /** Over every run of operations, from the empty store on, as far as no rename ends half-way: the records are
      the disjoint union of the inodes' records, directories are name maps with exact counts, tags inherit from
      older tags, and every entry names an inode that knows its directory.  The states of the run are each the
      meaning of an operation on the one before. */
  method Run(lay: Layout, ops: seq<Op>) returns (fs: FileSystem, done: nat, ok: bool, ghost made: seq<Id>, ghost states: seq<State>)
    ensures fresh(fs) && fresh(fs.db) && fs.Sound() && done <= |ops| && (ok ==> Valid(fs))
    ensures ok && done < |ops| ==> !Sensible(fs.db.recs, fs.db.lay, ops[done])
    ensures |states| == done + 1 && Trace(lay, ops[..done], made, states) && states[done] == StateOf(fs)
    ensures ok <==> done == 0 || !Panics(states[done - 1].view, ops[done - 1])
  {
    hide Settled, ViewOf, TagInv, TreeOk, Means, Panics, Sensible, Trace;
    fs := new FileSystem(lay);
    EmptyTree();
    EmptyTrace(lay);
    assert ops[..0] == [];
    done, ok, made, states := 0, true, [], [StateOf(fs)];
    while ok && done < |ops| && Sensible(fs.db.recs, fs.db.lay, ops[done])
      invariant fresh(fs) && fresh(fs.db) && fs.Sound() && done <= |ops| && (ok ==> Valid(fs)) && fs.db.lay == lay
      invariant |states| == done + 1 && Trace(lay, ops[..done], made, states) && states[done] == StateOf(fs)
      invariant ok <==> done == 0 || !Panics(states[done - 1].view, ops[done - 1])
    {
      ghost var n;
      ok, n := Step(fs, ops[done]);
      NoRoot(fs);
      LongerTrace(lay, ops, done, made, states, n, StateOf(fs));
      made, states := made + [n], states + [StateOf(fs)];
      done := done + 1;
    }
  }
}
