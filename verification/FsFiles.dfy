/** Files and links: making, writing, truncating and deleting them (md2lib.c), as steps of the file system. */
module FsFiles {
  import opened Records
  import opened Frames
  import opened Stores
  import opened FileShapes
  import opened FileWrite
  import opened FileFree
  import opened TagShapes
  import opened TagValues
  import opened Worlds
  import opened FileSystems

  // ----- one level of a file -----

  lemma {:induction false} LevelOf(levels: seq<LevelShape>, x: Id) returns (i: nat)
    requires x in LevelsIds(levels)
    ensures i < |levels| && x in LevelIds(levels[i])
  {
    var l := |levels| - 1;
    if x in LevelIds(levels[l]) {
      i := l;
    } else {
      i := LevelOf(levels[..l], x);
    }
  }

  ghost predicate Apart(levels: seq<LevelShape>) {
    forall i, k :: 0 <= i < k < |levels| ==> LevelIds(levels[i]) !! LevelIds(levels[k])
  }

  /** The records of a file after one level changed. */
  lemma LevelsChanged(levels: seq<LevelShape>, mode: nat, sh: LevelShape, x: Id)
    requires mode < |levels| && Apart(levels)
    ensures x in LevelsIds(levels[mode := sh]) <==>
            x in LevelIds(sh) || (x in LevelsIds(levels) && x !in LevelIds(levels[mode]))
  {
    hide LevelIds;
    var levels1 := levels[mode := sh];
    if x in LevelsIds(levels1) {
      var i := LevelOf(levels1, x);
      if i != mode { LevelInLevels(levels, i); assert LevelIds(levels[i]) !! LevelIds(levels[mode]); }
    }
    if x in LevelsIds(levels) {
      var i := LevelOf(levels, x);
      if i != mode { LevelInLevels(levels1, i); }
    }
    LevelInLevels(levels1, mode);
  }

  /** What an operation on level `mode` of file `n` may do. */
  ghost predicate LevelDone(r0: Recs, r1: Recs, lay: Layout, n: Id, levels: seq<LevelShape>, mode: nat, sh: LevelShape, bound: Id)
    requires mode < |levels|
  {
    && n in r0 && r0[n].FileRec? && n in r1 && r1[n].FileRec?
    && |r0[n].file.levels| == LEVELS && |r1[n].file.levels| == LEVELS && mode < LEVELS
    && r1[n].file == r0[n].file.(levels := r0[n].file.levels[mode := r1[n].file.levels[mode]])
    && LevelOk(r1, lay, r1[n].file.levels[mode], sh)
    && Replaced(r0, r1, {n} + LevelIds(levels[mode]), {n} + LevelIds(sh), bound)
  }

  lemma LevelStep(w: World, lay: Layout, r1: Recs, n: Id, levels: seq<LevelShape>, mode: nat, sh: LevelShape, bound: Id)
    requires Settled(w, lay) && TagInv(w.recs, lay) && Below(w.recs, bound) && bound > ROOT
    requires n in w.shapes && w.shapes[n] == FileShaped(levels) && mode < |levels| == LEVELS
    requires LevelDone(w.recs, r1, lay, n, levels, mode, sh, bound)
    ensures var w1 := After(w, r1, n, Some(FileShaped(levels[mode := sh])));
            && Settled(w1, lay) && ViewOf(w, lay)[n].FileNode? && |ViewOf(w, lay)[n].contents| == LEVELS
            && ViewOf(w1, lay) == ViewOf(w, lay)[n := ViewOf(w, lay)[n].(contents :=
                 ViewOf(w, lay)[n].contents[mode := Contents(r1, lay, r1[n].file.levels[mode], sh)])]
    ensures TagInv(r1, lay) && SameTags(w.recs, r1)
    ensures forall x :: IsTag(w.recs, x) ==> Value(r1, x) == Value(w.recs, x)
  {
    hide LevelOk, Contents, LevelIds, Replaced, TagInv, Below, Value, Partition;
    assert ShapeOk(w.recs, lay, n, w.shapes[n]);
    LevelShapes(w.recs, r1, lay, n, levels, mode, sh, bound);
    AfterSettled(w, lay, r1, n, Some(FileShaped(levels[mode := sh])), bound);
    LevelTags(w.recs, r1, lay, n, levels, mode, sh, bound);
    hide ShapeOk;
  }

  lemma LevelTags(r0: Recs, r1: Recs, lay: Layout, n: Id, levels: seq<LevelShape>, mode: nat, sh: LevelShape, bound: Id)
    requires FileShapeOk(r0, lay, n, levels) && mode < |levels| && LevelDone(r0, r1, lay, n, levels, mode, sh, bound)
    requires TagInv(r0, lay) && Below(r0, bound) && bound > ROOT
    ensures TagInv(r1, lay) && SameTags(r0, r1)
    ensures forall x :: IsTag(r0, x) ==> Value(r1, x) == Value(r0, x)
  {
    hide LevelOk, LevelIds, Replaced, TagInv, Below, Value;
    LevelIdsStored(r0, lay, r0[n].file.levels[mode], levels[mode]);
    LevelIdsStored(r1, lay, r1[n].file.levels[mode], sh);
    TagsUntouched(r0, r1, lay, {n} + LevelIds(levels[mode]), {n} + LevelIds(sh), bound);
  }

  lemma LevelShapes(r0: Recs, r1: Recs, lay: Layout, n: Id, levels: seq<LevelShape>, mode: nat, sh: LevelShape, bound: Id)
    requires FileShapeOk(r0, lay, n, levels) && mode < |levels| && LevelDone(r0, r1, lay, n, levels, mode, sh, bound)
    ensures FileShapeOk(r1, lay, n, levels[mode := sh])
    ensures Replaced(r0, r1, Foot(n, FileShaped(levels)), Foot(n, FileShaped(levels[mode := sh])), bound)
    ensures var node := NodeOf(r0, lay, n, FileShaped(levels));
            && node.FileNode? && mode < |node.contents|
            && NodeOf(r1, lay, n, FileShaped(levels[mode := sh])) ==
               node.(contents := node.contents[mode := Contents(r1, lay, r1[n].file.levels[mode], sh)])
  {
    hide LevelOk, Contents, LevelIds, Replaced;
    forall i | 0 <= i < LEVELS && i != mode
      ensures LevelOk(r1, lay, r0[n].file.levels[i], levels[i]) && LevelIds(levels[i]) !! LevelIds(sh)
      ensures Contents(r1, lay, r0[n].file.levels[i], levels[i]) == Contents(r0, lay, r0[n].file.levels[i], levels[i])
    {
      OtherLevel(r0, r1, lay, n, levels, mode, sh, bound, i);
    }
    LevelsReplaced(r0, r1, lay, n, levels, mode, sh, bound);
  }

  /** The other levels are not touched. */
  lemma OtherLevel(r0: Recs, r1: Recs, lay: Layout, n: Id, levels: seq<LevelShape>, mode: nat, sh: LevelShape, bound: Id, i: nat)
    requires FileShapeOk(r0, lay, n, levels) && mode < |levels| && LevelDone(r0, r1, lay, n, levels, mode, sh, bound)
    requires i < LEVELS && i != mode
    ensures LevelOk(r1, lay, r0[n].file.levels[i], levels[i]) && LevelIds(levels[i]) !! LevelIds(sh)
    ensures Contents(r1, lay, r0[n].file.levels[i], levels[i]) == Contents(r0, lay, r0[n].file.levels[i], levels[i])
  {
    hide LevelOk, Contents, LevelIds;
    LevelIdsStored(r0, lay, r0[n].file.levels[i], levels[i]);
    assert LevelIds(levels[i]) !! LevelIds(levels[mode]);
    forall x | x in LevelIds(levels[i]) ensures x in r0 && x in r1 && r1[x] == r0[x] && x !in LevelIds(sh) {
    }
    LevelFrame(r0, r1, lay, r0[n].file.levels[i], levels[i]);
  }

  lemma LevelsReplaced(r0: Recs, r1: Recs, lay: Layout, n: Id, levels: seq<LevelShape>, mode: nat, sh: LevelShape, bound: Id)
    requires FileShapeOk(r0, lay, n, levels) && mode < |levels| && LevelDone(r0, r1, lay, n, levels, mode, sh, bound)
    ensures Replaced(r0, r1, Foot(n, FileShaped(levels)), Foot(n, FileShaped(levels[mode := sh])), bound)
  {
    hide LevelOk, LevelIds, InodeOk;
    LevelsStored(r0, lay, r0[n].file.levels, levels, LEVELS);
    assert levels[..LEVELS] == levels;
    forall x ensures x in LevelsIds(levels[mode := sh]) <==> x in LevelIds(sh) || (x in LevelsIds(levels) && x !in LevelIds(levels[mode])) {
      LevelsChanged(levels, mode, sh, x);
    }
    LevelInLevels(levels, mode);
    FilesReplaced(r0, r1, n, LevelIds(levels[mode]), LevelIds(sh), LevelsIds(levels), LevelsIds(levels[mode := sh]), bound);
  }

  lemma FilesReplaced(r0: Recs, r1: Recs, n: Id, ids0: set<Id>, ids1: set<Id>, all0: set<Id>, all1: set<Id>, bound: Id)
    requires Replaced(r0, r1, {n} + ids0, {n} + ids1, bound) && n in r0 && n !in all0 && ids0 <= all0
    requires forall x :: x in all0 ==> x in r0
    requires forall x :: x in all1 <==> x in ids1 || (x in all0 && x !in ids0)
    ensures Replaced(r0, r1, {n} + all0, {n} + all1, bound)
  {
  }

  ghost function LevelsAt(w: World, n: Id): (levels: seq<LevelShape>)
    ensures |levels| == LEVELS
  {
    if n in w.shapes && w.shapes[n].FileShaped? && |w.shapes[n].levels| == LEVELS then w.shapes[n].levels
    else seq(LEVELS, i => NoData)
  }

  /** A write of `n` bytes filled exactly the places it touched in one level of file `id`. */
  ghost predicate FilledAt(w0: World, w1: World, lay: Layout, id: Id, mode: nat, off: nat, n: nat)
    requires mode < LEVELS
  {
    Filled(lay, LevelsAt(w0, id)[mode], off, n, Blocks(LevelsAt(w1, id)[mode]))
  }

  lemma FileKnown(w: World, lay: Layout, n: Id)
    requires Settled(w, lay)
    ensures n in ViewOf(w, lay) && ViewOf(w, lay)[n].FileNode? <==> n in w.recs && w.recs[n].FileRec?
    ensures n in w.recs && w.recs[n].FileRec? ==>
              && n in w.shapes && w.shapes[n] == FileShaped(LevelsAt(w, n)) && |LevelsAt(w, n)| == LEVELS
              && InodeOk(w.recs[n].file, lay) && n != NULL
              && ViewOf(w, lay)[n].parent == w.recs[n].file.parent && |ViewOf(w, lay)[n].contents| == LEVELS
  {
    InodeKinds(w, lay, n);
    hide DirShapeOk, LinkShapeOk, LevelOk, Foot, Partition;
    if n in w.recs && w.recs[n].FileRec? {
      assert ShapeOk(w.recs, lay, n, w.shapes[n]);
    }
  }

  lemma LevelKnown(w: World, lay: Layout, n: Id, mode: nat)
    requires Settled(w, lay) && n in w.recs && w.recs[n].FileRec? && mode < LEVELS
    ensures n in ViewOf(w, lay) && ViewOf(w, lay)[n].FileNode? && |ViewOf(w, lay)[n].contents| == LEVELS
    ensures |w.recs[n].file.levels| == LEVELS && LevelOk(w.recs, lay, w.recs[n].file.levels[mode], LevelsAt(w, n)[mode])
    ensures Contents(w.recs, lay, w.recs[n].file.levels[mode], LevelsAt(w, n)[mode]) == ViewOf(w, lay)[n].contents[mode]
    ensures n !in LevelIds(LevelsAt(w, n)[mode]) && forall x :: x in LevelIds(LevelsAt(w, n)[mode]) ==> x in w.recs
  {
    FileKnown(w, lay, n);
    hide DirShapeOk, LinkShapeOk, LevelOk, Foot, Partition, Contents, LevelIds;
    assert ShapeOk(w.recs, lay, n, w.shapes[n]);
    LevelIdsStored(w.recs, lay, w.recs[n].file.levels[mode], LevelsAt(w, n)[mode]);
  }

  /** Putting the inode after its level was written or emptied. */
  lemma InodePut(r0: Recs, r1: Recs, lay: Layout, n: Id, levels: seq<LevelShape>, mode: nat, base: FileInode, sh: LevelShape, bound: Id)
    requires n in r0 && r0[n].FileRec? && mode < |levels| == LEVELS && |r0[n].file.levels| == LEVELS
    requires |base.levels| == LEVELS && base == r0[n].file.(levels := r0[n].file.levels[mode := base.levels[mode]])
    requires LevelOk(r1, lay, base.levels[mode], sh) && Replaced(r0, r1, LevelIds(levels[mode]), LevelIds(sh), bound)
    requires n !in LevelIds(levels[mode]) && n !in LevelIds(sh)
    ensures LevelDone(r0, r1[n := FileRec(base)], lay, n, levels, mode, sh, bound)
    ensures Contents(r1[n := FileRec(base)], lay, base.levels[mode], sh) == Contents(r1, lay, base.levels[mode], sh)
  {
    hide LevelOk, Contents, LevelIds;
    LevelIdsStored(r1, lay, base.levels[mode], sh);
    LevelFrame(r1, r1[n := FileRec(base)], lay, base.levels[mode], sh);
  }

  /** The request is a write to a flat file: not one of no bytes past the first block of an empty level. */
  predicate FlatRequest(recs: Recs, lay: Layout, id: Id, mode: nat, b: seq<byte>, off: nat) {
    id in recs ==>
      recs[id].FileRec? && (mode < |recs[id].file.levels| ==> !SizeOnlyWrite(lay, recs[id].file.levels[mode], b, off))
  }

  /** One level of one file is the flat file after the write, and the blocks are the old ones and those touched. */
  ghost predicate WrittenAt(w0: World, v0: View, w1: World, v1: View, lay: Layout, id: Id, mode: nat, b: seq<byte>, off: nat) {
    && id in v0 && v0[id].FileNode? && mode < |v0[id].contents| == LEVELS
    && v1 == v0[id := v0[id].(contents := v0[id].contents[mode := WriteFlat(v0[id].contents[mode], b, off)])]
    && (b != [] ==> FilledAt(w0, w1, lay, id, mode, off, |b|))
  }

  /** md2WriteData on a regular file. */
  method WriteFile(fs: FileSystem, id: Id, mode: nat, b: seq<byte>, off: nat) returns (r: Result<()>)
    requires fs.Sound() && mode < LEVELS && FlatRequest(fs.db.recs, fs.db.lay, id, mode, b, off)
    modifies fs, fs.db
    ensures fs.Sound() && SameTags(old(fs.db.recs), fs.db.recs) && old(fs.db.Bound()) <= fs.db.Bound()
    ensures r == if id !in old(fs.db.recs) then Err(NotFound) else if mode != 0 && off + 4 > MAX_META then Err(NoSpace) else Ok(())
    ensures r.Err? ==> fs.W() == old(fs.W())
    ensures r.Ok? ==> id in old(fs.View()) && old(fs.View())[id].FileNode? && |old(fs.View())[id].contents| == LEVELS
    ensures r.Ok? && (mode == 0 || off + |b| <= MAX_META) ==>
      WrittenAt(old(fs.W()), old(fs.View()), fs.W(), fs.View(), fs.db.lay, id, mode, b, off)
    ensures r.Ok? && mode != 0 && off + |b| > MAX_META ==>
      WrittenAt(old(fs.W()), old(fs.View()), fs.W(), fs.View(), fs.db.lay, id, mode, b[..MAX_META - off], off)
    ensures forall x :: IsTag(old(fs.db.recs), x) ==> Value(fs.db.recs, x) == Value(old(fs.db.recs), x)
  {
    hide Settled, LevelOk, Contents, LevelIds, Replaced, Grown, TagInv, After, ViewOf, Below, Value, WriteFlat, LevelDone, Filled;
    ghost var w: World, bound := fs.W(), fs.db.Bound();
    var rec := fs.db.Get(id);
    if rec.None? { return Err(NotFound); }
    FileKnown(w, fs.db.lay, id);
    LevelKnown(w, fs.db.lay, id, mode);
    ghost var levels := LevelsAt(w, id);
    var a, sh := WriteDataLow(fs.db, rec.value.file, mode, b, off, levels[mode]);
    if a.Err? { return Err(a.error); }
    ghost var r1: Recs := fs.db.recs;
    ghost var b1 := if mode == 0 || off + |b| <= MAX_META then b else b[..MAX_META - off];
    WriteStored(w.recs, r1, fs.db.lay, id, levels, mode, a.value, b1, off, sh, bound);
    fs.db.Put(id, FileRec(a.value));
    BelowPut(r1, fs.db.Bound(), fs.db.Bound(), id, FileRec(a.value));
    LevelStep(w, fs.db.lay, fs.db.recs, id, levels, mode, sh, bound);
    ghost var w1 := After(w, fs.db.recs, id, Some(FileShaped(levels[mode := sh])));
    AfterFields(w, fs.db.recs, id, Some(FileShaped(levels[mode := sh])));
    fs.shapes, fs.owner := w1.shapes, w1.owner;
    r := Ok(());
  }

  lemma WriteStored(r0: Recs, r1: Recs, lay: Layout, n: Id, levels: seq<LevelShape>, mode: nat, base: FileInode,
                    b: seq<byte>, off: nat, sh: LevelShape, bound: Id)
    requires n in r0 && r0[n].FileRec? && InodeOk(r0[n].file, lay) && mode < |levels| == LEVELS && Below(r0, bound)
    requires WriteDone(r0, r1, lay, r0[n].file, base, mode, b, off, levels[mode], sh, bound)
    requires n !in LevelIds(levels[mode])
    ensures b != [] ==> Filled(lay, levels[mode], off, |b|, Blocks(sh))
    ensures |base.levels| == LEVELS
    ensures LevelDone(r0, r1[n := FileRec(base)], lay, n, levels, mode, sh, bound) && n in r1
    ensures Contents(r1[n := FileRec(base)], lay, base.levels[mode], sh) ==
            WriteFlat(Contents(r0, lay, r0[n].file.levels[mode], levels[mode]), b, off)
  {
    hide LevelOk, Contents, LevelIds, WriteFlat, Replaced, Filled;
    GrownReplaced(r0, r1, LevelIds(levels[mode]), LevelIds(sh), bound);
    BelowAt(r0, bound, n);
    InodePut(r0, r1, lay, n, levels, mode, base, sh, bound);
  }

  /** The regular-file part of md2TruncateZero: the level is empty afterwards, and its records are gone. */
  method TruncateFile(fs: FileSystem, id: Id, mode: nat) returns (r: Result<()>)
    requires fs.Sound() && mode < LEVELS
    requires id in fs.db.recs ==> fs.db.recs[id].FileRec?
    modifies fs, fs.db
    ensures fs.Sound() && SameTags(old(fs.db.recs), fs.db.recs) && old(fs.db.Bound()) == fs.db.Bound()
    ensures r == if id !in old(fs.db.recs) then Err(NotFound) else Ok(())
    ensures r.Err? ==> fs.W() == old(fs.W())
    ensures r.Ok? ==>
      && id in old(fs.View()) && old(fs.View())[id].FileNode? && |old(fs.View())[id].contents| == LEVELS
      && fs.View() == old(fs.View())[id := old(fs.View())[id].(contents := old(fs.View())[id].contents[mode := []])]
      && fs.db.recs.Keys == old(fs.db.recs).Keys - LevelIds(LevelsAt(old(fs.W()), id)[mode])
    ensures forall x :: IsTag(old(fs.db.recs), x) ==> Value(fs.db.recs, x) == Value(old(fs.db.recs), x)
  {
    hide Settled, LevelOk, Contents, LevelIds, Replaced, Grown, TagInv, After, ViewOf, Below, Value, LevelDone;
    ghost var w: World, bound := fs.W(), fs.db.Bound();
    var rec := fs.db.Get(id);
    if rec.None? { return Err(NotFound); }
    FileKnown(w, fs.db.lay, id);
    LevelKnown(w, fs.db.lay, id, mode);
    ghost var levels := LevelsAt(w, id);
    var base := rec.value.file;
    LevelHead(w.recs, fs.db.lay, base.levels[mode], levels[mode]);
    if base.levels[mode].chain != NULL {
      DeleteChain(fs.db, base.levels[mode].chain, base.levels[mode], levels[mode]);
      ghost var r1: Recs := fs.db.recs;
      base := base.(levels := base.levels[mode := Level(NULL, 0)]);
      fs.db.Put(id, FileRec(base));
      Emptied(w.recs, r1, fs.db.lay, id, levels, mode, base, bound);
      LevelStep(w, fs.db.lay, fs.db.recs, id, levels, mode, NoData, bound);
      ghost var w1 := After(w, fs.db.recs, id, Some(FileShaped(levels[mode := NoData])));
      AfterFields(w, fs.db.recs, id, Some(FileShaped(levels[mode := NoData])));
      fs.shapes, fs.owner := w1.shapes, w1.owner;
    } else {
      AlreadyEmpty(w, fs.db.lay, id, mode);
    }
    r := Ok(());
  }

  lemma Emptied(r0: Recs, r1: Recs, lay: Layout, n: Id, levels: seq<LevelShape>, mode: nat, base: FileInode, bound: Id)
    requires n in r0 && r0[n].FileRec? && InodeOk(r0[n].file, lay) && mode < |levels| == LEVELS && Below(r0, bound)
    requires r1 == r0 - LevelIds(levels[mode]) && n !in LevelIds(levels[mode])
    requires base == r0[n].file.(levels := r0[n].file.levels[mode := Level(NULL, 0)])
    requires forall x :: x in LevelIds(levels[mode]) ==> x in r0
    ensures LevelDone(r0, r1[n := FileRec(base)], lay, n, levels, mode, NoData, bound)
    ensures Contents(r1[n := FileRec(base)], lay, base.levels[mode], NoData) == []
    ensures Below(r1[n := FileRec(base)], bound) && r1[n := FileRec(base)].Keys == r0.Keys - LevelIds(levels[mode])
  {
  }

  lemma NoDataOk(recs: Recs, lay: Layout)
    ensures LevelOk(recs, lay, Level(NULL, 0), NoData)
  {
  }

  lemma AlreadyEmpty(w: World, lay: Layout, n: Id, mode: nat)
    requires Settled(w, lay) && n in w.recs && w.recs[n].FileRec? && mode < LEVELS
    requires |w.recs[n].file.levels| == LEVELS && w.recs[n].file.levels[mode].chain == NULL
    ensures n in ViewOf(w, lay) && ViewOf(w, lay)[n].FileNode? && |ViewOf(w, lay)[n].contents| == LEVELS
    ensures ViewOf(w, lay) == ViewOf(w, lay)[n := ViewOf(w, lay)[n].(contents := ViewOf(w, lay)[n].contents[mode := []])]
    ensures LevelIds(LevelsAt(w, n)[mode]) == {} && w.recs.Keys == w.recs.Keys - LevelIds(LevelsAt(w, n)[mode])
  {
    hide ShapeOk, NodeOf, Foot, Partition, Contents, ViewOf, LevelOk;
    LevelKnown(w, lay, n, mode);
    LevelHead(w.recs, lay, w.recs[n].file.levels[mode], LevelsAt(w, n)[mode]);
    EmptyLevelFacts(w.recs, lay, w.recs[n].file.levels[mode], LevelsAt(w, n)[mode]);
    SameMode(ViewOf(w, lay), n, mode);
    assert w.recs.Keys - {} == w.recs.Keys;
  }

  lemma EmptyLevelFacts(recs: Recs, lay: Layout, lvl: Level, sh: LevelShape)
    requires LevelOk(recs, lay, lvl, sh) && sh.NoData?
    ensures Contents(recs, lay, lvl, sh) == [] && LevelIds(sh) == {}
  {
  }

  lemma SameMode(v: View, n: Id, mode: nat)
    requires n in v && v[n].FileNode? && mode < |v[n].contents| && v[n].contents[mode] == []
    ensures v == v[n := v[n].(contents := v[n].contents[mode := []])]
  {
    assert v[n].contents[mode := []] == v[n].contents;
  }

  // ----- making files and links -----

  function NewFileInode(lay: Layout, parent: Id): FileInode {
    FileInode(parent, seq(LEVELS, i => Level(NULL, 0)), lay.dataUnits, lay.pointers)
  }

  lemma NewFileOk(recs: Recs, lay: Layout, n: Id, parent: Id)
    requires n in recs && n != NULL && recs[n] == FileRec(NewFileInode(lay, parent))
    ensures var sh := FileShaped(seq(LEVELS, i => NoData));
            && ShapeOk(recs, lay, n, sh) && Foot(n, sh) == {n}
            && NodeOf(recs, lay, n, sh) == FileNode(parent, seq(LEVELS, i => []))
  {
    hide LevelOk, Contents;
    var levels := EmptyLevels();
    NoDataOk(recs, lay);
    forall x ensures x !in LevelsIds(levels) {
      if x in LevelsIds(levels) { var i := LevelOf(levels, x); }
    }
    assert Contents(recs, lay, Level(NULL, 0), NoData) == [];
    assert NodeOf(recs, lay, n, FileShaped(levels)).contents == seq(LEVELS, i => []);
  }

  /** The levels of a new file. */
  ghost function EmptyLevels(): seq<LevelShape> {
    seq(LEVELS, i => NoData)
  }

  /** md2MakeNewFile: a file inode with eight empty levels. */
  method NewFile(fs: FileSystem, parent: Id) returns (r: Result<Id>)
    requires fs.Sound()
    modifies fs, fs.db
    ensures fs.Sound() && SameTags(old(fs.db.recs), fs.db.recs) && old(fs.db.Bound()) <= fs.db.Bound()
    ensures r == if parent in old(fs.db.recs) then Ok(old(fs.db.Bound())) else Err(NotFound)
    ensures r.Err? ==> fs.W() == old(fs.W())
    ensures r.Ok? ==>
      && r.value !in old(fs.View()) && fs.View() == old(fs.View())[r.value := FileNode(parent, seq(LEVELS, i => []))]
      && r.value in fs.shapes && fs.shapes[r.value] == FileShaped(EmptyLevels())
    ensures forall x :: IsTag(old(fs.db.recs), x) ==> Value(fs.db.recs, x) == Value(old(fs.db.recs), x)
  {
    hide Settled, TagInv, After, ViewOf, Below, Value, ShapeOk, NodeOf, Foot;
    ghost var w: World, bound := fs.W(), fs.db.Bound();
    FreshId(w.recs, bound);
    var id := fs.db.NewId();
    BelowUp(w.recs, bound, fs.db.Bound());
    var up := fs.db.Get(parent);
    if up.None? { return Err(NotFound); }
    fs.db.Put(id, FileRec(NewFileInode(fs.db.lay, parent)));
    BelowPut(w.recs, bound, fs.db.Bound(), id, FileRec(NewFileInode(fs.db.lay, parent)));
    ghost var sh := FileShaped(EmptyLevels());
    NewFileOk(fs.db.recs, fs.db.lay, id, parent);
    OneGrown(w.recs, id, FileRec(NewFileInode(fs.db.lay, parent)), bound);
    NewInode(w, fs.db.lay, fs.db.recs, id, sh, {id}, bound);
    ghost var w1 := After(w, fs.db.recs, id, Some(sh));
    AfterFields(w, fs.db.recs, id, Some(sh));
    fs.shapes, fs.owner := w1.shapes, w1.owner;
    r := Ok(id);
  }

  lemma OneGrown(r0: Recs, id: Id, rec: Record, bound: Id)
    requires id !in r0 && id >= bound
    ensures Grown(r0, r0[id := rec], {}, {id}, bound)
  {
  }

  function NewLinkInode(parent: Id): LinkInode {
    LinkInode(parent, seq(LEVELS, i => Level(NULL, 0)))
  }

  lemma NewLinkOk(recs: Recs, lay: Layout, n: Id, parent: Id)
    requires n in recs && n != NULL && recs[n] == LinkRec(NewLinkInode(parent))
    ensures var sh := LinkShaped(Nulls(LEVELS));
            && ShapeOk(recs, lay, n, sh) && Foot(n, sh) == {n}
            && NodeOf(recs, lay, n, sh) == LinkNode(parent, seq(LEVELS, i => None))
  {
    var sh := LinkShaped(Nulls(LEVELS));
    assert PathIds(Nulls(LEVELS)) == {};
    assert NodeOf(recs, lay, n, sh).paths == seq(LEVELS, i => None);
  }

  /** md2MakeNewLink. */
  method NewLink(fs: FileSystem, parent: Id) returns (id: Id)
    requires fs.Sound()
    modifies fs, fs.db
    ensures fs.Sound() && SameTags(old(fs.db.recs), fs.db.recs) && old(fs.db.Bound()) <= fs.db.Bound()
    ensures id == old(fs.db.Bound()) && id !in old(fs.View())
    ensures fs.View() == old(fs.View())[id := LinkNode(parent, seq(LEVELS, i => None))]
    ensures forall x :: IsTag(old(fs.db.recs), x) ==> Value(fs.db.recs, x) == Value(old(fs.db.recs), x)
  {
    hide Settled, TagInv, After, ViewOf, Below, Value, ShapeOk, NodeOf, Foot;
    ghost var w: World, bound := fs.W(), fs.db.Bound();
    FreshId(w.recs, bound);
    id := fs.db.NewId();
    fs.db.Put(id, LinkRec(NewLinkInode(parent)));
    BelowPut(w.recs, bound, fs.db.Bound(), id, LinkRec(NewLinkInode(parent)));
    ghost var sh := LinkShaped(Nulls(LEVELS));
    NewLinkOk(fs.db.recs, fs.db.lay, id, parent);
    OneGrown(w.recs, id, LinkRec(NewLinkInode(parent)), bound);
    NewInode(w, fs.db.lay, fs.db.recs, id, sh, {id}, bound);
    ghost var w1 := After(w, fs.db.recs, id, Some(sh));
    AfterFields(w, fs.db.recs, id, Some(sh));
    fs.shapes, fs.owner := w1.shapes, w1.owner;
  }

  // ----- links -----

  ghost function PathsAt(w: World, n: Id): seq<Id> {
    if n in w.shapes && w.shapes[n].LinkShaped? && |w.shapes[n].paths| == LEVELS then w.shapes[n].paths else Nulls(LEVELS)
  }

  lemma LinkKnown(w: World, lay: Layout, n: Id)
    requires Settled(w, lay)
    ensures n in ViewOf(w, lay) && ViewOf(w, lay)[n].LinkNode? <==> n in w.recs && w.recs[n].LinkRec?
    ensures n in w.recs && w.recs[n].LinkRec? ==>
              && n in w.shapes && w.shapes[n] == LinkShaped(PathsAt(w, n)) && LinkShapeOk(w.recs, n, PathsAt(w, n))
              && ViewOf(w, lay)[n] == LinkNode(w.recs[n].link.parent, seq(LEVELS, i requires 0 <= i < LEVELS => PathAt(w.recs, PathsAt(w, n)[i])))
  {
    InodeKinds(w, lay, n);
    hide DirShapeOk, FileShapeOk, Foot, Partition;
    if n in w.recs && w.recs[n].LinkRec? {
      assert ShapeOk(w.recs, lay, n, w.shapes[n]);
    }
  }

  /** Level `mode` of a link now has path `path`, in record `x`. */
  lemma LinkStored(r0: Recs, r1: Recs, lay: Layout, n: Id, paths: seq<Id>, mode: nat, x: Id, path: string, bound: Id)
    requires LinkShapeOk(r0, n, paths) && mode < LEVELS && Below(r0, bound)
    requires x != NULL && (x == paths[mode] || (x !in r0 && x >= bound && paths[mode] == NULL))
    requires r1 == r0[x := PathRec(path)][n := LinkRec(r0[n].link.(levels := r0[n].link.levels[mode := Level(x, |path|)]))]
    ensures LinkShapeOk(r1, n, paths[mode := x])
    ensures Replaced(r0, r1, Foot(n, LinkShaped(paths)), Foot(n, LinkShaped(paths[mode := x])), bound)
    ensures forall i :: 0 <= i < LEVELS ==> PathAt(r1, paths[mode := x][i]) == if i == mode then Some(path) else PathAt(r0, paths[i])
  {
    var paths1 := paths[mode := x];
    forall i | 0 <= i < LEVELS ensures PathOk(r0, r0[n].link.levels[i], paths[i]) && paths[i] != n && (i != mode ==> paths[i] != x) {
      assert PathOk(r0, r0[n].link.levels[i], paths[i]);
    }
    assert x != n by { BelowAt(r0, bound, n); }
    forall i | 0 <= i < LEVELS ensures PathOk(r1, r1[n].link.levels[i], paths1[i]) {
      assert PathOk(r0, r0[n].link.levels[i], paths[i]);
    }
    PathIdsChanged(paths, mode, x);
  }

  lemma PathIdsChanged(paths: seq<Id>, mode: nat, x: Id)
    requires mode < |paths| && x != NULL && (x == paths[mode] || paths[mode] == NULL)
    ensures PathIds(paths[mode := x]) == PathIds(paths) + {x}
  {
    var paths1 := paths[mode := x];
    forall y | y in PathIds(paths) + {x} ensures y in PathIds(paths1) {
      if y == x { assert paths1[mode] == x; }
      else { var i :| 0 <= i < |paths| && paths[i] == y; assert paths1[i] == y; }
    }
    forall y | y in PathIds(paths1) ensures y in PathIds(paths) + {x} {
      var i :| 0 <= i < |paths1| && paths1[i] == y;
      assert i != mode ==> paths[i] == y;
    }
  }

  lemma LinkStep(w: World, lay: Layout, r1: Recs, n: Id, mode: nat, x: Id, path: string, bound: Id)
    requires Settled(w, lay) && TagInv(w.recs, lay) && Below(w.recs, bound) && bound > ROOT
    requires n in w.recs && w.recs[n].LinkRec? && mode < LEVELS && |w.recs[n].link.levels| == LEVELS
    requires x != NULL && (x == PathsAt(w, n)[mode] || (x !in w.recs && x >= bound && PathsAt(w, n)[mode] == NULL))
    requires r1 == w.recs[x := PathRec(path)][n := LinkRec(w.recs[n].link.(levels := w.recs[n].link.levels[mode := Level(x, |path|)]))]
    ensures var w1 := After(w, r1, n, Some(LinkShaped(PathsAt(w, n)[mode := x])));
            && Settled(w1, lay) && n in ViewOf(w, lay) && ViewOf(w, lay)[n].LinkNode? && |ViewOf(w, lay)[n].paths| == LEVELS
            && ViewOf(w1, lay) == ViewOf(w, lay)[n := ViewOf(w, lay)[n].(paths := ViewOf(w, lay)[n].paths[mode := Some(path)])]
    ensures TagInv(r1, lay) && SameTags(w.recs, r1)
    ensures forall y :: IsTag(w.recs, y) ==> Value(r1, y) == Value(w.recs, y)
  {
    hide Partition, DirShapeOk, FileShapeOk, TagInv, Replaced, Below, Value, LinkShapeOk, Foot, PathAt;
    LinkKnown(w, lay, n);
    var paths := PathsAt(w, n);
    LinkStored(w.recs, r1, lay, n, paths, mode, x, path, bound);
    AfterSettled(w, lay, r1, n, Some(LinkShaped(paths[mode := x])), bound);
    LinkTags(w.recs, r1, lay, n, paths, paths[mode := x], bound);
    var v := ViewOf(w, lay)[n];
    assert NodeOf(r1, lay, n, LinkShaped(paths[mode := x])).paths == v.paths[mode := Some(path)];
  }

  lemma LinkTags(r0: Recs, r1: Recs, lay: Layout, n: Id, paths: seq<Id>, paths1: seq<Id>, bound: Id)
    requires LinkShapeOk(r0, n, paths) && LinkShapeOk(r1, n, paths1) && TagInv(r0, lay) && Below(r0, bound) && bound > ROOT
    requires Replaced(r0, r1, Foot(n, LinkShaped(paths)), Foot(n, LinkShaped(paths1)), bound)
    ensures TagInv(r1, lay) && SameTags(r0, r1)
    ensures forall y :: IsTag(r0, y) ==> Value(r1, y) == Value(r0, y)
  {
    hide TagInv, Replaced, Below, Value, LinkShapeOk, Foot;
    forall x | x in Foot(n, LinkShaped(paths)) ensures x in r0 && !r0[x].TagRec? { LinkKinds(r0, n, paths, x); }
    forall x | x in Foot(n, LinkShaped(paths1)) ensures x in r1 && !r1[x].TagRec? { LinkKinds(r1, n, paths1, x); }
    TagsUntouched(r0, r1, lay, Foot(n, LinkShaped(paths)), Foot(n, LinkShaped(paths1)), bound);
  }

  /** md2WriteLink: the path of one level is replaced; a path that does not fit is refused. */
  method WriteLink(fs: FileSystem, id: Id, mode: nat, path: string) returns (r: Result<()>)
    requires fs.Sound() && mode < LEVELS
    requires id in fs.db.recs ==> fs.db.recs[id].LinkRec?
    modifies fs, fs.db
    ensures fs.Sound() && SameTags(old(fs.db.recs), fs.db.recs) && old(fs.db.Bound()) <= fs.db.Bound()
    ensures r == if id !in old(fs.db.recs) then Err(NotFound) else if |path| + 4 > fs.db.lay.dataUnits then Err(NoSpace) else Ok(())
    ensures r.Err? ==> fs.W() == old(fs.W())
    ensures r.Ok? ==>
      && id in old(fs.View()) && old(fs.View())[id].LinkNode? && |old(fs.View())[id].paths| == LEVELS
      && fs.View() == old(fs.View())[id := old(fs.View())[id].(paths := old(fs.View())[id].paths[mode := Some(path)])]
    ensures forall x :: IsTag(old(fs.db.recs), x) ==> Value(fs.db.recs, x) == Value(old(fs.db.recs), x)
  {
    hide Settled, TagInv, After, ViewOf, Below, Value, PathAt;
    ghost var w: World, bound := fs.W(), fs.db.Bound();
    var rec := fs.db.Get(id);
    if rec.None? { return Err(NotFound); }
    LinkKnown(w, fs.db.lay, id);
    PathChain(w.recs, id, PathsAt(w, id), mode);
    FreshId(w.recs, bound);
    var inode := rec.value.link;
    var x := inode.levels[mode].chain;
    if x == NULL {
      x := fs.db.NewId();
      BelowUp(w.recs, bound, fs.db.Bound());
    }
    if |path| + 4 > fs.db.lay.dataUnits { return Err(NoSpace); }
    inode := inode.(levels := inode.levels[mode := Level(x, |path|)]);
    fs.db.Put(x, PathRec(path));
    fs.db.Put(id, LinkRec(inode));
    LinkStep(w, fs.db.lay, fs.db.recs, id, mode, x, path, bound);
    BelowPut(w.recs, bound, fs.db.Bound(), x, PathRec(path));
    BelowPut(w.recs[x := PathRec(path)], fs.db.Bound(), fs.db.Bound(), id, LinkRec(inode));
    ghost var sh := LinkShaped(PathsAt(w, id)[mode := x]);
    ghost var w1 := After(w, fs.db.recs, id, Some(sh));
    AfterFields(w, fs.db.recs, id, Some(sh));
    fs.shapes, fs.owner := w1.shapes, w1.owner;
    r := Ok(());
  }

  lemma PathChain(recs: Recs, n: Id, paths: seq<Id>, mode: nat)
    requires LinkShapeOk(recs, n, paths) && mode < LEVELS
    ensures |paths| == LEVELS && |recs[n].link.levels| == LEVELS && recs[n].link.levels[mode].chain == paths[mode]
    ensures paths[mode] != NULL ==> paths[mode] in recs
  {
  }

  // ----- deleting -----

  lemma GoneStep(w: World, lay: Layout, r1: Recs, n: Id, bound: Id)
    requires Settled(w, lay) && Below(w.recs, bound) && n in w.shapes
    requires r1 == w.recs - FootOf(w, n)
    ensures Settled(After(w, r1, n, None), lay) && ViewOf(After(w, r1, n, None), lay) == ViewOf(w, lay) - {n}
    ensures Below(r1, bound)
  {
    hide Foot, ShapeOk, NodeOf, Partition;
    AfterSettled(w, lay, r1, n, None, bound);
  }

  /** md2DeleteFile: a file or link goes with exactly its own records. */
  method DeleteFile(fs: FileSystem, id: Id) returns (r: Result<()>)
    requires fs.Sound()
    modifies fs, fs.db
    ensures fs.Sound() && SameTags(old(fs.db.recs), fs.db.recs) && old(fs.db.Bound()) == fs.db.Bound()
    ensures r == if id !in old(fs.db.recs) then Err(NotFound)
                 else if !old(fs.db.recs)[id].FileRec? && !old(fs.db.recs)[id].LinkRec? then Err(NotRegular)
                 else Ok(())
    ensures r.Err? ==> fs.W() == old(fs.W())
    ensures r.Ok? ==>
      && id in old(fs.View()) && fs.View() == old(fs.View()) - {id}
      && fs.db.recs == old(fs.db.recs) - FootOf(old(fs.W()), id)
    ensures forall x :: IsTag(old(fs.db.recs), x) ==> Value(fs.db.recs, x) == Value(old(fs.db.recs), x)
  {
    hide Settled, TagInv, After, ViewOf, Below, Value, FootOf, LevelsIds, PathIds, LinkShapeOk, FileShapeOk, PathAt;
    ghost var w: World, bound := fs.W(), fs.db.Bound();
    var rec := fs.db.Get(id);
    if rec.None? { return Err(NotFound); }
    if !rec.value.FileRec? && !rec.value.LinkRec? { return Err(NotRegular); }
    if rec.value.FileRec? {
      FileShapeKnown(w, fs.db.lay, id);
      DeleteLevels(fs.db, id, rec.value.file, LevelsAt(w, id));
    } else {
      LinkKnown(w, fs.db.lay, id);
      DeletePaths(fs.db, id, rec.value.link, PathsAt(w, id));
    }
    fs.db.Delete(id);
    DeletedFoot(w, fs.db.lay, fs.db.recs, id);
    GoneStep(w, fs.db.lay, fs.db.recs, id, bound);
    GoneTags(w, fs.db.lay, fs.db.recs, id, bound);
    ghost var w1 := After(w, fs.db.recs, id, None);
    AfterFields(w, fs.db.recs, id, None);
    fs.shapes, fs.owner := w1.shapes, w1.owner;
    r := Ok(());
  }

  lemma FileShapeKnown(w: World, lay: Layout, n: Id)
    requires Settled(w, lay) && n in w.recs && w.recs[n].FileRec?
    ensures n in w.shapes && w.shapes[n] == FileShaped(LevelsAt(w, n)) && FileShapeOk(w.recs, lay, n, LevelsAt(w, n))
  {
    hide FileShapeOk, DirShapeOk, LinkShapeOk, Foot, Partition;
    FileKnown(w, lay, n);
    assert ShapeOk(w.recs, lay, n, w.shapes[n]);
  }

  lemma DeletedFoot(w: World, lay: Layout, r1: Recs, n: Id)
    requires n in w.shapes && (w.shapes[n].FileShaped? || w.shapes[n].LinkShaped?)
    requires r1 == w.recs - (if w.shapes[n].FileShaped? then LevelsIds(w.shapes[n].levels) else PathIds(w.shapes[n].paths)) - {n}
    ensures r1 == w.recs - FootOf(w, n)
  {
  }

  lemma GoneTags(w: World, lay: Layout, r1: Recs, n: Id, bound: Id)
    requires Settled(w, lay) && TagInv(w.recs, lay) && Below(w.recs, bound) && bound > ROOT
    requires n in w.shapes && !w.shapes[n].DirShaped? && r1 == w.recs - FootOf(w, n)
    ensures TagInv(r1, lay) && SameTags(w.recs, r1)
    ensures forall y :: IsTag(w.recs, y) ==> Value(r1, y) == Value(w.recs, y)
  {
    hide TagInv, Below, Value, ShapeOk, Foot, Partition;
    forall x | x in FootOf(w, n) ensures x in w.recs && !w.recs[x].TagRec? {
      FootStored(w.recs, lay, n, w.shapes[n]);
      BelowAt(w.recs, bound, x);
      if w.recs[x].TagRec? { TagFoot(w.recs, lay, n, w.shapes[n], x); }
    }
    TagsUntouched(w.recs, r1, lay, FootOf(w, n), {}, bound);
  }

  /** The level loop of md2DeleteFile on a regular file. */
  method DeleteLevels(db: Store, n: Id, base: FileInode, ghost levels: seq<LevelShape>)
    requires FileShapeOk(db.recs, db.lay, n, levels) && db.recs[n] == FileRec(base)
    modifies db`recs
    ensures db.recs == old(db.recs) - LevelsIds(levels)
  {
    hide LevelOk, LevelIds, LevelsIds;
    ghost var r0: Recs := db.recs;
    NoLevels(r0, levels);
    var i: nat := 0;
    while i < LEVELS
      invariant i <= LEVELS && db.recs == r0 - LevelsIds(levels[..i])
    {
      LevelStill(r0, db.lay, n, levels, i);
      if base.levels[i].chain != NULL {
        DeleteChain(db, base.levels[i].chain, base.levels[i], levels[i]);
      }
      i := i + 1;
    }
    assert levels[..LEVELS] == levels;
  }

  lemma NoLevels(r: Recs, levels: seq<LevelShape>)
    ensures r == r - LevelsIds(levels[..0])
  {
  }

  lemma LevelStill(r0: Recs, lay: Layout, n: Id, levels: seq<LevelShape>, i: nat)
    requires FileShapeOk(r0, lay, n, levels) && i < LEVELS
    ensures LevelOk(r0 - LevelsIds(levels[..i]), lay, r0[n].file.levels[i], levels[i])
    ensures r0 - LevelsIds(levels[..i]) - LevelIds(levels[i]) == r0 - LevelsIds(levels[..i + 1])
    ensures r0[n].file.levels[i].chain == NULL ==> LevelIds(levels[i]) == {} && r0 - LevelsIds(levels[..i]) == r0 - LevelsIds(levels[..i + 1])
  {
    hide LevelOk, LevelIds, Contents;
    var gone := LevelsIds(levels[..i]);
    LevelIdsStored(r0, lay, r0[n].file.levels[i], levels[i]);
    forall x | x in gone ensures x !in LevelIds(levels[i]) {
      var k := LevelOf(levels[..i], x);
      assert LevelIds(levels[k]) !! LevelIds(levels[i]);
    }
    LevelFrame(r0, r0 - gone, lay, r0[n].file.levels[i], levels[i]);
    assert levels[..i + 1][..i] == levels[..i];
    MinusMinus(r0, gone, LevelIds(levels[i]));
    LevelHead(r0, lay, r0[n].file.levels[i], levels[i]);
    if levels[i].NoData? { EmptyLevelFacts(r0, lay, r0[n].file.levels[i], levels[i]); assert gone + {} == gone; }
  }

  /** The level loop of md2DeleteFile on a link. */
  method DeletePaths(db: Store, n: Id, inode: LinkInode, ghost paths: seq<Id>)
    requires LinkShapeOk(db.recs, n, paths) && db.recs[n] == LinkRec(inode)
    modifies db`recs
    ensures db.recs == old(db.recs) - PathIds(paths)
  {
    hide PathIds, LinkShapeOk;
    ghost var r0: Recs := db.recs;
    NoPaths(r0, paths);
    PathChain(r0, n, paths, 0);
    var i: nat := 0;
    while i < LEVELS
      invariant i <= LEVELS && db.recs == r0 - PathIds(paths[..i])
    {
      PathChain(r0, n, paths, i);
      PathStill(r0, n, paths, i);
      if inode.levels[i].chain != NULL {
        db.Delete(inode.levels[i].chain);
      }
      i := i + 1;
    }
    AllPaths(r0, n, paths);
  }

  lemma NoPaths(r: Recs, paths: seq<Id>)
    ensures r == r - PathIds(paths[..0])
  {
  }

  lemma AllPaths(r: Recs, n: Id, paths: seq<Id>)
    requires LinkShapeOk(r, n, paths)
    ensures paths[..LEVELS] == paths
  {
  }

  lemma PathStill(r0: Recs, n: Id, paths: seq<Id>, i: nat)
    requires LinkShapeOk(r0, n, paths) && i < LEVELS
    ensures r0 - PathIds(paths[..i + 1]) ==
            if paths[i] == NULL then r0 - PathIds(paths[..i]) else r0 - PathIds(paths[..i]) - {paths[i]}
  {
  }
}
