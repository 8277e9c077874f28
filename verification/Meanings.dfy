/** What an operation means for the view and for the tags, apart from how records hold them. */
module Meanings {
  import opened Records
  import opened FileShapes
  import opened TagShapes
  import opened TagValues
  import opened TagLists
  import opened TagOps
  import opened Worlds
  import opened Namespace
  import opened FileSystems
  import opened FsFiles
  import opened FsDirs
  import opened FsOps
  import opened Propagate

  datatype Op =
    | MkTop
    | MkDir(d: Id, name: Name)
    | MkFile(d: Id, name: Name)
    | MkLink(d: Id, name: Name, mode: nat, path: string)
    | Write(id: Id, mode: nat, b: seq<byte>, off: nat)
    | Empty(id: Id, mode: nat)
    | Flag(id: Id, flags: Protection, mask: Protection)
    | TagNew(d: Id, tag: string)
    | TagWrite(id: Id, b: seq<byte>, off: nat)
    | TagRemove(id: Id)
    | TagSpread(id: Id)
    | RmFile(d: Id, name: Name)
    | RmDir(d: Id, name: Name)
    | Move(from: Id, fromName: Name, to: Id, toName: Name)
    | Compact(d: Id)

  /** The request is one the clients send: IDs name inodes of the right kind, and writes are flat. */
  predicate Sensible(recs: Recs, lay: Layout, op: Op) {
    match op
    case MkDir(d, _) => d != ROOT && (d in recs ==> recs[d].DirRec?)
    case MkLink(_, _, mode, _) => mode < LEVELS
    case Write(id, mode, b, off) => mode < LEVELS && FlatRequest(recs, lay, id, mode, b, off)
    case Empty(_, mode) => mode < LEVELS
    case TagNew(d, _) => d in recs ==> !recs[d].RowRec? && !recs[d].SlotsRec?
    case TagWrite(id, _, _) => id in recs ==> recs[id].TagRec? && id != NULL
    case TagRemove(id) => id in recs ==> recs[id].TagRec? && id != NULL
    case TagSpread(id) => id in recs ==> recs[id].TagRec? && id != NULL
    case Move(from, _, to, _) => (from in recs ==> recs[from].DirRec?) && (to in recs ==> recs[to].DirRec?)
    case _ => true
  }

  // ----- one operation -----

  datatype State = State(view: View, recs: Recs)

  /** A name that can be given in directory `d`. */
  ghost predicate Free(v: View, d: Id, name: Name) {
    IsDir(v, d) && name != "" && !IsEntry(v, d, name)
  }

  /** `name` can be taken out of directory `d`. */
  ghost predicate Removable(v: View, d: Id, name: Name) {
    IsEntry(v, d, name) && name != "" && !v[d].noRemove
  }

  ghost predicate MeansTop(s0: State, n: Id, s1: State) {
    && ValuesKept(s0.recs, s1.recs) && n !in s0.view
    && s1.view == s0.view[n := DirNode(ROOT, false, false, map[], [])]
  }

  ghost predicate MeansDir(s0: State, d: Id, name: Name, n: Id, s1: State) {
    && ValuesKept(s0.recs, s1.recs)
    && if !IsDir(s0.view, d) || IsEntry(s0.view, d, name) then s1.view == s0.view
       else && n != d && n !in s0.view && IsDir(s1.view, n)
            && Mirrors(s0.recs, s0.view[d].tags, s1.recs, s1.view[n].tags)
            && s1.view == if name == "" then s0.view[n := NewNode(s0.view, d, s1.view[n].tags)]
                          else WithDirectory(s0.view, d, name, n, s1.view[n].tags)
  }

  ghost predicate MeansFile(s0: State, d: Id, name: Name, n: Id, s1: State) {
    && ValuesKept(s0.recs, s1.recs)
    && if !Free(s0.view, d, name) then s1.view == s0.view
       else && n != d && n !in s0.view
            && s1.view == WithEntry(s0.view[n := FileNode(d, seq(LEVELS, i => []))], d, Item(n, name, false, 0))
  }

  ghost predicate MeansLink(lay: Layout, s0: State, d: Id, name: Name, mode: nat, path: string, n: Id, s1: State)
    requires mode < LEVELS
  {
    && ValuesKept(s0.recs, s1.recs)
    && if !Free(s0.view, d, name) then s1.view == s0.view
       else && n != d && n !in s0.view
            && s1.view == if |path| + 4 <= lay.dataUnits then WithLink(s0.view, d, name, n, mode, path)
                          else WithEntry(s0.view[n := LinkNode(d, seq(LEVELS, i => None))], d, Item(n, name, false, 0))
  }

  ghost predicate IsFile(v: View, id: Id) {
    id in v && v[id].FileNode? && |v[id].contents| == LEVELS
  }

  /** The view with other bytes in one level of a file. */
  ghost function WithLevel(v: View, id: Id, mode: nat, bytes: seq<byte>): View
    requires IsFile(v, id) && mode < LEVELS
  {
    v[id := v[id].(contents := v[id].contents[mode := bytes])]
  }

  lemma SameLevel(v: View, id: Id, mode: nat)
    requires IsFile(v, id) && mode < LEVELS
    ensures WithLevel(v, id, mode, v[id].contents[mode]) == v
  {
    assert v[id].contents[mode := v[id].contents[mode]] == v[id].contents;
  }

  /** What a write makes of the bytes of a level: level 0 takes everything, the others at most 4096 bytes, and nothing
      that starts behind the last four. */
  ghost function LevelWritten(c: seq<byte>, mode: nat, b: seq<byte>, off: nat): seq<byte> {
    if mode != 0 && off + 4 > 4096 then c
    else if mode == 0 || off + |b| <= 4096 then WriteFlat(c, b, off)
    else WriteFlat(c, b[..4096 - off], off)
  }

  ghost predicate MeansWrite(s0: State, id: Id, mode: nat, b: seq<byte>, off: nat, s1: State)
    requires mode < LEVELS
  {
    && ValuesKept(s0.recs, s1.recs)
    && s1.view == if IsFile(s0.view, id) then WithLevel(s0.view, id, mode, LevelWritten(s0.view[id].contents[mode], mode, b, off))
                  else s0.view
  }

  ghost predicate MeansEmpty(s0: State, id: Id, mode: nat, s1: State)
    requires mode < LEVELS
  {
    if IsFile(s0.view, id) then s1.view == WithLevel(s0.view, id, mode, []) && ValuesKept(s0.recs, s1.recs)
    else s1.view == s0.view && if Writable(s0.recs, id) then UnChainedAt(s0.recs, s1.recs, id) else s1.recs == s0.recs
  }

  ghost predicate MeansFlag(s0: State, id: Id, flags: Protection, mask: Protection, s1: State) {
    && ValuesKept(s0.recs, s1.recs)
    && s1.view == if id in s0.view then s0.view[id := Protected(s0.view[id], flags, mask)] else s0.view
  }

  ghost predicate MeansTagNew(s0: State, d: Id, tag: string, t: Id, s1: State) {
    && ValuesKept(s0.recs, s1.recs)
    && if !IsDir(s0.view, d) || HasName(s0.recs, s0.view[d].tags, Cut(tag)) then s1.view == s0.view
       else && t !in s0.recs && IsTag(s1.recs, t) && Value(s1.recs, t) == Some([])
            && s1.recs[t].tag.name == Cut(tag) && s1.recs[t].tag.parent == NULL
            && s1.view == s0.view[d := s0.view[d].(tags := s0.view[d].tags + [t])]
  }

  ghost predicate MeansTagWrite(lay: Layout, s0: State, t: Id, b: seq<byte>, off: nat, s1: State) {
    && s1.view == s0.view
    && if !Writable(s0.recs, t) || off >= lay.tagSize then s1.recs == s0.recs
       else && WrittenOver(lay, s0.recs, s1.recs, t, b, off)
            && forall x :: IsTag(s0.recs, x) ==>
                 Value(s1.recs, x) == if Passes(s0.recs, x, t) then Some(s0.recs[t].tag.data[..off] + b[..Min(|b|, lay.tagSize - off)])
                                      else Value(s0.recs, x)
  }

  ghost predicate MeansTagRemove(s0: State, t: Id, s1: State) {
    && s1.view == s0.view
    && if !IsTag(s0.recs, t) then s1.recs == s0.recs
       else && GivenUp(s0.recs, s1.recs, t)
            && forall x :: IsTag(s0.recs, x) ==>
                 Value(s1.recs, x) ==
                   if !Passes(s0.recs, x, t) then Value(s0.recs, x)
                   else if s0.recs[t].tag.parent != NULL then Value(s0.recs, s0.recs[t].tag.parent)
                   else None
  }

  ghost predicate MeansTagSpread(s0: State, t: Id, s1: State) {
    && ValuesKept(s0.recs, s1.recs)
    && if !IsTag(s0.recs, t) then s1.view == s0.view
       else var name, base := s0.recs[t].tag.name, s0.recs[t].tag.base;
            && Spread(s0.recs, s0.view, s1.recs, s1.view, name, Value(s0.recs, t))
            && forall x :: x in Marked(s1.recs, s1.view, name) && x !in Marked(s0.recs, s0.view, name) <==>
                           Reached(s0.view, Marked(s0.recs, s0.view, name), base, x)
  }

  ghost predicate MeansRmFile(s0: State, d: Id, name: Name, s1: State) {
    && ValuesKept(s0.recs, s1.recs)
    && s1.view == if !Removable(s0.view, d, name) then s0.view
                  else if IsDir(s0.view, EntryOf(s0.view, d, name).id) then WithoutEntry(s0.view, d, name)
                  else WithoutEntry(s0.view, d, name) - {EntryOf(s0.view, d, name).id}
  }

  ghost predicate MeansRmDir(s0: State, d: Id, name: Name, s1: State) {
    if !Removable(s0.view, d, name) || !IsDir(s0.view, EntryOf(s0.view, d, name).id) || s0.view[EntryOf(s0.view, d, name).id].entries != map[]
    then s1 == s0
    else
      var item := EntryOf(s0.view, d, name);
      if item.entryOnly then s1.view == WithoutEntry(s0.view, d, name) && ValuesKept(s0.recs, s1.recs)
      else s1.view == WithoutEntry(s0.view, d, name) - {item.id} && Cleared(s0.recs, s1.recs, s0.view[item.id].tags)
  }

  /** dbs_rename answers Panic. */
  ghost predicate Panics(v: View, op: Op) {
    op.Move? && Movable(v, op.from, op.fromName, op.to, op.toName) && v[op.from].noRemove
  }

  ghost predicate MeansMove(s0: State, from: Id, fromName: Name, to: Id, toName: Name, s1: State) {
    && ValuesKept(s0.recs, s1.recs)
    && s1.view == if !Movable(s0.view, from, fromName, to, toName) then s0.view
                  else if s0.view[from].noRemove then WithEntry(s0.view, to, EntryOf(s0.view, from, fromName).(name := toName))
                  else Renamed(s0.view, from, fromName, to, toName)
  }

  /** The whole effect of an operation; `n` is the inode or the tag it makes, if it makes one. */
  ghost predicate Means(lay: Layout, s0: State, op: Op, n: Id, s1: State) {
    match op
    case MkTop => MeansTop(s0, n, s1)
    case MkDir(d, name) => MeansDir(s0, d, name, n, s1)
    case MkFile(d, name) => MeansFile(s0, d, name, n, s1)
    case MkLink(d, name, mode, path) => mode < LEVELS && MeansLink(lay, s0, d, name, mode, path, n, s1)
    case Write(id, mode, b, off) => mode < LEVELS && MeansWrite(s0, id, mode, b, off, s1)
    case Empty(id, mode) => mode < LEVELS && MeansEmpty(s0, id, mode, s1)
    case Flag(id, flags, mask) => MeansFlag(s0, id, flags, mask, s1)
    case TagNew(d, tag) => MeansTagNew(s0, d, tag, n, s1)
    case TagWrite(id, b, off) => MeansTagWrite(lay, s0, id, b, off, s1)
    case TagRemove(id) => MeansTagRemove(s0, id, s1)
    case TagSpread(id) => MeansTagSpread(s0, id, s1)
    case RmFile(d, name) => MeansRmFile(s0, d, name, s1)
    case RmDir(d, name) => MeansRmDir(s0, d, name, s1)
    case Move(from, fromName, to, toName) => MeansMove(s0, from, fromName, to, toName, s1)
    case Compact(d) => s1.view == s0.view && ValuesKept(s0.recs, s1.recs)
  }

  // ----- runs of operations -----

  /** The states of a run, each the meaning of the operation on the one before. */
  ghost predicate Trace(lay: Layout, ops: seq<Op>, made: seq<Id>, states: seq<State>) {
    && |states| == |ops| + 1 && |made| == |ops|
    && states[0] == State(map[], map[]) && (forall k :: 0 <= k <= |ops| ==> ROOT !in states[k].view)
    && forall k :: 0 <= k < |ops| ==> TreeOk(states[k].view) && Means(lay, states[k], ops[k], made[k], states[k + 1])
  }

  lemma EmptyTrace(lay: Layout)
    ensures Trace(lay, [], [], [State(map[], map[])])
  {
  }

  lemma LongerTrace(lay: Layout, ops: seq<Op>, done: nat, made: seq<Id>, states: seq<State>, n: Id, s1: State)
    requires done < |ops| && Trace(lay, ops[..done], made, states) && TreeOk(states[done].view)
    requires Means(lay, states[done], ops[done], n, s1) && ROOT !in s1.view
    ensures Trace(lay, ops[..done + 1], made + [n], states + [s1])
  {
    hide TreeOk, Means;
    assert ops[..done + 1] == ops[..done] + [ops[done]];
  }

  // ----- one level of one file -----

  ghost function LevelAfter(c: seq<byte>, op: Op, id: Id, mode: nat): seq<byte> {
    match op
    case Write(i, m, b, off) => if i == id && m == mode then LevelWritten(c, m, b, off) else c
    case Empty(i, m) => if i == id && m == mode then [] else c
    case _ => c
  }

  /** The writes and truncations of one level, in order. */
  ghost function LevelFold(c: seq<byte>, ops: seq<Op>, id: Id, mode: nat): seq<byte> {
    if ops == [] then c else LevelAfter(LevelFold(c, ops[..|ops| - 1], id, mode), ops[|ops| - 1], id, mode)
  }

  lemma LevelMeant(lay: Layout, s0: State, op: Op, n: Id, s1: State, id: Id, mode: nat)
    requires Means(lay, s0, op, n, s1) && TreeOk(s0.view) && mode < LEVELS
    requires IsFile(s0.view, id) && id in s1.view
    ensures IsFile(s1.view, id) && s1.view[id].contents[mode] == LevelAfter(s0.view[id].contents[mode], op, id, mode)
  {
    hide ValuesKept, Mirrors, TreeOk, Marked, Reached, WriteFlat, Value, Passes;
  }

  /** Between any two moments of a run at which a file is there, and in between: its bytes are those the writes and
      truncations of this level leave, in order; no other operation bears on them. */
  lemma {:induction false} LevelOverRun(lay: Layout, ops: seq<Op>, made: seq<Id>, states: seq<State>, a: nat, b: nat, id: Id, mode: nat)
    requires Trace(lay, ops, made, states) && a <= b <= |ops| && mode < LEVELS
    requires IsFile(states[a].view, id) && forall k :: a <= k <= b ==> id in states[k].view
    ensures IsFile(states[b].view, id)
    ensures states[b].view[id].contents[mode] == LevelFold(states[a].view[id].contents[mode], ops[a..b], id, mode)
  {
    hide Means;
    if a < b {
      LevelOverRun(lay, ops, made, states, a, b - 1, id, mode);
      LevelMeant(lay, states[b - 1], ops[b - 1], made[b - 1], states[b], id, mode);
      assert ops[a..b][..b - 1 - a] == ops[a..b - 1];
    }
  }
}
