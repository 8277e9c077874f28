/** The shape of the namespace over runs: when every inode has exactly one name, and when the directories form trees. */
module Trees {
  import opened Records
  import opened FileShapes
  import opened TagShapes
  import opened TagValues
  import opened Worlds
  import opened Namespace
  import opened FileSystems
  import opened FsDirs
  import opened FsOps
  import opened Propagate
  import opened TagLists
  import opened Meanings

  // ----- every inode is named -----

  ghost predicate Names(v: View, d: Id, name: Name, n: Id) {
    IsEntry(v, d, name) && EntryOf(v, d, name).id == n
  }

  ghost predicate HasEntry(v: View, n: Id) {
    exists d, name :: Names(v, d, name, n)
  }

  /** Every inode but the top directories has an entry, and no entry is an entry only. */
  ghost predicate Tidy(v: View) {
    && (forall n :: n in v && v[n].parent != ROOT ==> HasEntry(v, n))
    && forall d, name :: IsEntry(v, d, name) ==> !EntryOf(v, d, name).entryOnly
  }

  /** The operation leaves no inode without an entry: it does not make a directory under the empty name, and does
      not remove a directory as if it were a file. */
  ghost predicate Orderly(v: View, op: Op) {
    match op
    case MkDir(d, name) => !(IsDir(v, d) && name == "" && !IsEntry(v, d, name))
    case RmFile(d, name) => !(Removable(v, d, name) && IsDir(v, EntryOf(v, d, name).id))
    case _ => true
  }

  /** In a tidy tree every inode but the top directories is named by exactly one entry, in the directory it knows. */
  lemma NamedOnce(v: View, n: Id)
    requires TreeOk(v) && Tidy(v) && n in v && v[n].parent != ROOT
    ensures IsDir(v, v[n].parent)
    ensures exists name :: Names(v, v[n].parent, name, n) && forall d, other :: Names(v, d, other, n) ==> d == v[n].parent && other == name
  {
    assert HasEntry(v, n);
    var d, name :| Names(v, d, name, n);
    forall e, other | Names(v, e, other, n) ensures e == d && other == name {
      assert v[EntryOf(v, e, other).id].parent == e;
    }
  }

  lemma SameEntriesTidy(v: View, v1: View)
    requires v1.Keys == v.Keys && forall n :: n in v ==> v1[n].parent == v[n].parent
    requires forall d, name :: IsEntry(v1, d, name) <==> IsEntry(v, d, name)
    requires forall d, name :: IsEntry(v, d, name) ==> EntryOf(v1, d, name) == EntryOf(v, d, name)
    ensures Tidy(v1) <==> Tidy(v)
  {
    forall n ensures HasEntry(v1, n) <==> HasEntry(v, n) {
      assert forall d, name :: Names(v1, d, name, n) <==> Names(v, d, name, n);
    }
  }

  /** One inode may change anything but its parent and its entries. */
  lemma SameNodeTidy(v: View, n: Id, node: Node)
    requires n in v && node.parent == v[n].parent && (node.DirNode? <==> v[n].DirNode?)
    requires node.DirNode? ==> node.entries == v[n].entries
    ensures Tidy(v[n := node]) <==> Tidy(v)
  {
    SameEntriesTidy(v, v[n := node]);
  }

  /** An inode without an entry: tidy only at the top. */
  lemma OrphanTidy(v: View, n: Id, node: Node)
    requires TreeOk(v) && Tidy(v) && n !in v && (node.DirNode? ==> node.entries == map[])
    ensures Tidy(v[n := node]) <==> node.parent == ROOT
  {
    var v1 := v[n := node];
    forall d, name, x ensures Names(v1, d, name, x) <==> Names(v, d, name, x) {}
    forall x | x in v && v[x].parent != ROOT ensures HasEntry(v1, x) {
      var d: Id, name: Name :| Names(v, d, name, x);
      assert Names(v1, d, name, x);
    }
    assert !HasEntry(v1, n);
    forall e, other | IsEntry(v1, e, other) ensures !EntryOf(v1, e, other).entryOnly {
      assert IsEntry(v, e, other);
    }
  }

  lemma AddTidy(v: View, d: Id, name: Name, n: Id, node: Node)
    requires Tidy(v) && n !in v && n != d && (node.DirNode? ==> node.entries == map[]) && node.parent == d
    requires Free(v, d, name)
    ensures Tidy(WithEntry(v[n := node], d, Item(n, name, false, 0)))
  {
    var v1 := WithEntry(v[n := node], d, Item(n, name, false, 0));
    assert Names(v1, d, name, n);
    forall x | x in v && v[x].parent != ROOT ensures HasEntry(v1, x) {
      var e: Id, other: Name :| Names(v, e, other, x);
      assert Names(v1, e, other, x);
    }
    forall e, other | IsEntry(v1, e, other) ensures !EntryOf(v1, e, other).entryOnly {
      assert IsEntry(v, e, other) || (e == d && other == name);
    }
  }

  /** An entry goes, and with it its inode, which contains nothing. */
  lemma RemoveTidy(v: View, d: Id, name: Name)
    requires TreeOk(v) && Tidy(v) && IsEntry(v, d, name)
    requires var n := EntryOf(v, d, name).id; IsDir(v, n) ==> v[n].entries == map[]
    ensures Tidy(WithoutEntry(v, d, name) - {EntryOf(v, d, name).id})
  {
    var n := EntryOf(v, d, name).id;
    var v1 := WithoutEntry(v, d, name) - {n};
    forall x | x in v1 && v1[x].parent != ROOT ensures HasEntry(v1, x) {
      var e: Id, other: Name :| Names(v, e, other, x);
      assert Names(v1, e, other, x);
    }
    forall e, other | IsEntry(v1, e, other) ensures !EntryOf(v1, e, other).entryOnly {
      assert IsEntry(v, e, other);
    }
  }

  /** The entry goes alone. */
  lemma LostTidy(v: View, d: Id, name: Name)
    requires TreeOk(v) && Tidy(v) && IsEntry(v, d, name) && d != ROOT
    ensures !Tidy(WithoutEntry(v, d, name))
  {
    var n := EntryOf(v, d, name).id;
    var v1 := WithoutEntry(v, d, name);
    TreeRemove(v, d, name);
    assert v1[n].parent == d;
    forall x | x in v && x != n && v[x].parent != ROOT ensures HasEntry(v1, x) {
      var e: Id, other: Name :| Names(v, e, other, x);
      assert Names(v1, e, other, x);
    }
    assert !HasEntry(v1, n);
    forall e, other | IsEntry(v1, e, other) ensures !EntryOf(v1, e, other).entryOnly {
      assert IsEntry(v, e, other);
    }
  }

  lemma MoveTidy(v: View, from: Id, fromName: Name, to: Id, toName: Name)
    requires TreeOk(v) && Tidy(v) && Movable(v, from, fromName, to, toName)
    ensures Tidy(Renamed(v, from, fromName, to, toName))
  {
    RenameMovesOne(v, from, fromName, to, toName);
    var v3, item := Renamed(v, from, fromName, to, toName), EntryOf(v, from, fromName);
    assert Names(v3, to, toName, item.id);
    forall x | x in v3 && x != item.id && v3[x].parent != ROOT ensures HasEntry(v3, x) {
      var e: Id, other: Name :| Names(v, e, other, x);
      assert (e, other) != (from, fromName) && (e, other) != (to, toName);
      assert Names(v3, e, other, x);
    }
    forall d, name | IsEntry(v3, d, name) ensures !EntryOf(v3, d, name).entryOnly {
    }
  }

  lemma SecondTidy(v: View, from: Id, fromName: Name, to: Id, toName: Name)
    requires TreeOk(v) && Tidy(v) && Movable(v, from, fromName, to, toName)
    ensures Tidy(WithEntry(v, to, EntryOf(v, from, fromName).(name := toName)))
  {
    var v1 := WithEntry(v, to, EntryOf(v, from, fromName).(name := toName));
    forall x | x in v && v[x].parent != ROOT ensures HasEntry(v1, x) {
      var e: Id, other: Name :| Names(v, e, other, x);
      assert Names(v1, e, other, x);
    }
    forall e, other | IsEntry(v1, e, other) ensures !EntryOf(v1, e, other).entryOnly {
      assert IsEntry(v, e, other) || (e == to && other == toName);
    }
  }

  /** Exactly the orderly operations keep a tree tidy. */
  lemma TidyStep(lay: Layout, s0: State, op: Op, n: Id, s1: State)
    requires Means(lay, s0, op, n, s1) && TreeOk(s0.view) && ROOT !in s0.view && Tidy(s0.view)
    ensures Tidy(s1.view) <==> Orderly(s0.view, op)
  {
    hide ValuesKept, Mirrors, TreeOk, Marked, Reached, WriteFlat, Value, Passes, Tidy, Cleared;
    var v := s0.view;
    match op
    case MkTop =>
      OrphanTidy(v, n, DirNode(ROOT, false, false, map[], []));
    case MkDir(d, name) =>
      if IsDir(v, d) && !IsEntry(v, d, name) {
        if name == "" { OrphanTidy(v, n, s1.view[n]); } else { AddTidy(v, d, name, n, s1.view[n]); }
      }
    case MkFile(d, name) =>
      if Free(v, d, name) { AddTidy(v, d, name, n, FileNode(d, seq(LEVELS, i => []))); }
    case MkLink(d, name, mode, path) =>
      if Free(v, d, name) {
        AddTidy(v, d, name, n, LinkNode(d, seq(LEVELS, i => None)));
        AddTidy(v, d, name, n, LinkNode(d, seq(LEVELS, i => None)[mode := Some(path)]));
      }
    case Write(id, _, _, _) => if id in v { SameNodeTidy(v, id, s1.view[id]); }
    case Empty(id, _) => if id in v { SameNodeTidy(v, id, s1.view[id]); }
    case Flag(id, flags, mask) => if id in v { SameNodeTidy(v, id, s1.view[id]); }
    case TagNew(d, _) => if IsDir(v, d) { SameNodeTidy(v, d, s1.view[d]); }
    case TagSpread(t) =>
      if IsTag(s0.recs, t) {
        SameGraph(s0.recs, v, s1.recs, s1.view, s0.recs[t].tag.name, Value(s0.recs, t));
        SameEntriesTidy(v, s1.view);
      }
    case RmFile(d, name) =>
      if Removable(v, d, name) {
        if IsDir(v, EntryOf(v, d, name).id) { LostTidy(v, d, name); } else { RemoveTidy(v, d, name); }
      }
    case RmDir(d, name) => if s1 != s0 { RmDirTidy(v, d, name); }
    case Move(from, fromName, to, toName) =>
      if Movable(v, from, fromName, to, toName) {
        MoveTidy(v, from, fromName, to, toName);
        SecondTidy(v, from, fromName, to, toName);
      }
    case _ =>
  }

  lemma RmDirTidy(v: View, d: Id, name: Name)
    requires TreeOk(v) && Tidy(v) && Removable(v, d, name)
    requires IsDir(v, EntryOf(v, d, name).id) && v[EntryOf(v, d, name).id].entries == map[]
    ensures !EntryOf(v, d, name).entryOnly && Tidy(WithoutEntry(v, d, name) - {EntryOf(v, d, name).id})
  {
    RemoveTidy(v, d, name);
  }

  /** Over a run of orderly operations nothing is ever left without an entry. */
  lemma {:induction false} TidyRun(lay: Layout, ops: seq<Op>, made: seq<Id>, states: seq<State>, b: nat)
    requires Trace(lay, ops, made, states) && b <= |ops|
    requires forall k :: 0 <= k < b ==> Orderly(states[k].view, ops[k])
    ensures Tidy(states[b].view)
  {
    hide Means, Orderly;
    if b > 0 {
      TidyRun(lay, ops, made, states, b - 1);
      hide Tidy;
      TidyStep(lay, states[b - 1], ops[b - 1], made[b - 1], states[b]);
    }
  }

  // ----- every inode lies under a top directory -----

  /** The chain of parents ends at a top directory after at most `k` steps. */
  ghost predicate RootedIn(v: View, n: Id, k: nat)
    decreases k
  {
    n in v && (v[n].parent == ROOT || (k > 0 && RootedIn(v, v[n].parent, k - 1)))
  }

  ghost predicate Rooted(v: View, n: Id) {
    exists k: nat :: RootedIn(v, n, k)
  }

  /** Every inode lies under a top directory, so there are no cycles. */
  ghost predicate Forest(v: View) {
    forall n :: n in v ==> Rooted(v, n)
  }

  /** `a` is `n`, or a directory that contains it, `k` steps up. */
  ghost predicate AboveIn(v: View, a: Id, n: Id, k: nat)
    decreases k
  {
    n == a || (k > 0 && n in v && AboveIn(v, a, v[n].parent, k - 1))
  }

  ghost predicate Above(v: View, a: Id, n: Id) {
    exists k: nat :: AboveIn(v, a, n, k)
  }

  /** A rename that moves a directory to a place below itself.  dbs_rename refuses only the directory itself. */
  ghost predicate Loops(v: View, op: Op) {
    && op.Move? && Movable(v, op.from, op.fromName, op.to, op.toName) && !v[op.from].noRemove
    && Above(v, EntryOf(v, op.from, op.fromName).id, op.to)
  }

  lemma {:induction false} SameParents(v: View, v1: View, n: Id, k: nat)
    requires RootedIn(v, n, k)
    requires forall x :: x in v && v[x].parent in v ==> v[x].parent in v1
    requires forall x :: x in v && x in v1 ==> v1[x].parent == v[x].parent
    requires n in v1
    ensures RootedIn(v1, n, k)
    decreases k
  {
    if v[n].parent != ROOT { SameParents(v, v1, v[n].parent, k - 1); }
  }

  /** Inodes may come at the place of their parent, and go where they contain nothing. */
  lemma ForestChange(v: View, v1: View)
    requires Forest(v)
    requires forall x :: x in v && v[x].parent in v ==> v[x].parent in v1
    requires forall x :: x in v && x in v1 ==> v1[x].parent == v[x].parent
    requires forall x :: x in v1 && x !in v ==> v1[x].parent == ROOT || (v1[x].parent in v && v1[x].parent in v1)
    ensures Forest(v1)
  {
    forall n | n in v1 ensures Rooted(v1, n) {
      if n in v {
        var k: nat :| RootedIn(v, n, k);
        SameParents(v, v1, n, k);
      } else if v1[n].parent != ROOT {
        var k: nat :| RootedIn(v, v1[n].parent, k);
        SameParents(v, v1, v1[n].parent, k);
        assert RootedIn(v1, n, k + 1);
      } else {
        assert RootedIn(v1, n, 0);
      }
    }
  }

  /** Only `m` has another parent. */
  ghost predicate Reparent(v: View, v1: View, m: Id, to: Id) {
    && v1.Keys == v.Keys && m in v && to in v
    && forall x :: x in v ==> v1[x].parent == if x == m then to else v[x].parent
  }

  lemma {:induction false} OffPath(v: View, v1: View, m: Id, to: Id, n: Id, k: nat)
    requires Reparent(v, v1, m, to) && RootedIn(v, n, k) && !Above(v, m, n)
    ensures RootedIn(v1, n, k)
    decreases k
  {
    assert n != m by { if n == m { assert AboveIn(v, m, n, 0); } }
    if v[n].parent != ROOT {
      var p := v[n].parent;
      if Above(v, m, p) {
        var j: nat :| AboveIn(v, m, p, j);
        assert AboveIn(v, m, n, j + 1);
      }
      OffPath(v, v1, m, to, p, k - 1);
    }
  }

  lemma {:induction false} StillRooted(v: View, v1: View, m: Id, to: Id, n: Id, k: nat)
    requires Reparent(v, v1, m, to) && Rooted(v1, to) && RootedIn(v, n, k)
    ensures Rooted(v1, n)
    decreases k
  {
    if n == m {
      var j: nat :| RootedIn(v1, to, j);
      assert RootedIn(v1, n, j + 1);
    } else if v[n].parent == ROOT {
      assert RootedIn(v1, n, 0);
    } else {
      StillRooted(v, v1, m, to, v[n].parent, k - 1);
      var j: nat :| RootedIn(v1, v[n].parent, j);
      assert RootedIn(v1, n, j + 1);
    }
  }

  /** On the way from `to` up to `m` nothing is rooted any more. */
  lemma {:induction false} Cycle(v: View, v1: View, m: Id, to: Id, j: nat, n: Id, i: nat, k: nat)
    requires Reparent(v, v1, m, to) && ROOT !in v && m != to && AboveIn(v, m, to, j) && AboveIn(v, m, n, i)
    ensures !RootedIn(v1, n, k)
    decreases k
  {
    if k > 0 && n in v {
      if n == m {
        Cycle(v, v1, m, to, j, to, j, k - 1);
      } else {
        Cycle(v, v1, m, to, j, v[n].parent, i - 1, k - 1);
      }
    }
  }

  /** Giving one inode another parent keeps the forest if and only if that parent does not lie below it. */
  lemma ReparentForest(v: View, v1: View, m: Id, to: Id)
    requires Forest(v) && ROOT !in v && Reparent(v, v1, m, to) && m != to
    ensures Forest(v1) <==> !Above(v, m, to)
  {
    if Above(v, m, to) {
      var j: nat :| AboveIn(v, m, to, j);
      forall k: nat ensures !RootedIn(v1, m, k) { Cycle(v, v1, m, to, j, m, 0, k); }
      assert !Rooted(v1, m);
    } else {
      assert Rooted(v, to);
      var k: nat :| RootedIn(v, to, k);
      OffPath(v, v1, m, to, to, k);
      forall n | n in v1 ensures Rooted(v1, n) {
        assert Rooted(v, n);
        var i: nat :| RootedIn(v, n, i);
        StillRooted(v, v1, m, to, n, i);
      }
    }
  }

  /** Where every inode has its entry, what contains nothing is no inode's parent. */
  lemma NoChildren(v: View, n: Id)
    requires TreeOk(v) && Tidy(v) && ROOT !in v && n in v && (IsDir(v, n) ==> v[n].entries == map[])
    ensures forall x :: x in v ==> v[x].parent != n
  {
    forall x | x in v ensures v[x].parent != n {
      if v[x].parent != ROOT {
        NamedOnce(v, x);
        var name :| Names(v, v[x].parent, name, x);
        assert IsEntry(v, v[x].parent, name);
      }
    }
  }

  lemma MoveForest(s0: State, from: Id, fromName: Name, to: Id, toName: Name, s1: State)
    requires MeansMove(s0, from, fromName, to, toName, s1) && TreeOk(s0.view) && ROOT !in s0.view && Forest(s0.view)
    ensures Forest(s1.view) <==> !Loops(s0.view, Move(from, fromName, to, toName))
  {
    hide ValuesKept, TreeOk, Forest, Above;
    var v := s0.view;
    if Movable(v, from, fromName, to, toName) {
      RenameMovesOne(v, from, fromName, to, toName);
      if v[from].noRemove {
        ForestChange(v, s1.view);
      } else {
        ReparentForest(v, s1.view, EntryOf(v, from, fromName).id, to);
      }
    }
  }

  lemma RemoveForest(v: View, d: Id, name: Name, v1: View)
    requires TreeOk(v) && ROOT !in v && Tidy(v) && Forest(v) && IsEntry(v, d, name)
    requires var n := EntryOf(v, d, name).id;
             v1 == WithoutEntry(v, d, name) || (v1 == WithoutEntry(v, d, name) - {n} && (IsDir(v, n) ==> v[n].entries == map[]))
    ensures Forest(v1)
  {
    hide TreeOk, Tidy, Forest;
    EntryThere(v, d, name);
    var n := EntryOf(v, d, name).id;
    if IsDir(v, n) ==> v[n].entries == map[] { NoChildren(v, n); }
    ForestChange(v, v1);
  }

  /** Exactly the renames of a directory to a place below itself break the forest. */
  lemma ForestStep(lay: Layout, s0: State, op: Op, n: Id, s1: State)
    requires Means(lay, s0, op, n, s1) && TreeOk(s0.view) && ROOT !in s0.view && Tidy(s0.view) && Forest(s0.view)
    ensures Forest(s1.view) <==> !Loops(s0.view, op)
  {
    hide ValuesKept, Mirrors, TreeOk, Marked, Reached, WriteFlat, Value, Passes, Tidy, Cleared, Forest, Above, Movable, MeansMove;
    var v := s0.view;
    match op
    case Move(from, fromName, to, toName) => MoveForest(s0, from, fromName, to, toName, s1);
    case RmFile(d, name) => if Removable(v, d, name) { RemoveForest(v, d, name, s1.view); }
    case RmDir(d, name) => if s1 != s0 { RemoveForest(v, d, name, s1.view); }
    case TagSpread(t) => SpreadForest(s0, t, s1);
    case _ => OtherForest(lay, s0, op, n, s1);
  }

  lemma SpreadForest(s0: State, t: Id, s1: State)
    requires MeansTagSpread(s0, t, s1) && Forest(s0.view)
    ensures Forest(s1.view)
  {
    hide ValuesKept, Marked, Reached, Value, Forest;
    if IsTag(s0.recs, t) { SameGraph(s0.recs, s0.view, s1.recs, s1.view, s0.recs[t].tag.name, Value(s0.recs, t)); }
    ForestChange(s0.view, s1.view);
  }

  lemma OtherForest(lay: Layout, s0: State, op: Op, n: Id, s1: State)
    requires Means(lay, s0, op, n, s1) && Forest(s0.view)
    requires !op.Move? && !op.RmFile? && !op.RmDir? && !op.TagSpread?
    ensures Forest(s1.view)
  {
    hide ValuesKept, Mirrors, WriteFlat, Value, Passes, Forest, UnChainedAt, HasName;
    ForestChange(s0.view, s1.view);
  }

  lemma EntryThere(v: View, d: Id, name: Name)
    requires TreeOk(v) && IsEntry(v, d, name)
    ensures EntryOf(v, d, name).id in v
  {
  }

  /** Over a run of orderly operations without such renames the directories form trees under the top directories. */
  lemma {:induction false} ForestRun(lay: Layout, ops: seq<Op>, made: seq<Id>, states: seq<State>, b: nat)
    requires Trace(lay, ops, made, states) && b <= |ops|
    requires forall k :: 0 <= k < b ==> Orderly(states[k].view, ops[k]) && !Loops(states[k].view, ops[k])
    ensures Tidy(states[b].view) && Forest(states[b].view)
  {
    hide Means, Orderly, Loops;
    TidyRun(lay, ops, made, states, b);
    if b > 0 {
      ForestRun(lay, ops, made, states, b - 1);
      hide Tidy, Forest;
      ForestStep(lay, states[b - 1], ops[b - 1], made[b - 1], states[b]);
    }
  }

  lemma {:induction false} TwoCycle(v: View, a: Id, b: Id, k: nat)
    requires a in v && b in v && v[a].parent == b && v[b].parent == a && a != ROOT && b != ROOT
    ensures !RootedIn(v, a, k)
    decreases k
  {
    if k > 0 { TwoCycle(v, b, a, k - 1); }
  }

  /** Each of two directories contains the other, and no top directory leads to either. */
  ghost predicate CutOff(v: View, a: Id, b: Id) {
    Names(v, a, "b", b) && Names(v, b, "c", a) && !Rooted(v, a) && !Rooted(v, b)
  }

  /** Directory `b` in `a` in the top directory. */
  ghost predicate Nested(v: View, top: Id, a: Id, b: Id) {
    && IsDir(v, top) && IsDir(v, a) && IsDir(v, b) && a != b && a != ROOT && b != ROOT && ROOT !in v
    && IsEntry(v, top, "a") && EntryOf(v, top, "a") == Item(a, "a", false, 0) && !v[top].noRemove && !v[top].noMove
    && Names(v, a, "b", b) && v[b].entries == map[] && v[b].parent == a && top != a && top != b
  }

  lemma FirstDir(v0: View, top: Id, v1: View, a: Id, ta: seq<Id>)
    requires v0 == map[top := DirNode(ROOT, false, false, map[], [])] && a !in v0
    requires v1 == WithDirectory(v0, top, "a", a, ta)
    ensures a in v1 && v1[a].DirNode? && !IsEntry(v1, a, "b")
  {
  }

  lemma NestedDirs(v0: View, top: Id, v1: View, a: Id, ta: seq<Id>, v2: View, b: Id, tb: seq<Id>)
    requires v0 == map[top := DirNode(ROOT, false, false, map[], [])] && a !in v0 && ROOT !in v2
    requires v1 == WithDirectory(v0, top, "a", a, ta) && b !in v1 && v2 == WithDirectory(v1, a, "b", b, tb)
    ensures Nested(v2, top, a, b)
  {
    assert top in v2 && a in v2 && b in v2;
  }

  lemma LoopCuts(v: View, top: Id, a: Id, b: Id)
    requires Nested(v, top, a, b)
    ensures Movable(v, top, "a", b, "c") && !v[top].noRemove && CutOff(Renamed(v, top, "a", b, "c"), a, b)
  {
    var v1 := Renamed(v, top, "a", b, "c");
    assert v1[a].parent == b && v1[b].parent == a;
    forall k: nat ensures !RootedIn(v1, a, k) && !RootedIn(v1, b, k) {
      TwoCycle(v1, a, b, k);
      TwoCycle(v1, b, a, k);
    }
  }

  /** In a new file system: a directory moved into its own subdirectory is cut off from the top for good. */
  method LoopedRename(lay: Layout) returns (fs: FileSystem, a: Id, b: Id)
    ensures fresh(fs) && fresh(fs.db) && Valid(fs) && CutOff(fs.View(), a, b)
  {
    hide ShapesOk, Partition, ViewOf, TagInv, Value, TreeOk, ValuesKept, Mirrors, Nested, CutOff, Renamed, Movable, WithDirectory;
    fs := new FileSystem(lay);
    EmptyTree();
    var top := MakeTop(fs);
    ghost var v0 := fs.View();
    assert v0 == map[top := DirNode(ROOT, false, false, map[], [])];
    NoRoot(fs);
    InodeThere(fs.W(), fs.db.lay, top);
    var x, _ := MakeDirectory(fs, top, "a");
    a := x.value;
    ghost var v1 := fs.View();
    NoRoot(fs);
    FirstDir(v0, top, v1, a, v1[a].tags);
    InodeThere(fs.W(), fs.db.lay, a);
    var y, _ := MakeDirectory(fs, a, "b");
    b := y.value;
    NoRoot(fs);
    NestedDirs(v0, top, v1, a, v1[a].tags, fs.View(), b, fs.View()[b].tags);
    LoopCuts(fs.View(), top, a, b);
    NestedKinds(fs, top, a, b);
    var r := Rename(fs, top, "a", b, "c");
  }

  lemma NestedKinds(fs: FileSystem, top: Id, a: Id, b: Id)
    requires fs.Sound() && Nested(fs.View(), top, a, b)
    ensures top in fs.db.recs && fs.db.recs[top].DirRec? && b in fs.db.recs && fs.db.recs[b].DirRec?
  {
    hide ShapesOk, Partition, ViewOf, TagInv;
    InodeThere(fs.W(), fs.db.lay, top);
    InodeThere(fs.W(), fs.db.lay, b);
  }
}
