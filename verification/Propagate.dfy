/** Propagating a tag down the directory graph (md2TagPropagateLow and md2TagPropagateRec). */
module Propagate {
  import opened Records
  import opened Stores
  import opened DirShapes
  import opened DirList
  import opened TagShapes
  import opened TagValues
  import opened TagLists
  import opened Worlds
  import opened Namespace
  import opened FileSystems
  import opened FsOps

  // ----- the graph of directories -----

  ghost predicate IsDir(v: View, d: Id) {
    d in v && v[d].DirNode?
  }

  /** Directory `c` has an entry in directory `d`. */
  ghost predicate Child(v: View, d: Id, c: Id) {
    IsDir(v, c) && exists name :: IsEntry(v, d, name) && EntryOf(v, d, name).id == c
  }

  /** The directories that have a tag of this name. */
  ghost function Marked(recs: Recs, v: View, name: string): set<Id> {
    set d | d in v && IsDir(v, d) && HasName(recs, v[d].tags, name)
  }

  ghost function Unmarked(recs: Recs, v: View, name: string): set<Id> {
    set d | d in v && IsDir(v, d) && !HasName(recs, v[d].tags, name)
  }

  /** A path of directories that, behind its start, meets none of `m`. */
  ghost predicate WhitePath(v: View, m: set<Id>, p: seq<Id>) {
    && p != []
    && (forall i :: 0 < i < |p| ==> p[i] !in m)
    && forall i :: 0 <= i < |p| - 1 ==> Child(v, p[i], p[i + 1])
  }

  ghost predicate Reached(v: View, m: set<Id>, d: Id, x: Id) {
    exists p :: WhitePath(v, m, p) && p[0] == d && p[|p| - 1] == x && |p| > 1
  }

  // ----- what a walk does -----

  /** The tag list of directory `x` got one more tag: it has the name, inherits from the tag of that name in the
      directory that contains `x`, and is worth `value`. */
  ghost predicate GotTag(r0: Recs, v0: View, r1: Recs, v1: View, name: string, value: Option<seq<byte>>, x: Id) {
    && IsDir(v0, x) && IsDir(v1, x) && |v1[x].tags| > 0
    && var t := v1[x].tags[|v1[x].tags| - 1];
       && v1[x] == v0[x].(tags := v0[x].tags + [t])
       && t !in r0 && IsTag(r1, t) && r1[t].tag.name == name && Value(r1, t) == value
       && IsDir(v1, v0[x].parent) && r1[t].tag.parent in v1[v0[x].parent].tags
       && IsTag(r1, r1[t].tag.parent) && r1[r1[t].tag.parent].tag.name == name
  }

  /** Exactly the newly marked directories changed, and each got its tag. */
  ghost predicate Spread(r0: Recs, v0: View, r1: Recs, v1: View, name: string, value: Option<seq<byte>>) {
    && v1.Keys == v0.Keys && Marked(r0, v0, name) <= Marked(r1, v1, name)
    && forall x :: x in v0 ==>
         if x in Marked(r1, v1, name) && x !in Marked(r0, v0, name) then GotTag(r0, v0, r1, v1, name, value, x)
         else v1[x] == v0[x]
  }

  /** The newly marked directories have no unmarked children. */
  ghost predicate Closed(v: View, m0: set<Id>, m1: set<Id>) {
    forall x, c :: x in m1 && x !in m0 && Child(v, x, c) ==> c in m1
  }

  ghost predicate AllReached(v: View, m0: set<Id>, m1: set<Id>, d: Id) {
    forall x :: x in m1 && x !in m0 ==> Reached(v, m0, d, x)
  }

  lemma SameGraph(r0: Recs, v0: View, r1: Recs, v1: View, name: string, value: Option<seq<byte>>)
    requires Spread(r0, v0, r1, v1, name, value)
    ensures forall d, n :: IsEntry(v1, d, n) <==> IsEntry(v0, d, n)
    ensures forall d, n :: IsEntry(v1, d, n) ==> EntryOf(v1, d, n) == EntryOf(v0, d, n)
    ensures forall d, c :: Child(v1, d, c) <==> Child(v0, d, c)
    ensures forall d :: d in v0 ==> v1[d].parent == v0[d].parent && (v1[d].DirNode? <==> v0[d].DirNode?)
  {
    hide Marked;
    forall d | d in v0 ensures v1[d].parent == v0[d].parent && (v1[d].DirNode? <==> v0[d].DirNode?)
                               && (v0[d].DirNode? ==> v1[d].entries == v0[d].entries) {
    }
    forall d, c ensures Child(v1, d, c) <==> Child(v0, d, c) {
      if Child(v0, d, c) { var n :| IsEntry(v0, d, n) && EntryOf(v0, d, n).id == c; assert IsEntry(v1, d, n); }
      if Child(v1, d, c) { var n :| IsEntry(v1, d, n) && EntryOf(v1, d, n).id == c; assert IsEntry(v0, d, n); }
    }
  }

  /** Two walks in sequence. */
  lemma SpreadTwice(r0: Recs, v0: View, r1: Recs, v1: View, r2: Recs, v2: View, name: string, value: Option<seq<byte>>)
    requires Spread(r0, v0, r1, v1, name, value) && Spread(r1, v1, r2, v2, name, value)
    requires ValuesKept(r0, r1) && ValuesKept(r1, r2) && r0.Keys <= r1.Keys
    ensures Spread(r0, v0, r2, v2, name, value)
  {
    hide Marked, Value, GotTag, ValuesKept;
    var m0, m1, m2 := Marked(r0, v0, name), Marked(r1, v1, name), Marked(r2, v2, name);
    forall x | x in v0
      ensures if x in m2 && x !in m0 then GotTag(r0, v0, r2, v2, name, value, x) else v2[x] == v0[x]
    {
      if x in m1 && x !in m0 {
        GotFirst(r0, v0, r1, v1, r2, v2, name, value, x);
      } else if x in m2 && x !in m1 {
        GotSecond(r0, v0, r1, v1, r2, v2, name, value, x);
      }
    }
  }

  lemma GotFirst(r0: Recs, v0: View, r1: Recs, v1: View, r2: Recs, v2: View, name: string, value: Option<seq<byte>>, x: Id)
    requires GotTag(r0, v0, r1, v1, name, value, x) && Spread(r1, v1, r2, v2, name, value) && ValuesKept(r1, r2)
    requires x in v1 && v2[x] == v1[x]
    ensures GotTag(r0, v0, r2, v2, name, value, x)
  {
    hide Marked, Value;
  }

  lemma GotSecond(r0: Recs, v0: View, r1: Recs, v1: View, r2: Recs, v2: View, name: string, value: Option<seq<byte>>, x: Id)
    requires GotTag(r1, v1, r2, v2, name, value, x) && r0.Keys <= r1.Keys && x in v0 && v1[x] == v0[x]
    ensures GotTag(r0, v0, r2, v2, name, value, x)
  {
  }

  lemma ClosedTwice(v: View, m0: set<Id>, m1: set<Id>, m2: set<Id>)
    requires Closed(v, m0, m1) && Closed(v, m1, m2) && m1 <= m2
    ensures Closed(v, m0, m2)
  {
  }

  lemma ReachedTwice(v: View, m0: set<Id>, m1: set<Id>, m2: set<Id>, d: Id)
    requires AllReached(v, m0, m1, d) && AllReached(v, m1, m2, d) && m0 <= m1
    ensures AllReached(v, m0, m2, d)
  {
  }

  /** What is reached from an unmarked child is reached from the directory. */
  lemma ReachedThrough(v: View, m0: set<Id>, m1: set<Id>, d: Id, c: Id)
    requires Child(v, d, c) && c !in m0 && AllReached(v, m0 + {c}, m1, c)
    ensures AllReached(v, m0, m1, d)
  {
    hide Child;
    forall x | x in m1 && x !in m0 ensures Reached(v, m0, d, x) {
      if x == c {
        assert WhitePath(v, m0, [d, c]);
      } else {
        var p :| WhitePath(v, m0 + {c}, p) && p[0] == c && p[|p| - 1] == x && |p| > 1;
        var q := [d] + p;
        assert forall i :: 0 <= i < |q| - 1 ==> q[i + 1] == p[i];
        assert forall i :: 0 < i < |q| - 1 ==> q[i] == p[i - 1];
        assert WhitePath(v, m0, q);
      }
    }
  }

  /** Everything a walk of directory `d` promises. */
  ghost predicate Walked(r0: Recs, v0: View, r1: Recs, v1: View, name: string, value: Option<seq<byte>>, d: Id) {
    && Spread(r0, v0, r1, v1, name, value) && ValuesKept(r0, r1) && r0.Keys <= r1.Keys
    && Closed(v0, Marked(r0, v0, name), Marked(r1, v1, name))
    && AllReached(v0, Marked(r0, v0, name), Marked(r1, v1, name), d)
  }

  lemma WalkedNone(r: Recs, v: View, name: string, value: Option<seq<byte>>, d: Id)
    ensures Walked(r, v, r, v, name, value, d)
  {
  }

  lemma WalkedTwice(r0: Recs, v0: View, r1: Recs, v1: View, r2: Recs, v2: View, name: string, value: Option<seq<byte>>, d: Id)
    requires Walked(r0, v0, r1, v1, name, value, d) && Walked(r1, v1, r2, v2, name, value, d)
    ensures Walked(r0, v0, r2, v2, name, value, d)
  {
    hide Marked, GotTag, Reached, Closed, ValuesKept, AllReached;
    var m0, m1, m2 := Marked(r0, v0, name), Marked(r1, v1, name), Marked(r2, v2, name);
    SameGraph(r0, v0, r1, v1, name, value);
    SpreadTwice(r0, v0, r1, v1, r2, v2, name, value);
    ClosedSame(v0, v1, m1, m2, d);
    ClosedTwice(v0, m0, m1, m2);
    ReachedTwice(v0, m0, m1, m2, d);
    KeptTwice(r0, r1, r2);
  }

  lemma ClosedSame(v0: View, v1: View, m1: set<Id>, m2: set<Id>, d: Id)
    requires forall d, c :: Child(v1, d, c) <==> Child(v0, d, c)
    requires Closed(v1, m1, m2) && AllReached(v1, m1, m2, d)
    ensures Closed(v0, m1, m2) && AllReached(v0, m1, m2, d)
  {
  }

  // ----- one more tag -----

  /** `parent` is the tag of this name in directory `d`. */
  ghost predicate ParentTag(recs: Recs, v: View, d: Id, parent: Id, name: string) {
    IsDir(v, d) && IsTag(recs, parent) && parent in v[d].tags && recs[parent].tag.name == name
  }

  ghost predicate TagsThere(recs: Recs, v: View) {
    forall d :: d in v && IsDir(v, d) ==> forall k :: 0 <= k < |v[d].tags| ==> IsTag(recs, v[d].tags[k])
  }

  /** What AddTag did to directory `c`. */
  ghost predicate Added(r0: Recs, v0: View, r1: Recs, v1: View, c: Id, t: Id, parent: Id, name: string) {
    && IsDir(v0, c) && v1 == v0[c := v0[c].(tags := v0[c].tags + [t])]
    && t !in r0 && IsTag(r1, t) && r1[t].tag.name == name && r1[t].tag.parent == parent
    && Value(r1, t) == Value(r0, parent) && ValuesKept(r0, r1) && r0.Keys <= r1.Keys
  }

  lemma AddedMarks(r0: Recs, v0: View, r1: Recs, v1: View, c: Id, t: Id, parent: Id, name: string)
    requires Added(r0, v0, r1, v1, c, t, parent, name) && TagsThere(r0, v0)
    ensures Marked(r1, v1, name) == Marked(r0, v0, name) + {c}
  {
    hide Value;
    forall d | d in v0 ensures d in Marked(r1, v1, name) <==> d in Marked(r0, v0, name) || d == c {
      if d == c {
        assert v1[c].tags[|v0[c].tags|] == t;
      } else if IsDir(v0, d) {
        SameNames(r0, r1, v0[d].tags, name);
      }
    }
  }

  lemma SameNames(r0: Recs, r1: Recs, tags: seq<Id>, name: string)
    requires ValuesKept(r0, r1) && forall k :: 0 <= k < |tags| ==> IsTag(r0, tags[k])
    ensures HasName(r1, tags, name) <==> HasName(r0, tags, name)
  {
  }

  lemma AddedSpread(r0: Recs, v0: View, r1: Recs, v1: View, d: Id, c: Id, t: Id, parent: Id, name: string)
    requires Added(r0, v0, r1, v1, c, t, parent, name) && TagsThere(r0, v0) && c !in Marked(r0, v0, name)
    requires ParentTag(r0, v0, d, parent, name) && v0[c].parent == d
    ensures Spread(r0, v0, r1, v1, name, Value(r0, parent))
    ensures ParentTag(r1, v1, c, t, name) && Value(r1, t) == Value(r0, parent)
  {
    hide Marked, Value;
    AddedMarks(r0, v0, r1, v1, c, t, parent, name);
    assert v1[c].tags[|v1[c].tags| - 1] == t;
    assert GotTag(r0, v0, r1, v1, name, Value(r0, parent), c);
  }

  /** Adding the tag to an unmarked child, then walking the child. */
  lemma WalkedChild(r0: Recs, v0: View, r1: Recs, v1: View, r2: Recs, v2: View, d: Id, c: Id, t: Id, parent: Id, name: string)
    requires Added(r0, v0, r1, v1, c, t, parent, name) && TagsThere(r0, v0) && c !in Marked(r0, v0, name)
    requires ParentTag(r0, v0, d, parent, name) && v0[c].parent == d && Child(v0, d, c)
    requires Walked(r1, v1, r2, v2, name, Value(r0, parent), c)
    requires forall x :: Child(v1, c, x) ==> x in Marked(r2, v2, name)
    ensures Walked(r0, v0, r2, v2, name, Value(r0, parent), d) && c in Marked(r2, v2, name)
  {
    hide Marked, Value, GotTag, Reached, AllReached, ValuesKept, ParentTag, Child, TagsThere;
    var m0, m1, m2 := Marked(r0, v0, name), Marked(r1, v1, name), Marked(r2, v2, name);
    AddedMarks(r0, v0, r1, v1, c, t, parent, name);
    AddedSpread(r0, v0, r1, v1, d, c, t, parent, name);
    SameGraph(r0, v0, r1, v1, name, Value(r0, parent));
    SpreadTwice(r0, v0, r1, v1, r2, v2, name, Value(r0, parent));
    ClosedSame(v0, v1, m1, m2, c);
    ReachedThrough(v0, m0, m2, d, c);
    KeptTwice(r0, r1, r2);
  }

  lemma UnmarkedFewer(r0: Recs, v0: View, r1: Recs, v1: View, name: string, value: Option<seq<byte>>)
    requires Spread(r0, v0, r1, v1, name, value)
    ensures |Unmarked(r1, v1, name)| <= |Unmarked(r0, v0, name)|
    ensures (exists c :: c in Marked(r1, v1, name) && c !in Marked(r0, v0, name)) ==> |Unmarked(r1, v1, name)| < |Unmarked(r0, v0, name)|
  {
    hide GotTag, Marked, Unmarked;
    var u0, u1 := Unmarked(r0, v0, name), Unmarked(r1, v1, name);
    SameGraph(r0, v0, r1, v1, name, value);
    NotMarked(r0, v0, name);
    NotMarked(r1, v1, name);
    Subset(u1, u0);
    if c :| c in Marked(r1, v1, name) && c !in Marked(r0, v0, name) {
      assert c in u0 && c !in u1;
      Subset(u1, u0 - {c});
    }
  }

  lemma NotMarked(r: Recs, v: View, name: string)
    ensures forall d :: d in Unmarked(r, v, name) <==> IsDir(v, d) && d !in Marked(r, v, name)
    ensures forall d :: d in Marked(r, v, name) ==> IsDir(v, d)
  {
  }

  lemma Subset(a: set<Id>, b: set<Id>)
    requires a <= b
    ensures |a| <= |b|
  {
    if a != {} {
      var x :| x in a;
      Subset(a - {x}, b - {x});
    }
  }

  // ----- the walk -----

  lemma TagsStored(w: World, lay: Layout)
    requires Settled(w, lay)
    ensures TagsThere(w.recs, ViewOf(w, lay))
  {
    hide DirOk, Partition, Entries, TagsOk;
    forall d | d in w.shapes && w.shapes[d].DirShaped? ensures NamesOk(w.recs, w.shapes[d].tags) {
      assert ShapeOk(w.recs, lay, d, w.shapes[d]);
    }
  }

  lemma ListNames(w: World, lay: Layout, d: Id)
    requires Settled(w, lay) && IsDir(ViewOf(w, lay), d)
    ensures var list := Listing(w.recs, DirAt(w, d));
            && (forall k :: 0 <= k < |list| ==> IsEntry(ViewOf(w, lay), d, list[k].name) && EntryOf(ViewOf(w, lay), d, list[k].name) == list[k])
            && forall name :: IsEntry(ViewOf(w, lay), d, name) ==> EntryOf(ViewOf(w, lay), d, name) in list
  {
    hide ShapeOk, Partition, NodeOf, DirOk, Listing, Entries;
    DirKnown(w, lay, d);
    ListingComplete(w.recs, lay, d, DirAt(w, d));
  }

  /** No tag with the kept characters of `name` was found: none has the name. */
  lemma NotNamed(recs: Recs, tags: seq<Id>, name: string)
    requires forall k :: 0 <= k < |tags| ==> IsTag(recs, tags[k]) && Cut(recs[tags[k]].tag.name) != Cut(name)
    ensures !HasName(recs, tags, name) && !HasName(recs, tags, Cut(name))
  {
  }

  lemma Named(recs: Recs, tags: seq<Id>, name: string, k: nat)
    requires NamesOk(recs, tags) && k < |tags| && Cut(recs[tags[k]].tag.name) == Cut(name) && |name| <= TAG_NAME
    ensures HasName(recs, tags, name)
  {
  }

  /** md2TagPropagateRec, called for one entry of directory `d`: a directory without the tag gets it, and is walked. */
  method Visit(fs: FileSystem, d: Id, item: Item, parent: Id, name: string)
    requires Valid(fs) && IsEntry(fs.View(), d, item.name) && EntryOf(fs.View(), d, item.name) == item
    requires ParentTag(fs.db.recs, fs.View(), d, parent, name) && |name| <= TAG_NAME
    modifies fs, fs.db
    ensures Valid(fs)
    ensures Walked(old(fs.db.recs), old(fs.View()), fs.db.recs, fs.View(), name, Value(old(fs.db.recs), parent), d)
    ensures Child(old(fs.View()), d, item.id) ==> item.id in Marked(fs.db.recs, fs.View(), name)
    decreases |Unmarked(fs.db.recs, fs.View(), name)|, 0
  {
    hide ShapesOk, Partition, TagInv, ViewOf, Value, ValuesKept, Walked, Marked, Unmarked, DirOk, TagsOk, Entries, HasName;
    ghost var v0, r0: Recs := fs.View(), fs.db.recs;
    WalkedNone(r0, v0, name, Value(r0, parent), d);
    DirKnown(fs.W(), fs.db.lay, item.id);
    var rec := fs.db.Get(item.id);
    if rec.None? || !rec.value.DirRec? { return; }
    KnownDir(r0, fs.db.lay, item.id, DirAt(fs.W(), item.id), TagsAt(fs.W(), item.id));
    ghost var tags := TagsAt(fs.W(), item.id);
    var found, k := FindTag(fs.db, item.id, name, tags);
    TagListStored(fs.W(), fs.db.lay, item.id);
    MarkedBy(fs.W(), fs.db.lay, item.id, name, found.Ok?, k);
    if found.Ok? { return; }
    ChildEntry(v0, d, item);
    CutShort(name);
    var t := AddTag(fs, item.id, parent, name);
    ghost var v1, r1: Recs := fs.View(), fs.db.recs;
    TagsStored(World(r0, old(fs.shapes), old(fs.owner)), fs.db.lay);
    AddedNow(r0, v0, r1, v1, d, item.id, t.value, parent, name);
    UnmarkedFewer(r0, v0, r1, v1, name, Value(r0, parent));
    TreeSame(v0, item.id, v1[item.id]);
    Walk(fs, item.id, t.value, name);
    WalkedChild(r0, v0, r1, v1, fs.db.recs, fs.View(), d, item.id, t.value, parent, name);
  }

  lemma CutShort(name: string)
    requires |name| <= TAG_NAME
    ensures Cut(name) == name
  {
  }

  lemma ChildEntry(v: View, d: Id, item: Item)
    requires TreeOk(v) && IsEntry(v, d, item.name) && EntryOf(v, d, item.name) == item && IsDir(v, item.id)
    ensures Child(v, d, item.id) && v[item.id].parent == d
  {
  }

  lemma AddedNow(r0: Recs, v0: View, r1: Recs, v1: View, d: Id, c: Id, t: Id, parent: Id, name: string)
    requires Added(r0, v0, r1, v1, c, t, parent, name) && TagsThere(r0, v0) && c !in Marked(r0, v0, name)
    requires ParentTag(r0, v0, d, parent, name) && v0[c].parent == d
    ensures Spread(r0, v0, r1, v1, name, Value(r0, parent)) && ParentTag(r1, v1, c, t, name) && Value(r1, t) == Value(r0, parent)
    ensures exists x :: x in Marked(r1, v1, name) && x !in Marked(r0, v0, name)
  {
    hide Marked, Value, Spread, GotTag;
    AddedSpread(r0, v0, r1, v1, d, c, t, parent, name);
    AddedMarks(r0, v0, r1, v1, c, t, parent, name);
    assert c in Marked(r1, v1, name);
  }

  lemma MarkedBy(w: World, lay: Layout, c: Id, name: string, ok: bool, k: nat)
    requires Settled(w, lay) && c in w.recs && w.recs[c].DirRec? && |name| <= TAG_NAME
    requires ok ==> k < |TagsAt(w, c)| && IsTag(w.recs, TagsAt(w, c)[k]) && Cut(w.recs[TagsAt(w, c)[k]].tag.name) == Cut(name)
    requires !ok ==> forall i :: 0 <= i < |TagsAt(w, c)| ==>
                       IsTag(w.recs, TagsAt(w, c)[i]) && Cut(w.recs[TagsAt(w, c)[i]].tag.name) != Cut(name)
    ensures IsDir(ViewOf(w, lay), c) && (c in Marked(w.recs, ViewOf(w, lay), name) <==> ok)
    ensures !ok ==> !HasName(w.recs, TagsAt(w, c), Cut(name))
  {
    hide ShapeOk, Partition, NodeOf, DirOk, TagsOk, Entries;
    DirKnown(w, lay, c);
    if ok {
      Named(w.recs, TagsAt(w, c), name, k);
    } else {
      NotNamed(w.recs, TagsAt(w, c), name);
    }
  }

  lemma TagListStored(w: World, lay: Layout, c: Id)
    requires Settled(w, lay) && c in w.recs && w.recs[c].DirRec?
    ensures forall i :: 0 <= i < |TagsAt(w, c)| ==> IsTag(w.recs, TagsAt(w, c)[i])
  {
    hide ShapeOk, Partition, NodeOf, DirOk, TagsOk, Entries;
    DirKnown(w, lay, c);
  }

  /** mdDirectoryWalk with md2TagPropagateRec for a filter.  The calls change neither rows nor blocks, so the entries
      may be collected first. */
  method Walk(fs: FileSystem, d: Id, parent: Id, name: string)
    requires Valid(fs) && ParentTag(fs.db.recs, fs.View(), d, parent, name) && |name| <= TAG_NAME
    modifies fs, fs.db
    ensures Valid(fs)
    ensures Walked(old(fs.db.recs), old(fs.View()), fs.db.recs, fs.View(), name, Value(old(fs.db.recs), parent), d)
    ensures forall c :: Child(old(fs.View()), d, c) ==> c in Marked(fs.db.recs, fs.View(), name)
    decreases |Unmarked(fs.db.recs, fs.View(), name)|, 1
  {
    hide ShapesOk, Partition, TagInv, ViewOf, Value, ValuesKept, Walked, Marked, Unmarked, DirOk, TagsOk, Entries, HasName, Listing;
    ghost var v0, r0: Recs := fs.View(), fs.db.recs;
    ghost var value := Value(r0, parent);
    WalkedNone(r0, v0, name, value, d);
    DirKnown(fs.W(), fs.db.lay, d);
    ListNames(fs.W(), fs.db.lay, d);
    var list := ScanDirectory(fs.db, d, DirAt(fs.W(), d));
    var items := list.value;
    var i: nat := 0;
    while i < |items|
      invariant i <= |items| && Valid(fs)
      invariant Walked(r0, v0, fs.db.recs, fs.View(), name, value, d)
      invariant ParentTag(fs.db.recs, fs.View(), d, parent, name) && Value(fs.db.recs, parent) == value
      invariant forall k :: 0 <= k < i && Child(v0, d, items[k].id) ==> items[k].id in Marked(fs.db.recs, fs.View(), name)
    {
      ghost var v1, r1: Recs := fs.View(), fs.db.recs;
      WalkedStep(r0, v0, r1, v1, name, value, d, parent, items[i]);
      Visit(fs, d, items[i], parent, name);
      WalkedTwice(r0, v0, r1, v1, fs.db.recs, fs.View(), name, value, d);
      WalkedParent(r1, v1, fs.db.recs, fs.View(), name, value, d, parent);
      i := i + 1;
    }
  }

  lemma WalkedStep(r0: Recs, v0: View, r1: Recs, v1: View, name: string, value: Option<seq<byte>>, d: Id, parent: Id, item: Item)
    requires Walked(r0, v0, r1, v1, name, value, d)
    ensures |Unmarked(r1, v1, name)| <= |Unmarked(r0, v0, name)|
    ensures IsEntry(v0, d, item.name) && EntryOf(v0, d, item.name) == item ==>
              IsEntry(v1, d, item.name) && EntryOf(v1, d, item.name) == item
    ensures Child(v1, d, item.id) <==> Child(v0, d, item.id)
  {
    hide Marked, Unmarked, GotTag, Closed, AllReached, ValuesKept;
    SameGraph(r0, v0, r1, v1, name, value);
    UnmarkedFewer(r0, v0, r1, v1, name, value);
  }

  lemma WalkedParent(r1: Recs, v1: View, r2: Recs, v2: View, name: string, value: Option<seq<byte>>, d: Id, parent: Id)
    requires Walked(r1, v1, r2, v2, name, value, d) && ParentTag(r1, v1, d, parent, name)
    ensures ParentTag(r2, v2, d, parent, name) && Value(r2, parent) == Value(r1, parent)
    ensures Marked(r1, v1, name) <= Marked(r2, v2, name)
  {
    hide Marked, Value, Closed, AllReached;
  }

  // ----- the whole propagation -----

  /** On a closed set every unmarked directory of a white path gets marked. */
  lemma {:induction false} WhiteMarked(v: View, m0: set<Id>, m1: set<Id>, p: seq<Id>, k: nat)
    requires WhitePath(v, m0, p) && 0 < k < |p| && Closed(v, m0, m1)
    requires forall c :: Child(v, p[0], c) ==> c in m1
    ensures p[k] in m1
  {
    hide Child;
    assert Child(v, p[k - 1], p[k - 1 + 1]);
    if k > 1 {
      WhiteMarked(v, m0, m1, p, k - 1);
    }
  }

  /** The newly marked directories are exactly those reached without crossing one that already had the tag. */
  lemma ExactlyReached(r0: Recs, v0: View, r1: Recs, v1: View, name: string, value: Option<seq<byte>>, d: Id, x: Id)
    requires Walked(r0, v0, r1, v1, name, value, d)
    requires forall c :: Child(v0, d, c) ==> c in Marked(r1, v1, name)
    ensures x in Marked(r1, v1, name) && x !in Marked(r0, v0, name) <==> Reached(v0, Marked(r0, v0, name), d, x)
  {
    hide Marked, Spread, Child, ValuesKept;
    var m0, m1 := Marked(r0, v0, name), Marked(r1, v1, name);
    if Reached(v0, m0, d, x) {
      var p :| WhitePath(v0, m0, p) && p[0] == d && p[|p| - 1] == x && |p| > 1;
      WhiteMarked(v0, m0, m1, p, |p| - 1);
    }
  }

  lemma TagInList(recs: Recs, lay: Layout, a: Id, dir: DirShape, tags: seq<Id>, id: Id)
    requires DirShapeOk(recs, lay, a, dir, tags) && id in Foot(a, DirShaped(dir, tags)) && IsTag(recs, id)
    ensures id in tags && recs[id].tag.base == a && a != NULL && |recs[id].tag.name| <= TAG_NAME
  {
    hide DirCore, DirIds;
    DirIdsStored(recs, lay, a, dir);
    var k :| 0 <= k < |tags| && tags[k] == id;
  }

  lemma TagHome(w: World, lay: Layout, id: Id)
    requires Settled(w, lay) && IsTag(w.recs, id)
    ensures ParentTag(w.recs, ViewOf(w, lay), w.recs[id].tag.base, id, w.recs[id].tag.name)
    ensures w.recs[id].tag.base != NULL && |w.recs[id].tag.name| <= TAG_NAME
  {
    hide DirOk, TagsOk, NamesOk, Entries, Foot;
    var a := w.owner[id];
    assert id in FootOf(w, a) && ShapeOk(w.recs, lay, a, w.shapes[a]);
    TagFoot(w.recs, lay, a, w.shapes[a], id);
    TagInList(w.recs, lay, a, w.shapes[a].dir, w.shapes[a].tags, id);
  }

  /** md2TagPropagateLow: exactly the directories reached from the tag's directory without crossing one that has a
      tag of this name get an inherited tag at the end of their list; its parent is the tag of that name in the
      directory that contains them, and all are worth what the source is worth.  Every tag there was keeps its
      value, and nothing else changes. */
  method PropagateTag(fs: FileSystem, id: Id) returns (r: Result<()>)
    requires Valid(fs) && (id in fs.db.recs ==> IsTag(fs.db.recs, id))
    modifies fs, fs.db
    ensures Valid(fs) && ValuesKept(old(fs.db.recs), fs.db.recs)
    ensures r == if id in old(fs.db.recs) then Ok(()) else Err(NotFound)
    ensures r.Err? ==> fs.W() == old(fs.W())
    ensures r.Ok? ==>
      var name, base := old(fs.db.recs)[id].tag.name, old(fs.db.recs)[id].tag.base;
      && Spread(old(fs.db.recs), old(fs.View()), fs.db.recs, fs.View(), name, Value(old(fs.db.recs), id))
      && forall x :: x in Marked(fs.db.recs, fs.View(), name) && x !in Marked(old(fs.db.recs), old(fs.View()), name) <==>
                     Reached(old(fs.View()), Marked(old(fs.db.recs), old(fs.View()), name), base, x)
  {
    hide ShapesOk, Partition, TagInv, ViewOf, Value, ValuesKept, Spread, Closed, AllReached, Marked, Unmarked, Reached, TreeOk;
    ghost var v0, r0: Recs := fs.View(), fs.db.recs;
    KeptNone(r0);
    var tag := fs.db.Get(id);
    if tag.None? { return Err(NotFound); }
    TagHome(fs.W(), fs.db.lay, id);
    if tag.value.tag.base == NULL { return Err(NotFound); }
    var base, name := tag.value.tag.base, tag.value.tag.name;
    Walk(fs, base, id, name);
    forall x ensures x in Marked(fs.db.recs, fs.View(), name) && x !in Marked(r0, v0, name) <==> Reached(v0, Marked(r0, v0, name), base, x) {
      ExactlyReached(r0, v0, fs.db.recs, fs.View(), name, Value(r0, id), base, x);
    }
    r := Ok(());
  }
}
