/** A dump of a file system: the walk over what its directories read as. */
module DumpTree {
  import opened Records
  import opened TagShapes
  import opened Worlds
  import opened Namespace
  import opened FileSystems
  import opened FsDirs
  import opened DirScan
  import opened Readdir
  import opened FsReaddir
  import CacheLists
  import opened DumpCache
  import opened DumpWalk
  import opened DumpServer
  import opened Trees

  /** What the directories of the store read as. */
  ghost predicate Listed(w: World, listing: map<Id, seq<Item>>) {
    && (forall d :: d in listing <==> d in w.recs && w.recs[d].DirRec?)
    && forall d :: d in listing ==> listing[d] == StreamOf(w, d)
  }

  /** No re-open of a directory falls back (ReadBatches). */
  ghost predicate AllSteady(w: World, lay: Layout, batch: nat)
    requires batch > 0
  {
    forall d :: d in w.recs && w.recs[d].DirRec? ==> Steady(w.recs, lay, DirAt(w, d), batch, |StreamOf(w, d)|)
  }

  /** The directory iterator of the dumper, which reads ahead in batches, on every directory. */
  method ReadListings(fs: FileSystem, batch: nat) returns (listing: map<Id, seq<Item>>)
    requires fs.Sound() && batch > 0 && SmallTables(fs.db.lay) && AllSteady(fs.W(), fs.db.lay, batch)
    ensures Listed(fs.W(), listing)
  {
    hide Settled, Steady, ViewOf, ReadsAs, Stream;
    listing := map[];
    var h := new DirHandle();
    var todo := fs.db.recs.Keys;
    while todo != {}
      invariant todo <= fs.db.recs.Keys
      invariant forall d :: d in listing <==> d in fs.db.recs && fs.db.recs[d].DirRec? && d !in todo
      invariant forall d :: d in listing ==> listing[d] == StreamOf(fs.W(), d)
      decreases |todo|
    {
      var d :| d in todo;
      todo := todo - {d};
      var r := ReadDirectory(fs, h, d, batch);
      if r.Ok? { listing := listing[d := r.value]; }
    }
  }

  // ----- the directories of a dump -----

  /** What the directories read as, from one of them on, is the finite tree `t`. */
  ghost predicate TreeOver(w: World, t: Tree) {
    && t.id in w.recs && w.recs[t.id].DirRec? && |t.kids| == |StreamOf(w, t.id)|
    && forall k :: 0 <= k < |t.kids| && Goes(w.recs, StreamOf(w, t.id)[k]) ==>
         t.kids[k].Some? && t.kids[k].value.id == StreamOf(w, t.id)[k].id && TreeOver(w, t.kids[k].value)
  }

  ghost predicate InTree(w: World, t: Tree, x: Id)
    requires TreeOver(w, t)
  {
    x == t.id ||
    exists k :: 0 <= k < |t.kids| && Goes(w.recs, StreamOf(w, t.id)[k]) && InTree(w, t.kids[k].value, x)
  }

  /** Directory `c` has an entry in directory `d` that the dumper follows. */
  ghost predicate Sub(v: View, d: Id, c: Id) {
    c in v && v[c].DirNode? && exists name :: IsEntry(v, d, name) && Followed(EntryOf(v, d, name)) && EntryOf(v, d, name).id == c
  }

  ghost predicate SubPath(v: View, p: seq<Id>) {
    p != [] && forall i :: 0 <= i < |p| - 1 ==> Sub(v, p[i], p[i + 1])
  }

  ghost predicate Beneath(v: View, d: Id, x: Id) {
    exists p :: SubPath(v, p) && p[0] == d && p[|p| - 1] == x
  }

  /** The items followed are the entries that lead to directories. */
  lemma Follows(w: World, lay: Layout, d: Id, c: Id)
    requires Settled(w, lay) && d in w.recs && w.recs[d].DirRec?
    ensures Sub(ViewOf(w, lay), d, c) <==>
              exists k :: 0 <= k < |StreamOf(w, d)| && Goes(w.recs, StreamOf(w, d)[k]) && StreamOf(w, d)[k].id == c
  {
    hide ShapesOk, Partition, ViewOf, StreamOf;
    var v, list := ViewOf(w, lay), StreamOf(w, d);
    StreamReads(w, lay, d);
    InodeThere(w, lay, c);
    if Sub(v, d, c) {
      var name :| IsEntry(v, d, name) && Followed(EntryOf(v, d, name)) && EntryOf(v, d, name).id == c;
      var k :| 2 <= k < |list| && list[k] == v[d].entries[name];
      assert Goes(w.recs, list[k]);
    }
    if k :| 0 <= k < |list| && Goes(w.recs, list[k]) && list[k].id == c {
      assert IsEntry(v, d, list[k].name);
    }
  }

  lemma {:induction false} TreeDown(w: World, lay: Layout, t: Tree, x: Id)
    requires Settled(w, lay) && TreeOver(w, t) && InTree(w, t, x)
    ensures Beneath(ViewOf(w, lay), t.id, x)
  {
    hide ShapesOk, Partition, ViewOf, StreamOf, Sub;
    var v, list := ViewOf(w, lay), StreamOf(w, t.id);
    if x == t.id {
      assert SubPath(v, [x]);
    } else {
      var k :| 0 <= k < |t.kids| && Goes(w.recs, list[k]) && InTree(w, t.kids[k].value, x);
      TreeDown(w, lay, t.kids[k].value, x);
      Follows(w, lay, t.id, list[k].id);
      var p :| SubPath(v, p) && p[0] == list[k].id && p[|p| - 1] == x;
      assert SubPath(v, [t.id] + p);
    }
  }

  lemma {:induction false} TreeUp(w: World, lay: Layout, t: Tree, p: seq<Id>)
    requires Settled(w, lay) && TreeOver(w, t) && SubPath(ViewOf(w, lay), p) && p[0] == t.id
    ensures InTree(w, t, p[|p| - 1])
  {
    hide ShapesOk, Partition, ViewOf, StreamOf, Sub;
    if |p| > 1 {
      var v, list := ViewOf(w, lay), StreamOf(w, t.id);
      Follows(w, lay, t.id, p[1]);
      var k :| 0 <= k < |list| && Goes(w.recs, list[k]) && list[k].id == p[1];
      assert SubPath(v, p[1..]);
      TreeUp(w, lay, t.kids[k].value, p[1..]);
    }
  }

  /** The tree has exactly the directories its root leads to. */
  lemma TreeReaches(w: World, lay: Layout, t: Tree, x: Id)
    requires Settled(w, lay) && TreeOver(w, t)
    ensures InTree(w, t, x) <==> Beneath(ViewOf(w, lay), t.id, x)
  {
    hide ShapesOk, Partition, ViewOf, StreamOf, InTree, TreeOver, Sub;
    if InTree(w, t, x) { TreeDown(w, lay, t, x); }
    if Beneath(ViewOf(w, lay), t.id, x) {
      var p :| SubPath(ViewOf(w, lay), p) && p[0] == t.id && p[|p| - 1] == x;
      TreeUp(w, lay, t, p);
    }
  }

  // ----- a forest has finite trees -----

  ghost predicate Depth(v: View, n: Id, k: nat)
    decreases k
  {
    n in v && if v[n].parent == ROOT then k == 0 else k > 0 && Depth(v, v[n].parent, k - 1)
  }

  lemma {:induction false} RootedUp(v: View, n: Id, k: nat, more: nat)
    requires RootedIn(v, n, k)
    ensures RootedIn(v, n, k + more)
    decreases k
  {
    if v[n].parent != ROOT { RootedUp(v, v[n].parent, k - 1, more); }
  }

  /** One number of steps is enough for all inodes. */
  lemma {:induction false} Deepest(v: View, some: set<Id>) returns (most: nat)
    requires Forest(v) && some <= v.Keys
    ensures forall n :: n in some ==> RootedIn(v, n, most)
    decreases |some|
  {
    most := 0;
    if some != {} {
      var n :| n in some;
      assert Rooted(v, n);
      var k: nat :| RootedIn(v, n, k);
      var rest := Deepest(v, some - {n});
      most := k + rest;
      forall x | x in some ensures RootedIn(v, x, most) {
        if x == n { RootedUp(v, n, k, rest); } else { RootedUp(v, x, rest, k); }
      }
    }
  }

  lemma {:induction false} HasDepth(v: View, n: Id, most: nat) returns (k: nat)
    requires RootedIn(v, n, most)
    ensures k <= most && Depth(v, n, k)
    decreases most
  {
    k := 0;
    if v[n].parent != ROOT {
      var above := HasDepth(v, v[n].parent, most - 1);
      k := above + 1;
    }
  }

  lemma {:induction false} DepthBound(v: View, n: Id, k: nat, most: nat)
    requires Depth(v, n, k) && RootedIn(v, n, most)
    ensures k <= most
    decreases k
  {
    if v[n].parent != ROOT { DepthBound(v, v[n].parent, k - 1, most - 1); }
  }

  lemma ChildDepth(v: View, d: Id, c: Id, k: nat)
    requires TreeOk(v) && ROOT !in v && Depth(v, d, k) && Sub(v, d, c)
    ensures Depth(v, c, k + 1)
  {
  }

  lemma {:induction false} TreeFrom(w: World, lay: Layout, d: Id, k: nat, most: nat) returns (t: Tree)
    requires Settled(w, lay) && TreeOk(ViewOf(w, lay)) && ROOT !in ViewOf(w, lay)
    requires forall n :: n in ViewOf(w, lay) ==> RootedIn(ViewOf(w, lay), n, most)
    requires d in w.recs && w.recs[d].DirRec? && Depth(ViewOf(w, lay), d, k) && k <= most
    ensures TreeOver(w, t) && t.id == d
    decreases most - k
  {
    hide ShapesOk, Partition, ViewOf, StreamOf, Sub, TreeOk;
    var v, list := ViewOf(w, lay), StreamOf(w, d);
    var kids: seq<Option<Tree>> := [];
    while |kids| < |list|
      invariant |kids| <= |list|
      invariant forall i :: 0 <= i < |kids| && Goes(w.recs, list[i]) ==>
                  kids[i].Some? && kids[i].value.id == list[i].id && TreeOver(w, kids[i].value)
    {
      var item := list[|kids|];
      if Goes(w.recs, item) {
        Follows(w, lay, d, item.id);
        ChildDepth(v, d, item.id, k);
        InodeThere(w, lay, item.id);
        DepthBound(v, item.id, k + 1, most);
        var kid := TreeFrom(w, lay, item.id, k + 1, most);
        kids := kids + [Some(kid)];
      } else {
        kids := kids + [None];
      }
    }
    t := Tree(d, kids);
  }

  /** Where the directories form a forest, as they do after every run of orderly operations without a looping rename,
      what is below a directory is a finite tree. */
  lemma TreeExists(w: World, lay: Layout, top: Id) returns (t: Tree)
    requires Settled(w, lay) && TreeOk(ViewOf(w, lay)) && ROOT !in ViewOf(w, lay) && Forest(ViewOf(w, lay))
    requires top in w.recs && w.recs[top].DirRec?
    ensures TreeOver(w, t) && t.id == top
  {
    hide ShapesOk, Partition, ViewOf, StreamOf, TreeOk, TreeOver;
    InodeThere(w, lay, top);
    var most := Deepest(ViewOf(w, lay), ViewOf(w, lay).Keys);
    var k := HasDepth(ViewOf(w, lay), top, most);
    t := TreeFrom(w, lay, top, k, most);
  }

  // ----- what is dumped -----

  /** The walker is set up for this store. */
  ghost predicate SetUp(walker: Walker, w: World) {
    walker.cache.recs == w.recs && Listed(w, walker.listing)
  }

  lemma {:induction false} SpansOver(walker: Walker, w: World, t: Tree)
    requires SetUp(walker, w)
    ensures walker.Spans(t) <==> TreeOver(w, t)
  {
    hide StreamOf;
    forall k | 0 <= k < |t.kids| && t.kids[k].Some? ensures walker.Spans(t.kids[k].value) <==> TreeOver(w, t.kids[k].value) {
      SpansOver(walker, w, t.kids[k].value);
    }
  }

  ghost predicate Begun(es: seq<Event>, x: Id) {
    exists k :: 0 <= k < |es| && es[k].BeginDir? && es[k].id == x
  }

  lemma BegunSnoc(es: seq<Event>, e: Event, x: Id)
    ensures Begun(es + [e], x) <==> Begun(es, x) || (e.BeginDir? && e.id == x)
  {
    if Begun(es, x) {
      var k :| 0 <= k < |es| && es[k].BeginDir? && es[k].id == x;
      assert (es + [e])[k] == es[k];
    }
    assert (es + [e])[|es|] == e;
  }

  /** A serialiser that takes everything. */
  ghost predicate Takes(walker: Walker) {
    forall es :: walker.ser(es) == SerOk
  }

  lemma {:induction false} TagsBegun(walker: Walker, es: seq<Event>, dir: Id, ids: seq<Id>, x: Id)
    requires walker.Database() && walker.AllTags(ids)
    ensures Begun(walker.TagsWalked(es, dir, ids), x) <==> Begun(es, x)
  {
    hide Begun;
    if ids != [] {
      var l := |ids| - 1;
      TagsBegun(walker, es, dir, ids[..l], x);
      var e := walker.Entry(dir, ids[l]);
      var before := walker.TagsWalked(es, dir, ids[..l]);
      if e.Some? { BegunSnoc(before, NewTag(dir, e.value), x); } else { assert before + [] == before; }
    }
  }

  lemma OtherBegun(walker: Walker, es: seq<Event>, dir: Id, item: Item, x: Id)
    ensures Begun(walker.OtherWalked(es, dir, item), x) <==> Begun(es, x)
  {
    hide Begun;
    BegunSnoc(es, BeginFile(dir, item.id, item.name), x);
    BegunSnoc(es + [BeginFile(dir, item.id, item.name)], EndFile(dir, item.id, item.name), x);
    BegunSnoc(es, NewLink(dir, item.id, item.name), x);
  }

  /** `x` is in the tree of one of the first `n` items. */
  ghost predicate Within(w: World, t: Tree, n: nat, x: Id)
    requires TreeOver(w, t) && n <= |t.kids|
  {
    exists k :: 0 <= k < n && Goes(w.recs, StreamOf(w, t.id)[k]) && InTree(w, t.kids[k].value, x)
  }

  lemma WithinStep(w: World, t: Tree, n: nat, x: Id)
    requires TreeOver(w, t) && 0 < n <= |t.kids|
    ensures Within(w, t, n, x) <==>
              Within(w, t, n - 1, x) || (Goes(w.recs, StreamOf(w, t.id)[n - 1]) && InTree(w, t.kids[n - 1].value, x))
  {
    hide StreamOf, InTree;
  }

  /** Of the first `n` items of a directory the walk has begun the directories and all that is in them. */
  lemma {:induction false} ItemsBegun(walker: Walker, w: World, es: seq<Event>, t: Tree, n: nat, x: Id)
    requires walker.Database() && SetUp(walker, w) && Takes(walker) && walker.Spans(t) && TreeOver(w, t) && n <= |t.kids|
    ensures Begun(walker.ItemsWalked(es, t, n), x) <==>
              Begun(es, x) || Within(w, t, n, x)
    decreases t, 1, n
  {
    hide Begun, StreamOf, InTree, Within, TreeOver, Walker.Spans, Walker.ItemsWalked, Walker.Database, Takes, SetUp;
    ItemsStep(walker, es, t, n);
    if n > 0 {
      ItemsBegun(walker, w, es, t, n - 1, x);
      WithinStep(w, t, n, x);
      ItemBegun(walker, w, walker.ItemsWalked(es, t, n - 1), t, n - 1, x);
    } else {
      NoneWithin(w, t, x);
    }
  }

  lemma ItemsStep(walker: Walker, es: seq<Event>, t: Tree, n: nat)
    requires walker.Database() && walker.Spans(t) && n <= |t.kids|
    ensures n == 0 ==> walker.ItemsWalked(es, t, n) == es
    ensures n > 0 ==> walker.ItemsWalked(es, t, n) == ItemWalked(walker, walker.ItemsWalked(es, t, n - 1), t, n - 1)
  {
  }

  ghost function ItemWalked(walker: Walker, es: seq<Event>, t: Tree, n: nat): seq<Event>
    requires walker.Database() && walker.Spans(t) && n < |t.kids|
  {
    var item := walker.listing[t.id][n];
    if walker.Descends(item) then walker.DirWalked(es, t.id, item, t.kids[n].value) else walker.OtherWalked(es, t.id, item)
  }

  lemma NoneWithin(w: World, t: Tree, x: Id)
    requires TreeOver(w, t)
    ensures !Within(w, t, 0, x)
  {
  }

  lemma {:induction false} ItemBegun(walker: Walker, w: World, es: seq<Event>, t: Tree, n: nat, x: Id)
    requires walker.Database() && SetUp(walker, w) && Takes(walker) && walker.Spans(t) && TreeOver(w, t) && n < |t.kids|
    ensures Begun(ItemWalked(walker, es, t, n), x) <==>
              Begun(es, x) || (Goes(w.recs, StreamOf(w, t.id)[n]) && InTree(w, t.kids[n].value, x))
    decreases t, 0
  {
    hide Begun, StreamOf, InTree;
    var item := walker.listing[t.id][n];
    if walker.Descends(item) {
      DirBegun(walker, w, es, t.id, item, t.kids[n].value, x);
    } else {
      OtherBegun(walker, es, t.id, item, x);
    }
  }

  lemma {:induction false} DirBegun(walker: Walker, w: World, es: seq<Event>, parent: Id, item: Item, t: Tree, x: Id)
    requires walker.Database() && SetUp(walker, w) && Takes(walker) && walker.Spans(t) && TreeOver(w, t)
    ensures Begun(walker.DirWalked(es, parent, item, t), x) <==> Begun(es, x) || InTree(w, t, x)
    decreases t, 2
  {
    hide Begun, StreamOf;
    var e := es + [BeginDir(parent, t.id, item.name)];
    BegunSnoc(es, BeginDir(parent, t.id, item.name), x);
    ListBegun(walker, e, t.id, x);
    ItemsBegun(walker, w, walker.ListWalked(e, t.id), t, |t.kids|, x);
    BegunSnoc(walker.ItemsWalked(walker.ListWalked(e, t.id), t, |t.kids|), EndDir(parent, t.id, item.name), x);
  }

  lemma ListBegun(walker: Walker, es: seq<Event>, dir: Id, x: Id)
    requires walker.Database() && dir in walker.cache.recs && walker.cache.recs[dir].DirRec?
    ensures Begun(walker.ListWalked(es, dir), x) <==> Begun(es, x)
  {
    hide Begun;
    if walker.wantsTags {
      assert TagsOk(walker.cache.recs, dir, walker.cache.recs[dir].dir.tag, walker.cache.lists[dir]);
      TagsBegun(walker, es, dir, walker.cache.lists[dir], x);
    }
  }

  /** A dump that nothing stops begins exactly the directories that the top leads to. */
  lemma DumpComplete(walker: Walker, w: World, lay: Layout, t: Tree, x: Id)
    requires walker.Database() && SetUp(walker, w) && Takes(walker) && Settled(w, lay)
    requires TreeOver(w, t) && walker.Spans(t) && x != t.id
    ensures Begun(walker.DumpWalked(t), x) <==> Beneath(ViewOf(w, lay), t.id, x)
  {
    hide Begun, ShapesOk, Partition, ViewOf, StreamOf, Beneath;
    TreeReaches(w, lay, t, x);
    var e := [BeginDump(t.id)];
    BegunSnoc([], BeginDump(t.id), x);
    assert [] + e == e;
    NothingBegun(x);
    ListBegun(walker, e, t.id, x);
    ItemsBegun(walker, w, walker.ListWalked(e, t.id), t, |t.kids|, x);
    BegunSnoc(walker.ItemsWalked(walker.ListWalked(e, t.id), t, |t.kids|), EndDump(t.id), x);
  }

  lemma NothingBegun(x: Id)
    ensures !Begun([], x)
  {
  }

  /** A dump of a file system whose directories, as far as the top leads to them, form a finite tree. */
  method Dump(fs: FileSystem, cache: Cache, ser: seq<Event> -> Answer, wantsTags: bool, inSubtree: Id -> bool,
              top: Id, batch: nat, ghost t: Tree)
    returns (walker: Walker)
    requires fs.Sound() && batch > 0 && SmallTables(fs.db.lay) && AllSteady(fs.W(), fs.db.lay, batch)
    requires cache.Valid() && !cache.disabled && cache.log == []
    requires cache.recs == fs.db.recs && cache.lay == fs.db.lay && cache.lists == ListsOf(fs.W())
    requires top in fs.db.recs && fs.db.recs[top].DirRec? ==> TreeOver(fs.W(), t) && t.id == top
    modifies cache`log, cache.buckets
    ensures cache.Valid() && SetUp(walker, fs.W()) && walker.Database() && walker.cache == cache
    ensures walker.ser == ser && walker.wantsTags == wantsTags && walker.inSubtree == inSubtree
    ensures top !in fs.db.recs || !fs.db.recs[top].DirRec? ==> walker.events == []
    ensures top in fs.db.recs && fs.db.recs[top].DirRec? ==>
              walker.events != [] && (walker.Clean(walker.events[..|walker.events| - 1]) ==>
                && walker.Spans(t) && walker.events == walker.DumpWalked(t) && Open(walker.events) == Some([])
                && forall b :: 0 <= b < CacheLists.BUCKETS ==> cache.buckets[b] == [])
  {
    hide Settled, TreeOver, Listed, Open, AllSteady, TagsDescend, ListsOk;
    var listing := ReadListings(fs, batch);
    ServerStore(fs.W(), fs.db.lay);
    walker := new Walker(cache, ser, wantsTags, inSubtree, listing);
    SpansOver(walker, fs.W(), t);
    walker.Process(top, t);
  }
}
