/** What a dump reports, in terms of the view: every directory, file, link and tag below the top exactly once. */
module DumpEvents {
  import opened Records
  import opened FileShapes
  import opened TagShapes
  import opened TagValues
  import opened TagOps
  import opened Worlds
  import opened Namespace
  import opened FileSystems
  import opened FsDirs
  import opened FsReaddir
  import opened CacheLists
  import opened DumpCache
  import opened DumpWalk
  import opened DumpServer
  import opened DumpTree
  import opened Trees

  // ----- what one directory gives rise to -----

  /** The directory an event is reported for. */
  ghost function Home(e: Event): Id {
    match e
    case BeginDump(top) => NULL
    case EndDump(top) => NULL
    case BeginDir(parent, _, _) => parent
    case EndDir(parent, _, _) => parent
    case NewTag(dir, _) => dir
    case BeginFile(dir, _, _) => dir
    case EndFile(dir, _, _) => dir
    case NewLink(dir, _, _) => dir
  }

  ghost predicate OfItem(recs: Recs, d: Id, item: Item, e: Event) {
    && Followed(item) && item.id in recs
    && match recs[item.id]
       case DirRec(_) => e == BeginDir(d, item.id, item.name) || e == EndDir(d, item.id, item.name)
       case FileRec(_) => e == BeginFile(d, item.id, item.name) || e == EndFile(d, item.id, item.name)
       case LinkRec(_) => e == NewLink(d, item.id, item.name)
       case _ => false
  }

  ghost predicate OfTag(walker: Walker, d: Id, id: Id, e: Event)
    requires walker.Database() && IsTag(walker.cache.recs, id)
  {
    walker.Entry(d, id).Some? && e == NewTag(d, walker.Entry(d, id).value)
  }

  ghost predicate OfTags(walker: Walker, d: Id, ids: seq<Id>, e: Event)
    requires walker.Database() && walker.AllTags(ids)
  {
    exists k :: 0 <= k < |ids| && OfTag(walker, d, ids[k], e)
  }

  lemma ListTags(walker: Walker, d: Id)
    requires walker.Database() && d in walker.cache.recs && walker.cache.recs[d].DirRec?
    ensures d in walker.cache.lists && walker.AllTags(walker.cache.lists[d]) && Distinct(walker.cache.lists[d])
  {
    assert TagsOk(walker.cache.recs, d, walker.cache.recs[d].dir.tag, walker.cache.lists[d]);
  }

  /** The event belongs to directory `d` itself. */
  ghost predicate OfDir(walker: Walker, w: World, d: Id, e: Event)
    requires walker.Database() && SetUp(walker, w) && d in w.recs && w.recs[d].DirRec?
  {
    ListTags(walker, d);
    (walker.wantsTags && OfTags(walker, d, walker.cache.lists[d], e)) ||
    exists k :: 0 <= k < |StreamOf(w, d)| && OfItem(w.recs, d, StreamOf(w, d)[k], e)
  }

  /** The event belongs to a directory of the tree. */
  ghost predicate OfTree(walker: Walker, w: World, t: Tree, e: Event)
    requires walker.Database() && SetUp(walker, w) && TreeOver(w, t)
  {
    InTree(w, t, Home(e)) && Home(e) in w.recs && w.recs[Home(e)].DirRec? && OfDir(walker, w, Home(e), e)
  }

  /** The event belongs to item `k` of the root of the tree, or to what is below it. */
  ghost predicate OfKid(walker: Walker, w: World, t: Tree, k: nat, e: Event)
    requires walker.Database() && SetUp(walker, w) && TreeOver(w, t) && k < |t.kids|
  {
    OfItem(w.recs, t.id, StreamOf(w, t.id)[k], e) ||
    (Goes(w.recs, StreamOf(w, t.id)[k]) && OfTree(walker, w, t.kids[k].value, e))
  }

  ghost predicate OfKids(walker: Walker, w: World, t: Tree, n: nat, e: Event)
    requires walker.Database() && SetUp(walker, w) && TreeOver(w, t) && n <= |t.kids|
  {
    exists k :: 0 <= k < n && OfKid(walker, w, t, k, e)
  }

  // ----- no event comes from two places -----

  ghost function Up(v: View, n: Id, k: nat): Id
    decreases k
  {
    if k == 0 then n else if n in v then Up(v, v[n].parent, k - 1) else n
  }

  lemma {:induction false} UpMore(v: View, n: Id, k: nat)
    requires Up(v, n, k) in v
    ensures Up(v, n, k + 1) == v[Up(v, n, k)].parent
    decreases k
  {
    if k > 0 && n in v { UpMore(v, v[n].parent, k - 1); }
  }

  lemma {:induction false} DepthUnique(v: View, n: Id, k: nat, l: nat)
    requires Depth(v, n, k) && Depth(v, n, l)
    ensures k == l
    decreases k
  {
    if v[n].parent != ROOT { DepthUnique(v, v[n].parent, k - 1, l - 1); }
  }

  /** The depth of a directory in the tree, and the way up to the root of the tree. */
  lemma {:induction false} InTreeDepth(w: World, lay: Layout, t: Tree, x: Id, k: nat) returns (a: nat)
    requires Settled(w, lay) && TreeOk(ViewOf(w, lay)) && ROOT !in ViewOf(w, lay)
    requires TreeOver(w, t) && InTree(w, t, x) && Depth(ViewOf(w, lay), t.id, k)
    ensures Depth(ViewOf(w, lay), x, k + a) && Up(ViewOf(w, lay), x, a) == t.id
  {
    hide ShapesOk, Partition, ViewOf, StreamOf, Sub, TreeOk;
    var v, list := ViewOf(w, lay), StreamOf(w, t.id);
    if x == t.id {
      a := 0;
    } else {
      var i :| 0 <= i < |t.kids| && Goes(w.recs, list[i]) && InTree(w, t.kids[i].value, x);
      Follows(w, lay, t.id, list[i].id);
      ChildDepth(v, t.id, list[i].id, k);
      SubParent(v, t.id, list[i].id);
      var b := InTreeDepth(w, lay, t.kids[i].value, x, k + 1);
      UpMore(v, x, b);
      a := b + 1;
    }
  }

  lemma SubParent(v: View, d: Id, c: Id)
    requires TreeOk(v) && Sub(v, d, c)
    ensures c in v && v[c].parent == d
  {
  }

  /** No directory lies below two items of a directory, and none below itself. */
  lemma Apart(w: World, lay: Layout, t: Tree, i: nat, j: nat, x: Id)
    requires Settled(w, lay) && TreeOk(ViewOf(w, lay)) && ROOT !in ViewOf(w, lay) && Rooted(ViewOf(w, lay), t.id)
    requires TreeOver(w, t) && i < |t.kids| && j < |t.kids|
    requires Goes(w.recs, StreamOf(w, t.id)[i]) && InTree(w, t.kids[i].value, x)
    ensures x != t.id
    ensures Goes(w.recs, StreamOf(w, t.id)[j]) && InTree(w, t.kids[j].value, x) ==> i == j
  {
    hide ShapesOk, Partition, ViewOf, StreamOf, Sub, TreeOk, InTree;
    var v, list := ViewOf(w, lay), StreamOf(w, t.id);
    var most: nat :| RootedIn(v, t.id, most);
    var k := HasDepth(v, t.id, most);
    Follows(w, lay, t.id, list[i].id);
    ChildDepth(v, t.id, list[i].id, k);
    var a := InTreeDepth(w, lay, t.kids[i].value, x, k + 1);
    if x == t.id { DepthUnique(v, x, k, k + 1 + a); }
    if Goes(w.recs, list[j]) && InTree(w, t.kids[j].value, x) {
      Follows(w, lay, t.id, list[j].id);
      ChildDepth(v, t.id, list[j].id, k);
      var b := InTreeDepth(w, lay, t.kids[j].value, x, k + 1);
      DepthUnique(v, x, k + 1 + a, k + 1 + b);
      SameItem(w, lay, t.id, i, j);
    }
  }

  /** Items of a directory that are followed and have the same ID or the same name are the same. */
  lemma SameItem(w: World, lay: Layout, d: Id, i: nat, j: nat)
    requires Settled(w, lay) && TreeOk(ViewOf(w, lay)) && d in w.recs && w.recs[d].DirRec?
    requires i < |StreamOf(w, d)| && j < |StreamOf(w, d)| && Followed(StreamOf(w, d)[i]) && Followed(StreamOf(w, d)[j])
    requires StreamOf(w, d)[i].id == StreamOf(w, d)[j].id || StreamOf(w, d)[i].name == StreamOf(w, d)[j].name
    ensures i == j
  {
    hide ShapesOk, Partition, ViewOf, StreamOf;
    StreamReads(w, lay, d);
    var v, list := ViewOf(w, lay), StreamOf(w, d);
    assert IsEntry(v, d, list[i].name) && IsEntry(v, d, list[j].name);
  }

  /** The events of an item itself are those reported for the directory. */
  lemma HomeOfKid(walker: Walker, w: World, lay: Layout, t: Tree, i: nat, e: Event)
    requires walker.Database() && SetUp(walker, w) && TreeOver(w, t) && i < |t.kids|
    requires Settled(w, lay) && TreeOk(ViewOf(w, lay)) && ROOT !in ViewOf(w, lay) && Rooted(ViewOf(w, lay), t.id)
    requires OfKid(walker, w, t, i, e)
    ensures Home(e) == t.id <==> OfItem(w.recs, t.id, StreamOf(w, t.id)[i], e)
    ensures Home(e) != t.id ==> Goes(w.recs, StreamOf(w, t.id)[i]) && InTree(w, t.kids[i].value, Home(e))
    ensures Home(e) == t.id ==> !e.NewTag? && Followed(StreamOf(w, t.id)[i])
  {
    hide ShapesOk, Partition, ViewOf, StreamOf, InTree, OfDir, TreeOk, Rooted, SetUp, Walker.Database;
    if Goes(w.recs, StreamOf(w, t.id)[i]) && InTree(w, t.kids[i].value, Home(e)) {
      Apart(w, lay, t, i, i, Home(e));
    }
  }

  lemma ItemNames(recs: Recs, d: Id, a: Item, b: Item, e: Event)
    requires OfItem(recs, d, a, e) && OfItem(recs, d, b, e)
    ensures a.name == b.name
  {
  }

  /** The items of a directory give rise to different events. */
  lemma OneKid(walker: Walker, w: World, lay: Layout, t: Tree, i: nat, j: nat, e: Event)
    requires walker.Database() && SetUp(walker, w) && TreeOver(w, t) && i < |t.kids| && j < |t.kids|
    requires Settled(w, lay) && TreeOk(ViewOf(w, lay)) && ROOT !in ViewOf(w, lay) && Rooted(ViewOf(w, lay), t.id)
    requires OfKid(walker, w, t, i, e) && OfKid(walker, w, t, j, e)
    ensures i == j
  {
    hide ShapesOk, Partition, ViewOf, StreamOf, InTree, OfKid, OfItem, TreeOk, Rooted, SetUp, Walker.Database;
    HomeOfKid(walker, w, lay, t, i, e);
    HomeOfKid(walker, w, lay, t, j, e);
    if Home(e) == t.id {
      ItemNames(w.recs, t.id, StreamOf(w, t.id)[i], StreamOf(w, t.id)[j], e);
      SameItem(w, lay, t.id, i, j);
    } else {
      Apart(w, lay, t, i, j, Home(e));
    }
  }

  // ----- how often an event is reported -----

  /** A walker that nothing stops, on a store whose directories form trees. */
  ghost predicate Ready(walker: Walker, w: World, lay: Layout) {
    && walker.Database() && SetUp(walker, w) && Takes(walker) && Settled(w, lay)
    && TreeOk(ViewOf(w, lay)) && ROOT !in ViewOf(w, lay) && Forest(ViewOf(w, lay))
  }

  ghost function Once(b: bool): nat {
    if b then 1 else 0
  }

  ghost function Times(es: seq<Event>, e: Event): nat {
    multiset(es)[e]
  }

  lemma TimesSnoc(es: seq<Event>, x: Event, e: Event)
    ensures Times(es + [x], e) == Times(es, e) + Once(x == e)
  {
  }

  lemma TagOnce(walker: Walker, d: Id, ids: seq<Id>, e: Event)
    requires walker.Database() && walker.AllTags(ids) && Distinct(ids) && ids != []
    ensures walker.AllTags(ids[..|ids| - 1]) && Distinct(ids[..|ids| - 1])
    ensures var l := |ids| - 1;
      Once(OfTags(walker, d, ids, e)) == Once(OfTags(walker, d, ids[..l], e)) + Once(OfTag(walker, d, ids[l], e))
  {
    var l := |ids| - 1;
    if OfTags(walker, d, ids[..l], e) {
      var k :| 0 <= k < |ids[..l]| && OfTag(walker, d, ids[..l][k], e);
      assert OfTag(walker, d, ids[k], e) && e.tag.id == ids[k];
    }
    if OfTag(walker, d, ids[l], e) { assert e.tag.id == ids[l]; }
    if OfTags(walker, d, ids, e) {
      var k :| 0 <= k < |ids| && OfTag(walker, d, ids[k], e);
      assert k < l ==> OfTag(walker, d, ids[..l][k], e);
    }
  }

  lemma {:induction false} TagsTimes(walker: Walker, es: seq<Event>, d: Id, ids: seq<Id>, e: Event)
    requires walker.Database() && walker.AllTags(ids) && Distinct(ids)
    ensures Times(walker.TagsWalked(es, d, ids), e) == Times(es, e) + Once(OfTags(walker, d, ids, e))
  {
    hide Times, Distinct, Walker.Database, Walker.Entry;
    if ids != [] {
      var l := |ids| - 1;
      TagOnce(walker, d, ids, e);
      TagsTimes(walker, es, d, ids[..l], e);
      var before := walker.TagsWalked(es, d, ids[..l]);
      var entry := walker.Entry(d, ids[l]);
      if entry.Some? { TimesSnoc(before, NewTag(d, entry.value), e); } else { assert before + [] == before; }
    }
  }

  lemma OtherTimes(walker: Walker, w: World, es: seq<Event>, d: Id, item: Item, e: Event)
    requires SetUp(walker, w) && Takes(walker) && !walker.Descends(item)
    ensures Times(walker.OtherWalked(es, d, item), e) == Times(es, e) + Once(OfItem(w.recs, d, item, e))
  {
    hide Times;
    var begun := es + [BeginFile(d, item.id, item.name)];
    assert walker.ser(begun) == SerOk;
    TimesSnoc(es, BeginFile(d, item.id, item.name), e);
    TimesSnoc(begun, EndFile(d, item.id, item.name), e);
    TimesSnoc(es, NewLink(d, item.id, item.name), e);
  }

  lemma RootedDir(w: World, lay: Layout, d: Id)
    requires Settled(w, lay) && Forest(ViewOf(w, lay)) && d in w.recs && w.recs[d].DirRec?
    ensures Rooted(ViewOf(w, lay), d)
  {
    hide ShapesOk, Partition, ViewOf, Rooted;
    InodeThere(w, lay, d);
  }

  lemma KidsOver(w: World, t: Tree)
    requires TreeOver(w, t)
    ensures t.id in w.recs && w.recs[t.id].DirRec? && |t.kids| == |StreamOf(w, t.id)|
    ensures forall k :: 0 <= k < |t.kids| && Goes(w.recs, StreamOf(w, t.id)[k]) ==>
              t.kids[k].Some? && t.kids[k].value.id == StreamOf(w, t.id)[k].id && TreeOver(w, t.kids[k].value)
  {
  }

  /** What belongs to a tree belongs to the tags of its root or to one of the items, never to both. */
  lemma TreeSplit(walker: Walker, w: World, lay: Layout, t: Tree, e: Event)
    requires Ready(walker, w, lay) && TreeOver(w, t)
    ensures t.id in walker.cache.recs && walker.cache.recs[t.id].DirRec?
    ensures t.id in walker.cache.lists && walker.AllTags(walker.cache.lists[t.id]) && Distinct(walker.cache.lists[t.id])
    ensures Once(OfTree(walker, w, t, e)) ==
            Once(walker.wantsTags && OfTags(walker, t.id, walker.cache.lists[t.id], e)) + Once(OfKids(walker, w, t, |t.kids|, e))
  {
    hide ShapesOk, Partition, ViewOf, StreamOf, TreeOk, Rooted, Forest, Walker.Database, TreeOver, Takes, OfTag, Sub;
    KidsOver(w, t);
    ListTags(walker, t.id);
    RootedDir(w, lay, t.id);
    var tags := walker.wantsTags && OfTags(walker, t.id, walker.cache.lists[t.id], e);
    if OfKids(walker, w, t, |t.kids|, e) {
      var k :| 0 <= k < |t.kids| && OfKid(walker, w, t, k, e);
      HomeOfKid(walker, w, lay, t, k, e);
      KidInTree(walker, w, t, k, e);
      TagHome(walker, t.id, walker.cache.lists[t.id], e);
    }
    if tags { TagHome(walker, t.id, walker.cache.lists[t.id], e); }
    if OfTree(walker, w, t, e) && !tags { TreeKids(walker, w, t, e); }
  }

  lemma TagHome(walker: Walker, d: Id, ids: seq<Id>, e: Event)
    requires walker.Database() && walker.AllTags(ids)
    ensures OfTags(walker, d, ids, e) ==> e.NewTag? && Home(e) == d
  {
  }

  lemma KidInTree(walker: Walker, w: World, t: Tree, k: nat, e: Event)
    requires walker.Database() && SetUp(walker, w) && TreeOver(w, t) && k < |t.kids| && OfKid(walker, w, t, k, e)
    ensures OfTree(walker, w, t, e)
  {
    hide StreamOf, Walker.Database, OfTags;
  }

  lemma TreeKids(walker: Walker, w: World, t: Tree, e: Event)
    requires walker.Database() && SetUp(walker, w) && TreeOver(w, t) && OfTree(walker, w, t, e)
    requires t.id in walker.cache.lists && walker.AllTags(walker.cache.lists[t.id])
    requires !(walker.wantsTags && OfTags(walker, t.id, walker.cache.lists[t.id], e))
    ensures OfKids(walker, w, t, |t.kids|, e)
  {
    hide StreamOf, Walker.Database, OfTags, OfItem;
    var list := StreamOf(w, t.id);
    if Home(e) == t.id {
      var k :| 0 <= k < |list| && OfItem(w.recs, t.id, list[k], e);
      assert OfKid(walker, w, t, k, e);
    } else {
      var k :| 0 <= k < |t.kids| && Goes(w.recs, list[k]) && InTree(w, t.kids[k].value, Home(e));
      assert OfKid(walker, w, t, k, e);
    }
  }

  lemma {:induction false} DirTimes(walker: Walker, w: World, lay: Layout, es: seq<Event>, parent: Id, item: Item, t: Tree, e: Event)
    requires Ready(walker, w, lay) && walker.Spans(t) && TreeOver(w, t)
    ensures Times(walker.DirWalked(es, parent, item, t), e) ==
            Times(es, e) + Once(BeginDir(parent, t.id, item.name) == e || EndDir(parent, t.id, item.name) == e) + Once(OfTree(walker, w, t, e))
    decreases t, 2
  {
    hide Times, OfTree, OfKids, OfTags, StreamOf, ShapesOk, Partition, ViewOf, TreeOver, TreeOk, Forest, Walker.Spans, SetUp;
    var begun := es + [BeginDir(parent, t.id, item.name)];
    assert walker.ser(begun) == SerOk;
    TimesSnoc(es, BeginDir(parent, t.id, item.name), e);
    BodyTimes(walker, w, lay, begun, t, e);
    TimesSnoc(walker.ItemsWalked(walker.ListWalked(begun, t.id), t, |t.kids|), EndDir(parent, t.id, item.name), e);
  }

  lemma {:induction false} BodyTimes(walker: Walker, w: World, lay: Layout, es: seq<Event>, t: Tree, e: Event)
    requires Ready(walker, w, lay) && walker.Spans(t) && TreeOver(w, t)
    ensures t.id in walker.cache.recs && walker.cache.recs[t.id].DirRec?
    ensures Times(walker.ItemsWalked(walker.ListWalked(es, t.id), t, |t.kids|), e) == Times(es, e) + Once(OfTree(walker, w, t, e))
    decreases t, 1, |t.kids| + 1
  {
    hide Times, OfTree, OfKids, OfTags, StreamOf, ShapesOk, Partition, ViewOf, TreeOver, TreeOk, Forest, Walker.Spans, SetUp,
      Walker.Database, Walker.ItemsWalked, Takes;
    TreeSplit(walker, w, lay, t, e);
    if walker.wantsTags { TagsTimes(walker, es, t.id, walker.cache.lists[t.id], e); }
    ItemsTimes(walker, w, lay, walker.ListWalked(es, t.id), t, |t.kids|, e);
  }

  lemma {:induction false} ItemsTimes(walker: Walker, w: World, lay: Layout, es: seq<Event>, t: Tree, n: nat, e: Event)
    requires Ready(walker, w, lay) && walker.Spans(t) && TreeOver(w, t) && n <= |t.kids|
    ensures Times(walker.ItemsWalked(es, t, n), e) == Times(es, e) + Once(OfKids(walker, w, t, n, e))
    decreases t, 1, n
  {
    hide Times, OfKid, StreamOf, ShapesOk, Partition, ViewOf, TreeOver, TreeOk, Forest, Walker.Spans, SetUp,
      Walker.Database, Walker.ItemsWalked, Takes;
    ItemsStep(walker, es, t, n);
    if n > 0 {
      ItemsTimes(walker, w, lay, es, t, n - 1, e);
      KidsOnce(walker, w, lay, t, n, e);
      ItemTimes(walker, w, lay, walker.ItemsWalked(es, t, n - 1), t, n - 1, e);
    }
  }

  lemma KidsOnce(walker: Walker, w: World, lay: Layout, t: Tree, n: nat, e: Event)
    requires Ready(walker, w, lay) && TreeOver(w, t) && 0 < n <= |t.kids|
    ensures Once(OfKids(walker, w, t, n, e)) == Once(OfKids(walker, w, t, n - 1, e)) + Once(OfKid(walker, w, t, n - 1, e))
  {
    hide OfKid, StreamOf, ShapesOk, Partition, ViewOf, TreeOver, TreeOk, Forest, Rooted, SetUp, Walker.Database, Takes;
    KidsOver(w, t);
    RootedDir(w, lay, t.id);
    if OfKids(walker, w, t, n - 1, e) && OfKid(walker, w, t, n - 1, e) {
      var k :| 0 <= k < n - 1 && OfKid(walker, w, t, k, e);
      OneKid(walker, w, lay, t, k, n - 1, e);
    }
  }

  lemma {:induction false} ItemTimes(walker: Walker, w: World, lay: Layout, es: seq<Event>, t: Tree, n: nat, e: Event)
    requires Ready(walker, w, lay) && walker.Spans(t) && TreeOver(w, t) && n < |t.kids|
    ensures Times(ItemWalked(walker, es, t, n), e) == Times(es, e) + Once(OfKid(walker, w, t, n, e))
    decreases t, 0
  {
    hide Times, StreamOf, ShapesOk, Partition, ViewOf, TreeOk, Forest, Rooted, Walker.Database, OfTree;
    var item := StreamOf(w, t.id)[n];
    if walker.Descends(item) {
      RootedDir(w, lay, t.id);
      DirTimes(walker, w, lay, es, t.id, item, t.kids[n].value, e);
      KidOnce(walker, w, lay, t, n, e);
    } else {
      OtherTimes(walker, w, es, t.id, item, e);
    }
  }

  lemma KidOnce(walker: Walker, w: World, lay: Layout, t: Tree, n: nat, e: Event)
    requires Ready(walker, w, lay) && TreeOver(w, t) && n < |t.kids| && Goes(w.recs, StreamOf(w, t.id)[n])
    ensures var item := StreamOf(w, t.id)[n];
      Once(OfKid(walker, w, t, n, e)) ==
        Once(BeginDir(t.id, item.id, item.name) == e || EndDir(t.id, item.id, item.name) == e) + Once(OfTree(walker, w, t.kids[n].value, e))
  {
    hide StreamOf, ShapesOk, Partition, ViewOf, TreeOk, Forest, Rooted, Walker.Database, InTree, OfDir, SetUp, Takes;
    RootedDir(w, lay, t.id);
    if OfTree(walker, w, t.kids[n].value, e) { Apart(w, lay, t, n, n, Home(e)); }
  }

  // ----- in which order -----

  lemma {:induction false} ItemsExtend(walker: Walker, es: seq<Event>, t: Tree, n: nat, m: nat)
    requires walker.Database() && walker.Spans(t) && n <= m <= |t.kids|
    ensures walker.ItemsWalked(es, t, n) <= walker.ItemsWalked(es, t, m) && es <= walker.ItemsWalked(es, t, m)
    decreases t, 1, m
  {
    hide Walker.Database;
    if m > 0 {
      var before := walker.ItemsWalked(es, t, m - 1);
      ItemsExtend(walker, es, t, if n < m then n else m - 1, m - 1);
      if walker.Descends(walker.listing[t.id][m - 1]) {
        DirExtends(walker, before, t.id, walker.listing[t.id][m - 1], t.kids[m - 1].value);
      }
    }
  }

  lemma {:induction false} DirExtends(walker: Walker, es: seq<Event>, parent: Id, item: Item, t: Tree)
    requires walker.Database() && walker.Spans(t)
    ensures es <= walker.DirWalked(es, parent, item, t)
    decreases t, 2
  {
    hide Walker.Database;
    var begun := es + [BeginDir(parent, t.id, item.name)];
    ListTags(walker, t.id);
    TagsExtend(walker, begun, t.id, walker.cache.lists[t.id]);
    ItemsExtend(walker, walker.ListWalked(begun, t.id), t, 0, |t.kids|);
  }

  lemma {:induction false} TagsExtend(walker: Walker, es: seq<Event>, d: Id, ids: seq<Id>)
    requires walker.Database() && walker.AllTags(ids)
    ensures es <= walker.TagsWalked(es, d, ids)
  {
    hide Walker.Database, Walker.Entry;
    if ids != [] { TagsExtend(walker, es, d, ids[..|ids| - 1]); }
  }

  /** What an item gives rise to is reported before anything a later item of the directory gives rise to. */
  lemma InOrder(walker: Walker, w: World, lay: Layout, es: seq<Event>, t: Tree, i: nat, j: nat, e: Event, f: Event) returns (cut: nat)
    requires Ready(walker, w, lay) && walker.Spans(t) && TreeOver(w, t) && i < j < |t.kids|
    requires OfKid(walker, w, t, i, e) && OfKid(walker, w, t, j, f) && e !in es && f !in es
    ensures var all := walker.ItemsWalked(es, t, |t.kids|);
            cut <= |all| && e in all[..cut] && f !in all[..cut] && f in all[cut..]
  {
    hide OfKid, StreamOf, ShapesOk, Partition, ViewOf, TreeOver, TreeOk, Forest, Rooted, Walker.Spans, SetUp,
      Walker.Database, Walker.ItemsWalked, Takes;
    var all, part := walker.ItemsWalked(es, t, |t.kids|), walker.ItemsWalked(es, t, i + 1);
    ItemsExtend(walker, es, t, i + 1, |t.kids|);
    ItemsTimes(walker, w, lay, es, t, i + 1, e);
    ItemsTimes(walker, w, lay, es, t, i + 1, f);
    ItemsTimes(walker, w, lay, es, t, |t.kids|, f);
    RootedTree(w, lay, t);
    if k :| 0 <= k < i + 1 && OfKid(walker, w, t, k, f) { OneKid(walker, w, lay, t, k, j, f); }
    cut := |part|;
    assert all == part + all[cut..];
  }

  lemma RootedTree(w: World, lay: Layout, t: Tree)
    requires Settled(w, lay) && Forest(ViewOf(w, lay)) && TreeOver(w, t)
    ensures Rooted(ViewOf(w, lay), t.id)
  {
    hide ShapesOk, Partition, ViewOf, Rooted, Forest;
    KidsOver(w, t);
    RootedDir(w, lay, t.id);
  }

  // ----- what is due -----

  /** What is reported for a tag: the kind and the parent follow from the parent link, the inherited flag and whether the
      parent is in the dumped tree.  A tag with bytes of its own is reported with them; one that inherits from outside
      is reported as a primary one with the bytes of the tag it resolves to, or not at all if there is none. */
  ghost predicate TagDue(recs: Recs, lay: Layout, inSubtree: Id -> bool, d: Id, info: Info) {
    && IsTag(recs, info.id) && recs[info.id].tag.entries <= |recs[info.id].tag.data|
    && var t := recs[info.id].tag;
       var outside := t.parent != NULL && !inSubtree(t.parent);
       if t.inherited && !outside then info == Info(info.id, t.parent, TagInfo(d, Inherited, None, t.name))
       else if t.inherited then
         && Top(recs, info.id).Some? && IsTag(recs, Top(recs, info.id).value)
         && var top := recs[Top(recs, info.id).value].tag;
            && top.entries <= |top.data|
            && info == Info(info.id, NULL, TagInfo(d, Primary, Some(Closed(top.data[..top.entries], lay.tagSize)), t.name))
       else
         var kind := if t.parent == NULL || outside then Primary else Pseudo;
         info == Info(info.id, if outside then NULL else t.parent, TagInfo(d, kind, Some(t.data[..t.entries]), t.name))
  }

  /** A value that fills the inode loses its last byte. */
  ghost function Closed(v: seq<byte>, tagSize: nat): seq<byte> {
    if tagSize > 0 && |v| >= tagSize then v[..tagSize - 1] + [0] else v
  }

  /** Directory `d` has an entry for inode `n` that the dumper follows. */
  ghost predicate Lists(v: View, d: Id, name: Name, n: Id) {
    && name != "." && name != ".." && n in v
    && IsEntry(v, d, name) && EntryOf(v, d, name).id == n
  }

  /** The events of a dump from `top`. */
  ghost predicate Due(recs: Recs, v: View, lay: Layout, wantsTags: bool, inSubtree: Id -> bool, top: Id, e: Event) {
    match e
    case BeginDump(x) => x == top
    case EndDump(x) => x == top
    case BeginDir(d, n, name) => Beneath(v, top, d) && Lists(v, d, name, n) && v[n].DirNode?
    case EndDir(d, n, name) => Beneath(v, top, d) && Lists(v, d, name, n) && v[n].DirNode?
    case BeginFile(d, n, name) => Beneath(v, top, d) && Lists(v, d, name, n) && v[n].FileNode?
    case EndFile(d, n, name) => Beneath(v, top, d) && Lists(v, d, name, n) && v[n].FileNode?
    case NewLink(d, n, name) => Beneath(v, top, d) && Lists(v, d, name, n) && v[n].LinkNode?
    case NewTag(d, info) =>
      wantsTags && Beneath(v, top, d) && d in v && v[d].DirNode? && info.id in v[d].tags && TagDue(recs, lay, inSubtree, d, info)
  }

  lemma {:induction false} DbTop(recs: Recs, lay: Layout, id: Id)
    requires TagInv(recs, lay)
    ensures DbValue(recs, id) ==
            if Top(recs, id).Some? && IsTag(recs, Top(recs, id).value)
               && recs[Top(recs, id).value].tag.entries <= |recs[Top(recs, id).value].tag.data|
            then Some(recs[Top(recs, id).value].tag.data[..recs[Top(recs, id).value].tag.entries]) else None
  {
    TopIsTag(recs, lay, id);
    if IsTag(recs, id) {
      assert TagOk(recs, lay, id);
      if Inherits(recs[id].tag) { DbTop(recs, lay, recs[id].tag.parent); }
    }
  }

  lemma StoredIsDue(recs: Recs, lay: Layout, inSubtree: Id -> bool, d: Id, id: Id, info: Info)
    requires TagInv(recs, lay) && TagsDescend(recs, lay) && IsTag(recs, id)
    ensures StoredFor(recs, lay, inSubtree, d, id) == Some(info) <==> info.id == id && TagDue(recs, lay, inSubtree, d, info)
  {
    assert TagOk(recs, lay, id);
    DbTop(recs, lay, id);
    TopIsTag(recs, lay, id);
    if Top(recs, id).Some? { assert TagOk(recs, lay, Top(recs, id).value); }
  }

  lemma ItemsDue(w: World, lay: Layout, d: Id, e: Event)
    requires Settled(w, lay) && TreeOk(ViewOf(w, lay)) && d in w.recs && w.recs[d].DirRec? && Home(e) == d
    ensures (exists k :: 0 <= k < |StreamOf(w, d)| && OfItem(w.recs, d, StreamOf(w, d)[k], e)) <==>
              match e
              case BeginDir(_, n, name) => Lists(ViewOf(w, lay), d, name, n) && ViewOf(w, lay)[n].DirNode?
              case EndDir(_, n, name) => Lists(ViewOf(w, lay), d, name, n) && ViewOf(w, lay)[n].DirNode?
              case BeginFile(_, n, name) => Lists(ViewOf(w, lay), d, name, n) && ViewOf(w, lay)[n].FileNode?
              case EndFile(_, n, name) => Lists(ViewOf(w, lay), d, name, n) && ViewOf(w, lay)[n].FileNode?
              case NewLink(_, n, name) => Lists(ViewOf(w, lay), d, name, n) && ViewOf(w, lay)[n].LinkNode?
              case _ => false
  {
    hide ShapesOk, Partition, ViewOf, StreamOf, TreeOk;
    if !e.BeginDump? && !e.EndDump? && !e.NewTag? {
      InodeThere(w, lay, e.id);
      EntryListed(w, lay, d, e.id, e.name);
    }
  }

  lemma EntryListed(w: World, lay: Layout, d: Id, n: Id, name: Name)
    requires Settled(w, lay) && TreeOk(ViewOf(w, lay)) && d in w.recs && w.recs[d].DirRec?
    ensures (exists k :: 0 <= k < |StreamOf(w, d)| && Followed(StreamOf(w, d)[k]) && StreamOf(w, d)[k].id == n && StreamOf(w, d)[k].name == name) <==>
              name != "." && name != ".." && IsEntry(ViewOf(w, lay), d, name) && EntryOf(ViewOf(w, lay), d, name).id == n
  {
    hide ShapesOk, Partition, ViewOf, StreamOf;
    StreamReads(w, lay, d);
  }

  lemma TagsDue(walker: Walker, w: World, lay: Layout, d: Id, e: Event)
    requires walker.Database() && SetUp(walker, w) && Settled(w, lay) && TagInv(w.recs, lay)
    requires walker.cache.lay == lay && walker.cache.lists == ListsOf(w) && d in w.recs && w.recs[d].DirRec?
    ensures d in walker.cache.lists && walker.AllTags(walker.cache.lists[d])
    ensures d in ViewOf(w, lay) && ViewOf(w, lay)[d].DirNode?
    ensures OfTags(walker, d, walker.cache.lists[d], e) <==>
            e.NewTag? && e.dir == d && e.tag.id in ViewOf(w, lay)[d].tags && TagDue(w.recs, lay, walker.inSubtree, d, e.tag)
  {
    hide ShapesOk, Partition, ViewOf, DirShapeOk, TagInv, TagDue, OfTag;
    ListTags(walker, d);
    DirKnown(w, lay, d);
    var ids := walker.cache.lists[d];
    forall k | 0 <= k < |ids|
      ensures OfTag(walker, d, ids[k], e) <==>
              e.NewTag? && e.dir == d && e.tag.id == ids[k] && TagDue(w.recs, lay, walker.inSubtree, d, e.tag)
    {
      OneTagDue(walker, d, ids[k], e);
    }
  }

  lemma OneTagDue(walker: Walker, d: Id, id: Id, e: Event)
    requires walker.Database() && TagInv(walker.cache.recs, walker.cache.lay) && IsTag(walker.cache.recs, id)
    ensures OfTag(walker, d, id, e) <==>
            e.NewTag? && e.dir == d && e.tag.id == id && TagDue(walker.cache.recs, walker.cache.lay, walker.inSubtree, d, e.tag)
  {
    hide TagInv, TagDue, StoredFor, ListsOk;
    if e.NewTag? { StoredIsDue(walker.cache.recs, walker.cache.lay, walker.inSubtree, d, id, e.tag); }
  }

  lemma InTreeDir(w: World, t: Tree, x: Id)
    requires TreeOver(w, t) && InTree(w, t, x)
    ensures x in w.recs && w.recs[x].DirRec?
  {
    hide StreamOf;
    if x != t.id {
      var k :| 0 <= k < |t.kids| && Goes(w.recs, StreamOf(w, t.id)[k]) && InTree(w, t.kids[k].value, x);
      InTreeDir(w, t.kids[k].value, x);
    }
  }

  lemma TreeDue(walker: Walker, w: World, lay: Layout, t: Tree, e: Event)
    requires Ready(walker, w, lay) && TagInv(w.recs, lay) && TreeOver(w, t)
    requires walker.cache.lay == lay && walker.cache.lists == ListsOf(w)
    ensures OfTree(walker, w, t, e) <==>
            !e.BeginDump? && !e.EndDump? && Due(w.recs, ViewOf(w, lay), lay, walker.wantsTags, walker.inSubtree, t.id, e)
  {
    hide ShapesOk, Partition, ViewOf, StreamOf, TreeOk, TagInv, TagDue, InTree, TreeOver, Beneath, Forest, OfTags, OfItem, Lists, Takes;
    TreeReaches(w, lay, t, Home(e));
    if InTree(w, t, Home(e)) {
      InTreeDir(w, t, Home(e));
      TagsDue(walker, w, lay, Home(e), e);
      ItemsDue(w, lay, Home(e), e);
      if e.BeginDump? || e.EndDump? { NotDump(walker, w, Home(e), e); }
    }
  }

  lemma NotDump(walker: Walker, w: World, d: Id, e: Event)
    requires walker.Database() && SetUp(walker, w) && d in w.recs && w.recs[d].DirRec? && (e.BeginDump? || e.EndDump?)
    ensures !OfDir(walker, w, d, e)
  {
  }

  /** A dump that nothing stops, of a file system whose directories form trees, reports every event that is due exactly
      once, and nothing else: the directories below the top, their files and links, and their tags. */
  lemma DumpExact(walker: Walker, w: World, lay: Layout, t: Tree, e: Event)
    requires Ready(walker, w, lay) && TagInv(w.recs, lay) && TreeOver(w, t) && walker.Spans(t)
    requires walker.cache.lay == lay && walker.cache.lists == ListsOf(w)
    ensures multiset(walker.DumpWalked(t))[e] ==
            if Due(w.recs, ViewOf(w, lay), lay, walker.wantsTags, walker.inSubtree, t.id, e) then 1 else 0
  {
    hide ShapesOk, Partition, ViewOf, StreamOf, TreeOk, TagInv, TagDue, TreeOver, Beneath, Forest, OfTree, Walker.Spans, Walker.Database,
      SetUp, Lists, Walker.ItemsWalked, Walker.ListWalked;
    var begun := [BeginDump(t.id)];
    assert walker.ser(begun) == SerOk;
    BodyTimes(walker, w, lay, begun, t, e);
    TimesSnoc(walker.ItemsWalked(walker.ListWalked(begun, t.id), t, |t.kids|), EndDump(t.id), e);
    TreeDue(walker, w, lay, t, e);
  }

  /** The same of the dump itself. */
  method FullDump(fs: FileSystem, cache: Cache, ser: seq<Event> -> Answer, wantsTags: bool, inSubtree: Id -> bool, top: Id, batch: nat)
    returns (walker: Walker)
    requires fs.Sound() && TreeOk(fs.View()) && Forest(fs.View())
    requires batch > 0 && SmallTables(fs.db.lay) && AllSteady(fs.W(), fs.db.lay, batch)
    requires cache.Valid() && !cache.disabled && cache.log == []
    requires cache.recs == fs.db.recs && cache.lay == fs.db.lay && cache.lists == ListsOf(fs.W())
    requires forall es :: ser(es) == SerOk
    requires top in fs.View() && fs.View()[top].DirNode?
    modifies cache`log, cache.buckets
    ensures forall e :: multiset(walker.events)[e] ==
              if Due(fs.db.recs, fs.View(), fs.db.lay, wantsTags, inSubtree, top, e) then 1 else 0
  {
    hide ShapesOk, Partition, ViewOf, TagInv, TreeOk, Forest, AllSteady, Due, TreeOver, Open;
    ghost var w: World, lay := fs.W(), fs.db.lay;
    NoRoot(fs);
    InodeThere(w, lay, top);
    ghost var t := TreeExists(w, lay, top);
    walker := Dump(fs, cache, ser, wantsTags, inSubtree, top, batch, t);
    forall e ensures multiset(walker.DumpWalked(t))[e] == if Due(w.recs, ViewOf(w, lay), lay, wantsTags, inSubtree, top, e) then 1 else 0 {
      DumpExact(walker, w, lay, t, e);
    }
  }
}
