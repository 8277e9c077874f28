/** The depth-first walk of the dumper (dump_main.c), which drives the cache and reports to a serialiser. */
module DumpWalk {
  import opened Records
  import opened TagShapes
  import opened TagOps
  import opened CacheLists
  import opened DumpCache
  import opened FileShapes
  import opened Worlds

  datatype Event =
    | BeginDump(top: Id) | EndDump(top: Id)
    | BeginDir(parent: Id, id: Id, name: Name) | EndDir(parent: Id, id: Id, name: Name)
    | NewTag(dir: Id, tag: Info)
    | BeginFile(dir: Id, id: Id, name: Name) | EndFile(dir: Id, id: Id, name: Name)
    | NewLink(dir: Id, id: Id, name: Name)

  datatype Answer = SerOk | SerSkip | SerError

  /** A finite directory tree; one place for each item of the listing. */
  datatype Tree = Tree(id: Id, kids: seq<Option<Tree>>)

  predicate Followed(item: Item) {
    item.name != "." && item.name != ".."
  }

  /** The walk goes down into this item. */
  predicate Goes(recs: Recs, item: Item) {
    Followed(item) && item.id in recs && recs[item.id].DirRec?
  }

  /** The directories that were begun and not ended, unless the events are not nested. */
  ghost function Open(events: seq<Event>): Option<seq<Id>> {
    if events == [] then Some([]) else Onwards(Open(events[..|events| - 1]), events[|events| - 1])
  }

  ghost function Onwards(open: Option<seq<Id>>, e: Event): Option<seq<Id>> {
    if open.None? then None
    else
      var path := open.value;
      var l := |path| - 1;
      match e
      case BeginDump(top) => if path == [] then Some([top]) else None
      case BeginDir(parent, id, _) => if l >= 0 && path[l] == parent then Some(path + [id]) else None
      case EndDump(id) => if path == [id] then Some([]) else None
      case EndDir(parent, id, _) => if l > 0 && path[l] == id && path[l - 1] == parent then Some(path[..l]) else None
      case NewTag(dir, _) => if l >= 0 && path[l] == dir then open else None
      case BeginFile(dir, _, _) => if l >= 0 && path[l] == dir then open else None
      case EndFile(dir, _, _) => if l >= 0 && path[l] == dir then open else None
      case NewLink(dir, _, _) => if l >= 0 && path[l] == dir then open else None
  }

  lemma OpenSnoc(events: seq<Event>, e: Event)
    ensures Open(events + [e]) == Onwards(Open(events), e)
  {
  }

  ghost function Dirs(frames: seq<Frame>): (ids: seq<Id>)
    ensures |ids| == |frames| && forall k :: 0 <= k < |ids| ==> ids[k] == frames[k].dir
  {
    seq(|frames|, k requires 0 <= k < |frames| => frames[k].dir)
  }

  ghost predicate Absent(tags: seq<Info>, id: Id) {
    forall k :: 0 <= k < |tags| ==> tags[k].id != id
  }

  /** Beginning and ending a directory in the events and on the path. */
  lemma OpenBegin(events: seq<Event>, frames: seq<Frame>, parent: Id, id: Id, name: Name)
    requires Open(events) == Some(Dirs(frames)) && frames != [] && frames[|frames| - 1].dir == parent
    ensures Open(events + [BeginDir(parent, id, name)]) == Some(Dirs(frames + [Frame(id, parent, [])]))
  {
    hide Open;
    OpenSnoc(events, BeginDir(parent, id, name));
    assert Dirs(frames + [Frame(id, parent, [])]) == Dirs(frames) + [id];
  }

  lemma OpenEnd(events: seq<Event>, frames: seq<Frame>, last: Frame, parent: Id, name: Name)
    requires Open(events) == Some(Dirs(frames + [last])) && frames != [] && frames[|frames| - 1].dir == parent
    ensures Open(events + [EndDir(parent, last.dir, name)]) == Some(Dirs(frames))
  {
    hide Open;
    OpenSnoc(events, EndDir(parent, last.dir, name));
    assert Dirs(frames) == Dirs(frames + [last])[..|frames|];
  }

  lemma OpenDump(top: Id)
    ensures Open([]) == Some([]) && Dirs([]) == []
    ensures Open([] + [BeginDump(top)]) == Some(Dirs([] + [Frame(top, NULL, [])]))
  {
    OpenSnoc([], BeginDump(top));
    assert [] + [Frame(top, NULL, [])] == [Frame(top, NULL, [])];
    assert Dirs([Frame(top, NULL, [])]) == [top];
  }

  lemma CloseDump(events: seq<Event>, top: Id, frames: seq<Frame>)
    requires Open(events) == Some(Dirs(frames)) && |frames| == 1 && frames[0].dir == top
    ensures Open(events + [EndDump(top)]) == Some([])
  {
  }

  /** The tags stored for a directory of the path are tags of its list and agree with the database. */
  ghost predicate FrameOk(recs: Recs, lay: Layout, lists: Lists, f: Frame) {
    && f.dir in recs && recs[f.dir].DirRec? && f.dir in lists && FrameShape(f)
    && forall k :: 0 <= k < |f.tags| ==> InfoOk(recs, lay, lists, f.tags[k]) && f.tags[k].id in lists[f.dir]
  }

  ghost predicate FramesOk(recs: Recs, lay: Layout, lists: Lists, frames: seq<Frame>) {
    forall k :: 0 <= k < |frames| ==> FrameOk(recs, lay, lists, frames[k])
  }

  /** A table that holds the path and the tags stored for it agrees with the database. */
  lemma PathCoherent(recs: Recs, lay: Layout, lists: Lists, frames: seq<Frame>)
    requires FramesOk(recs, lay, lists, frames)
    ensures Coherent(recs, lay, lists, Flat(frames))
  {
    hide InfoOk, Flat, First;
    var log := Flat(frames);
    forall info | info in log
      ensures InfoOk(recs, lay, lists, info)
      ensures info.data.DirInfo? ==> forall k :: 0 <= k < |info.data.tags| ==> First(log, info.data.tags[k]).Some?
    {
      FlatHas(frames, info);
      var n :| 0 <= n < |frames| && (info == DirEntry(frames[n]) || info in frames[n].tags);
      assert FrameOk(recs, lay, lists, frames[n]);
      if info == DirEntry(frames[n]) {
        DirEntryOk(recs, lay, lists, frames[n]);
        forall k | 0 <= k < |info.data.tags| ensures First(log, info.data.tags[k]).Some? {
          FlatOf(frames, n, frames[n].tags[k]);
          FirstSome(log, frames[n].tags[k]);
        }
      }
    }
  }

  lemma DirEntryOk(recs: Recs, lay: Layout, lists: Lists, f: Frame)
    requires FrameOk(recs, lay, lists, f)
    ensures InfoOk(recs, lay, lists, DirEntry(f))
  {
  }

  /** What is stored and reported for a tag.  A tag that inherits from outside the dumped tree is
      promoted to a primary one, with the value it resolves to. */
  ghost function StoredFor(recs: Recs, lay: Layout, inSubtree: Id -> bool, dir: Id, id: Id): Option<Info>
    requires IsTag(recs, id) && TagsDescend(recs, lay)
  {
    var t := recs[id].tag;
    var own := Some(t.data[..t.entries]);
    var orphan := t.parent != NULL && !inSubtree(t.parent);
    match IdentifyType(t)
    case Primary => Some(Info(id, NULL, TagInfo(dir, Primary, own, t.name)))
    case Pseudo =>
      if orphan then Some(Info(id, NULL, TagInfo(dir, Primary, own, t.name)))
      else Some(Info(id, t.parent, TagInfo(dir, Pseudo, own, t.name)))
    case Invalid => Some(Info(id, t.parent, TagInfo(dir, Invalid, None, t.name)))
    case Inherited =>
      if !orphan then Some(Info(id, t.parent, TagInfo(dir, Inherited, None, t.name)))
      else
        ValueFits(recs, lay, id);
        match DbValue(recs, id)
        case None => None
        case Some(v) => Some(Info(id, NULL, TagInfo(dir, Primary, Some(Terminated(v, lay.tagSize)), t.name)))
  }

  lemma {:induction false} ValueFits(recs: Recs, lay: Layout, id: Id)
    requires TagsDescend(recs, lay)
    ensures DbValue(recs, id).Some? ==> |DbValue(recs, id).value| <= lay.tagSize
  {
    if IsTag(recs, id) && !Holds(IdentifyType(recs[id].tag)) { ValueFits(recs, lay, recs[id].tag.parent); }
  }

  /** The buffer a promoted value is read into holds it up to the length reported. */
  lemma PromotedValue(r: Option<Fetched>, v: Option<seq<byte>>, n: nat)
    requires n > 0 && Answers(r, v, n, n) && (v.Some? ==> |v.value| <= n)
    ensures r.Some? <==> v.Some?
    ensures r.Some? ==> r.value.length <= |r.value.data| + 1
                        && (r.value.data + [0])[..r.value.length] == Terminated(v.value, n)
  {
  }

  /** What is stored for a tag agrees with the database. */
  lemma EntryOk(recs: Recs, lay: Layout, lists: Lists, inSubtree: Id -> bool, dir: Id, id: Id)
    requires IsTag(recs, id) && TagsDescend(recs, lay) && recs[id].tag.base == dir
    ensures var e := StoredFor(recs, lay, inSubtree, dir, id);
      e.Some? ==> e.value.id == id && e.value.data.TagInfo? && InfoOk(recs, lay, lists, e.value)
  {
    ValueFits(recs, lay, id);
  }

  /** Storing a tag in the table makes it the table of the path with the tag. */
  lemma StoreStep(frames: seq<Frame>, info: Info)
    requires frames != [] && FrameShape(frames[|frames| - 1])
    ensures var l := |frames| - 1; var f := frames[l]; var f' := f.(tags := f.tags + [info]);
      && First(Flat(frames), f.dir) == Some(DirEntry(f))
      && [info] + Change(Flat(frames), DirEntry(f).(data := DirInfo(DirEntry(f).data.tags + [info.id]))) == Flat(frames[l := f'])
  {
    hide FrameShape, First, Change, Newest;
    var l := |frames| - 1;
    var f := frames[l];
    var f' := f.(tags := f.tags + [info]);
    PushTag(f, info, Flat(frames[..l]));
    assert InfoIds(f.tags) + [info.id] == InfoIds(f'.tags);
    assert frames[l := f'][..l] == frames[..l];
  }

  lemma EnterStep(frames: seq<Frame>, dir: Id, parent: Id)
    ensures Flat(frames + [Frame(dir, parent, [])]) == [Info(dir, parent, DirInfo([]))] + Flat(frames)
  {
    var f := Frame(dir, parent, []);
    assert (frames + [f])[..|frames|] == frames;
    assert Block(f) == [Info(dir, parent, DirInfo([]))];
  }

  lemma LeaveStep(frames: seq<Frame>)
    requires frames != [] && FrameShape(frames[|frames| - 1])
    ensures Removed(Flat(frames), frames[|frames| - 1].dir) == Flat(frames[..|frames| - 1])
  {
    PopFrame(frames[|frames| - 1], Flat(frames[..|frames| - 1]));
  }

  lemma StoredFrame(recs: Recs, lay: Layout, lists: Lists, f: Frame, info: Info)
    requires FrameOk(recs, lay, lists, f) && ListsOk(recs, lists)
    requires InfoOk(recs, lay, lists, info) && info.id in lists[f.dir] && info.data.TagInfo?
    requires Absent(f.tags, info.id)
    ensures FrameOk(recs, lay, lists, f.(tags := f.tags + [info])) && info.id != f.dir
  {
    hide TagsOk, NamesOk;
  }

  class Walker {
    const cache: Cache
    const ser: seq<Event> -> Answer       // the answer may depend on everything reported so far
    const wantsTags: bool
    const inSubtree: Id -> bool           // whether the parent of a tag belongs to the dumped tree
    const listing: map<Id, seq<Item>>     // what the directory iterator yields
    var events: seq<Event>
    ghost var frames: seq<Frame>

    constructor (cache: Cache, ser: seq<Event> -> Answer, wantsTags: bool, inSubtree: Id -> bool,
                 listing: map<Id, seq<Item>>)
      ensures this.cache == cache && this.ser == ser && this.wantsTags == wantsTags && this.inSubtree == inSubtree
      ensures this.listing == listing && events == [] && frames == []
    {
      this.cache, this.ser, this.wantsTags, this.inSubtree, this.listing := cache, ser, wantsTags, inSubtree, listing;
      events, frames := [], [];
    }

    ghost predicate Database() {
      TagsDescend(cache.recs, cache.lay) && ListsOk(cache.recs, cache.lists)
    }

    predicate Descends(item: Item) {
      Goes(cache.recs, item)
    }

    /** The listings reached from a directory form the finite tree `t`. */
    ghost predicate Spans(t: Tree) {
      && t.id in cache.recs && cache.recs[t.id].DirRec? && t.id in listing && |t.kids| == |listing[t.id]|
      && forall k :: 0 <= k < |t.kids| && Descends(listing[t.id][k]) ==>
           t.kids[k].Some? && t.kids[k].value.id == listing[t.id][k].id && Spans(t.kids[k].value)
    }

    // ----- what a walk reports -----

    ghost predicate Clean(es: seq<Event>) {
      forall n :: 0 < n <= |es| ==> ser(es[..n]) != SerError
    }

    ghost function Entry(dir: Id, id: Id): Option<Info>
      requires IsTag(cache.recs, id) && Database()
    {
      StoredFor(cache.recs, cache.lay, inSubtree, dir, id)
    }

    ghost predicate AllTags(ids: seq<Id>) {
      forall k :: 0 <= k < |ids| ==> IsTag(cache.recs, ids[k])
    }

    ghost function TagsWalked(es: seq<Event>, dir: Id, ids: seq<Id>): seq<Event>
      requires Database() && AllTags(ids)
    {
      if ids == [] then es
      else
        var l := |ids| - 1;
        var e := Entry(dir, ids[l]);
        TagsWalked(es, dir, ids[..l]) + if e.Some? then [NewTag(dir, e.value)] else []
    }

    /** What is stored for the tags of a list. */
    ghost function Entries(dir: Id, ids: seq<Id>): seq<Info>
      requires Database() && AllTags(ids)
    {
      if ids == [] then []
      else
        var l := |ids| - 1;
        var e := Entry(dir, ids[l]);
        Entries(dir, ids[..l]) + if e.Some? then [e.value] else []
    }

    lemma {:induction false} EntriesFrom(dir: Id, ids: seq<Id>, id: Id)
      requires Database() && AllTags(ids) && id !in ids
      ensures Absent(Entries(dir, ids), id)
    {
      if ids != [] { EntriesFrom(dir, ids[..|ids| - 1], id); }
    }

    ghost function ListWalked(es: seq<Event>, dir: Id): seq<Event>
      requires Database() && dir in cache.recs && cache.recs[dir].DirRec?
    {
      if wantsTags then
        assert TagsOk(cache.recs, dir, cache.recs[dir].dir.tag, cache.lists[dir]);
        TagsWalked(es, dir, cache.lists[dir])
      else es
    }

    ghost function ItemsWalked(es: seq<Event>, t: Tree, n: nat): seq<Event>
      requires Database() && Spans(t) && n <= |t.kids|
      decreases t, 0, n
    {
      if n == 0 then es
      else
        var item := listing[t.id][n - 1];
        var e := ItemsWalked(es, t, n - 1);
        if Descends(item) then DirWalked(e, t.id, item, t.kids[n - 1].value) else OtherWalked(e, t.id, item)
    }

    ghost function DirWalked(es: seq<Event>, parent: Id, item: Item, t: Tree): seq<Event>
      requires Database() && Spans(t)
      decreases t, 1
    {
      var e := es + [BeginDir(parent, t.id, item.name)];
      (if ser(e) == SerOk then ItemsWalked(ListWalked(e, t.id), t, |t.kids|) else e) + [EndDir(parent, t.id, item.name)]
    }

    ghost function OtherWalked(es: seq<Event>, dir: Id, item: Item): seq<Event> {
      if item.name == "." || item.name == ".." || item.id !in cache.recs then es
      else match cache.recs[item.id]
        case FileRec(_) =>
          var e := es + [BeginFile(dir, item.id, item.name)];
          if ser(e) == SerOk then e + [EndFile(dir, item.id, item.name)] else e
        case LinkRec(_) => es + [NewLink(dir, item.id, item.name)]
        case _ => es
    }

    // ----- the walk -----

    /** The table holds exactly the directories of the path and the tags stored for them. */
    ghost predicate Table()
      reads this, cache, cache.buckets
    {
      && cache.Valid() && !cache.disabled && Database()
      && cache.log == Flat(frames) && FramesOk(cache.recs, cache.lay, cache.lists, frames)
    }

    /** The path is the directories begun and not ended. */
    ghost predicate Inv()
      reads this, cache, cache.buckets
    {
      Table() && Open(events) == Some(Dirs(frames))
    }

    /** A call of the serialiser: as long as it has not failed, it finds the table holding the path of
        the events so far, this one included (end_dump alone precedes the removal). */
    method Emit(e: Event) returns (a: Answer)
      requires Clean(events) ==> Table() && Open(if e.EndDump? then events else events + [e]) == Some(Dirs(frames))
      modifies `events
      ensures events == old(events) + [e] && a == ser(events)
      ensures Clean(events) <==> Clean(old(events)) && a != SerError
      ensures Clean(old(events)) && !e.EndDump? ==> Inv()
    {
      hide Clean, Open, Dirs, Flat, FramesOk, TagsDescend, ListsOk, InBucket;
      CleanSnoc(events, e);
      events := events + [e];
      a := ser(events);
    }

    lemma CleanSnoc(es: seq<Event>, e: Event)
      ensures Clean(es + [e]) <==> Clean(es) && ser(es + [e]) != SerError
    {
      var next := es + [e];
      assert next[..|next|] == next;
      forall n | 0 < n <= |es| ensures next[..n] == es[..n] {}
      if Clean(next) {
        forall n | 0 < n <= |es| ensures ser(es[..n]) != SerError { assert next[..n] == es[..n]; }
      }
    }

    /** The deepest directory gets one more tag. */
    method Store(dir: Id, info: Info)
      requires Inv() && frames != [] && frames[|frames| - 1].dir == dir && info.data.TagInfo? && info.data.dir == dir
      requires InfoOk(cache.recs, cache.lay, cache.lists, info) && info.id in cache.lists[dir]
      requires Absent(frames[|frames| - 1].tags, info.id)
      modifies `frames, cache`log, cache.buckets
      ensures Inv()
      ensures var l := |old(frames)| - 1; var f := old(frames)[l];
        frames == old(frames)[l := f.(tags := f.tags + [info])]
    {
      hide InfoOk, Flat, TagsDescend, ListsOk, InBucket, First, Change, FrameShape, Open;
      ghost var l := |frames| - 1;
      ghost var f, rest := frames[l], frames[..l];
      ghost var f' := f.(tags := f.tags + [info]);
      StoreStep(frames, info);
      StoredFrame(cache.recs, cache.lay, cache.lists, f, info);
      cache.StoreTag(dir, info.id, info.parent, info.data.kind, info.data.name, info.data.value);
      frames := frames[l := f'];
      assert Dirs(frames) == Dirs(old(frames));
    }

    /** process_tag: the tag is stored and reported as `Entry` says. */
    method ProcessTag(id: Id, dir: Id) returns (ok: bool)
      requires Clean(events) && Inv() && frames != [] && frames[|frames| - 1].dir == dir
      requires IsTag(cache.recs, id) && cache.recs[id].tag.base == dir && id in cache.lists[dir]
      requires Absent(frames[|frames| - 1].tags, id)
      modifies `events, `frames, cache`log, cache.buckets
      ensures ok == Clean(events) && cache.Valid()
      ensures var e, l := Entry(dir, id), |old(frames)| - 1; var f := old(frames)[l];
        ok ==>
          && Inv()
          && events == old(events) + (if e.Some? then [NewTag(dir, e.value)] else [])
          && frames == old(frames)[l := f.(tags := f.tags + if e.Some? then [e.value] else [])]
    {
      hide InfoOk, Flat, ListsOk, InBucket, Open, FramesOk, First, Coherent, Answers, Clip, Terminated, InfoIds, DbValue;
      var t := cache.recs[id].tag;
      var kind := IdentifyType(t);
      var orphan := t.parent != NULL && !inSubtree(t.parent);
      var own := t.data[..t.entries];
      var info: Info;
      match kind {
        case Primary =>
          info := Info(id, NULL, TagInfo(dir, Primary, Some(own), t.name));
        case Pseudo =>
          info := if !orphan then Info(id, t.parent, TagInfo(dir, Pseudo, Some(own), t.name))
          else Info(id, NULL, TagInfo(dir, Primary, Some(own), t.name));
        case Invalid =>
          info := Info(id, t.parent, TagInfo(dir, Invalid, None, t.name));
        case Inherited =>
          if !orphan {
            info := Info(id, t.parent, TagInfo(dir, Inherited, None, t.name));
          } else {
            PathCoherent(cache.recs, cache.lay, cache.lists, frames);
            ValueFits(cache.recs, cache.lay, id);
            var r := cache.FindTagValue(id, cache.lay.tagSize);
            PromotedValue(r, DbValue(cache.recs, id), cache.lay.tagSize);
            if r.None? {
              ghost var f := frames[|frames| - 1];
              assert f.tags + [] == f.tags && frames[|frames| - 1 := f] == frames && events + [] == events;
              return true;
            }
            var storage := r.value.data + [0];
            info := Info(id, NULL, TagInfo(dir, Primary, Some(storage[..r.value.length]), t.name));
          }
      }
      assert Entry(dir, id) == Some(info);
      EntryOk(cache.recs, cache.lay, cache.lists, inSubtree, dir, id);
      Store(dir, info);
      OpenSnoc(events, NewTag(dir, info));
      var a := Emit(NewTag(dir, info));
      ok := a != SerError;
    }

    /** scan_all_tags. */
    method ScanAllTags(dir: Id) returns (ok: bool)
      requires Clean(events) && Inv() && dir in cache.recs && cache.recs[dir].DirRec?
      requires frames != [] && frames[|frames| - 1].dir == dir && frames[|frames| - 1].tags == []
      modifies `events, `frames, cache`log, cache.buckets
      ensures ok == Clean(events) && cache.Valid()
      ensures ok ==>
                Inv() && events == ListWalked(old(events), dir)
                && |frames| == |old(frames)| && frames[..|frames| - 1] == old(frames)[..|frames| - 1]
                && frames[|frames| - 1].dir == dir
    {
      hide InBucket, Open, Dirs, FramesOk, Flat, TagsDescend, ListsOk, NamesOk, Clean, Entry, Entries, TagsWalked, AllTags;
      if !wantsTags { return true; }
      ListTags(dir);
      WalkNoTags(events, dir);
      ghost var tags, l := cache.lists[dir], |frames| - 1;
      var id := cache.recs[dir].dir.tag;
      ghost var k: nat := 0;
      assert tags[..k] == [];
      while id != NULL
        invariant k <= |tags| && id == (if k < |tags| then tags[k] else NULL) && AllTags(tags[..k])
        invariant Clean(events) && Inv() && |frames| == l + 1 && frames[..l] == old(frames)[..l] && frames[l].dir == dir
        invariant frames[l].tags == Entries(dir, tags[..k])
        invariant events == TagsWalked(old(events), dir, tags[..k])
        decreases |tags| - k
      {
        WalkTag(old(events), dir, tags, k);
        var more := ProcessTag(id, dir);
        if !more { return false; }
        id := cache.recs[id].tag.next;
        k := k + 1;
      }
      assert tags[..k] == tags;
      ok := true;
    }

    lemma ListTags(dir: Id)
      requires Database() && dir in cache.recs && cache.recs[dir].DirRec?
      ensures dir in cache.lists && TagsOk(cache.recs, dir, cache.recs[dir].dir.tag, cache.lists[dir])
    {
    }

    lemma WalkNoTags(es: seq<Event>, dir: Id)
      requires Database()
      ensures AllTags([]) && TagsWalked(es, dir, []) == es && Entries(dir, []) == []
    {
    }

    /** One more tag of a list. */
    lemma WalkTag(es: seq<Event>, dir: Id, tags: seq<Id>, k: nat)
      requires Database() && dir in cache.recs && cache.recs[dir].DirRec?
      requires TagsOk(cache.recs, dir, cache.recs[dir].dir.tag, tags) && k < |tags|
      ensures var id := tags[k]; IsTag(cache.recs, id) && AllTags(tags[..k]) && AllTags(tags[..k + 1])
      ensures var id := tags[k]; id in tags && cache.recs[id].tag.base == dir && cache.recs[id].tag.next == NextIn(tags, k)
      ensures Absent(Entries(dir, tags[..k]), tags[k])
      ensures var e := Entry(dir, tags[k]);
        && Entries(dir, tags[..k + 1]) == Entries(dir, tags[..k]) + (if e.Some? then [e.value] else [])
        && TagsWalked(es, dir, tags[..k + 1]) == TagsWalked(es, dir, tags[..k]) + if e.Some? then [NewTag(dir, e.value)] else []
    {
      hide TagsDescend, ListsOk, Entry, Absent;
      assert tags[..k + 1][..k] == tags[..k];
      assert tags[k] !in tags[..k];
      EntriesFrom(dir, tags[..k], tags[k]);
    }

    /** process_file and process_link, without the levels of a file. */
    method ProcessOther(dir: Id, item: Item) returns (ok: bool)
      requires Clean(events) && Inv() && frames != [] && frames[|frames| - 1].dir == dir
      requires !Descends(item)
      modifies `events
      ensures ok == Clean(events)
      ensures ok ==> Inv() && events == OtherWalked(old(events), dir, item)
      ensures ok && Followed(item) && item.id in cache.recs && cache.recs[item.id].FileRec? ==>
                var begun := old(events) + [BeginFile(dir, item.id, item.name)];
                events == if ser(begun) == SerOk then begun + [EndFile(dir, item.id, item.name)] else begun
      ensures ok && Followed(item) && item.id in cache.recs && cache.recs[item.id].LinkRec? ==>
                events == old(events) + [NewLink(dir, item.id, item.name)]
      ensures ok && !(Followed(item) && item.id in cache.recs && (cache.recs[item.id].FileRec? || cache.recs[item.id].LinkRec?)) ==>
                events == old(events)
    {
      hide InBucket, Open, FramesOk, Flat, Database;
      if item.name == "." || item.name == ".." || item.id !in cache.recs { return true; }
      match cache.recs[item.id] {
        case FileRec(_) =>
          OpenSnoc(events, BeginFile(dir, item.id, item.name));
          var a := Emit(BeginFile(dir, item.id, item.name));
          if a == SerError { return false; }
          if a == SerOk {
            OpenSnoc(events, EndFile(dir, item.id, item.name));
            a := Emit(EndFile(dir, item.id, item.name));
          }
          ok := a != SerError;
        case LinkRec(_) =>
          OpenSnoc(events, NewLink(dir, item.id, item.name));
          var a := Emit(NewLink(dir, item.id, item.name));
          ok := a != SerError;
        case _ => ok := true;
      }
    }

    /** Entering a directory puts it at the end of the path. */
    method Enter(dir: Id, parent: Id)
      requires Table() && dir in cache.recs && cache.recs[dir].DirRec?
      modifies `frames, cache`log, cache.buckets
      ensures Table() && frames == old(frames) + [Frame(dir, parent, [])]
    {
      hide InBucket, TagsDescend, ListsOk;
      cache.DirEnter(dir, parent);
      EnterStep(frames, dir, parent);
      ListTags(dir);
      frames := frames + [Frame(dir, parent, [])];
    }

    /** Leaving the deepest directory removes it and the tags stored for it, and nothing else. */
    method Leave(dir: Id, ghost clean: bool)
      requires cache.Valid() && !cache.disabled
      requires clean ==> Table() && frames != [] && frames[|frames| - 1].dir == dir
      modifies `frames, cache`log, cache.buckets
      ensures cache.Valid()
      ensures clean ==> Table() && frames == old(frames)[..|old(frames)| - 1]
    {
      hide InBucket, TagsDescend, ListsOk, Removed, Flat;
      if clean {
        assert FrameOk(cache.recs, cache.lay, cache.lists, frames[|frames| - 1]);
        LeaveStep(frames);
      }
      cache.DirLeave(dir);
      if frames != [] { frames := frames[..|frames| - 1]; }
    }

    /** process_dir. */
    method ProcessDir(parent: Id, item: Item, ghost t: Tree) returns (ok: bool)
      requires Clean(events) && Inv() && frames != [] && frames[|frames| - 1].dir == parent
      requires Spans(t) && t.id == item.id
      modifies `events, `frames, cache`log, cache.buckets
      ensures ok == Clean(events) && cache.Valid()
      ensures ok ==> Inv() && frames == old(frames) && events == DirWalked(old(events), parent, item, t)
      ensures ok && ser(old(events) + [BeginDir(parent, item.id, item.name)]) != SerOk ==>
                events == old(events) + [BeginDir(parent, item.id, item.name)] + [EndDir(parent, item.id, item.name)]
      decreases t, 1
    {
      hide InBucket, FramesOk, Flat, TagsDescend, ListsOk, FrameOk, Open, Dirs, Clean, ListWalked, ItemsWalked;
      OpenBegin(events, frames, parent, item.id, item.name);
      Enter(item.id, parent);
      var a := Emit(BeginDir(parent, item.id, item.name));
      if a == SerError { return false; }
      ok := true;
      if a == SerOk {
        ok := ScanAllTags(item.id);
        if ok { ok := ScanDirectory(item.id, t); }
      }
      if ok {
        assert frames == old(frames) + [frames[|frames| - 1]];
        OpenEnd(events, old(frames), frames[|frames| - 1], parent, item.name);
      }
      Leave(item.id, ok);
      var b := Emit(EndDir(parent, item.id, item.name));
      if b == SerError { ok := false; }
    }

    /** scan_directory. */
    method ScanDirectory(dir: Id, ghost t: Tree) returns (ok: bool)
      requires Clean(events) && Inv() && frames != [] && frames[|frames| - 1].dir == dir
      requires Spans(t) && t.id == dir
      modifies `events, `frames, cache`log, cache.buckets
      ensures ok == Clean(events) && cache.Valid()
      ensures ok ==> Inv() && frames == old(frames) && events == ItemsWalked(old(events), t, |t.kids|)
      decreases t, 0
    {
      hide InBucket, FramesOk, Flat, TagsDescend, ListsOk, FrameOk, Open, Dirs, Clean;
      var items := listing[dir];
      var k: nat := 0;
      while k < |items|
        invariant k <= |items| && Clean(events) && Inv() && frames == old(frames)
        invariant events == ItemsWalked(old(events), t, k)
      {
        if Descends(items[k]) {
          ok := ProcessDir(dir, items[k], t.kids[k].value);
        } else {
          ok := ProcessOther(dir, items[k]);
        }
        if !ok { return false; }
        k := k + 1;
      }
      ok := true;
    }

    ghost function DumpWalked(t: Tree): seq<Event>
      requires Database() && Spans(t)
    {
      var e := [BeginDump(t.id)];
      (if ser(e) == SerOk then ItemsWalked(ListWalked(e, t.id), t, |t.kids|) else e) + [EndDump(t.id)]
    }

    /** process: when no call of the serialiser up to the last one fails, the table is empty at the end and
        the events are nested. */
    method Process(top: Id, ghost t: Tree)
      requires cache.Valid() && !cache.disabled && Database() && cache.log == [] && events == [] && frames == []
      requires top in cache.recs && cache.recs[top].DirRec? ==> Spans(t) && t.id == top
      modifies `events, `frames, cache`log, cache.buckets
      ensures cache.Valid()
      ensures top !in cache.recs || !cache.recs[top].DirRec? ==> events == []
      ensures top in cache.recs && cache.recs[top].DirRec? ==>
                events != [] && (Clean(events[..|events| - 1]) ==>
                  && events == DumpWalked(t) && Open(events) == Some([])
                  && forall b :: 0 <= b < BUCKETS ==> cache.buckets[b] == [])
    {
      hide FramesOk, TagsDescend, ListsOk, FrameOk, Open, Dirs, Clean, ListWalked, ItemsWalked, Block;
      if top !in cache.recs || !cache.recs[top].DirRec? { return; }
      OpenDump(top);
      NoFrames();
      Enter(top, NULL);
      var a := Emit(BeginDump(top));
      assert events == [BeginDump(top)];
      var ok := a != SerError;
      if a == SerOk {
        ok := ScanAllTags(top);
        if ok { ok := ScanDirectory(top, t); }
      }
      ghost var before := events;
      if ok { CloseDump(events, top, frames); }
      a := Emit(EndDump(top));
      assert events[..|events| - 1] == before;
      Leave(top, ok);
    }

    lemma NoFrames()
      ensures FramesOk(cache.recs, cache.lay, cache.lists, []) && Clean([])
    {
    }
  }
}
