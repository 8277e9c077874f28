/** The tag lists of directories: finding, adding and duplicating tags (md2tags.c). */
module TagLists {
  import opened Records
  import opened Frames
  import opened Stores
  import opened FileShapes
  import opened DirShapes
  import opened TagShapes
  import opened TagValues

  /** The characters of a name that are kept. */
  function Cut(name: string): (s: string)
    ensures s == if |name| <= 61 then name else name[..61]
  {
    name[..Min(|name|, TAG_NAME)]
  }

  /** `n` is a directory with tag list `tags`, if it is there at all. */
  ghost predicate Tagged(recs: Recs, n: Id, tags: seq<Id>) {
    n in recs ==> recs[n].DirRec? && TagsOk(recs, n, recs[n].dir.tag, tags)
  }

  ghost predicate HasName(recs: Recs, tags: seq<Id>, name: string) {
    exists k :: 0 <= k < |tags| && IsTag(recs, tags[k]) && recs[tags[k]].tag.name == name
  }

  /** md2FindTag: the first tag whose kept characters are those of the name. */
  method FindTag(db: Store, dirID: Id, name: string, ghost tags: seq<Id>) returns (r: Result<Id>, ghost k: nat)
    requires Tagged(db.recs, dirID, tags)
    ensures r.Err? ==> r.error == NotFound
    ensures r.Ok? ==> dirID in db.recs && k < |tags| && r.value == tags[k] && Cut(db.recs[tags[k]].tag.name) == Cut(name)
    ensures dirID in db.recs ==>
              forall i :: 0 <= i < (if r.Ok? then k else |tags|) ==> Cut(db.recs[tags[i]].tag.name) != Cut(name)
  {
    k := 0;
    var dir := db.Get(dirID);
    if dir.None? { return Err(NotFound), k; }
    var id := dir.value.dir.tag;
    while id != NULL
      invariant k <= |tags| && id == if k < |tags| then tags[k] else NULL
      invariant forall i :: 0 <= i < k ==> Cut(db.recs[tags[i]].tag.name) != Cut(name)
      decreases |tags| - k
    {
      var tag := db.Get(id);
      if Cut(tag.value.tag.name) == Cut(name) { return Ok(id), k; }
      id, k := tag.value.tag.next, k + 1;
    }
    r := Err(NotFound);
  }

  // ----- adding -----

  /** What adding a tag at the end of the list of directory `n` does to the store. */
  ghost function WithTag(r0: Recs, n: Id, tags: seq<Id>, id: Id, tag: TagInode): Recs {
    if !(n in r0 && r0[n].DirRec?) then r0
    else if tags == [] then r0[id := TagRec(tag.(base := n))][n := DirRec(r0[n].dir.(tag := id))]
    else
      var l := tags[|tags| - 1];
      if IsTag(r0, l) then r0[id := TagRec(tag.(base := n))][l := TagRec(r0[l].tag.(next := id))] else r0
  }

  method AddTagToDirectory(db: Store, dirID: Id, id: Id, tag0: TagInode, ghost tags: seq<Id>) returns (r: Result<()>)
    requires dirID in db.recs ==> !db.recs[dirID].RowRec? && !db.recs[dirID].SlotsRec?
    requires dirID in db.recs && db.recs[dirID].DirRec? ==> TagsOk(db.recs, dirID, db.recs[dirID].dir.tag, tags)
    requires id !in db.recs
    modifies db`recs
    ensures r == if dirID !in old(db.recs) then Err(NotFound)
                 else if !old(db.recs)[dirID].DirRec? then Err(NotDirectory)
                 else if HasName(old(db.recs), tags, tag0.name) then Err(Exists)
                 else Ok(())
    ensures db.recs == if r.Ok? then WithTag(old(db.recs), dirID, tags, id, tag0) else old(db.recs)
  {
    var rec := db.Get(dirID);
    if rec.None? { return Err(NotFound); }
    if !rec.value.DirRec? { return Err(NotDirectory); }
    var dir, tag := rec.value.dir, tag0;
    if dir.tag == NULL {
      NoTags(db.recs, dirID, tags);
      dir := dir.(tag := id);
      tag := tag.(base := dirID);
      db.Put(id, TagRec(tag));
      db.Put(dirID, DirRec(dir));
    } else {
      var x := dir.tag;
      var baseId, base := NULL, tag0;
      ghost var k: nat := 0;
      while x != NULL
        invariant db.recs == old(db.recs)
        invariant k <= |tags| && x == if k < |tags| then tags[k] else NULL
        invariant k > 0 ==> baseId == tags[k - 1] && db.recs[baseId] == TagRec(base)
        invariant forall i :: 0 <= i < k ==> db.recs[tags[i]].tag.name != tag0.name
        decreases |tags| - k
      {
        var b := db.Get(x);
        baseId, base := x, b.value.tag;
        if tag.name == base.name { return Err(Exists); }
        x, k := base.next, k + 1;
      }
      base := base.(next := id);
      tag := tag.(base := dirID);
      db.Put(id, TagRec(tag));
      db.Put(baseId, TagRec(base));
    }
    r := Ok(());
  }

  lemma NoTags(recs: Recs, n: Id, tags: seq<Id>)
    requires TagsOk(recs, n, NULL, tags)
    ensures tags == []
  {
  }

  lemma WithTagList(r0: Recs, n: Id, tags: seq<Id>, id: Id, tag: TagInode)
    requires n in r0 && r0[n].DirRec? && TagsOk(r0, n, r0[n].dir.tag, tags)
    requires id !in r0 && id != NULL && tag.next == NULL
    ensures var r1 := WithTag(r0, n, tags, id, tag);
            && n in r1 && r1[n].DirRec? && r1[n].dir == r0[n].dir.(tag := r1[n].dir.tag)
            && TagsOk(r1, n, r1[n].dir.tag, tags + [id])
            && SameOutside(r0, r1, {n, id} + IdSet(tags)) && r1.Keys == r0.Keys + {id}
            && (forall x :: IsTag(r0, x) ==> IsTag(r1, x) && r1[x].tag == r0[x].tag.(next := r1[x].tag.next))
            && (forall x :: IsTag(r1, x) ==> IsTag(r0, x) || x == id)
            && IsTag(r1, id) && r1[id].tag == tag.(base := n)
  {
    var r1 := WithTag(r0, n, tags, id, tag);
    if tags != [] {
      var l := tags[|tags| - 1];
      assert IsTag(r0, l);
      assert r1 == r0[id := TagRec(tag.(base := n))][l := TagRec(r0[l].tag.(next := id))];
    }
    var tags1 := tags + [id];
    forall k | 0 <= k < |tags1|
      ensures IsTag(r1, tags1[k]) && r1[tags1[k]].tag.base == n && r1[tags1[k]].tag.next == NextIn(tags1, k)
    {
      if k < |tags| { assert IsTag(r0, tags[k]); }
    }
  }

  /** A tag as md2CreateNewTag makes it, before it is put. */
  function NewTag(lay: Layout, name: string): TagInode {
    TagInode(NULL, NULL, NULL, Cut(name), false, false, 0, Zeros(lay.tagSize))
  }

  /** md2AddNewTag and md2AddNewTagInh: with a parent, the tag inherits. */
  method AddNewTag(db: Store, dirID: Id, parent: Id, name: string, ghost tags: seq<Id>) returns (r: Result<Id>)
    requires db.AllocOk()
    requires dirID in db.recs ==> !db.recs[dirID].RowRec? && !db.recs[dirID].SlotsRec?
    requires dirID in db.recs && db.recs[dirID].DirRec? ==> TagsOk(db.recs, dirID, db.recs[dirID].dir.tag, tags)
    modifies db
    ensures db.AllocOk() && old(db.Bound()) <= db.Bound()
    ensures r == if dirID !in old(db.recs) then Err(NotFound)
                 else if !old(db.recs)[dirID].DirRec? then Err(NotDirectory)
                 else if HasName(old(db.recs), tags, Cut(name)) then Err(Exists)
                 else Ok(old(db.Bound()))
    ensures db.recs == if r.Ok? then WithTag(old(db.recs), dirID, tags, r.value, Fresh(db.lay, name, parent)) else old(db.recs)
  {
    hide Below, WithTag, TagsOk;
    ghost var r0: Recs, bound := db.recs, db.Bound();
    FreshId(r0, bound);
    var id := db.NewId();
    var tag := NewTag(db.lay, name);
    if parent != NULL {
      tag := tag.(inherited := true, parent := parent);
    }
    r := Ok(id);
    var a := AddTagToDirectory(db, dirID, id, tag, tags);
    if a.Err? { r := Err(a.error); }
    WithTagBelow(r0, db.recs, dirID, tags, id, tag, bound, db.Bound());
  }

  function Fresh(lay: Layout, name: string, parent: Id): TagInode {
    if parent == NULL then NewTag(lay, name) else NewTag(lay, name).(inherited := true, parent := parent)
  }

  lemma WithTagBelow(r0: Recs, r1: Recs, n: Id, tags: seq<Id>, id: Id, tag: TagInode, bound: Id, bound1: Id)
    requires r1 == r0 || r1 == WithTag(r0, n, tags, id, tag)
    requires Below(r0, bound) && ROOT < id == bound < bound1
    ensures Below(r1, bound1)
  {
  }

  // ----- duplicating -----

  /** A duplicate of a tag: it has the tag's name, and the tag for a parent. */
  function Copy(lay: Layout, name: string, id: Id, base: Id, next: Id): TagInode {
    TagInode(next, base, id, name, true, false, 0, Zeros(lay.tagSize))
  }

  ghost predicate Copied(r0: Recs, v: Recs, lay: Layout, to: Id, tags: seq<Id>, copies: seq<Id>) {
    && |copies| <= |tags| && Distinct(copies)
    && forall k :: 0 <= k < |copies| ==>
         && IsTag(r0, tags[k]) && IsTag(v, copies[k]) && copies[k] !in r0
         && v[copies[k]].tag == Copy(lay, r0[tags[k]].tag.name, tags[k], to, NextIn(copies, k))
  }

  /** The last copy linked to a new one. */
  ghost function NextCopy(v: Recs, copies: seq<Id>, id: Id, tag: TagInode): Recs {
    if copies == [] then v[id := TagRec(tag)]
    else
      var l := copies[|copies| - 1];
      if IsTag(v, l) then v[l := TagRec(v[l].tag.(next := id))][id := TagRec(tag)] else v
  }

  lemma CopyStep(r0: Recs, v: Recs, lay: Layout, to: Id, tags: seq<Id>, copies: seq<Id>, id: Id, bound0: Id, bound: Id)
    requires Copied(r0, v, lay, to, tags, copies) && |copies| < |tags| && IsTag(r0, tags[|copies|])
    requires Grown(r0, v, {}, IdSet(copies), bound0) && Below(r0, bound0)
    requires Below(v, bound) && id >= bound >= bound0 && id != NULL
    ensures var v1 := NextCopy(v, copies, id, Copy(lay, r0[tags[|copies|]].tag.name, tags[|copies|], to, NULL));
            Copied(r0, v1, lay, to, tags, copies + [id]) && Grown(r0, v1, {}, IdSet(copies + [id]), bound0)
  {
    var v1 := NextCopy(v, copies, id, Copy(lay, r0[tags[|copies|]].tag.name, tags[|copies|], to, NULL));
    CopiedMore(r0, v, v1, lay, to, tags, copies, id, bound);
    CopyGrown(r0, v, v1, copies, id, bound0, bound);
  }

  lemma CopiedMore(r0: Recs, v: Recs, v1: Recs, lay: Layout, to: Id, tags: seq<Id>, copies: seq<Id>, id: Id, bound: Id)
    requires Copied(r0, v, lay, to, tags, copies) && |copies| < |tags| && IsTag(r0, tags[|copies|])
    requires Below(v, bound) && id >= bound && id != NULL && id !in r0
    requires v1 == NextCopy(v, copies, id, Copy(lay, r0[tags[|copies|]].tag.name, tags[|copies|], to, NULL))
    ensures Copied(r0, v1, lay, to, tags, copies + [id])
  {
    hide Zeros;
    forall k | 0 <= k < |copies| ensures copies[k] < id && IsTag(v, copies[k]) {}
  }

  lemma CopyGrown(r0: Recs, v: Recs, v1: Recs, copies: seq<Id>, id: Id, bound0: Id, bound: Id)
    requires Grown(r0, v, {}, IdSet(copies), bound0) && Below(r0, bound0) && id >= bound0
    requires exists tag :: v1 == NextCopy(v, copies, id, tag)
    requires copies != [] ==> IsTag(v, copies[|copies| - 1])
    ensures Grown(r0, v1, {}, IdSet(copies + [id]), bound0)
  {
  }

  lemma CopyNone(r0: Recs, lay: Layout, to: Id, tags: seq<Id>, bound: Id)
    ensures Copied(r0, r0, lay, to, tags, []) && Grown(r0, r0, {}, IdSet([]), bound)
  {
  }

  /** The copies with the directory inode that points to them. */
  lemma CopyDone(r0: Recs, v: Recs, lay: Layout, to: Id, tags: seq<Id>, copies: seq<Id>, rec: Record, bound: Id)
    requires Copied(r0, v, lay, to, tags, copies) && Grown(r0, v, {}, IdSet(copies), bound) && to in r0
    ensures Copied(r0, v[to := rec], lay, to, tags, copies)
    ensures Grown(r0, v[to := rec], {to}, {to} + IdSet(copies), bound)
  {
  }

  /** The store as it will be once the last copy, still in hand, is put. */
  ghost predicate Held(recs: Recs, v: Recs, copies: seq<Id>, lastId: Id, last: TagInode) {
    if copies == [] then v == recs && lastId == NULL
    else lastId == copies[|copies| - 1] && lastId != NULL && v == recs[lastId := TagRec(last)]
  }

  lemma HeldNext(recs: Recs, v: Recs, copies: seq<Id>, lastId: Id, last: TagInode, id: Id, tag: TagInode)
    requires Held(recs, v, copies, lastId, last) && id !in v && id != NULL
    ensures Held(if lastId == NULL then recs else recs[lastId := TagRec(last.(next := id))],
                 NextCopy(v, copies, id, tag), copies + [id], id, tag)
  {
  }

  /** The tags of the source are in place while the copies are made. */
  lemma SourceStill(r0: Recs, recs: Recs, v: Recs, lay: Layout, n: Id, to: Id, tags: seq<Id>, copies: seq<Id>,
                    lastId: Id, last: TagInode, bound: Id)
    requires Tagged(r0, n, tags) && n in r0
    requires Copied(r0, v, lay, to, tags, copies) && Grown(r0, v, {}, IdSet(copies), bound)
    requires Held(recs, v, copies, lastId, last)
    ensures |copies| < |tags| ==>
              var id := tags[|copies|];
              IsTag(r0, id) && id in recs && recs[id] == r0[id] && recs[id].TagRec? && recs[id].tag.next == NextIn(tags, |copies|)
  {
  }

  /** md2DuplicateTags: a list of fresh tags in the order of the source, each stored with its final link. */
  method DuplicateTags(db: Store, fromID: Id, toID: Id, ghost tags: seq<Id>) returns (r: Result<()>, ghost copies: seq<Id>)
    requires db.AllocOk() && Tagged(db.recs, fromID, tags)
    requires toID in db.recs ==> db.recs[toID].DirRec? && toID != NULL
    modifies db
    ensures db.AllocOk() && old(db.Bound()) <= db.Bound()
    ensures r == if fromID !in old(db.recs) || toID !in old(db.recs) then Err(NotFound)
                 else if old(db.recs)[toID].dir.tag != NULL then Err(Exists)
                 else Ok(())
    ensures r.Err? ==> db.recs == old(db.recs)
    ensures r.Ok? ==>
      && Copied(old(db.recs), db.recs, db.lay, toID, tags, copies) && |copies| == |tags|
      && Grown(old(db.recs), db.recs, {toID}, {toID} + IdSet(copies), old(db.Bound()))
      && toID in db.recs && db.recs[toID] == DirRec(old(db.recs)[toID].dir.(tag := Head(copies)))
  {
    hide Below, Grown, Copied, IdSet, Copy, Held, NextCopy, Tagged;
    copies := [];
    var from := db.Get(fromID);
    if from.None? { return Err(NotFound), copies; }
    var to := db.Get(toID);
    if to.None? { return Err(NotFound), copies; }
    if to.value.dir.tag != NULL { return Err(Exists), copies; }
    ghost var r0: Recs, v: Recs, bound := db.recs, db.recs, db.Bound();
    TagHead(r0, fromID, tags);
    CopyNone(r0, db.lay, toID, tags, bound);
    var dir := to.value.dir;
    var id, lastId, last := from.value.dir.tag, NULL, NewTag(db.lay, "");
    HeldNone(r0, last);
    while id != NULL
      invariant db.RangeOk() && bound <= db.Bound() && Below(v, db.Bound())
      invariant |copies| <= |tags| && id == if |copies| < |tags| then tags[|copies|] else NULL
      invariant Copied(r0, v, db.lay, toID, tags, copies) && Grown(r0, v, {}, IdSet(copies), bound)
      invariant Held(db.recs, v, copies, lastId, last)
      invariant dir == to.value.dir.(tag := Head(copies))
      decreases |tags| - |copies|
    {
      SourceStill(r0, db.recs, v, db.lay, fromID, toID, tags, copies, lastId, last, bound);
      var tag := db.Get(id);
      ghost var now := db.Bound();
      FreshId(v, now);
      var newId := db.NewId();
      var newTag := Copy(db.lay, tag.value.tag.name, id, toID, NULL);
      CopyStep(r0, v, db.lay, toID, tags, copies, newId, bound, now);
      HeldNext(db.recs, v, copies, lastId, last, newId, newTag);
      NextBelow(v, NextCopy(v, copies, newId, newTag), copies, newId, newTag, now, db.Bound());
      HeldLast(db.recs, v, copies, lastId, last);
      if lastId == NULL {
        dir := dir.(tag := newId);
      } else {
        last := last.(next := newId);
        db.Put(lastId, TagRec(last));
      }
      v, copies := NextCopy(v, copies, newId, newTag), copies + [newId];
      lastId, last := newId, newTag;
      id := tag.value.tag.next;
    }
    SourceStill(r0, db.recs, v, db.lay, fromID, toID, tags, copies, lastId, last, bound);
    HeldLast(db.recs, v, copies, lastId, last);
    if lastId != NULL {
      db.Put(lastId, TagRec(last));
    }
    db.Put(toID, DirRec(dir));
    CopyDone(r0, v, db.lay, toID, tags, copies, DirRec(dir), bound);
    BelowDir(r0, v, copies, toID, DirRec(dir), bound, db.Bound());
    r := Ok(());
  }

  lemma TagHead(recs: Recs, n: Id, tags: seq<Id>)
    requires Tagged(recs, n, tags) && n in recs
    ensures recs[n].DirRec? && recs[n].dir.tag == Head(tags) && (Head(tags) == NULL ==> tags == [])
  {
  }

  lemma HeldNone(recs: Recs, last: TagInode)
    ensures Held(recs, recs, [], NULL, last)
  {
  }

  lemma HeldLast(recs: Recs, v: Recs, copies: seq<Id>, lastId: Id, last: TagInode)
    requires Held(recs, v, copies, lastId, last)
    ensures lastId == NULL <==> copies == []
    ensures v == if lastId == NULL then recs else recs[lastId := TagRec(last)]
  {
  }

  lemma NextBelow(v: Recs, v1: Recs, copies: seq<Id>, id: Id, tag: TagInode, now: Id, bound: Id)
    requires v1 == NextCopy(v, copies, id, tag) && Below(v, now) && ROOT < id == now < bound
    ensures Below(v1, bound)
  {
  }

  lemma BelowDir(r0: Recs, v: Recs, copies: seq<Id>, to: Id, rec: Record, bound0: Id, bound: Id)
    requires Below(v, bound) && Grown(r0, v, {}, IdSet(copies), bound0) && to in r0 && bound0 <= bound && Below(r0, bound0)
    ensures Below(v[to := rec], bound)
  {
  }

  // ----- values -----

  /** A new tag: it has no value of its own yet, and its parent, if any, is a stored tag. */
  ghost predicate NewTagOk(r0: Recs, r1: Recs, lay: Layout, x: Id, bound: Id) {
    IsTag(r1, x) ==>
      var t := r1[x].tag;
      && x !in r0 && x >= bound && !t.invalid && |t.data| == lay.tagSize && t.entries <= lay.tagSize
      && if t.inherited then IsTag(r0, t.parent) else t.parent == NULL
  }

  ghost predicate OldTags(r0: Recs, r1: Recs) {
    forall x :: IsTag(r0, x) ==> IsTag(r1, x) && r1[x].tag == r0[x].tag.(next := r1[x].tag.next)
  }

  /** New tags whose parents are stored tags: the invariant holds, and no stored tag changes its value. */
  lemma NewTagsInv(r0: Recs, r1: Recs, lay: Layout, bound: Id)
    requires TagInv(r0, lay) && Below(r0, bound) && bound > ROOT && OldTags(r0, r1)
    requires forall x: Id :: !IsTag(r0, x) ==> NewTagOk(r0, r1, lay, x, bound)
    requires forall x: Id :: x in r1 && x !in r0 ==> x >= bound
    ensures TagInv(r1, lay)
    ensures forall x :: IsTag(r0, x) ==> Value(r1, x) == Value(r0, x) && Top(r1, x) == Top(r0, x)
  {
    forall x | IsTag(r1, x) ensures TagOk(r1, lay, x) {
      if IsTag(r0, x) {
        assert TagOk(r0, lay, x);
        var p := r0[x].tag.parent;
        assert p in r0 ==> IsTag(r0, p);
      }
    }
    forall x | IsTag(r0, x) && IsTag(r1, r0[x].tag.parent) ensures IsTag(r0, r0[x].tag.parent) {
      assert TagOk(r0, lay, x);
    }
    forall x | IsTag(r0, x) ensures Value(r1, x) == Value(r0, x) && Top(r1, x) == Top(r0, x) {
      ValueFrame(r0, r1, lay, x);
    }
  }

  lemma CopiedTags(r0: Recs, r1: Recs, lay: Layout, to: Id, tags: seq<Id>, copies: seq<Id>, bound: Id)
    requires Copied(r0, r1, lay, to, tags, copies) && to in r0 && r0[to].DirRec? && to in r1 && r1[to].DirRec?
    requires Grown(r0, r1, {to}, {to} + IdSet(copies), bound)
    ensures OldTags(r0, r1)
    ensures forall x: Id :: !IsTag(r0, x) ==> NewTagOk(r0, r1, lay, x, bound)
    ensures forall x: Id :: x in r1 && x !in r0 ==> x >= bound
    ensures forall k :: 0 <= k < |copies| ==> copies[k] >= bound
  {
    assert forall x: Id :: x in IdSet(copies) <==> x in copies;
    forall x: Id | !IsTag(r0, x) ensures NewTagOk(r0, r1, lay, x, bound) {
      if IsTag(r1, x) && x in copies {
        var k :| 0 <= k < |copies| && copies[k] == x;
      }
    }
    forall k | 0 <= k < |copies| ensures copies[k] >= bound {
      assert copies[k] in {to} + IdSet(copies) && copies[k] !in r0;
    }
  }

  /** Every duplicate resolves to what its original resolves to; all stored tags keep their values. */
  lemma DuplicatedValues(r0: Recs, r1: Recs, lay: Layout, to: Id, tags: seq<Id>, copies: seq<Id>, bound: Id)
    requires TagInv(r0, lay) && Below(r0, bound) && bound > ROOT
    requires Copied(r0, r1, lay, to, tags, copies) && to in r0 && r0[to].DirRec? && to in r1 && r1[to].DirRec?
    requires Grown(r0, r1, {to}, {to} + IdSet(copies), bound)
    ensures TagInv(r1, lay)
    ensures forall x :: IsTag(r0, x) ==> Value(r1, x) == Value(r0, x)
    ensures forall k :: 0 <= k < |copies| ==> Value(r1, copies[k]) == Value(r0, tags[k])
  {
    hide Grown, IdSet, NewTagOk, OldTags, Zeros, TagInv;
    CopiedTags(r0, r1, lay, to, tags, copies, bound);
    NewTagsInv(r0, r1, lay, bound);
    forall k | 0 <= k < |copies| ensures Value(r1, copies[k]) == Value(r0, tags[k]) {
      assert Inherits(r1[copies[k]].tag) && r1[copies[k]].tag.parent == tags[k] && tags[k] < copies[k];
      assert Top(r1, copies[k]) == Top(r1, tags[k]);
    }
  }
}
