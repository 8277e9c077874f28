/** Reading, writing and removing single tags (md2tags.c). */
module TagOps {
  import opened Records
  import opened Stores
  import opened TagShapes
  import opened TagValues

  /** md2GetTopTag: it ends because parents are older. */
  method GetTopTag(db: Store, id0: Id) returns (r: Option<Id>)
    requires TagInv(db.recs, db.lay) && (id0 in db.recs ==> db.recs[id0].TagRec?)
    ensures r == Top(db.recs, id0)
  {
    var id := id0;
    while id != NULL
      invariant id in db.recs ==> db.recs[id].TagRec?
      invariant Top(db.recs, id) == Top(db.recs, id0)
      decreases id
    {
      var rec := db.Get(id);
      if rec.None? { return None; }
      assert TagOk(db.recs, db.lay, id);
      var tag := rec.value.tag;
      if !tag.inherited || tag.invalid { return Some(id); }
      id := tag.parent;
    }
    r := None;
  }

  /** The tag a record in hand resolves to; None stands for the record itself. */
  ghost function TopByRec(recs: Recs, tag: TagInode): Option<Option<Id>> {
    if !Inherits(tag) then Some(None)
    else if Top(recs, tag.parent).Some? then Some(Top(recs, tag.parent))
    else None
  }

  /** md2GetTopTagByRec. */
  method GetTopTagByRec(db: Store, tag0: TagInode) returns (r: Option<TagInode>)
    requires TagInv(db.recs, db.lay) && (tag0.parent in db.recs ==> db.recs[tag0.parent].TagRec?)
    ensures r == match TopByRec(db.recs, tag0)
                 case None => None
                 case Some(None) => Some(tag0)
                 case Some(Some(id)) => if IsTag(db.recs, id) then Some(db.recs[id].tag) else None
  {
    if !tag0.inherited || tag0.invalid { return Some(tag0); }
    var id := tag0.parent;
    ghost var top := Top(db.recs, id);
    while id != NULL
      invariant id in db.recs ==> db.recs[id].TagRec?
      invariant Top(db.recs, id) == top
      decreases id
    {
      var rec := db.Get(id);
      if rec.None? { return None; }
      assert TagOk(db.recs, db.lay, id);
      var tag := rec.value.tag;
      if !tag.inherited || tag.invalid { return Some(tag); }
      id := tag.parent;
    }
    r := None;
  }

  /** md2TagUnChainLow: the tag stops inheriting. */
  method UnChain(db: Store, tag: TagInode) returns (r: Result<TagInode>)
    requires TagInv(db.recs, db.lay) && (tag.parent in db.recs ==> db.recs[tag.parent].TagRec?)
    ensures r == if !tag.inherited then Ok(tag.(invalid := false))
                 else if TopByRec(db.recs, tag) == None then Err(NotFound)
                 else Ok(tag.(inherited := false))
  {
    if tag.inherited {
      var base := GetTopTagByRec(db, tag);
      TopKinds(db.recs, db.lay, tag);
      if base.None? { return Err(NotFound); }
      r := Ok(tag.(inherited := false));
    } else {
      r := Ok(tag.(invalid := false));
    }
  }

  /** What md2TagUnChain makes of a tag: it has the value it had before it inherited. */
  function UnChained(tag: TagInode): TagInode {
    if tag.inherited then tag.(inherited := false) else tag.(invalid := false)
  }

  method UnChainTag(db: Store, id: Id) returns (r: Result<()>)
    requires TagInv(db.recs, db.lay) && IsTag(db.recs, id)
    modifies db`recs
    ensures r == if Writable(old(db.recs), id) then Ok(()) else Err(NotFound)
    ensures db.recs == if r.Ok? then old(db.recs)[id := TagRec(UnChained(old(db.recs)[id].tag))] else old(db.recs)
  {
    var rec := db.Get(id);
    assert TagOk(db.recs, db.lay, id);
    var u := UnChain(db, rec.value.tag);
    if u.Err? { return Err(u.error); }
    db.Put(id, TagRec(u.value));
    r := Ok(());
  }

  lemma UnChainedInv(r0: Recs, lay: Layout, id: Id)
    requires TagInv(r0, lay) && IsTag(r0, id)
    ensures TagInv(r0[id := TagRec(UnChained(r0[id].tag))], lay)
    ensures OnlyTag(r0, r0[id := TagRec(UnChained(r0[id].tag))], id)
  {
    var r1 := r0[id := TagRec(UnChained(r0[id].tag))];
    assert TagOk(r0, lay, id);
    forall x | IsTag(r1, x) ensures TagOk(r1, lay, x) {
      assert TagOk(r0, lay, x);
    }
  }

  /** Un-chaining a tag brings back the bytes it had of its own, for it and for the tags whose chain reaches it. */
  lemma UnChainValues(r0: Recs, lay: Layout, id: Id, x: Id)
    requires TagInv(r0, lay) && IsTag(r0, id) && IsTag(r0, x)
    ensures r0[id].tag.entries <= |r0[id].tag.data|
    ensures Value(r0[id := TagRec(UnChained(r0[id].tag))], x) ==
            if Passes(r0, x, id) then Some(r0[id].tag.data[..r0[id].tag.entries]) else Value(r0, x)
  {
    assert TagOk(r0, lay, id);
    UnChainedInv(r0, lay, id);
    WriteValue(r0, r0[id := TagRec(UnChained(r0[id].tag))], lay, id, x);
  }

  lemma TopKinds(recs: Recs, lay: Layout, tag: TagInode)
    requires TagInv(recs, lay)
    ensures Top(recs, tag.parent).Some? ==> IsTag(recs, Top(recs, tag.parent).value)
  {
    TopIsTag(recs, lay, tag.parent);
  }

  /** What a write makes of a tag: it has a value of its own, cut or padded as the code does. */
  function WrittenTag(lay: Layout, tag: TagInode, b: seq<byte>, off: nat): (t: TagInode)
    requires off < lay.tagSize && |tag.data| == lay.tagSize
    ensures var n := Min(|b|, lay.tagSize - off);
      && t.entries == off + n <= |t.data| == lay.tagSize
      && t.data[..t.entries] == tag.data[..off] + b[..n] && t.data[t.entries..] == tag.data[t.entries..]
    ensures !t.inherited && !t.invalid && t.parent == tag.parent && t.name == tag.name && t.next == tag.next && t.base == tag.base
  {
    var entries := Min(off + |b|, lay.tagSize);
    tag.(entries := entries, data := tag.data[..off] + b[..entries - off] + tag.data[entries..], inherited := false, invalid := false)
  }

  /** A write fails exactly when the tag inherits and its chain leads nowhere. */
  ghost predicate Writable(recs: Recs, id: Id) {
    IsTag(recs, id) && (Inherits(recs[id].tag) ==> Top(recs, id).Some?)
  }

  /** md2WriteTag and md2WriteTagLow.  Bytes past the end of a tag are dropped without an error, and a write
      behind the end leaves the tag as it is. */
  method WriteTag(db: Store, id: Id, b: seq<byte>, off: nat) returns (r: Result<()>)
    requires TagInv(db.recs, db.lay) && (id in db.recs ==> IsTag(db.recs, id))
    modifies db`recs
    ensures r == if id !in old(db.recs) || (off < db.lay.tagSize && !Writable(old(db.recs), id)) then Err(NotFound) else Ok(())
    ensures r.Ok? && off < db.lay.tagSize ==> db.recs == old(db.recs)[id := TagRec(WrittenTag(db.lay, old(db.recs)[id].tag, b, off))]
    ensures r.Err? || off >= db.lay.tagSize ==> db.recs == old(db.recs)
  {
    var rec := db.Get(id);
    if rec.None? { return Err(NotFound); }
    var tag := rec.value.tag;
    assert TagOk(db.recs, db.lay, id);
    if off < db.lay.tagSize {
      var entries := Min(off + |b|, db.lay.tagSize);
      ghost var tag0 := tag;
      tag := tag.(entries := entries, data := tag.data[..off] + b[..entries - off] + tag.data[entries..]);
      if tag.inherited {
        var u := UnChain(db, tag);
        if u.Err? { return Err(u.error); }
        tag := u.value;
      } else if tag.invalid {
        tag := tag.(invalid := false);
      }
      var top := GetTopTag(db, id);
      if top.None? { return Err(NotFound); }
      TopIsTag(db.recs, db.lay, id);
      if top.value != id {
        var rec := db.Get(top.value);
        db.Put(top.value, rec.value);
      }
      assert tag == WrittenTag(db.lay, tag0, b, off);
    }
    db.Put(id, TagRec(tag));
    r := Ok(());
  }

  lemma WrittenInv(r0: Recs, lay: Layout, id: Id, b: seq<byte>, off: nat)
    requires TagInv(r0, lay) && IsTag(r0, id) && off < lay.tagSize && |r0[id].tag.data| == lay.tagSize
    ensures TagInv(r0[id := TagRec(WrittenTag(lay, r0[id].tag, b, off))], lay)
    ensures OnlyTag(r0, r0[id := TagRec(WrittenTag(lay, r0[id].tag, b, off))], id)
  {
    var r1 := r0[id := TagRec(WrittenTag(lay, r0[id].tag, b, off))];
    forall x | IsTag(r1, x) ensures TagOk(r1, lay, x) {
      assert TagOk(r0, lay, x);
    }
  }

  /** Writing to a writable tag: exactly the tags whose inheritance chain reaches it uncut are worth the bytes
      before the offset and those written, as far as they fit; all others keep their value. */
  lemma WriteTagValues(r0: Recs, lay: Layout, id: Id, b: seq<byte>, off: nat, x: Id)
    requires TagInv(r0, lay) && IsTag(r0, id) && IsTag(r0, x) && off < lay.tagSize
    ensures |r0[id].tag.data| == lay.tagSize
    ensures Value(r0[id := TagRec(WrittenTag(lay, r0[id].tag, b, off))], x) ==
            if Passes(r0, x, id) then Some(r0[id].tag.data[..off] + b[..Min(|b|, lay.tagSize - off)]) else Value(r0, x)
  {
    assert TagOk(r0, lay, id);
    WrittenInv(r0, lay, id, b, off);
    WriteValue(r0, r0[id := TagRec(WrittenTag(lay, r0[id].tag, b, off))], lay, id, x);
  }

  /** What md2RemoveTag makes of a tag with a value of its own: it inherits again, or has no value. */
  function RemovedTag(tag: TagInode): TagInode {
    if tag.inherited then tag
    else if tag.parent != NULL then tag.(inherited := true, entries := 0)
    else tag.(invalid := true, entries := 0)
  }

  method RemoveTag(db: Store, id: Id) returns (r: Result<()>)
    requires id in db.recs ==> IsTag(db.recs, id)
    modifies db`recs
    ensures r == if id in old(db.recs) then Ok(()) else Err(NotFound)
    ensures db.recs == if r.Ok? then old(db.recs)[id := TagRec(RemovedTag(old(db.recs)[id].tag))] else old(db.recs)
  {
    var rec := db.Get(id);
    if rec.None? { return Err(NotFound); }
    var tag := rec.value.tag;
    if !tag.inherited {
      if tag.parent != NULL {
        tag := tag.(inherited := true, entries := 0);
      } else {
        tag := tag.(invalid := true, entries := 0);
      }
      db.Put(id, TagRec(tag));
    }
    r := Ok(());
  }

  lemma RemovedInv(r0: Recs, lay: Layout, id: Id)
    requires TagInv(r0, lay) && IsTag(r0, id)
    ensures TagInv(r0[id := TagRec(RemovedTag(r0[id].tag))], lay)
    ensures OnlyTag(r0, r0[id := TagRec(RemovedTag(r0[id].tag))], id)
  {
    var r1 := r0[id := TagRec(RemovedTag(r0[id].tag))];
    assert TagOk(r0, lay, id);
    forall x | IsTag(r1, x) ensures TagOk(r1, lay, x) {
      assert TagOk(r0, lay, x);
    }
  }

  /** Removing a tag: the tags whose chain reaches it are worth what its parent is worth, or nothing if it has
      no parent; all others keep their value. */
  lemma RemoveTagValues(r0: Recs, lay: Layout, id: Id, x: Id)
    requires TagInv(r0, lay) && IsTag(r0, id) && IsTag(r0, x)
    ensures Value(r0[id := TagRec(RemovedTag(r0[id].tag))], x) ==
            if !Passes(r0, x, id) then Value(r0, x)
            else if r0[id].tag.parent != NULL then Value(r0, r0[id].tag.parent)
            else None
  {
    assert TagOk(r0, lay, id);
    RemovedInv(r0, lay, id);
    var r1 := r0[id := TagRec(RemovedTag(r0[id].tag))];
    if Inherits(r1[id].tag) {
      InheritValue(r0, r1, lay, id, x);
    } else {
      WriteValue(r0, r1, lay, id, x);
    }
  }

  /** A removed tag with a value of its own keeps nothing of it: un-chained, it and the tags whose chain reaches it are
      worth no bytes. */
  lemma RemovedIsEmpty(r0: Recs, lay: Layout, id: Id, x: Id)
    requires TagInv(r0, lay) && IsTag(r0, id) && IsTag(r0, x) && !r0[id].tag.inherited
    ensures var r1 := r0[id := TagRec(RemovedTag(r0[id].tag))];
      && IsTag(r1, id) && r1[id].tag.entries == 0
      && Value(r1[id := TagRec(UnChained(r1[id].tag))], x) == if Passes(r0, x, id) then Some([]) else Value(r0, x)
  {
    var r1 := r0[id := TagRec(RemovedTag(r0[id].tag))];
    var r2 := r1[id := TagRec(UnChained(r1[id].tag))];
    assert TagOk(r0, lay, id);
    WriteValue(r0, r2, lay, id, x);
  }

  /** Removing a previously inherited tag after writing it restores the value of every tag. */
  lemma WriteThenRemove(r0: Recs, lay: Layout, id: Id, b: seq<byte>, off: nat, x: Id)
    requires TagInv(r0, lay) && IsTag(r0, id) && IsTag(r0, x) && Inherits(r0[id].tag) && off < lay.tagSize
    ensures |r0[id].tag.data| == lay.tagSize
    ensures Value(r0[id := TagRec(RemovedTag(WrittenTag(lay, r0[id].tag, b, off)))], x) == Value(r0, x)
  {
    assert TagOk(r0, lay, id);
    WriteRemoveRestores(r0, r0[id := TagRec(RemovedTag(WrittenTag(lay, r0[id].tag, b, off)))], lay, id, x);
  }

  datatype TagRead =
    | Bytes(data: seq<byte>)
    | Unfilled(size: nat)     // reported as read, but nothing was copied
    | BadCopy                 // memcpy with a negative length
    | Missing

  /** md2ReadTag and md2ReadTagLow: the slice of the resolved value, if the offset is not behind its end. */
  method ReadTag(db: Store, id: Id, off: nat, size: nat) returns (r: TagRead)
    requires TagInv(db.recs, db.lay) && (id in db.recs ==> IsTag(db.recs, id))
    ensures Value(db.recs, id).None? <==> r == Missing
    ensures Value(db.recs, id).Some? ==>
              var v := Value(db.recs, id).value;
              r == if off >= db.lay.tagSize then Unfilled(size)
                   else if off > |v| then BadCopy
                   else Bytes(v[off..Min(off + size, |v|)])
  {
    var rec := db.Get(id);
    if rec.None? { return Missing; }
    assert TagOk(db.recs, db.lay, id);
    TopIsTag(db.recs, db.lay, id);
    var top := GetTopTagByRec(db, rec.value.tag);
    if top.None? || top.value.invalid { return Missing; }
    assert TagOk(db.recs, db.lay, Top(db.recs, id).value);
    if off >= db.lay.tagSize { return Unfilled(size); }
    var n := Min(off + size, top.value.entries) - off;
    if n < 0 { return BadCopy; }
    r := Bytes(top.value.data[off..off + n]);
  }

  datatype TagType = Primary | Pseudo | Inherited | Invalid

  /** tag_identify_type (dump_tag.c). */
  function IdentifyType(tag: TagInode): TagType {
    if tag.parent == NULL then Primary
    else if !tag.inherited then Pseudo
    else if tag.invalid then Invalid
    else Inherited
  }

  /** The dumper's classes: a tag without a parent is primary, one that is not inherited pseudo-primary. */
  lemma Classes(tag: TagInode)
    ensures IdentifyType(tag) == Primary <==> tag.parent == NULL
    ensures IdentifyType(tag) == Pseudo <==> tag.parent != NULL && !tag.inherited
    ensures IdentifyType(tag) == Inherited <==> tag.parent != NULL && tag.inherited && !tag.invalid
  {
  }

  /** The flags never coexist, so no tag is ever classified as invalid, and the class says where the value is. */
  lemma NeverInvalid(recs: Recs, lay: Layout, id: Id)
    requires TagInv(recs, lay) && IsTag(recs, id)
    ensures IdentifyType(recs[id].tag) != Invalid && !(recs[id].tag.inherited && recs[id].tag.invalid)
    ensures IdentifyType(recs[id].tag) != Inherited <==> Top(recs, id) == Some(id)
  {
    assert TagOk(recs, lay, id);
    TopIsTag(recs, lay, id);
    if Inherits(recs[id].tag) { TopBelow(recs, lay, recs[id].tag.parent); }
  }

  lemma {:induction false} TopBelow(recs: Recs, lay: Layout, id: Id)
    requires TagInv(recs, lay)
    ensures Top(recs, id).Some? ==> Top(recs, id).value <= id
  {
    if IsTag(recs, id) && Inherits(recs[id].tag) {
      assert TagOk(recs, lay, id);
      TopBelow(recs, lay, recs[id].tag.parent);
    }
  }
}
