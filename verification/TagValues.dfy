/** What a tag is worth: tags inherit through parent links until a link is cut (md2tags.c). */
module TagValues {
  import opened Records
  import opened TagShapes

  /** The flags and links a tag can have.  A tag is made after its parent, so its ID is larger. */
  ghost predicate TagOk(recs: Recs, lay: Layout, id: Id)
    requires id in recs && recs[id].TagRec?
  {
    var t := recs[id].tag;
    && t.parent < id && (t.parent in recs ==> recs[t.parent].TagRec?)
    && (t.inherited ==> t.parent != NULL) && (t.invalid ==> t.parent == NULL)
    && |t.data| == lay.tagSize && t.entries <= lay.tagSize
  }

  ghost predicate TagInv(recs: Recs, lay: Layout) {
    forall id :: IsTag(recs, id) ==> TagOk(recs, lay, id)
  }

  /** The chain goes on to the parent. */
  predicate Inherits(t: TagInode) {
    t.inherited && !t.invalid
  }

  /** The tag a tag resolves to, if its chain leads to one. */
  ghost function Top(recs: Recs, id: Id): Option<Id> {
    if !IsTag(recs, id) then None
    else if !Inherits(recs[id].tag) then Some(id)
    else if recs[id].tag.parent < id then Top(recs, recs[id].tag.parent)
    else None
  }

  ghost function Own(t: TagInode): Option<seq<byte>> {
    if !t.invalid && t.entries <= |t.data| then Some(t.data[..t.entries]) else None
  }

  /** The value a tag resolves to. */
  ghost function Value(recs: Recs, id: Id): Option<seq<byte>> {
    if Top(recs, id).Some? && IsTag(recs, Top(recs, id).value) then Own(recs[Top(recs, id).value].tag) else None
  }

  /** The inheritance chain of `x` reaches `t` uncut. */
  ghost predicate Passes(recs: Recs, x: Id, t: Id) {
    IsTag(recs, x) &&
    (x == t || (Inherits(recs[x].tag) && recs[x].tag.parent < x && Passes(recs, recs[x].tag.parent, t)))
  }

  lemma {:induction false} TopIsTag(recs: Recs, lay: Layout, id: Id)
    requires TagInv(recs, lay)
    ensures Top(recs, id).Some? ==>
              IsTag(recs, Top(recs, id).value) && !Inherits(recs[Top(recs, id).value].tag) && Passes(recs, id, Top(recs, id).value)
  {
    if IsTag(recs, id) && Inherits(recs[id].tag) {
      assert TagOk(recs, lay, id);
      TopIsTag(recs, lay, recs[id].tag.parent);
    }
  }

  /** A change to tag `t` alone. */
  ghost predicate OnlyTag(r0: Recs, r1: Recs, t: Id) {
    IsTag(r0, t) && IsTag(r1, t) && SameOutside(r0, r1, {t}) && r1[t].tag.parent == r0[t].tag.parent
  }

  /** Giving a tag a value of its own changes the value of exactly the tags whose chain reaches it uncut. */
  lemma {:induction false} WriteValue(r0: Recs, r1: Recs, lay: Layout, t: Id, x: Id)
    requires TagInv(r0, lay) && OnlyTag(r0, r1, t) && !Inherits(r1[t].tag) && IsTag(r0, x)
    ensures Value(r1, x) == if Passes(r0, x, t) then Own(r1[t].tag) else Value(r0, x)
    ensures Top(r1, x) == if Passes(r0, x, t) then Some(t) else Top(r0, x)
  {
    assert TagOk(r0, lay, x);
    TopIsTag(r0, lay, x);
    if x != t && Inherits(r0[x].tag) {
      var p := r0[x].tag.parent;
      if IsTag(r0, p) {
        WriteValue(r0, r1, lay, t, p);
      } else {
        assert Top(r0, p) == None && Top(r1, p) == None;
      }
    }
  }

  /** Letting a tag inherit again gives every tag whose chain reaches it the value of its parent. */
  lemma {:induction false} InheritValue(r0: Recs, r1: Recs, lay: Layout, t: Id, x: Id)
    requires TagInv(r0, lay) && OnlyTag(r0, r1, t) && Inherits(r1[t].tag) && IsTag(r0, x)
    ensures Value(r1, x) == if Passes(r0, x, t) then Value(r0, r0[t].tag.parent) else Value(r0, x)
    ensures Top(r1, x) == if Passes(r0, x, t) then Top(r0, r0[t].tag.parent) else Top(r0, x)
  {
    assert TagOk(r0, lay, x) && TagOk(r0, lay, t);
    TopIsTag(r0, lay, x);
    if x == t {
      NotBelow(r0, r1, lay, t, r0[t].tag.parent);
    } else if Inherits(r0[x].tag) {
      var p := r0[x].tag.parent;
      if IsTag(r0, p) {
        InheritValue(r0, r1, lay, t, p);
      } else {
        assert Top(r0, p) == None && Top(r1, p) == None;
      }
    }
  }

  /** Tags made before `t` do not depend on it. */
  lemma {:induction false} NotBelow(r0: Recs, r1: Recs, lay: Layout, t: Id, x: Id)
    requires TagInv(r0, lay) && OnlyTag(r0, r1, t) && x < t
    ensures Value(r1, x) == Value(r0, x) && Top(r1, x) == Top(r0, x) && !Passes(r0, x, t)
  {
    if IsTag(r0, x) && Inherits(r0[x].tag) {
      assert TagOk(r0, lay, x);
      NotBelow(r0, r1, lay, t, r0[x].tag.parent);
    }
  }

  lemma {:induction false} PassesTop(recs: Recs, lay: Layout, t: Id, x: Id)
    requires TagInv(recs, lay) && Passes(recs, x, t) && IsTag(recs, t)
    ensures Top(recs, x) == Top(recs, t)
  {
    if x != t { PassesTop(recs, lay, t, recs[x].tag.parent); }
  }

  /** A tag that inherited, was given a value of its own and inherits again: every tag is worth what it was. */
  lemma WriteRemoveRestores(r0: Recs, r2: Recs, lay: Layout, t: Id, x: Id)
    requires TagInv(r0, lay) && OnlyTag(r0, r2, t) && Inherits(r0[t].tag) && Inherits(r2[t].tag) && IsTag(r0, x)
    ensures Value(r2, x) == Value(r0, x) && Top(r2, x) == Top(r0, x)
  {
    assert TagOk(r0, lay, t);
    InheritValue(r0, r2, lay, t, x);
    if Passes(r0, x, t) { PassesTop(r0, lay, t, x); }
  }

  /** Adding tags that no stored tag has for a parent changes no value. */
  lemma {:induction false} ValueFrame(r0: Recs, r1: Recs, lay: Layout, x: Id)
    requires TagInv(r0, lay) && IsTag(r0, x)
    requires forall id :: IsTag(r0, id) ==> IsTag(r1, id) && r1[id].tag == r0[id].tag.(next := r1[id].tag.next)
    requires forall id :: IsTag(r0, id) && IsTag(r1, r0[id].tag.parent) ==> IsTag(r0, r0[id].tag.parent)
    ensures Value(r1, x) == Value(r0, x) && Top(r1, x) == Top(r0, x)
  {
    assert TagOk(r0, lay, x);
    TopIsTag(r0, lay, x);
    if Inherits(r0[x].tag) {
      var p := r0[x].tag.parent;
      if IsTag(r0, p) {
        ValueFrame(r0, r1, lay, p);
      } else {
        assert Top(r0, p) == None && Top(r1, p) == None;
      }
    }
  }
}
