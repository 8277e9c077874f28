/** Which records an operation may change.  Every operation owns a set of record IDs and turns it
    into another one by allocating fresh IDs and deleting its own. */
module Frames {
  import opened Records

  ghost predicate Below(recs: Recs, bound: Id) {
    forall id :: id in recs ==> ROOT < id < bound
  }

  /** The records `ids1` grew out of `ids0` by IDs allocated from `bound` on; nothing else changed. */
  ghost predicate Grown(r0: Recs, v: Recs, ids0: set<Id>, ids1: set<Id>, bound: Id) {
    && SameOutside(r0, v, ids1)
    && ids0 <= ids1
    && (forall id :: id in ids1 ==> id in v && (id in ids0 || (id >= bound && id !in r0)))
  }

  lemma GrownStep(r0: Recs, v: Recs, v1: Recs, ids0: set<Id>, ids1: set<Id>, bound: Id, changed: Id, more: set<Id>)
    requires Grown(r0, v, ids0, ids1, bound) && Below(r0, bound)
    requires changed in ids1 || changed in more
    requires forall id :: id in more ==> id !in v && id >= bound && id in v1
    requires SameOutside(v, v1, {changed} + more) && (changed in v ==> changed in v1)
    ensures Grown(r0, v1, ids0, ids1 + more, bound)
  {
  }

  /** The records `ids0` were replaced by `ids1`: the ones given up are deleted, the ones gained are
      fresh, and nothing else changed. */
  ghost predicate Replaced(r0: Recs, r1: Recs, ids0: set<Id>, ids1: set<Id>, bound: Id) {
    && SameOutside(r0, r1, ids0 + ids1)
    && (forall id :: id in ids1 ==> id in r1 && (id in ids0 || (id >= bound && id !in r0)))
    && (forall id :: id in ids0 && id !in ids1 ==> id !in r1)
  }

  lemma GrownReplaced(r0: Recs, r1: Recs, ids0: set<Id>, ids1: set<Id>, bound: Id)
    requires Grown(r0, r1, ids0, ids1, bound)
    ensures Replaced(r0, r1, ids0, ids1, bound)
  {
  }

  lemma MinusMinus(r: Recs, a: set<Id>, b: set<Id>)
    ensures r - a - b == r - (a + b)
  {
  }

  lemma BelowAt(v: Recs, bound: Id, id: Id)
    requires Below(v, bound) && id in v
    ensures ROOT < id < bound
  {
  }

  lemma FreshId(v: Recs, bound: Id)
    requires Below(v, bound)
    ensures bound !in v
  {
  }

  lemma BelowUp(v: Recs, bound0: Id, bound: Id)
    requires Below(v, bound0) && bound0 <= bound
    ensures Below(v, bound)
  {
  }

  lemma BelowPut(v: Recs, bound0: Id, bound: Id, id: Id, rec: Record)
    requires Below(v, bound0) && bound0 <= bound && (id in v || ROOT < id < bound)
    ensures Below(v[id := rec], bound)
  {
  }

  lemma BelowBoth(v: Recs, v1: Recs, bound0: Id, bound: Id, a: Id, ra: Record, b: Id, rb: Record)
    requires Below(v, bound0) && bound0 <= bound && (b in v || ROOT < b < bound)
    requires v1 == v[b := rb] || (a in v && v1 == v[a := ra][b := rb])
    ensures Below(v1, bound)
  {
  }
}
