/** The key/value store behind one open database handle (md2io.c) and the allocation of new
    record IDs from a range cached in the handle (md2GetNextId, md2GetIdRange). */
module Stores {
  import opened Records
  import opened Frames

  const FIRST: Id := 0x1000
  const INCREMENT: nat := 2
  const STEP: nat := 8

  class Store {
    const lay: Layout
    var recs: Recs
    var nextFree: Id       // root record: first ID never reserved
    var rangeNext: Id      // handle: next ID of the cached range
    var rangeCount: nat    // handle: IDs left in the cached range

    /** The ID the next allocation returns. */
    ghost function Bound(): Id
      reads this`nextFree, this`rangeNext, this`rangeCount
    {
      if rangeCount > 0 then rangeNext else nextFree
    }

    ghost predicate RangeOk()
      reads this`nextFree, this`rangeNext, this`rangeCount
    {
      && nextFree % STEP == 0 && rangeNext % STEP == 0
      && (rangeCount > 0 ==> rangeNext + STEP * rangeCount == nextFree)
      && FIRST <= Bound()
    }

    /** Every record was issued by the allocator. */
    ghost predicate AllocOk()
      reads this
    {
      RangeOk() && Below(recs, Bound())
    }

    constructor (lay: Layout)
      ensures this.lay == lay && recs == map[] && AllocOk() && Bound() == 0x1000
    {
      this.lay := lay;
      recs, nextFree, rangeNext, rangeCount := map[], FIRST, NULL, 0;
    }

    method Get(id: Id) returns (r: Option<Record>)
      ensures r == if id in recs then Some(recs[id]) else None
    {
      r := if id in recs then Some(recs[id]) else None;
    }

    method Put(id: Id, r: Record)
      modifies this`recs
      ensures recs == old(recs)[id := r]
    {
      recs := recs[id := r];
    }

    method Delete(id: Id)
      modifies this`recs
      ensures recs == old(recs) - {id}
    {
      recs := recs - {id};
    }

    method NewId() returns (id: Id)
      requires RangeOk()
      modifies this`nextFree, this`rangeNext, this`rangeCount
      ensures RangeOk()
      ensures id == old(Bound()) && id % 8 == 0 && Bound() == id + 8
    {
      if rangeCount <= 0 {
        rangeNext, rangeCount := nextFree, INCREMENT;
        nextFree := nextFree + STEP * INCREMENT;
      }
      id := rangeNext;
      rangeNext, rangeCount := rangeNext + STEP, rangeCount - 1;
    }
  }
}
