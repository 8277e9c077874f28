/** Record IDs as words (md2ptypes.h), and their allocation over several handles of one database (md2GetIdRange in
    md2io.c, md2GetNextId in md2lib.c). */
module IdArithmetic {
  import opened Records
  import opened Stores

  const W16: nat := 0x1_0000
  const W32: nat := 0x1_0000_0000
  const W80: nat := 0x1_0000_0000_0000_0000_0000

  /** md_id_t without the database number. */
  datatype RawWide = Wide(ext: nat, high: nat, low: nat)
  type Wide = w: RawWide | w.ext < W16 && w.high < W32 && w.low < W32 witness Wide(0, 0, 0)

  function Num(w: Wide): (n: nat)
    ensures n < W80 && n == w.ext * 0x1_0000_0000_0000_0000 + w.high * 0x1_0000_0000 + w.low
  {
    w.ext * (W32 * W32) + w.high * W32 + w.low
  }

  /** mdAddID: the carry shows as a word that got smaller. */
  function AddId(w: Wide, c: nat): (r: Wide)
    requires c < W32
    ensures Num(r) == (Num(w) + c) % W80
  {
    var low := (w.low + c) % W32;
    if w.low > low then
      var high := (w.high + 1) % W32;
      if w.high > high then
        var r := Wide((w.ext + 1) % W16, high, low);
        CarryTwice(w, c, r);
        r
      else
        var r := Wide(w.ext, high, low);
        CarryOnce(w, c, r);
        r
    else
      var r := Wide(w.ext, w.high, low);
      NoCarry(w, c, r);
      r
  }

  lemma NoCarry(w: Wide, c: nat, r: Wide)
    requires c < W32 && r == Wide(w.ext, w.high, (w.low + c) % W32) && w.low <= r.low
    ensures Num(r) == (Num(w) + c) % W80
  {
  }

  lemma CarryOnce(w: Wide, c: nat, r: Wide)
    requires c < W32 && r == Wide(w.ext, (w.high + 1) % W32, (w.low + c) % W32) && w.low > r.low && w.high <= r.high
    ensures Num(r) == (Num(w) + c) % W80
  {
    assert r.low == w.low + c - W32 && r.high == w.high + 1;
  }

  lemma CarryTwice(w: Wide, c: nat, r: Wide)
    requires c < W32 && r == Wide((w.ext + 1) % W16, (w.high + 1) % W32, (w.low + c) % W32) && w.low > r.low && w.high > r.high
    ensures Num(r) == (Num(w) + c) % W80
  {
    assert r.low == w.low + c - W32 && r.high == 0 && w.high == W32 - 1;
    if w.ext + 1 < W16 {
      assert r.ext == w.ext + 1;
    } else {
      assert r.ext == 0 && Num(w) + c == W80 + r.low;
    }
  }

  /** mdSetSpecialID and mdClearSpecialID use the three lowest bits, which no issued ID has. */
  function SetSpecial(w: Wide): Wide { w.(low := w.low - w.low % 2 + 1) }
  function ClearSpecial(w: Wide): Wide { w.(low := w.low - w.low % 8) }

  lemma SpecialLossless(w: Wide)
    ensures ClearSpecial(SetSpecial(w)) == w <==> Num(w) % 8 == 0
    ensures SetSpecial(w) == w.(low := SetSpecial(w).low) && SetSpecial(w).low / 2 == w.low / 2 && SetSpecial(w).low % 2 == 1
    ensures ClearSpecial(w) == w.(low := 8 * (w.low / 8))
  {
    hide Num, SetSpecial, ClearSpecial;
    NumLow(w);
    SpecialTrip(w);
    SpecialBits(w);
  }

  lemma SpecialTrip(w: Wide)
    ensures ClearSpecial(SetSpecial(w)) == w.(low := w.low - w.low % 8) && SetSpecial(w).low % 2 == 1
  {
    SpecialLow(w.low);
  }

  lemma SpecialBits(w: Wide)
    ensures SetSpecial(w) == w.(low := SetSpecial(w).low) && SetSpecial(w).low / 2 == w.low / 2
    ensures ClearSpecial(w) == w.(low := 8 * (w.low / 8))
  {
  }

  lemma NumLow(w: Wide)
    ensures Num(w) % 8 == w.low % 8
  {
    Mod8(Num(w), w.ext * 0x2000_0000_0000_0000 + w.high * 0x2000_0000, w.low);
  }

  lemma Mod8(n: nat, k: nat, low: nat)
    requires n == 8 * k + low
    ensures n % 8 == low % 8
  {
  }

  lemma SpecialLow(low: nat)
    ensures var marked := low - low % 2 + 1; marked - marked % 8 == low - low % 8 && marked % 2 == 1
  {
    var q, r := low / 8, low % 8;
    Mod2(low, 4 * q, r);
    var m := r - r % 2 + 1;
    Mod8(8 * q + m, q, m);
    Mod2(8 * q + m, 4 * q, m);
  }

  lemma Mod2(n: nat, k: nat, low: nat)
    requires n == 2 * k + low
    ensures n % 2 == low % 2
  {
  }

  // ----- several handles -----

  /** The cached range of one open handle. */
  datatype Handle = Handle(next: Wide, count: int, inc: int)

  /** The IDs a handle has still to give out. */
  ghost predicate Holds(h: Handle, x: nat) {
    h.count > 0 && x % STEP == 0 && Num(h.next) <= x < Num(h.next) + STEP * h.count
  }

  ghost predicate HandleOk(free: nat, h: Handle) {
    h.count > 0 ==> Num(h.next) % STEP == 0 && FIRST <= Num(h.next) && Num(h.next) + STEP * h.count <= free
  }

  /** What is issued and what the handles hold is below the root's counter, and no ID is in two places. */
  ghost predicate AllOk(free: nat, handles: seq<Handle>, issued: set<nat>) {
    && free % STEP == 0 && FIRST <= free
    && (forall i :: 0 <= i < |handles| ==> HandleOk(free, handles[i]))
    && (forall i, k, x :: 0 <= i < k < |handles| && Holds(handles[i], x) ==> !Holds(handles[k], x))
    && (forall x :: x in issued ==> x % STEP == 0 && FIRST <= x < free)
    && (forall i, x :: 0 <= i < |handles| && x in issued ==> !Holds(handles[i], x))
  }

  /** A handle that holds nothing, or holds less than it did. */
  lemma FewerHeld(free: nat, handles: seq<Handle>, issued: set<nat>, i: nat, h: Handle)
    requires AllOk(free, handles, issued) && i < |handles| && HandleOk(free, h)
    requires forall x :: Holds(h, x) ==> Holds(handles[i], x)
    ensures AllOk(free, handles[i := h], issued)
  {
  }

  lemma RangeHeld(free: nat, handles: seq<Handle>, issued: set<nat>, i: nat, h: Handle, free1: nat)
    requires AllOk(free, handles, issued) && i < |handles|
    requires h.count > 0 && Num(h.next) == free && free1 == free + STEP * h.count
    ensures AllOk(free1, handles[i := h], issued)
  {
  }

  lemma IssueOne(free: nat, handles: seq<Handle>, issued: set<nat>, x: nat)
    requires AllOk(free, handles, issued) && x % STEP == 0 && FIRST <= x < free
    requires forall k :: 0 <= k < |handles| ==> !Holds(handles[k], x)
    ensures AllOk(free, handles, issued + {x})
  {
    hide Holds, HandleOk;
  }

  lemma TakeHeld(free: nat, handles: seq<Handle>, issued: set<nat>, i: nat, h: Handle)
    requires AllOk(free, handles, issued) && i < |handles| && handles[i].count > 0
    requires Num(h.next) == Num(handles[i].next) + STEP && h.count == handles[i].count - 1
    ensures AllOk(free, handles[i := h], issued + {Num(handles[i].next)})
    ensures Num(handles[i].next) !in issued && Num(handles[i].next) % STEP == 0 && FIRST <= Num(handles[i].next) < free
  {
    hide Num;
    var x := Num(handles[i].next);
    assert HandleOk(free, handles[i]) && Holds(handles[i], x) && !Holds(h, x);
    forall y | Holds(h, y) ensures Holds(handles[i], y) {}
    FewerHeld(free, handles, issued, i, h);
    var hs := handles[i := h];
    forall k | 0 <= k < |hs| ensures !Holds(hs[k], x) {
      assert k != i ==> !Holds(handles[k], x);
    }
    IssueOne(free, hs, issued, x);
  }

  class Allocator {
    var nextFree: Wide            // in the root record
    var handles: seq<Handle>
    ghost var issued: set<nat>

    ghost predicate Valid()
      reads this
    {
      AllOk(Num(nextFree), handles, issued)
    }

    constructor (n: nat)
      ensures Valid() && |handles| == n && issued == {} && Num(nextFree) == FIRST
      ensures forall i :: 0 <= i < n ==> handles[i].inc == 2
    {
      nextFree := Wide(0, 0, FIRST);
      handles := seq(n, i => Handle(Wide(0, 0, 0), 0, 2));
      issued := {};
    }

    /** md2OpenReadWrite: md2GetIdRange with range 0 leaves the handle without IDs; what it held is lost. */
    method Reopen(i: nat)
      requires Valid() && i < |handles|
      modifies this`nextFree, this`handles
      ensures Valid() && nextFree == old(nextFree) && handles == old(handles)[i := Handle(Wide(0, 0, 0), 0, 2)]
    {
      hide AllOk, Num;
      FewerHeld(Num(nextFree), handles, issued, i, Handle(Wide(0, 0, 0), 0, 2));
      handles := handles[i := Handle(Wide(0, 0, 0), 0, 2)];
      var ok := GetIdRange(i, 0);
    }

    /** md2GetIdRange: a fresh range, from the root's counter on. */
    method GetIdRange(i: nat, range: int) returns (ok: bool)
      requires i < |handles| && Valid()
      requires Num(nextFree) + STEP * range < W80
      modifies this`nextFree, this`handles
      ensures Valid() && ok == (0 < range <= 1000)
      ensures !ok ==> nextFree == old(nextFree) && handles == old(handles)[i := old(handles)[i].(count := 0)]
      ensures ok ==> Num(nextFree) == old(Num(nextFree)) + STEP * range
                     && handles == old(handles)[i := Handle(old(nextFree), range, old(handles)[i].inc)]
    {
      hide AllOk, Num;
      if range <= 0 || range > 1000 {
        FewerHeld(Num(nextFree), handles, issued, i, handles[i].(count := 0));
        handles := handles[i := handles[i].(count := 0)];
        return false;
      }
      var h := Handle(nextFree, range, handles[i].inc);
      RangeHeld(Num(nextFree), handles, issued, i, h, Num(nextFree) + STEP * range);
      handles := handles[i := h];
      nextFree := AddId(nextFree, STEP * range);
      ok := true;
    }

    /** md2GetNextId: the ID was never issued before, by no handle, and is a multiple of 8 below the root's counter. */
    method GetNextId(i: nat) returns (r: Option<Wide>)
      requires i < |handles| && Valid()
      requires Num(nextFree) + STEP * handles[i].inc < W80
      modifies this
      ensures Valid() && |handles| == old(|handles|)
      ensures forall k :: 0 <= k < |handles| ==> handles[k].inc == old(handles)[k].inc
      ensures r.None? ==> issued == old(issued)
      ensures r.None? <==> old(handles)[i].count <= 0 && !(0 < old(handles)[i].inc <= 1000)
      ensures Num(nextFree) == old(Num(nextFree)) +
                if old(handles)[i].count <= 0 && 0 < old(handles)[i].inc <= 1000 then STEP * old(handles)[i].inc else 0
      ensures r.Some? ==>
        && Num(r.value) !in old(issued) && issued == old(issued) + {Num(r.value)}
        && Num(r.value) % STEP == 0 && FIRST <= Num(r.value) < Num(nextFree)
    {
      hide AllOk, Num;
      if handles[i].count <= 0 {
        var ok := GetIdRange(i, handles[i].inc);
        if !ok { return None; }
      }
      var h := handles[i];
      var h1 := h.(next := AddId(h.next, STEP), count := h.count - 1);
      HeldBelow(Num(nextFree), handles, issued, i);
      TakeHeld(Num(nextFree), handles, issued, i, h1);
      r := Some(h.next);
      handles := handles[i := h1];
      issued := issued + {Num(h.next)};
    }
  }

  lemma HeldBelow(free: nat, handles: seq<Handle>, issued: set<nat>, i: nat)
    requires AllOk(free, handles, issued) && i < |handles| && handles[i].count > 0 && free < W80
    ensures (Num(handles[i].next) + STEP) % W80 == Num(handles[i].next) + STEP
  {
  }

  datatype Event = Take(handle: nat) | Close(handle: nat)

  /** For every interleaving of handles and re-opens, until the counter would wrap, no ID is issued twice. */
  method Interleave(n: nat, events: seq<Event>) returns (ids: seq<Wide>)
    requires FIRST + STEP * 2 * (|events| + 1) < W80
    ensures forall i, k :: 0 <= i < k < |ids| ==> ids[i] != ids[k]
    ensures forall i :: 0 <= i < |ids| ==> Num(ids[i]) % 8 == 0 && 0x1000 <= Num(ids[i])
  {
    var a := new Allocator(n);
    ids := [];
    var e: nat := 0;
    while e < |events|
      invariant e <= |events| && a.Valid() && fresh(a) && |a.handles| == n
      invariant forall i :: 0 <= i < n ==> a.handles[i].inc == 2
      invariant Num(a.nextFree) <= FIRST + STEP * 2 * e
      invariant forall i :: 0 <= i < |ids| ==> Num(ids[i]) in a.issued
      invariant forall i, k :: 0 <= i < k < |ids| ==> ids[i] != ids[k]
    {
      var h := events[e].handle;
      if h < n {
        match events[e]
        case Take(_) =>
          var id := a.GetNextId(h);
          if id.Some? { ids := ids + [id.value]; }
        case Close(_) =>
          a.Reopen(h);
      }
      e := e + 1;
    }
  }
}
