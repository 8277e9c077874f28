/** The directory iterator of md2dirs.c: a position in the nest of rows, buckets, blocks and slots that
    opens at a cookie, yields the live entries one by one, and gives a cookie for the next one. */
module DirScan {
  import opened Records
  import opened Stores
  import opened FileShapes
  import opened DirShapes
  import opened Dirs
  import opened DirList

  function BlockIndex(lay: Layout, position: nat): nat { position / lay.slots }
  function SlotIndex(lay: Layout, position: nat): nat { position % lay.slots }

  lemma IndexZero(lay: Layout)
    ensures BlockIndex(lay, 0) == 0 && SlotIndex(lay, 0) == 0
    ensures forall position: nat :: SlotIndex(lay, position) < lay.slots
  {
  }

  /** Row, column, block of the chain, slot of the block. */
  datatype Cursor = Cursor(i: nat, j: nat, k: nat, m: nat)
  datatype Live = Live(at: Cursor, item: Item)

  ghost function ChainOf(sh: DirShape, i: nat, j: nat): seq<Id> {
    if (i, j) in sh.chains then sh.chains[(i, j)] else []
  }

  ghost function ItemOf(recs: Recs, id: Id, m: nat): Item {
    ItemAt(recs, (id, m))
  }

  ghost function Here(recs: Recs, sh: DirShape, c: Cursor): seq<Live> {
    if c.k < |ChainOf(sh, c.i, c.j)| && ItemOf(recs, ChainOf(sh, c.i, c.j)[c.k], c.m).id != NULL
    then [Live(c, ItemOf(recs, ChainOf(sh, c.i, c.j)[c.k], c.m))] else []
  }

  /** The live slots at or after a position. */
  ghost function From(recs: Recs, lay: Layout, sh: DirShape, c: Cursor): seq<Live>
    decreases |sh.widths| - c.i, if c.i < |sh.widths| then sh.widths[c.i] - c.j else 0, |ChainOf(sh, c.i, c.j)| - c.k, lay.slots - c.m
  {
    if c.i >= |sh.widths| then []
    else if c.j >= sh.widths[c.i] then From(recs, lay, sh, Cursor(c.i + 1, 0, 0, 0))
    else if c.k >= |ChainOf(sh, c.i, c.j)| then From(recs, lay, sh, Cursor(c.i, c.j + 1, 0, 0))
    else if c.m >= lay.slots then From(recs, lay, sh, Cursor(c.i, c.j, c.k + 1, 0))
    else Here(recs, sh, c) + From(recs, lay, sh, c.(m := c.m + 1))
  }

  const START: Cursor := Cursor(0, 0, 0, 0)

  ghost function Lives(recs: Recs, lay: Layout, sh: DirShape): seq<Live> {
    From(recs, lay, sh, START)
  }

  ghost function Items(lives: seq<Live>): (s: seq<Item>)
    ensures |s| == |lives| && forall n :: 0 <= n < |lives| ==> s[n] == lives[n].item
  {
    seq(|lives|, n requires 0 <= n < |lives| => lives[n].item)
  }

  // ----- the iterator meets the entries in the order of the listing -----

  /** The entries before a position. */
  ghost function Before(recs: Recs, sh: DirShape, c: Cursor): seq<Item> {
    if c.i >= |sh.widths| then Listing(recs, sh)
    else RowsItems(recs, sh, c.i) + BeforeInRow(recs, sh, c)
  }

  ghost function BeforeInRow(recs: Recs, sh: DirShape, c: Cursor): seq<Item> {
    RowItems(recs, sh, c.i, c.j) +
    if c.i < |sh.widths| && c.j < sh.widths[c.i] then BeforeInChain(recs, ChainOf(sh, c.i, c.j), c.k, c.m) else []
  }

  ghost function BeforeInChain(recs: Recs, chain: seq<Id>, k: nat, m: nat): seq<Item> {
    if k >= |chain| then ChainItems(recs, chain)
    else ChainItems(recs, chain[..k]) + (if IsSlots(recs, chain[k]) && m <= |recs[chain[k]].slots.items| then LiveItems(recs[chain[k]].slots.items[..m]) else [])
  }

  ghost predicate InChain(lay: Layout, sh: DirShape, c: Cursor) {
    && c.i < |sh.widths| && c.j < sh.widths[c.i] && c.k < |ChainOf(sh, c.i, c.j)| && c.m <= lay.slots
  }

  lemma CursorFacts(recs: Recs, lay: Layout, d: DirInode, sh: DirShape, c: Cursor)
    requires DirCore(recs, lay, d, sh) && c.i < |sh.widths| && c.j < sh.widths[c.i]
    ensures (c.i, c.j) in sh.chains && ChainOf(sh, c.i, c.j) == sh.chains[(c.i, c.j)]
    ensures c.i < |sh.rows| && RowOk(recs, sh, c.i)
    ensures c.k < |ChainOf(sh, c.i, c.j)| ==>
              var id := ChainOf(sh, c.i, c.j)[c.k];
              && IsSlots(recs, id) && |recs[id].slots.items| == lay.slots
              && recs[id].slots.next == NextIn(ChainOf(sh, c.i, c.j), c.k)
  {
    assert RowOk(recs, sh, c.i);
    if c.k < |ChainOf(sh, c.i, c.j)| {
      assert ChainLinked(recs, sh, (c.i, c.j));
      BlockBounds(recs, lay, d, sh, ChainOf(sh, c.i, c.j)[c.k]);
    }
  }

  ghost predicate Proper(lay: Layout, sh: DirShape, c: Cursor) {
    c.i < |sh.widths| ==>
      && c.j <= sh.widths[c.i] && c.m <= lay.slots
      && (c.j == sh.widths[c.i] ==> c.k == 0 && c.m == 0)
      && (c.j < sh.widths[c.i] ==> c.k <= |ChainOf(sh, c.i, c.j)| && (c.k == |ChainOf(sh, c.i, c.j)| ==> c.m == 0))
  }

  lemma ChainStart(recs: Recs, chain: seq<Id>)
    ensures BeforeInChain(recs, chain, 0, 0) == []
  {
  }

  lemma NextRow(recs: Recs, sh: DirShape, c: Cursor)
    requires c.i < |sh.widths| && c.j == sh.widths[c.i]
    ensures Before(recs, sh, Cursor(c.i + 1, 0, 0, 0)) == Before(recs, sh, c)
  {
    var c1 := Cursor(c.i + 1, 0, 0, 0);
    ChainStart(recs, ChainOf(sh, c1.i, c1.j));
    assert BeforeInRow(recs, sh, c1) == [];
  }

  lemma NextColumn(recs: Recs, sh: DirShape, c: Cursor)
    requires c.i < |sh.widths| && c.j < sh.widths[c.i] && c.k == |ChainOf(sh, c.i, c.j)|
    ensures Before(recs, sh, Cursor(c.i, c.j + 1, 0, 0)) == Before(recs, sh, c)
  {
  }

  lemma NextBlock(recs: Recs, lay: Layout, d: DirInode, sh: DirShape, c: Cursor)
    requires DirCore(recs, lay, d, sh) && InChain(lay, sh, c) && c.m == lay.slots
    ensures Before(recs, sh, Cursor(c.i, c.j, c.k + 1, 0)) == Before(recs, sh, c)
  {
    hide DirCore, Listing, RowItems, RowsItems, BeforeInChain;
    CursorFacts(recs, lay, d, sh, c);
    BlockDone(recs, ChainOf(sh, c.i, c.j), c.k);
  }

  lemma BlockDone(recs: Recs, chain: seq<Id>, k: nat)
    requires k < |chain| && IsSlots(recs, chain[k])
    ensures BeforeInChain(recs, chain, k, |recs[chain[k]].slots.items|) == BeforeInChain(recs, chain, k + 1, 0)
  {
    var items := recs[chain[k]].slots.items;
    assert items[..|items|] == items;
    assert chain[..k + 1][..k] == chain[..k];
    assert ChainItems(recs, chain[..k + 1]) == ChainItems(recs, chain[..k]) + LiveItems(items);
    BeforeBlock(recs, chain, k + 1);
  }

  lemma BeforeBlock(recs: Recs, chain: seq<Id>, k: nat)
    requires k <= |chain|
    ensures BeforeInChain(recs, chain, k, 0) == ChainItems(recs, chain[..k])
  {
    hide ChainItems;
    assert chain[..|chain|] == chain;
    if k < |chain| && IsSlots(recs, chain[k]) { assert recs[chain[k]].slots.items[..0] == []; }
  }

  lemma NextSlot(recs: Recs, lay: Layout, d: DirInode, sh: DirShape, c: Cursor)
    requires DirCore(recs, lay, d, sh) && InChain(lay, sh, c) && c.m < lay.slots
    ensures Before(recs, sh, c.(m := c.m + 1)) == Before(recs, sh, c) + Items(Here(recs, sh, c))
  {
    hide DirCore, Listing, RowItems, RowsItems, Here, BeforeInChain, Items;
    CursorFacts(recs, lay, d, sh, c);
    SlotStep(recs, sh, c);
    var here := Items(Here(recs, sh, c));
    Associate(RowItems(recs, sh, c.i, c.j), BeforeInChain(recs, ChainOf(sh, c.i, c.j), c.k, c.m), here);
    Associate(RowsItems(recs, sh, c.i), BeforeInRow(recs, sh, c), here);
  }

  lemma SlotStep(recs: Recs, sh: DirShape, c: Cursor)
    requires c.k < |ChainOf(sh, c.i, c.j)| && IsSlots(recs, ChainOf(sh, c.i, c.j)[c.k])
    requires c.m < |recs[ChainOf(sh, c.i, c.j)[c.k]].slots.items|
    ensures BeforeInChain(recs, ChainOf(sh, c.i, c.j), c.k, c.m + 1) ==
            BeforeInChain(recs, ChainOf(sh, c.i, c.j), c.k, c.m) + Items(Here(recs, sh, c))
  {
    var items := recs[ChainOf(sh, c.i, c.j)[c.k]].slots.items;
    assert items[..c.m + 1][..c.m] == items[..c.m];
    assert LiveItems(items[..c.m + 1]) == LiveItems(items[..c.m]) + Items(Here(recs, sh, c));
  }

  /** From any position, the entries before it and the live slots from it on make up the listing. */
  lemma {:induction false} FromListing(recs: Recs, lay: Layout, d: DirInode, sh: DirShape, c: Cursor)
    requires DirCore(recs, lay, d, sh) && Proper(lay, sh, c)
    ensures Before(recs, sh, c) + Items(From(recs, lay, sh, c)) == Listing(recs, sh)
    decreases |sh.widths| - c.i, if c.i < |sh.widths| then sh.widths[c.i] - c.j else 0, |ChainOf(sh, c.i, c.j)| - c.k, lay.slots - c.m
  {
    hide DirCore, Before, Here, Listing;
    if c.i >= |sh.widths| {
      BeforeAll(recs, sh, c);
    } else if c.j >= sh.widths[c.i] {
      NextRow(recs, sh, c);
      FromListing(recs, lay, d, sh, Cursor(c.i + 1, 0, 0, 0));
    } else if c.k >= |ChainOf(sh, c.i, c.j)| {
      NextColumn(recs, sh, c);
      FromListing(recs, lay, d, sh, Cursor(c.i, c.j + 1, 0, 0));
    } else if c.m >= lay.slots {
      NextBlock(recs, lay, d, sh, c);
      FromListing(recs, lay, d, sh, Cursor(c.i, c.j, c.k + 1, 0));
    } else {
      NextSlot(recs, lay, d, sh, c);
      FromListing(recs, lay, d, sh, c.(m := c.m + 1));
      var rest := From(recs, lay, sh, c.(m := c.m + 1));
      assert Items(Here(recs, sh, c) + rest) == Items(Here(recs, sh, c)) + Items(rest);
    }
  }

  lemma BeforeAll(recs: Recs, sh: DirShape, c: Cursor)
    requires c.i >= |sh.widths|
    ensures Before(recs, sh, c) == Listing(recs, sh)
  {
  }

  lemma LivesListing(recs: Recs, lay: Layout, d: DirInode, sh: DirShape)
    requires DirCore(recs, lay, d, sh)
    ensures Items(Lives(recs, lay, sh)) == Listing(recs, sh)
  {
    assert Before(recs, sh, START) == [] by {
      ChainStart(recs, ChainOf(sh, 0, 0));
      if |sh.widths| > 0 { assert BeforeInRow(recs, sh, START) == []; }
    }
    hide DirCore, Before, Listing;
    FromListing(recs, lay, d, sh, START);
    assert [] + Items(Lives(recs, lay, sh)) == Items(Lives(recs, lay, sh));
  }

  lemma HereAt(recs: Recs, sh: DirShape, c: Cursor)
    ensures |Here(recs, sh, c)| <= 1 && (Here(recs, sh, c) != [] ==> Here(recs, sh, c)[0].at == c)
  {
  }

  /** From the position of a live slot on come exactly the live slots that follow it in the list. */
  lemma {:induction false} FromLive(recs: Recs, lay: Layout, sh: DirShape, c: Cursor, n: nat)
    requires n < |From(recs, lay, sh, c)|
    ensures var at := From(recs, lay, sh, c)[n].at;
            && From(recs, lay, sh, at) == From(recs, lay, sh, c)[n..]
            && InChain(lay, sh, at) && at.m < lay.slots && Here(recs, sh, at) == [From(recs, lay, sh, c)[n]]
    decreases |sh.widths| - c.i, if c.i < |sh.widths| then sh.widths[c.i] - c.j else 0, |ChainOf(sh, c.i, c.j)| - c.k, lay.slots - c.m
  {
    hide Here;
    HereAt(recs, sh, c);
    if c.j >= sh.widths[c.i] {
      FromLive(recs, lay, sh, Cursor(c.i + 1, 0, 0, 0), n);
    } else if c.k >= |ChainOf(sh, c.i, c.j)| {
      FromLive(recs, lay, sh, Cursor(c.i, c.j + 1, 0, 0), n);
    } else if c.m >= lay.slots {
      FromLive(recs, lay, sh, Cursor(c.i, c.j, c.k + 1, 0), n);
    } else {
      var here := Here(recs, sh, c);
      if n >= |here| {
        FromLive(recs, lay, sh, c.(m := c.m + 1), n - |here|);
      }
    }
  }

  ghost predicate AtOrBefore(c: Cursor, t: Cursor) {
    c.i < t.i || (c.i == t.i && (c.j < t.j || (c.j == t.j && (c.k < t.k || (c.k == t.k && c.m <= t.m)))))
  }

  /** What comes from a position on lies at or behind it. */
  lemma {:induction false} FirstBehind(recs: Recs, lay: Layout, sh: DirShape, c: Cursor)
    ensures From(recs, lay, sh, c) != [] ==> AtOrBefore(c, From(recs, lay, sh, c)[0].at)
    decreases |sh.widths| - c.i, if c.i < |sh.widths| then sh.widths[c.i] - c.j else 0, |ChainOf(sh, c.i, c.j)| - c.k, lay.slots - c.m
  {
    hide Here;
    HereAt(recs, sh, c);
    if c.i < |sh.widths| {
      if c.j >= sh.widths[c.i] {
        FirstBehind(recs, lay, sh, Cursor(c.i + 1, 0, 0, 0));
      } else if c.k >= |ChainOf(sh, c.i, c.j)| {
        FirstBehind(recs, lay, sh, Cursor(c.i, c.j + 1, 0, 0));
      } else if c.m >= lay.slots {
        FirstBehind(recs, lay, sh, Cursor(c.i, c.j, c.k + 1, 0));
      } else {
        FirstBehind(recs, lay, sh, c.(m := c.m + 1));
      }
    }
  }

  ghost predicate EndsIn(all: seq<Live>, rest: seq<Live>) {
    |rest| <= |all| && all[|all| - |rest|..] == rest
  }

  lemma EndsMore(here: seq<Live>, all: seq<Live>, rest: seq<Live>)
    requires EndsIn(all, rest)
    ensures EndsIn(here + all, rest)
  {
  }

  /** What comes from a later position on is the end of what comes from an earlier one on. */
  lemma {:induction false} LaterEnd(recs: Recs, lay: Layout, sh: DirShape, c: Cursor, t: Cursor)
    requires InChain(lay, sh, t) && t.m < lay.slots && AtOrBefore(c, t)
    ensures EndsIn(From(recs, lay, sh, c), From(recs, lay, sh, t))
    decreases |sh.widths| - c.i, if c.i < |sh.widths| then sh.widths[c.i] - c.j else 0, |ChainOf(sh, c.i, c.j)| - c.k, lay.slots - c.m
  {
    hide Here, EndsIn;
    if c == t {
      EndsSame(From(recs, lay, sh, t));
    } else if c.j >= sh.widths[c.i] {
      LaterEnd(recs, lay, sh, Cursor(c.i + 1, 0, 0, 0), t);
    } else if c.k >= |ChainOf(sh, c.i, c.j)| {
      LaterEnd(recs, lay, sh, Cursor(c.i, c.j + 1, 0, 0), t);
    } else if c.m >= lay.slots {
      LaterEnd(recs, lay, sh, Cursor(c.i, c.j, c.k + 1, 0), t);
    } else {
      LaterEnd(recs, lay, sh, c.(m := c.m + 1), t);
      EndsMore(Here(recs, sh, c), From(recs, lay, sh, c.(m := c.m + 1)), From(recs, lay, sh, t));
    }
  }

  lemma EndsSame(all: seq<Live>)
    ensures EndsIn(all, all)
  {
  }

  // ----- positions in a bucket -----

  /** The place a cookie position names in bucket (i, j). */
  ghost function Pos(lay: Layout, i: nat, j: nat, p: nat): Cursor {
    Cursor(i, j, BlockIndex(lay, p), SlotIndex(lay, p))
  }

  /** The live slots at positions [q, p) of bucket (i, j). */
  ghost function Between(recs: Recs, lay: Layout, sh: DirShape, i: nat, j: nat, q: nat, p: nat): (s: seq<Live>)
    decreases p - q
  {
    if q >= p then [] else Here(recs, sh, Pos(lay, i, j, q)) + Between(recs, lay, sh, i, j, q + 1, p)
  }

  lemma PosNext(lay: Layout, p: nat)
    ensures BlockIndex(lay, p + 1) == if SlotIndex(lay, p) + 1 == lay.slots then BlockIndex(lay, p) + 1 else BlockIndex(lay, p)
    ensures SlotIndex(lay, p + 1) == if SlotIndex(lay, p) + 1 == lay.slots then 0 else SlotIndex(lay, p) + 1
    ensures SlotIndex(lay, p) < lay.slots
  {
    var q, r := p / lay.slots, p % lay.slots;
    assert p == q * lay.slots + r;
    if r + 1 == lay.slots {
      DivModUnique(p + 1, lay.slots, q + 1, 0);
    } else {
      DivModUnique(p + 1, lay.slots, q, r + 1);
    }
  }

  /** From an earlier position of the bucket come the live slots in between, and then the rest. */
  lemma {:induction false} FromBetween(recs: Recs, lay: Layout, sh: DirShape, i: nat, j: nat, q: nat, p: nat)
    requires q <= p && i < |sh.widths| && j < sh.widths[i] && BlockIndex(lay, p) < |ChainOf(sh, i, j)|
    ensures From(recs, lay, sh, Pos(lay, i, j, q)) == Between(recs, lay, sh, i, j, q, p) + From(recs, lay, sh, Pos(lay, i, j, p))
    ensures BlockIndex(lay, q) <= BlockIndex(lay, p)
    decreases p - q
  {
    hide Here, BlockIndex, SlotIndex;
    if q < p {
      PosNext(lay, q);
      FromBetween(recs, lay, sh, i, j, q + 1, p);
      var c := Pos(lay, i, j, q);
      assert From(recs, lay, sh, c.(m := c.m + 1)) == From(recs, lay, sh, Pos(lay, i, j, q + 1));
      assert From(recs, lay, sh, c) == Here(recs, sh, c) + From(recs, lay, sh, Pos(lay, i, j, q + 1));
    }
  }

  lemma {:induction false} BetweenAt(recs: Recs, lay: Layout, sh: DirShape, i: nat, j: nat, q: nat, p: nat)
    ensures forall x :: 0 <= x < |Between(recs, lay, sh, i, j, q, p)| ==>
              Between(recs, lay, sh, i, j, q, p)[x].at.i == i && Between(recs, lay, sh, i, j, q, p)[x].at.j == j
    ensures |Between(recs, lay, sh, i, j, q, p)| <= Max(p - q, 0)
    decreases p - q
  {
    hide Here;
    if q < p {
      HereAt(recs, sh, Pos(lay, i, j, q));
      BetweenAt(recs, lay, sh, i, j, q + 1, p);
    }
  }

  lemma {:induction false} BetweenJoin(recs: Recs, lay: Layout, sh: DirShape, i: nat, j: nat, q: nat, p: nat, t: nat)
    requires q <= p <= t
    ensures Between(recs, lay, sh, i, j, q, t) == Between(recs, lay, sh, i, j, q, p) + Between(recs, lay, sh, i, j, p, t)
    decreases p - q
  {
    hide Here;
    if q < p { BetweenJoin(recs, lay, sh, i, j, q + 1, p, t); }
  }

  // ----- the iterator -----

  ghost function Opt(taken: Option<Live>): seq<Live> {
    if taken.Some? then [taken.value] else []
  }

  /** The row at row index `i` is `row`. */
  ghost predicate RowLoaded(recs: Recs, sh: DirShape, i: nat, row: seq<Id>) {
    i < |sh.rows| && RowOk(recs, sh, i) && recs[sh.rows[i]] == RowRec(row)
  }

  lemma HandlesAt(recs: Recs, lay: Layout, d: DirInode, sh: DirShape)
    requires DirCore(recs, lay, d, sh)
    ensures d.handles == sh.rows && |sh.rows| == |sh.widths|
  {
  }

  lemma RowThere(recs: Recs, lay: Layout, d: DirInode, sh: DirShape, i: nat)
    requires DirCore(recs, lay, d, sh) && i < |sh.rows|
    ensures sh.rows[i] in recs && recs[sh.rows[i]].RowRec? && RowLoaded(recs, sh, i, recs[sh.rows[i]].row)
    ensures i < |sh.widths| && 0 < |recs[sh.rows[i]].row| == sh.widths[i]
  {
    assert RowOk(recs, sh, i);
  }

  ghost predicate BlockLoaded(recs: Recs, chain: seq<Id>, k: nat, block: DirBlock) {
    k < |chain| && IsSlots(recs, chain[k]) && recs[chain[k]] == SlotsRec(block)
  }

  lemma BlockStep(recs: Recs, lay: Layout, d: DirInode, sh: DirShape, c: Cursor, block: DirBlock)
    requires DirCore(recs, lay, d, sh) && c.i < |sh.widths| && c.j < sh.widths[c.i]
    requires BlockLoaded(recs, ChainOf(sh, c.i, c.j), c.k, block)
    ensures |block.items| == lay.slots && block.next == NextIn(ChainOf(sh, c.i, c.j), c.k)
    ensures c.m < lay.slots ==>
              && From(recs, lay, sh, c) == Here(recs, sh, c) + From(recs, lay, sh, c.(m := c.m + 1))
              && Here(recs, sh, c) == if block.items[c.m].id != NULL then [Live(c, block.items[c.m])] else []
    ensures c.m == lay.slots ==> From(recs, lay, sh, c) == From(recs, lay, sh, Cursor(c.i, c.j, c.k + 1, 0))
  {
    hide DirCore;
    CursorFacts(recs, lay, d, sh, c);
  }

  /** `mdl->dir`: the position of an open directory, with the records it has loaded. */
  class DirHandle {
    var eof: bool
    var dirID: Id
    var dir: DirInode
    var row: seq<Id>
    var block: DirBlock
    var i: nat
    var j: nat
    var k: nat
    var m: nat

    constructor ()
      ensures eof
    {
      eof := true;
    }

    function At(): Cursor
      reads this`i, this`j, this`k, this`m
    {
      Cursor(i, j, k, m)
    }

    /** The slot loop of md2_dir_next: it stops at the second live slot. */
    method NextInBlock(lay: Layout, taken0: Option<Live>, ghost recs: Recs, ghost sh: DirShape, ghost all: seq<Live>)
      returns (taken: Option<Live>, ok: bool)
      requires DirCore(recs, lay, dir, sh) && i < |sh.widths| && j < sh.widths[i]
      requires BlockLoaded(recs, ChainOf(sh, i, j), k, block) && m <= lay.slots
      requires all == Opt(taken0) + From(recs, lay, sh, At())
      modifies this`m
      ensures all == Opt(taken) + From(recs, lay, sh, At())
      ensures if ok then taken.Some? && m < lay.slots && Here(recs, sh, At()) != [] else m == lay.slots
    {
      hide DirCore, From, Here;
      taken := taken0;
      while m < lay.slots
        invariant m <= lay.slots && BlockLoaded(recs, ChainOf(sh, i, j), k, block)
        invariant all == Opt(taken) + From(recs, lay, sh, At())
      {
        BlockStep(recs, lay, dir, sh, At(), block);
        if block.items[m].id != NULL {
          if taken.Some? {
            return taken, true;
          }
          taken := Some(Live(At(), block.items[m]));
        }
        ghost var rest := From(recs, lay, sh, At().(m := m + 1));
        assert [] + rest == rest;
        m := m + 1;
      }
      ok := false;
    }
  
    /** Where the scan goes on: with `hold` the position is kept, otherwise the inner counters restart. */
    ghost function AtBlock(hold: bool): Cursor
      reads this`i, this`j, this`k, this`m
    {
      if hold then At() else Cursor(i, j, k, 0)
    }

    ghost function AtColumn(hold: bool): Cursor
      reads this`i, this`j, this`k, this`m
    {
      if hold then At() else Cursor(i, j, 0, 0)
    }

    ghost function AtRow(hold: bool): Cursor
      reads this`i, this`j, this`k, this`m
    {
      if hold then At() else Cursor(i, 0, 0, 0)
    }

    /** The chain loop of md2_dir_next. */
    method NextInChain(db: Store, hold0: bool, taken0: Option<Live>, ghost sh: DirShape, ghost all: seq<Live>)
      returns (taken: Option<Live>, ok: bool)
      requires DirCore(db.recs, db.lay, dir, sh) && i < |sh.widths| && j < sh.widths[i]
      requires RowLoaded(db.recs, sh, i, row)
      requires hold0 ==> BlockLoaded(db.recs, ChainOf(sh, i, j), k, block) && m < db.lay.slots
      requires all == Opt(taken0) + From(db.recs, db.lay, sh, AtColumn(hold0))
      modifies this`k, this`m, this`block
      ensures ok ==> Stopped(db.recs, db.lay, sh, all, taken)
      ensures !ok ==> all == Opt(taken) + From(db.recs, db.lay, sh, Cursor(i, j + 1, 0, 0))
    {
      hide DirCore, From, Here;
      taken, ok := taken0, false;
      ghost var chain := ChainOf(sh, i, j);
      HeadOf(db.recs, db.lay, dir, sh, At());
      var blockID, hold := row[j], hold0;
      if blockID != NULL {
        if !hold { k := 0; }
        while blockID != NULL
          invariant k <= |chain|
          invariant hold ==> blockID != NULL && BlockLoaded(db.recs, chain, k, block) && m < db.lay.slots
          invariant !hold ==> blockID == if k < |chain| then chain[k] else NULL
          invariant all == Opt(taken) + From(db.recs, db.lay, sh, AtBlock(hold))
          decreases |chain| - k
        {
          CursorFacts(db.recs, db.lay, dir, sh, AtBlock(hold));
          if !hold {
            var r := db.Get(blockID);
            block := r.value.slots;
            m := 0;
          }
          taken, ok := NextInBlock(db.lay, taken, db.recs, sh, all);
          if ok { return; }
          BlockStep(db.recs, db.lay, dir, sh, At(), block);
          k, blockID, hold := k + 1, block.next, false;
        }
      }
      CursorFacts(db.recs, db.lay, dir, sh, Cursor(i, j, k, 0));
      ChainEnd(db.recs, db.lay, sh, Cursor(i, j, |chain|, 0));
    }

    /** The column loop of md2_dir_next. */
    method NextInRow(db: Store, hold0: bool, taken0: Option<Live>, ghost sh: DirShape, ghost all: seq<Live>)
      returns (taken: Option<Live>, ok: bool)
      requires DirCore(db.recs, db.lay, dir, sh) && i < |sh.widths|
      requires RowLoaded(db.recs, sh, i, row)
      requires hold0 ==> j < |row| && BlockLoaded(db.recs, ChainOf(sh, i, j), k, block) && m < db.lay.slots
      requires all == Opt(taken0) + From(db.recs, db.lay, sh, AtRow(hold0))
      modifies this`j, this`k, this`m, this`block
      ensures ok ==> Stopped(db.recs, db.lay, sh, all, taken)
      ensures !ok ==> j == sh.widths[i] && all == Opt(taken) + From(db.recs, db.lay, sh, Cursor(i + 1, 0, 0, 0))
    {
      hide DirCore, From, Here;
      taken, ok := taken0, false;
      var hold := hold0;
      if !hold { j := 0; }
      while j < |row|
        invariant j <= |row| && |row| == sh.widths[i]
        invariant hold ==> j < |row| && BlockLoaded(db.recs, ChainOf(sh, i, j), k, block) && m < db.lay.slots
        invariant all == Opt(taken) + From(db.recs, db.lay, sh, AtColumn(hold))
      {
        taken, ok := NextInChain(db, hold, taken, sh, all);
        if ok { return; }
        j, hold := j + 1, false;
      }
      RowEnd(db.recs, db.lay, sh, Cursor(i, j, 0, 0));
    }

    /** The row loop of md2_dir_next. */
    method Advance(db: Store, ghost sh: DirShape, ghost all: seq<Live>) returns (taken: Option<Live>, ok: bool)
      requires DirCore(db.recs, db.lay, dir, sh) && OnSlot(db.recs, db.lay, sh)
      requires all == From(db.recs, db.lay, sh, At())
      modifies this`i, this`j, this`k, this`m, this`row, this`block
      ensures ok ==> Stopped(db.recs, db.lay, sh, all, taken)
      ensures !ok ==> all == Opt(taken) && i == |sh.widths| > 0 && j == sh.widths[i - 1]
    {
      hide DirCore, From, Here, ChainOf, RowLoaded, BlockLoaded;
      HandlesAt(db.recs, db.lay, dir, sh);
      taken, ok := None, false;
      var hold := true;
      while i < |dir.handles|
        invariant i <= |dir.handles| == |sh.widths|
        invariant hold ==> OnSlot(db.recs, db.lay, sh)
        invariant !hold ==> i > 0 && j == sh.widths[i - 1]
        invariant all == Opt(taken) + From(db.recs, db.lay, sh, AtRow(hold))
      {
        if !hold {
          RowThere(db.recs, db.lay, dir, sh, i);
          var r := db.Get(dir.handles[i]);
          row := r.value.row;
        }
        taken, ok := NextInRow(db, hold, taken, sh, all);
        if ok { return; }
        i, hold := i + 1, false;
      }
      TableEnd(db.recs, db.lay, sh, AtRow(hold));
    }

    /** The row and the block of the current position are loaded. */
    ghost predicate OnSlot(recs: Recs, lay: Layout, sh: DirShape)
      reads this`i, this`j, this`k, this`m, this`row, this`block
    {
      && i < |sh.widths| && RowLoaded(recs, sh, i, row) && j < |row|
      && BlockLoaded(recs, ChainOf(sh, i, j), k, block) && m < lay.slots
    }

    /** A directory is open; unless at the end, the position is that of a live slot. */
    ghost predicate Open(recs: Recs, lay: Layout, sh: DirShape)
      reads this
    {
      && DirOk(recs, lay, dirID, sh) && dir == recs[dirID].dir
      && (!eof ==> OnSlot(recs, lay, sh) && Here(recs, sh, At()) != [])
    }

    /** The live slots still to come. */
    ghost function Rest(recs: Recs, lay: Layout, sh: DirShape): seq<Live>
      reads this
    {
      if eof then [] else From(recs, lay, sh, At())
    }

    /** md2_dir_next: the current entry; afterwards the position is that of the next one. */
    method Next(db: Store, ghost sh: DirShape) returns (item: Option<Item>)
      requires Open(db.recs, db.lay, sh)
      modifies this
      ensures Open(db.recs, db.lay, sh) && dirID == old(dirID) && dir == old(dir)
      ensures if old(Rest(db.recs, db.lay, sh)) == [] then item == None && eof
              else && item == Some(old(Rest(db.recs, db.lay, sh))[0].item)
                   && Rest(db.recs, db.lay, sh) == old(Rest(db.recs, db.lay, sh))[1..]
                   && if eof then i == |sh.widths| > 0 && j == sh.widths[i - 1]
                      else Rest(db.recs, db.lay, sh) != [] && Rest(db.recs, db.lay, sh)[0].at == At()
    {
      hide DirOk, From, Here, ChainOf, RowLoaded;
      if eof { return None; }
      OpenFacts(db.recs, db.lay, sh, this);
      ghost var all := Rest(db.recs, db.lay, sh);
      var taken, ok := Advance(db, sh, all);
      if ok {
        StoppedAt(db.recs, db.lay, sh, this, all, taken);
      } else {
        eof := true;
      }
      item := if taken.Some? then Some(taken.value.item) else None;
    }

    // ----- opening -----

    /** The slot loop of md2_dir_open, from slot `position0 % slots` on. */
    method SeekInBlock(lay: Layout, position0: nat, ghost recs: Recs, ghost sh: DirShape)
      returns (position: nat, ok: bool)
      requires DirCore(recs, lay, dir, sh) && i < |sh.widths| && j < sh.widths[i]
      requires BlockLoaded(recs, ChainOf(sh, i, j), k, block)
      modifies this`m
      ensures ok ==> m < lay.slots && Here(recs, sh, At()) != []
                     && From(recs, lay, sh, At()) == From(recs, lay, sh, Cursor(i, j, k, SlotIndex(lay, position0)))
      ensures !ok ==> position == 0 && Here(recs, sh, Cursor(i, j, k, SlotIndex(lay, position0))) == []
                      && From(recs, lay, sh, Cursor(i, j, k + 1, 0)) == From(recs, lay, sh, Cursor(i, j, k, SlotIndex(lay, position0)))
    {
      hide DirCore, From, Here, SlotIndex;
      IndexZero(lay);
      position, m := position0, SlotIndex(lay, position0);
      ghost var rest := From(recs, lay, sh, At());
      while m < lay.slots
        invariant SlotIndex(lay, position0) <= m <= lay.slots && BlockLoaded(recs, ChainOf(sh, i, j), k, block)
        invariant From(recs, lay, sh, At()) == rest
        invariant m > SlotIndex(lay, position0) ==> position == 0 && Here(recs, sh, Cursor(i, j, k, SlotIndex(lay, position0))) == []
      {
        BlockStep(recs, lay, dir, sh, At(), block);
        if block.items[m].id != NULL { return position, true; }
        position := 0;
        ghost var next := From(recs, lay, sh, At().(m := m + 1));
        assert [] + next == next;
        m := m + 1;
      }
      BlockStep(recs, lay, dir, sh, At(), block);
      ok := false;
    }

    /** The chain loop of md2_dir_open. */
    method SeekInChain(db: Store, position0: nat, ghost sh: DirShape, ghost rest: seq<Live>)
      returns (position: nat, ok: bool)
      requires DirCore(db.recs, db.lay, dir, sh) && i < |sh.widths| && j < sh.widths[i] && RowLoaded(db.recs, sh, i, row)
      modifies this`k, this`m, this`block
      ensures ok ==> OnSlot(db.recs, db.lay, sh) && Here(db.recs, sh, At()) != []
      ensures Target(db.recs, db.lay, sh, position0, i, j, rest) ==> ok && From(db.recs, db.lay, sh, At()) == rest
      ensures position0 == 0 && From(db.recs, db.lay, sh, Cursor(i, j, 0, 0)) == rest ==>
                if ok then From(db.recs, db.lay, sh, At()) == rest
                else position == 0 && From(db.recs, db.lay, sh, Cursor(i, j + 1, 0, 0)) == rest
    {
      hide DirCore, From, Here, Target, BlockIndex, SlotIndex;
      IndexZero(db.lay);
      position, ok := position0, false;
      TargetFacts(db.recs, db.lay, sh, position0, i, j, rest);
      ghost var chain := ChainOf(sh, i, j);
      HeadOf(db.recs, db.lay, dir, sh, At());
      var blockID := row[j];
      if blockID == NULL {
        ChainEnd(db.recs, db.lay, sh, Cursor(i, j, 0, 0));
        position := 0;
        return;
      }
      var posBlock := BlockIndex(db.lay, position);
      ghost var target := Target(db.recs, db.lay, sh, position0, i, j, rest);
      ghost var start := position0 == 0 && From(db.recs, db.lay, sh, Cursor(i, j, 0, 0)) == rest;
      k := 0;
      while blockID != NULL
        invariant k <= |chain| && blockID == if k < |chain| then chain[k] else NULL
        invariant target && k <= posBlock ==> position == position0
        invariant target && k > posBlock ==> position == 0 && From(db.recs, db.lay, sh, Cursor(i, j, k, 0)) == rest
        invariant start ==> position == 0 && From(db.recs, db.lay, sh, Cursor(i, j, k, 0)) == rest
        decreases |chain| - k
      {
        CursorFacts(db.recs, db.lay, dir, sh, Cursor(i, j, k, 0));
        var r := db.Get(blockID);
        block := r.value.slots;
        if posBlock <= k {
          position, ok := SeekInBlock(db.lay, position, db.recs, sh);
          if ok { return; }
        }
        k, blockID := k + 1, block.next;
      }
      CursorFacts(db.recs, db.lay, dir, sh, Cursor(i, j, k, 0));
      ChainEnd(db.recs, db.lay, sh, Cursor(i, j, |chain|, 0));
    }

    /** The column loop of md2_dir_open. */
    method SeekInRow(db: Store, column: nat, position0: nat, ghost sh: DirShape, ghost rest: seq<Live>)
      returns (position: nat, ok: bool)
      requires DirCore(db.recs, db.lay, dir, sh) && i < |sh.widths| && column < sh.widths[i] && RowLoaded(db.recs, sh, i, row)
      modifies this`j, this`k, this`m, this`block
      ensures ok ==> OnSlot(db.recs, db.lay, sh) && Here(db.recs, sh, At()) != []
      ensures Target(db.recs, db.lay, sh, position0, i, column, rest) ==> ok && From(db.recs, db.lay, sh, At()) == rest
      ensures position0 == 0 && From(db.recs, db.lay, sh, Cursor(i, column, 0, 0)) == rest ==>
                if ok then From(db.recs, db.lay, sh, At()) == rest
                else position == 0 && From(db.recs, db.lay, sh, Cursor(i + 1, 0, 0, 0)) == rest
    {
      hide DirCore, From, Here, Target;
      position, ok, j := position0, false, column;
      ghost var start := position0 == 0 && From(db.recs, db.lay, sh, Cursor(i, column, 0, 0)) == rest;
      while j < |row|
        invariant column <= j <= |row| == sh.widths[i]
        invariant Target(db.recs, db.lay, sh, position0, i, column, rest) ==> j == column && position == position0
        invariant start ==> position == 0 && From(db.recs, db.lay, sh, Cursor(i, j, 0, 0)) == rest
      {
        position, ok := SeekInChain(db, position, sh, rest);
        if ok { return; }
        j := j + 1;
      }
      RowEnd(db.recs, db.lay, sh, Cursor(i, j, 0, 0));
    }

    /** The row loop of md2_dir_open.  Rows after the first start at the same column; for a cookie this
        iterator has given out that is column 0, or the slot is found before. */
    method Seek(db: Store, hash: nat, position0: nat, ghost sh: DirShape, ghost rest: seq<Live>)
      requires DirCore(db.recs, db.lay, dir, sh) && dir.perRow > 0
      modifies this`eof, this`i, this`j, this`k, this`m, this`row, this`block
      ensures !eof ==> OnSlot(db.recs, db.lay, sh) && Here(db.recs, sh, At()) != []
      ensures hash / dir.perRow >= |sh.rows| ==> eof
      ensures SeekTarget(db.recs, db.lay, dir, sh, hash, position0, rest) ==> !eof && From(db.recs, db.lay, sh, At()) == rest
      ensures hash == 0 && position0 == 0 && rest == From(db.recs, db.lay, sh, START) ==>
                if eof then rest == [] else From(db.recs, db.lay, sh, At()) == rest
    {
      hide DirCore, From, Here, Target, RowLoaded;
      HandlesAt(db.recs, db.lay, dir, sh);
      eof, i := true, hash / dir.perRow;
      var position, ok := position0, false;
      while i < |dir.handles|
        invariant eof && hash / dir.perRow <= i
        invariant SeekTarget(db.recs, db.lay, dir, sh, hash, position0, rest) ==> i == hash / dir.perRow && position == position0
        invariant hash == 0 && position0 == 0 && rest == From(db.recs, db.lay, sh, START) ==>
                    position == 0 && i <= |sh.widths| && From(db.recs, db.lay, sh, Cursor(i, 0, 0, 0)) == rest
      {
        RowThere(db.recs, db.lay, dir, sh, i);
        var r := db.Get(dir.handles[i]);
        row := r.value.row;
        var column := hash % dir.perRow;
        if column >= |row| { return; }
        position, ok := SeekInRow(db, column, position, sh, rest);
        if ok {
          eof := false;
          return;
        }
        i := i + 1;
      }
      TableEnd(db.recs, db.lay, sh, Cursor(i, 0, 0, 0));
    }

    /** The scan has read one entry and stands at the next. */
    ghost predicate Stopped(recs: Recs, lay: Layout, sh: DirShape, all: seq<Live>, taken: Option<Live>)
      reads this`i, this`j, this`k, this`m, this`row, this`block
    {
      && taken.Some? && OnSlot(recs, lay, sh) && Here(recs, sh, At()) != []
      && all == Opt(taken) + From(recs, lay, sh, At())
    }
  }

  lemma HeadOf(recs: Recs, lay: Layout, d: DirInode, sh: DirShape, c: Cursor)
    requires DirCore(recs, lay, d, sh) && c.i < |sh.widths| && c.j < sh.widths[c.i]
    ensures c.i < |sh.rows| && RowOk(recs, sh, c.i) && |recs[sh.rows[c.i]].row| == sh.widths[c.i]
    ensures recs[sh.rows[c.i]].row[c.j] == Head(ChainOf(sh, c.i, c.j))
    ensures Head(ChainOf(sh, c.i, c.j)) == NULL <==> ChainOf(sh, c.i, c.j) == []
  {
  }

  lemma HereFirst(recs: Recs, lay: Layout, sh: DirShape, c: Cursor)
    requires c.i < |sh.widths| && c.j < sh.widths[c.i] && c.m < lay.slots && Here(recs, sh, c) != []
    ensures From(recs, lay, sh, c) != [] && From(recs, lay, sh, c)[0].at == c
  {
  }

  lemma OpenFacts(recs: Recs, lay: Layout, sh: DirShape, h: DirHandle)
    requires h.Open(recs, lay, sh)
    ensures DirCore(recs, lay, h.dir, sh)
    ensures !h.eof ==> From(recs, lay, sh, h.At()) != [] && From(recs, lay, sh, h.At())[0].at == h.At()
  {
    hide From;
    if !h.eof { HereFirst(recs, lay, sh, h.At()); }
  }

  lemma StoppedAt(recs: Recs, lay: Layout, sh: DirShape, h: DirHandle, all: seq<Live>, taken: Option<Live>)
    requires h.Stopped(recs, lay, sh, all, taken)
    ensures all[1..] == From(recs, lay, sh, h.At()) && all[1..] != [] && all[1].at == h.At() && taken == Some(all[0])
  {
  }

  /** The live slots from a position of bucket (row, column) on are `rest`, and the bucket still has one of them. */
  ghost predicate Target(recs: Recs, lay: Layout, sh: DirShape, position: nat, row: nat, column: nat, rest: seq<Live>) {
    && From(recs, lay, sh, Pos(lay, row, column, position)) == rest
    && BlockIndex(lay, position) < |ChainOf(sh, row, column)|
    && rest != [] && rest[0].at.i == row && rest[0].at.j == column
  }

  ghost predicate SeekTarget(recs: Recs, lay: Layout, d: DirInode, sh: DirShape, hash: nat, position: nat, rest: seq<Live>)
    requires d.perRow > 0
  {
    var row, column := hash / d.perRow, hash % d.perRow;
    row < |sh.widths| && column < sh.widths[row] && Target(recs, lay, sh, position, row, column, rest)
  }

  lemma TargetFacts(recs: Recs, lay: Layout, sh: DirShape, position: nat, row: nat, column: nat, rest: seq<Live>)
    ensures Target(recs, lay, sh, position, row, column, rest) ==>
              && BlockIndex(lay, position) < |ChainOf(sh, row, column)|
              && From(recs, lay, sh, Cursor(row, column, BlockIndex(lay, position), SlotIndex(lay, position))) == rest
              && From(recs, lay, sh, Cursor(row, column + 1, 0, 0)) != rest
  {
    hide From;
    FirstBehind(recs, lay, sh, Cursor(row, column + 1, 0, 0));
  }

  lemma TableEnd(recs: Recs, lay: Layout, sh: DirShape, c: Cursor)
    requires c.i >= |sh.widths|
    ensures From(recs, lay, sh, c) == []
  {
  }

  lemma RowEnd(recs: Recs, lay: Layout, sh: DirShape, c: Cursor)
    requires c.i < |sh.widths| && c.j >= sh.widths[c.i]
    ensures From(recs, lay, sh, c) == From(recs, lay, sh, Cursor(c.i + 1, 0, 0, 0))
  {
  }

  lemma ChainEnd(recs: Recs, lay: Layout, sh: DirShape, c: Cursor)
    requires c.i < |sh.widths| && c.j < sh.widths[c.i] && c.k >= |ChainOf(sh, c.i, c.j)|
    ensures From(recs, lay, sh, c) == From(recs, lay, sh, Cursor(c.i, c.j + 1, 0, 0))
  {
  }
}
