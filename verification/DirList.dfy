/** The order in which directory scans meet the entries: bucket by bucket, block by block, slot by
    slot.  The list holds every entry exactly once. */
module DirList {
  import opened Records
  import opened Stores
  import opened FileShapes
  import opened DirShapes
  import opened Dirs

  // ----- the list -----

  ghost function LiveItems(items: seq<Item>): seq<Item> {
    if items == [] then []
    else
      var l := |items| - 1;
      LiveItems(items[..l]) + (if items[l].id != NULL then [items[l]] else [])
  }

  ghost function ChainItems(recs: Recs, chain: seq<Id>): seq<Item> {
    if chain == [] then []
    else
      var l := |chain| - 1;
      ChainItems(recs, chain[..l]) + (if IsSlots(recs, chain[l]) then LiveItems(recs[chain[l]].slots.items) else [])
  }

  /** The first `c` buckets of row `r`. */
  ghost function RowItems(recs: Recs, sh: DirShape, r: nat, c: nat): seq<Item> {
    if c == 0 then []
    else RowItems(recs, sh, r, c - 1) + (if (r, c - 1) in sh.chains then ChainItems(recs, sh.chains[(r, c - 1)]) else [])
  }

  /** The first `r` rows. */
  ghost function RowsItems(recs: Recs, sh: DirShape, r: nat): seq<Item>
    requires r <= |sh.widths|
  {
    if r == 0 then [] else RowsItems(recs, sh, r - 1) + RowItems(recs, sh, r - 1, sh.widths[r - 1])
  }

  ghost function Listing(recs: Recs, sh: DirShape): seq<Item> {
    RowsItems(recs, sh, |sh.widths|)
  }

  // ----- every entry exactly once -----

  ghost function NamesOf(list: seq<Item>): set<Name> {
    set i | 0 <= i < |list| :: list[i].name
  }

  /** `list` holds each name of `names` once, with the item its slot holds. */
  ghost predicate Lists(recs: Recs, sh: DirShape, list: seq<Item>, names: set<Name>) {
    && NamesOf(list) == names
    && (forall i, j :: 0 <= i < j < |list| ==> list[i].name != list[j].name)
    && forall i :: 0 <= i < |list| ==> list[i].name in sh.slot && list[i] == ItemAt(recs, sh.slot[list[i].name])
  }

  lemma ListsJoin(recs: Recs, sh: DirShape, list0: seq<Item>, names0: set<Name>, list1: seq<Item>, names1: set<Name>, names: set<Name>)
    requires Lists(recs, sh, list0, names0) && Lists(recs, sh, list1, names1)
    requires names0 !! names1 && names == names0 + names1
    ensures Lists(recs, sh, list0 + list1, names)
  {
    var list := list0 + list1;
    assert forall i :: 0 <= i < |list0| ==> list0[i].name in NamesOf(list0);
    assert forall i :: 0 <= i < |list1| ==> list1[i].name in NamesOf(list1);
    forall name ensures name in NamesOf(list) <==> name in names {
      if name in names0 {
        var i :| 0 <= i < |list0| && list0[i].name == name;
        assert list[i].name == name;
      }
      if name in names1 {
        var i :| 0 <= i < |list1| && list1[i].name == name;
        assert list[|list0| + i].name == name;
      }
    }
  }

  ghost function BlockNames(sh: DirShape, id: Id, k: nat): set<Name> {
    set name | name in sh.slot && sh.slot[name].0 == id && sh.slot[name].1 < k
  }

  ghost function ChainNames(sh: DirShape, chain: seq<Id>): set<Name> {
    set name | name in sh.slot && sh.slot[name].0 in chain
  }

  ghost function RowNames(sh: DirShape, r: nat, c: nat): set<Name> {
    set name | name in sh.slot && sh.slot[name].0 in sh.home && sh.home[sh.slot[name].0].0 == r && sh.home[sh.slot[name].0].1 < c
  }

  ghost function RowsNames(sh: DirShape, r: nat): set<Name> {
    set name | name in sh.slot && sh.slot[name].0 in sh.home && sh.home[sh.slot[name].0].0 < r
  }

  lemma {:induction false} BlockLists(recs: Recs, lay: Layout, d: DirInode, sh: DirShape, id: Id, k: nat)
    requires SlotsOk(recs, lay, d, sh) && id in sh.home && k <= lay.slots
    ensures BlockOk(recs, lay, d, sh, id)
    ensures Lists(recs, sh, LiveItems(recs[id].slots.items[..k]), BlockNames(sh, id, k))
  {
    hide BucketOf, Lists, NamesOf;
    assert BlockOk(recs, lay, d, sh, id);
    if k == 0 {
      NothingLists(recs, sh);
      NoBlockNames(sh, id);
    }
    var items := recs[id].slots.items;
    if k > 0 {
      BlockLists(recs, lay, d, sh, id, k - 1);
      assert items[..k][..k - 1] == items[..k - 1];
      var item := items[k - 1];
      BlockNamesStep(recs, lay, d, sh, id, k);
      if SlotLive(recs[id].slots, k - 1) {
        OneLists(recs, sh, item);
        ListsJoin(recs, sh, LiveItems(items[..k - 1]), BlockNames(sh, id, k - 1), [item], {item.name}, BlockNames(sh, id, k));
      } else {
        assert LiveItems(items[..k]) == LiveItems(items[..k - 1]) && BlockNames(sh, id, k) == BlockNames(sh, id, k - 1);
      }
    }
  }

  lemma BlockNamesStep(recs: Recs, lay: Layout, d: DirInode, sh: DirShape, id: Id, k: nat)
    requires SlotsOk(recs, lay, d, sh) && id in sh.home && 0 < k <= lay.slots && BlockOk(recs, lay, d, sh, id)
    ensures var block := recs[id].slots;
            var more := if SlotLive(block, k - 1) then {block.items[k - 1].name} else {};
            BlockNames(sh, id, k) == BlockNames(sh, id, k - 1) + more && BlockNames(sh, id, k - 1) !! more
  {
  }

  lemma {:induction false} ChainLists(recs: Recs, lay: Layout, d: DirInode, sh: DirShape, chain: seq<Id>)
    requires SlotsOk(recs, lay, d, sh) && Distinct(chain) && forall id :: id in chain ==> id in sh.home
    ensures Lists(recs, sh, ChainItems(recs, chain), ChainNames(sh, chain))
  {
    hide SlotsOk, Lists, BlockOk;
    if chain == [] {
      NothingLists(recs, sh);
      assert ChainNames(sh, chain) == {};
    } else {
      var l := |chain| - 1;
      var id := chain[l];
      assert chain[..l] + [id] == chain;
      ChainLists(recs, lay, d, sh, chain[..l]);
      BlockWhole(recs, lay, d, sh, id);
      ListsJoin(recs, sh, ChainItems(recs, chain[..l]), ChainNames(sh, chain[..l]),
                LiveItems(recs[id].slots.items), BlockNames(sh, id, lay.slots), ChainNames(sh, chain));
    }
  }

  lemma OneLists(recs: Recs, sh: DirShape, item: Item)
    requires item.name in sh.slot && item == ItemAt(recs, sh.slot[item.name])
    ensures Lists(recs, sh, [item], {item.name})
  {
    assert [item][0].name in NamesOf([item]);
  }

  lemma NoBlockNames(sh: DirShape, id: Id)
    ensures BlockNames(sh, id, 0) == {}
  {
  }

  lemma NothingLists(recs: Recs, sh: DirShape)
    ensures Lists(recs, sh, [], {})
  {
  }

  lemma BlockWhole(recs: Recs, lay: Layout, d: DirInode, sh: DirShape, id: Id)
    requires SlotsOk(recs, lay, d, sh) && id in sh.home
    ensures IsSlots(recs, id) && Lists(recs, sh, LiveItems(recs[id].slots.items), BlockNames(sh, id, lay.slots))
    ensures forall name :: name in sh.slot && sh.slot[name].0 == id ==> name in BlockNames(sh, id, lay.slots)
  {
    hide Lists, BucketOf;
    BlockLists(recs, lay, d, sh, id, lay.slots);
    assert recs[id].slots.items[..lay.slots] == recs[id].slots.items;
    forall name | name in sh.slot && sh.slot[name].0 == id ensures name in BlockNames(sh, id, lay.slots) {
      assert SlotOk(recs, sh, name);
    }
  }

  lemma {:induction false} RowLists(recs: Recs, lay: Layout, d: DirInode, sh: DirShape, r: nat, c: nat)
    requires DirCore(recs, lay, d, sh) && r < |sh.widths| && c <= sh.widths[r]
    ensures Lists(recs, sh, RowItems(recs, sh, r, c), RowNames(sh, r, c))
  {
    hide DirCore, Lists;
    if c == 0 {
      NothingLists(recs, sh);
      assert RowNames(sh, r, c) == {};
    } else {
      RowLists(recs, lay, d, sh, r, c - 1);
      BucketLists(recs, lay, d, sh, (r, c - 1));
      ListsJoin(recs, sh, RowItems(recs, sh, r, c - 1), RowNames(sh, r, c - 1),
                ChainItems(recs, sh.chains[(r, c - 1)]), ChainNames(sh, sh.chains[(r, c - 1)]), RowNames(sh, r, c));
    }
  }

  lemma BucketLists(recs: Recs, lay: Layout, d: DirInode, sh: DirShape, b: Bucket)
    requires DirCore(recs, lay, d, sh) && InTable(sh.widths, b)
    ensures b in sh.chains && Lists(recs, sh, ChainItems(recs, sh.chains[b]), ChainNames(sh, sh.chains[b]))
    ensures forall name :: name in sh.slot ==>
              sh.slot[name].0 in sh.home && (name in ChainNames(sh, sh.chains[b]) <==> sh.home[sh.slot[name].0] == b)
  {
    hide Lists, BucketOf;
    assert RowOk(recs, sh, b.0) && b in sh.chains;
    assert ChainLinked(recs, sh, b);
    ChainLists(recs, lay, d, sh, sh.chains[b]);
    forall name | name in sh.slot
      ensures sh.slot[name].0 in sh.home && (name in ChainNames(sh, sh.chains[b]) <==> sh.home[sh.slot[name].0] == b)
    {
      assert SlotOk(recs, sh, name);
    }
  }

  lemma {:induction false} RowsLists(recs: Recs, lay: Layout, d: DirInode, sh: DirShape, r: nat)
    requires DirCore(recs, lay, d, sh) && r <= |sh.widths|
    ensures Lists(recs, sh, RowsItems(recs, sh, r), RowsNames(sh, r))
  {
    hide DirCore, Lists;
    if r == 0 {
      NothingLists(recs, sh);
      assert RowsNames(sh, r) == {};
    } else {
      RowsLists(recs, lay, d, sh, r - 1);
      RowLists(recs, lay, d, sh, r - 1, sh.widths[r - 1]);
      RowWhole(recs, lay, d, sh);
      ListsJoin(recs, sh, RowsItems(recs, sh, r - 1), RowsNames(sh, r - 1),
                RowItems(recs, sh, r - 1, sh.widths[r - 1]), RowNames(sh, r - 1, sh.widths[r - 1]), RowsNames(sh, r));
    }
  }

  lemma RowWhole(recs: Recs, lay: Layout, d: DirInode, sh: DirShape)
    requires DirCore(recs, lay, d, sh)
    ensures forall name :: name in sh.slot ==> sh.slot[name].0 in sh.home && InTable(sh.widths, sh.home[sh.slot[name].0])
  {
  }

  /** A scan meets every entry exactly once: the list has no name twice, and its names and items are
      those of the map. */
  lemma ListingComplete(recs: Recs, lay: Layout, n: Id, sh: DirShape)
    requires DirOk(recs, lay, n, sh)
    ensures forall i, j :: 0 <= i < j < |Listing(recs, sh)| ==> Listing(recs, sh)[i].name != Listing(recs, sh)[j].name
    ensures forall i :: 0 <= i < |Listing(recs, sh)| ==>
              var item := Listing(recs, sh)[i];
              item.name in Entries(recs, sh) && Entries(recs, sh)[item.name] == item
    ensures forall name :: name in Entries(recs, sh) ==> Entries(recs, sh)[name] in Listing(recs, sh)
    ensures |Listing(recs, sh)| == |Entries(recs, sh)| == recs[n].dir.count
  {
    hide DirCore, RowsItems;
    RowsLists(recs, lay, recs[n].dir, sh, |sh.widths|);
    RowWhole(recs, lay, recs[n].dir, sh);
    var list := Listing(recs, sh);
    assert RowsNames(sh, |sh.widths|) == sh.slot.Keys;
    forall name | name in Entries(recs, sh) ensures Entries(recs, sh)[name] in list {
      assert name in NamesOf(list);
    }
    assert Entries(recs, sh).Keys == sh.slot.Keys;
    NamesCount(list);
  }

  lemma {:induction false} NamesCount(list: seq<Item>)
    requires forall i, j :: 0 <= i < j < |list| ==> list[i].name != list[j].name
    ensures |NamesOf(list)| == |list|
  {
    if list != [] {
      var l := |list| - 1;
      NamesCount(list[..l]);
      NamesSplit(list);
      assert list[l].name !in NamesOf(list[..l]);
    }
  }

  lemma NamesSplit(list: seq<Item>)
    requires list != []
    ensures NamesOf(list) == NamesOf(list[..|list| - 1]) + {list[|list| - 1].name}
  {
  }

  // ----- the loop nest of the scans -----

  lemma {:induction false} LiveBelowMark(items: seq<Item>, k: nat)
    requires k <= |items| && forall m :: k <= m < |items| ==> items[m].id == NULL
    ensures LiveItems(items) == LiveItems(items[..k])
    decreases |items| - k
  {
    if k == |items| {
      assert items[..k] == items;
    } else {
      LiveBelowMark(items, k + 1);
      assert items[..k + 1][..k] == items[..k];
    }
  }

  /** The slot loop. */
  method ScanBlock(block: DirBlock) returns (list: seq<Item>)
    requires block.highWater <= |block.items|
    requires forall m :: block.highWater <= m < |block.items| ==> block.items[m].id == NULL
    ensures list == LiveItems(block.items)
  {
    list := [];
    var k: nat := 0;
    while k < block.highWater
      invariant k <= block.highWater && list == LiveItems(block.items[..k])
    {
      assert block.items[..k + 1][..k] == block.items[..k];
      if block.items[k].id != NULL {
        list := list + [block.items[k]];
      }
      k := k + 1;
    }
    LiveBelowMark(block.items, block.highWater);
  }

  /** The chain loop. */
  method ScanChain(db: Store, first: Id, ghost d: DirInode, ghost sh: DirShape, ghost b: Bucket) returns (list: seq<Item>)
    requires DirCore(db.recs, db.lay, d, sh) && b in sh.chains && first == Head(sh.chains[b])
    ensures list == ChainItems(db.recs, sh.chains[b])
  {
    hide DirCore;
    list := [];
    var id := first;
    ghost var k: nat := 0;
    ghost var chain := sh.chains[b];
    ChainLinks(db.recs, db.lay, d, sh, b);
    while id != NULL
      invariant k <= |chain| && id == (if k < |chain| then chain[k] else NULL)
      invariant list == ChainItems(db.recs, chain[..k])
      decreases |chain| - k
    {
      assert chain[..k + 1][..k] == chain[..k];
      BlockBounds(db.recs, db.lay, d, sh, id);
      var r := db.Get(id);
      var part := ScanBlock(r.value.slots);
      list := list + part;
      id := r.value.slots.next;
      k := k + 1;
    }
    assert chain[..k] == chain;
  }

  lemma ChainLinks(recs: Recs, lay: Layout, d: DirInode, sh: DirShape, b: Bucket)
    requires DirCore(recs, lay, d, sh) && b in sh.chains
    ensures forall k :: 0 <= k < |sh.chains[b]| ==>
              sh.chains[b][k] in sh.home && sh.home[sh.chains[b][k]] == b && IsSlots(recs, sh.chains[b][k])
              && recs[sh.chains[b][k]].slots.next == NextIn(sh.chains[b], k)
  {
  }

  /** The column loop. */
  method ScanRow(db: Store, row: seq<Id>, ghost r: nat, ghost d: DirInode, ghost sh: DirShape) returns (list: seq<Item>)
    requires DirCore(db.recs, db.lay, d, sh) && RowOk(db.recs, sh, r) && db.recs[sh.rows[r]] == RowRec(row)
    ensures list == RowItems(db.recs, sh, r, sh.widths[r])
  {
    hide DirCore;
    list := [];
    var j: nat := 0;
    while j < |row|
      invariant j <= |row| && list == RowItems(db.recs, sh, r, j)
    {
      ChainHead(db.recs, db.lay, d, sh, (r, j));
      if row[j] != NULL {
        var part := ScanChain(db, row[j], d, sh, (r, j));
        list := list + part;
      }
      j := j + 1;
    }
  }

  /** The loop nest of mdDirectoryWalk, md2CountDirectoryEntries and md2PrintDirectory: the entries in order. */
  method ScanDirectory(db: Store, dirID: Id, ghost sh: DirShape) returns (r: Result<seq<Item>>)
    requires Known(db.recs, db.lay, dirID, sh)
    ensures r == if dirID !in db.recs then Err(NotFound)
                 else if !db.recs[dirID].DirRec? then Err(NotDirectory)
                 else Ok(Listing(db.recs, sh))
  {
    var rec := db.Get(dirID);
    if rec.None? { return Err(NotFound); }
    if !rec.value.DirRec? { return Err(NotDirectory); }
    var list := ScanRows(db, rec.value.dir, sh);
    r := Ok(list);
  }

  /** The row loop. */
  method ScanRows(db: Store, dir: DirInode, ghost sh: DirShape) returns (list: seq<Item>)
    requires DirCore(db.recs, db.lay, dir, sh)
    ensures list == Listing(db.recs, sh)
  {
    hide DirCore;
    RowsAt(db.recs, db.lay, dir, sh);
    list := [];
    var i: nat := 0;
    while i < |dir.handles|
      invariant i <= |sh.widths| && list == RowsItems(db.recs, sh, i)
    {
      assert RowOk(db.recs, sh, i);
      var hash := db.Get(dir.handles[i]);
      var part := ScanRow(db, hash.value.row, i, dir, sh);
      list := list + part;
      i := i + 1;
    }
  }

  lemma RowsAt(recs: Recs, lay: Layout, d: DirInode, sh: DirShape)
    requires DirCore(recs, lay, d, sh)
    ensures d.handles == sh.rows && |sh.rows| == |sh.widths|
    ensures forall r :: 0 <= r < |sh.rows| ==> RowOk(recs, sh, r)
    ensures forall r :: 0 <= r < |sh.widths| ==> 0 < sh.widths[r] <= d.perRow
  {
  }

  /** md2CountDirectoryEntries counts the map; the count agrees with the inode. */
  method CountDirectoryEntries(db: Store, dirID: Id, ghost sh: DirShape) returns (r: Result<nat>)
    requires Known(db.recs, db.lay, dirID, sh)
    ensures r == if dirID !in db.recs then Err(NotFound)
                 else if !db.recs[dirID].DirRec? then Err(NotDirectory)
                 else Ok(|Entries(db.recs, sh)|)
    ensures r.Ok? ==> r.value == db.recs[dirID].dir.count
  {
    var list := ScanDirectory(db, dirID, sh);
    if list.Err? { return Err(list.error); }
    ListingComplete(db.recs, db.lay, dirID, sh);
    r := Ok(|list.value|);
  }
}
