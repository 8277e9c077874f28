/** Reading a directory of the file system. */
module FsReaddir {
  import opened Records
  import opened DirShapes
  import opened DirList
  import opened DirScan
  import opened Readdir
  import opened Worlds
  import opened FileSystems

  /** The bucket numbers of every directory fit the cookie: the table size and the row length compiled in are small. */
  predicate SmallTables(lay: Layout) {
    lay.hashSize + lay.pointers < HASHES
  }

  lemma TablesFit(w: World, lay: Layout, d: Id)
    requires Settled(w, lay) && d in w.recs && w.recs[d].DirRec?
    ensures DirOk(w.recs, lay, d, DirAt(w, d)) && (HashFits(w.recs[d].dir, DirAt(w, d)) <==> SmallTables(lay))
  {
    hide DirCore, HashFits, Partition, ShapesOk;
    DirKnown(w, lay, d);
    TableFits(w.recs, lay, w.recs[d].dir, DirAt(w, d));
  }

  /** What a directory of the file system reads as. */
  ghost function StreamOf(w: World, d: Id): seq<Item>
    requires d in w.recs && w.recs[d].DirRec?
  {
    Stream(w.recs, d, w.recs[d].dir, DirAt(w, d))
  }

  /** The two prologue items, then every entry of the directory once. */
  ghost predicate ReadsAs(list: seq<Item>, d: Id, node: Node)
    requires node.DirNode?
  {
    && |list| == |node.entries| + 2
    && list[0] == Item(if node.parent == ROOT then d else node.parent, "..", false, 0) && list[1] == Item(d, ".", false, 0)
    && (forall k :: 2 <= k < |list| ==> list[k].name in node.entries && node.entries[list[k].name] == list[k])
    && (forall i, k :: 2 <= i < k < |list| ==> list[i].name != list[k].name)
    && forall name :: name in node.entries ==> exists k :: 2 <= k < |list| && list[k] == node.entries[name]
  }

  lemma StreamReads(w: World, lay: Layout, d: Id)
    requires Settled(w, lay) && d in w.recs && w.recs[d].DirRec?
    ensures d in ViewOf(w, lay) && ViewOf(w, lay)[d].DirNode? && ReadsAs(StreamOf(w, d), d, ViewOf(w, lay)[d])
  {
    hide DirCore, Partition, ShapesOk, Entries, Listing, ViewOf, ReadsAs;
    DirKnown(w, lay, d);
    ListingComplete(w.recs, lay, d, DirAt(w, d));
    ListReads(Listing(w.recs, DirAt(w, d)), d, ViewOf(w, lay)[d]);
  }

  lemma ListReads(list: seq<Item>, d: Id, node: Node)
    requires node.DirNode? && |list| == |node.entries|
    requires forall i, j :: 0 <= i < j < |list| ==> list[i].name != list[j].name
    requires forall i :: 0 <= i < |list| ==> list[i].name in node.entries && node.entries[list[i].name] == list[i]
    requires forall name :: name in node.entries ==> node.entries[name] in list
    ensures ReadsAs([Item(if node.parent == ROOT then d else node.parent, "..", false, 0), Item(d, ".", false, 0)] + list, d, node)
  {
    var stream := [Item(if node.parent == ROOT then d else node.parent, "..", false, 0), Item(d, ".", false, 0)] + list;
    forall k | 2 <= k < |stream| ensures stream[k] == list[k - 2] {}
    forall name | name in node.entries ensures exists k :: 2 <= k < |stream| && stream[k] == node.entries[name] {
      var i :| 0 <= i < |list| && list[i] == node.entries[name];
      assert stream[i + 2] == node.entries[name];
    }
  }

  /** The reading loop of the clients on a directory of the file system, in batches of any size: `".."`, `"."` and every
      entry exactly once, where every re-open goes on where the last batch ended. */
  method ReadDirectory(fs: FileSystem, h: DirHandle, d: Id, batch: nat) returns (r: Result<seq<Item>>)
    requires fs.Sound() && batch > 0 && SmallTables(fs.db.lay)
    requires d in fs.db.recs && fs.db.recs[d].DirRec? ==>
               Steady(fs.db.recs, fs.db.lay, DirAt(fs.W(), d), batch, |StreamOf(fs.W(), d)|)
    modifies h
    ensures r.Err? <==> d !in fs.db.recs || !fs.db.recs[d].DirRec?
    ensures r.Err? ==> r == Err(if d !in fs.db.recs then NotFound else NotDirectory)
    ensures r.Ok? <==> d in fs.View() && fs.View()[d].DirNode?
    ensures r.Ok? ==> d in fs.db.recs && fs.db.recs[d].DirRec? && r.value == StreamOf(fs.W(), d) && ReadsAs(r.value, d, fs.View()[d])
  {
    hide Partition, ShapesOk, DirOk, HashFits, Steady, ViewOf, Stream, ReadsAs;
    ghost var w: World, lay := fs.W(), fs.db.lay;
    DirKnown(w, lay, d);
    if d in fs.db.recs && fs.db.recs[d].DirRec? {
      TablesFit(w, lay, d);
      StreamReads(w, lay, d);
    }
    r := ReadAll(fs.db, h, d, batch, DirAt(w, d));
  }

  /** The first batches of that reading are the beginning of the directory (StreamReads) if and only if every re-open
      went on where the last batch ended. */
  method ReadSome(fs: FileSystem, h: DirHandle, d: Id, batch: nat, count: nat) returns (list: seq<Item>)
    requires fs.Sound() && batch > 0 && SmallTables(fs.db.lay) && d in fs.db.recs && fs.db.recs[d].DirRec?
    modifies h
    ensures BeginsExactly(fs.db.recs, fs.db.lay, DirAt(fs.W(), d), batch, StreamOf(fs.W(), d), list, Wanted(count, batch))
  {
    hide BeginsExactly, Partition, ShapesOk, DirOk, HashFits, Steady, ViewOf, Stream, ReadsAs;
    TablesFit(fs.W(), fs.db.lay, d);
    list := ReadBatches(fs.db, h, d, batch, count, DirAt(fs.W(), d));
  }
}
