/** Resumable directory reading: the 32-bit cookie of md2DirOpen and md2DirNext (md2dirs.c), the batches of
    dbs_readdir (dbserver.c), and the reading loop of the clients (dump_di_readdir.c, nfs/fh.c). */
module Readdir {
  import opened Records
  import opened Stores
  import opened FileShapes
  import opened DirShapes
  import opened Dirs
  import opened DirList
  import opened DirScan

  // ----- cookies -----

  /** Bit 0 is clear in the prologue, bits 1 to 10 hold the bucket, bits 11 to 31 the position in it. */
  datatype Cookie = Cookie(prologue: bool, hash: nat, position: nat)

  const HASHES: nat := 1024
  const POSITIONS: nat := 0x200000

  function Unpack(c: nat): Cookie {
    Cookie(c % 2 == 0, c / 2 % HASHES, c / (2 * HASHES))
  }

  function Pack(k: Cookie): nat {
    (if k.prologue then 0 else 1) + k.hash % HASHES * 2 + k.position % POSITIONS * (2 * HASHES)
  }

  /** A cookie survives packing if and only if its fields fit. */
  lemma PackExact(k: Cookie)
    ensures Unpack(Pack(k)) == k <==> k.hash < HASHES && k.position < POSITIONS
    ensures Unpack(Pack(k)) == Cookie(k.prologue, k.hash % HASHES, k.position % POSITIONS)
    ensures Pack(k) == (if k.prologue then 0 else 1) + 2 * (k.hash % 1024) + 2048 * (k.position % 0x200000)
  {
    PackFields(if k.prologue then 0 else 1, k.hash % HASHES, k.position % POSITIONS);
  }

  lemma PackFields(e: nat, h: nat, p: nat)
    requires e < 2 && h < HASHES
    ensures var c := e + h * 2 + p * (2 * HASHES);
            c % 2 == e && c / 2 % HASHES == h && c / (2 * HASHES) == p
  {
  }

  /** The cookie fields of a live slot. */
  ghost function MarkOf(lay: Layout, perRow: nat, c: Cursor): Cookie {
    Cookie(false, c.i * perRow + c.j, c.k * lay.slots + c.m)
  }

  ghost function EndHash(d: DirInode, sh: DirShape): nat {
    if sh.widths == [] then 0 else |sh.widths| * d.perRow + sh.widths[|sh.widths| - 1]
  }

  /** Every bucket number, and the one that marks the end of the directory, fits its field. */
  ghost predicate HashFits(d: DirInode, sh: DirShape) {
    EndHash(d, sh) < HASHES
  }

  /** The bucket numbers fit if and only if the table is small enough, as the sizes compiled in make it. */
  lemma TableFits(recs: Recs, lay: Layout, d: DirInode, sh: DirShape)
    requires DirCore(recs, lay, d, sh)
    ensures EndHash(d, sh) == d.hashSize + d.perRow
    ensures HashFits(d, sh) <==> d.hashSize + d.perRow < HASHES
  {
    LastWidth(d.hashSize, d.perRow);
  }

  lemma LastWidth(size: nat, perRow: nat)
    requires perRow > 0 && size > 0
    ensures var r := RowCount(size, perRow); r > 0 && r * perRow + Width(size, perRow, r - 1) == size + perRow
    ensures Widths(size, perRow) != []
    ensures Widths(size, perRow)[RowCount(size, perRow) - 1] == Width(size, perRow, RowCount(size, perRow) - 1)
  {
    var q, t, r := size / perRow, size % perRow, RowCount(size, perRow);
    assert size == q * perRow + t;
    assert (r - 1) * perRow == r * perRow - perRow;
  }

  /** The `".."` entry of the root names the root itself. */
  function Up(id: Id, d: DirInode): Item {
    Item(if d.parent == ROOT then id else d.parent, "..", false, 0)
  }

  function Self(id: Id): Item {
    Item(id, ".", false, 0)
  }

  /** Everything a directory reads as. */
  ghost function Stream(recs: Recs, id: Id, d: DirInode, sh: DirShape): seq<Item> {
    [Up(id, d), Self(id)] + Listing(recs, sh)
  }

  ghost function Left(recs: Recs, lay: Layout, sh: DirShape, n: nat): seq<Live>
  {
    if n < 2 then Lives(recs, lay, sh)
    else if n - 2 <= |Lives(recs, lay, sh)| then Lives(recs, lay, sh)[n - 2..]
    else []
  }

  /** The cookie that is handed out for going on with the `n`-th item of the stream. */
  ghost predicate Handed(recs: Recs, lay: Layout, d: DirInode, sh: DirShape, cookie: nat, n: nat) {
    var k, lives := Unpack(cookie), Lives(recs, lay, sh);
    if n < 2 then k.prologue && k.position == n
    else if n == 2 then k == Cookie(false, 0, 0)
    else
      && !k.prologue && n - 2 <= |lives|
      && if n - 2 < |lives| then k == Unpack(Pack(MarkOf(lay, d.perRow, lives[n - 2].at)))
         else sh.widths != [] && k.hash == EndHash(d, sh) % HASHES
  }

  /** The entries that come again when the directory is re-opened at the cookie for item `n`: the position wraps
      in its field, and they are the live slots of the bucket between the wrapped position and the real one. */
  ghost function Again(recs: Recs, lay: Layout, sh: DirShape, n: nat): seq<Live> {
    var lives := Lives(recs, lay, sh);
    if n < 3 || n - 2 >= |lives| then []
    else
      var c := lives[n - 2].at;
      var p := c.k * lay.slots + c.m;
      Between(recs, lay, sh, c.i, c.j, p % POSITIONS, p)
  }

  /** The item with which reading goes on at the cookie handed out for item `n`. */
  ghost function Back(recs: Recs, lay: Layout, sh: DirShape, n: nat): nat {
    if |Again(recs, lay, sh, n)| <= n then n - |Again(recs, lay, sh, n)| else 0
  }

  /** Re-opening at the cookie for the live slot of item `n` is right if and only if the slot's position fits, or no
      slot of the bucket between the wrapped position and the real one is live. */
  lemma BackExact(recs: Recs, lay: Layout, sh: DirShape, n: nat)
    requires 3 <= n && n - 2 < |Lives(recs, lay, sh)|
    ensures var c := Lives(recs, lay, sh)[n - 2].at; var p := c.k * lay.slots + c.m;
      Back(recs, lay, sh, n) == n <==>
      p < POSITIONS || forall q: nat :: p % POSITIONS <= q < p ==> Here(recs, sh, Pos(lay, c.i, c.j, q)) == []
  {
    hide Here, From, Lives;
    var c := Lives(recs, lay, sh)[n - 2].at;
    var p := c.k * lay.slots + c.m;
    NoneBetween(recs, lay, sh, c.i, c.j, p % POSITIONS, p);
  }

  lemma {:induction false} NoneBetween(recs: Recs, lay: Layout, sh: DirShape, i: nat, j: nat, q: nat, p: nat)
    ensures Between(recs, lay, sh, i, j, q, p) == [] <==> forall x: nat :: q <= x < p ==> Here(recs, sh, Pos(lay, i, j, x)) == []
    decreases p - q
  {
    hide Here;
    if q < p { NoneBetween(recs, lay, sh, i, j, q + 1, p); }
  }

  /** Numbering `count` groups of `size` places. */
  lemma Numbered(count: nat, size: nat, group: nat, place: nat)
    requires group < count && place < size
    ensures group * size + place < count * size
    ensures (group * size + place) / size == group && (group * size + place) % size == place
  {
    Further(count, group, size);
    DivModUnique(group * size + place, size, group, place);
  }

  /** The live slot of item `n`: its bucket and position, and where the wrapped position leads. */
  lemma AgainLeft(recs: Recs, lay: Layout, d: DirInode, sh: DirShape, n: nat)
    requires DirCore(recs, lay, d, sh) && 3 <= n && n - 2 < |Lives(recs, lay, sh)|
    ensures var c := Lives(recs, lay, sh)[n - 2].at; var p := c.k * lay.slots + c.m;
      && c.i < |sh.widths| && c.j < sh.widths[c.i] && c.k < |ChainOf(sh, c.i, c.j)|
      && |Again(recs, lay, sh, n)| <= n - 2 && Back(recs, lay, sh, n) >= 2
      && Target(recs, lay, sh, p % POSITIONS, c.i, c.j, Left(recs, lay, sh, Back(recs, lay, sh, n)))
  {
    hide DirCore, From, Here, Between, BlockIndex, SlotIndex;
    var lives := Lives(recs, lay, sh);
    var c := lives[n - 2].at;
    var p := c.k * lay.slots + c.m;
    var q := p % POSITIONS;
    FromLive(recs, lay, sh, START, n - 2);
    PosOf(lay, c.i, c.j, c.k, c.m);
    FromBetween(recs, lay, sh, c.i, c.j, q, p);
    BetweenAt(recs, lay, sh, c.i, c.j, q, p);
    PosNext(lay, q);
    LaterEnd(recs, lay, sh, START, Pos(lay, c.i, c.j, q));
  }

  lemma PosOf(lay: Layout, i: nat, j: nat, k: nat, m: nat)
    requires m < lay.slots
    ensures Pos(lay, i, j, k * lay.slots + m) == Cursor(i, j, k, m)
    ensures forall q: nat :: q % POSITIONS <= q
  {
    DivModUnique(k * lay.slots + m, lay.slots, k, m);
  }

  /** Where a cookie leads. */
  lemma HandedSeek(recs: Recs, lay: Layout, d: DirInode, sh: DirShape, cookie: nat, n: nat)
    requires DirCore(recs, lay, d, sh) && HashFits(d, sh) && d.perRow > 0 && Handed(recs, lay, d, sh, cookie, n)
    ensures var k, rest := Unpack(cookie), Left(recs, lay, sh, Back(recs, lay, sh, n));
            var hash, position := if k.prologue then 0 else k.hash, if k.prologue then 0 else k.position;
            || (hash == 0 && position == 0 && rest == Lives(recs, lay, sh))
            || SeekTarget(recs, lay, d, sh, hash, position, rest)
            || (hash / d.perRow >= |sh.rows| && rest == [])
  {
    hide DirCore, From, Unpack, Pack, Target, Lives, Between;
    if n >= 3 {
      RowsAt(recs, lay, d, sh);
      if n - 2 < |Lives(recs, lay, sh)| {
        AgainLeft(recs, lay, d, sh, n);
        MarkFields(recs, lay, d, sh, Lives(recs, lay, sh)[n - 2].at);
      } else {
        AtLeast(|sh.widths|, d.perRow, EndHash(d, sh));
      }
    }
  }

  /** The bucket of a live slot keeps its number in the cookie; the position may wrap. */
  lemma MarkFields(recs: Recs, lay: Layout, d: DirInode, sh: DirShape, c: Cursor)
    requires DirCore(recs, lay, d, sh) && HashFits(d, sh) && d.perRow > 0 && c.i < |sh.widths| && c.j < sh.widths[c.i]
    ensures var k := Unpack(Pack(MarkOf(lay, d.perRow, c)));
      !k.prologue && k.hash / d.perRow == c.i && k.hash % d.perRow == c.j && k.position == (c.k * lay.slots + c.m) % POSITIONS
  {
    hide DirCore, Unpack, Pack;
    RowsAt(recs, lay, d, sh);
    PackExact(MarkOf(lay, d.perRow, c));
    Numbered(|sh.widths|, d.perRow, c.i, c.j);
  }

  // ----- md2DirOpen and md2DirNext -----

  /** md2DirOpen: at the cookie handed out for item `n` reading goes on with item `Back(n)`. */
  method DirOpen(db: Store, h: DirHandle, id: Id, cookie: nat, ghost sh: DirShape, ghost n: nat) returns (r: Result<()>)
    requires Known(db.recs, db.lay, id, sh)
    modifies h
    ensures r == if id !in db.recs then Err(NotFound) else if !db.recs[id].DirRec? then Err(NotDirectory) else Ok(())
    ensures r.Ok? ==> h.Open(db.recs, db.lay, sh) && h.dirID == id && h.dir.perRow > 0
    ensures r.Ok? && HashFits(h.dir, sh) && Handed(db.recs, db.lay, h.dir, sh, cookie, n) ==>
              h.Rest(db.recs, db.lay, sh) == Left(db.recs, db.lay, sh, Back(db.recs, db.lay, sh, n))
  {
    hide DirCore, From, HashFits, Handed, Unpack, SeekTarget, Here, Left, Back;
    var k := Unpack(cookie);
    var hash, position := 0, 0;
    if !k.prologue {
      hash, position := k.hash, k.position;
    }
    h.dirID := id;
    var rec := db.Get(id);
    if rec.None? { return Err(NotFound); }
    if !rec.value.DirRec? { return Err(NotDirectory); }
    h.dir := rec.value.dir;
    HasRows(db.recs, db.lay, h.dir, sh);
    ghost var rest: seq<Live> := [];
    if HashFits(h.dir, sh) && Handed(db.recs, db.lay, h.dir, sh, cookie, n) {
      HandedSeek(db.recs, db.lay, h.dir, sh, cookie, n);
      rest := Left(db.recs, db.lay, sh, Back(db.recs, db.lay, sh, n));
    }
    h.Seek(db, hash, position, sh, rest);
    r := Ok(());
  }

  lemma HasRows(recs: Recs, lay: Layout, d: DirInode, sh: DirShape)
    requires DirCore(recs, lay, d, sh)
    ensures d.perRow > 0
  {
  }

  /** An open directory from which the stream goes on with its `n`-th item. */
  ghost predicate Reading(recs: Recs, lay: Layout, sh: DirShape, h: DirHandle, cookie: nat, n: nat)
    reads h
  {
    && h.Open(recs, lay, sh) && n <= |Lives(recs, lay, sh)| + 2
    && h.Rest(recs, lay, sh) == Left(recs, lay, sh, n)
    && (Unpack(cookie).prologue <==> n < 2) && (n < 2 ==> Unpack(cookie).position == n)
  }

  lemma StreamLives(recs: Recs, lay: Layout, id: Id, d: DirInode, sh: DirShape)
    requires DirCore(recs, lay, d, sh)
    ensures var stream, lives := Stream(recs, id, d, sh), Lives(recs, lay, sh);
            && |stream| == |lives| + 2 && stream[0] == Up(id, d) && stream[1] == Self(id)
            && forall n :: 0 <= n < |lives| ==> stream[n + 2] == lives[n].item
  {
    hide DirCore, Lives, Listing, Items;
    LivesListing(recs, lay, d, sh);
    PrologueThenItems(Up(id, d), Self(id), Lives(recs, lay, sh));
  }

  lemma PrologueThenItems(up: Item, self: Item, lives: seq<Live>)
    ensures var s := [up, self] + Items(lives);
            |s| == |lives| + 2 && s[0] == up && s[1] == self && forall n :: 0 <= n < |lives| ==> s[n + 2] == lives[n].item
  {
    hide Items;
    var items := Items(lives);
    var s := [up, self] + items;
    forall n | 0 <= n < |lives| ensures s[n + 2] == lives[n].item {
      assert s[n + 2] == items[n];
    }
  }

  /** The cookies of the two prologue items. */
  lemma ProloguePacked(recs: Recs, lay: Layout, d: DirInode, sh: DirShape)
    ensures Handed(recs, lay, d, sh, Pack(Cookie(true, 0, 1)), 1) && Handed(recs, lay, d, sh, Pack(Cookie(false, 0, 0)), 2)
  {
  }

  lemma HandedFacts(recs: Recs, lay: Layout, d: DirInode, sh: DirShape, cookie: nat, n: nat)
    requires DirCore(recs, lay, d, sh) && Handed(recs, lay, d, sh, cookie, n)
    ensures var m := Back(recs, lay, sh, n);
      && m <= n && m <= |Lives(recs, lay, sh)| + 2 && (n <= 2 ==> m == n)
      && (Unpack(cookie).prologue <==> m < 2) && (m < 2 ==> Unpack(cookie).position == m)
  {
    hide From, DirCore, Unpack, Pack, Target, Between;
    if 3 <= n && n - 2 < |Lives(recs, lay, sh)| {
      AgainLeft(recs, lay, d, sh, n);
      PackExact(MarkOf(lay, d.perRow, Lives(recs, lay, sh)[n - 2].at));
    }
  }

  lemma AtLeast(q: nat, d: nat, n: nat)
    requires d > 0 && n >= q * d
    ensures n / d >= q
  {
    if n / d < q { Further(q, n / d, d); }
  }

  /** md2DirNext: the next item of the stream, and the cookie for the one behind it. */
  method DirNext(db: Store, h: DirHandle, cookie0: nat, ghost sh: DirShape, ghost n: nat)
    returns (item: Option<Item>, cookie: nat)
    requires h.Open(db.recs, db.lay, sh)
    modifies h
    ensures h.Open(db.recs, db.lay, sh) && h.dirID == old(h.dirID) && h.dir == old(h.dir)
    ensures old(Reading(db.recs, db.lay, sh, h, cookie0, n)) ==>
              var stream := Stream(db.recs, h.dirID, h.dir, sh);
              if n < |stream|
              then item == Some(stream[n]) && Reading(db.recs, db.lay, sh, h, cookie, n + 1)
                   && Handed(db.recs, db.lay, h.dir, sh, cookie, n + 1)
              else item == None && Reading(db.recs, db.lay, sh, h, cookie, n)
  {
    hide DirCore, DirOk, From, Handed, Unpack, Pack, Here, Left, Stream, Up, Self, MarkOf;
    HandleFacts(db.recs, db.lay, sh, h);
    var k := Unpack(cookie0);
    ghost var reading := Reading(db.recs, db.lay, sh, h, cookie0, n);
    StreamLives(db.recs, db.lay, h.dirID, h.dir, sh);
    LeftSteps(db.recs, db.lay, sh, n);
    if k.prologue {
      item, k := Prologue(h, k);
      cookie := Pack(k);
      ProloguePacked(db.recs, db.lay, h.dir, sh);
      PackExact(k);
    } else {
      item, cookie := NextEntry(db, h, k, sh, cookie0, n);
    }
  }

  /** The entries of md2DirNext. */
  method NextEntry(db: Store, h: DirHandle, k0: Cookie, ghost sh: DirShape, ghost cookie0: nat, ghost n: nat)
    returns (item: Option<Item>, cookie: nat)
    requires h.Open(db.recs, db.lay, sh) && k0 == Unpack(cookie0) && !k0.prologue
    modifies h
    ensures h.Open(db.recs, db.lay, sh) && h.dirID == old(h.dirID) && h.dir == old(h.dir)
    ensures old(Reading(db.recs, db.lay, sh, h, cookie0, n)) ==>
              var lives := Lives(db.recs, db.lay, sh);
              && 2 <= n <= |lives| + 2
              && if n - 2 < |lives|
                 then item == Some(lives[n - 2].item) && Reading(db.recs, db.lay, sh, h, cookie, n + 1)
                      && Handed(db.recs, db.lay, h.dir, sh, cookie, n + 1)
                 else item == None && Reading(db.recs, db.lay, sh, h, cookie, n)
  {
    hide DirCore, DirOk, From, Handed, Unpack, Pack, Here, Left, MarkOf;
    HandleFacts(db.recs, db.lay, sh, h);
    ghost var reading := Reading(db.recs, db.lay, sh, h, cookie0, n);
    LeftSteps(db.recs, db.lay, sh, n);
    var k := k0;
    item := h.Next(db, sh);
    if item.Some? {
      k := k.(hash := h.i * h.dir.perRow + h.j, position := h.k * db.lay.slots + h.m);
    }
    cookie := Pack(k);
    PackExact(k);
    if reading && item.Some? {
      NextPacked(db.recs, db.lay, h.dir, sh, n, k, h);
    }
  }

  /** The cookie after a live entry: that of the next one, or the end of the directory. */
  lemma NextPacked(recs: Recs, lay: Layout, d: DirInode, sh: DirShape, n: nat, k: Cookie, h: DirHandle)
    requires n >= 2 && n - 2 < |Lives(recs, lay, sh)|
    requires k == Cookie(false, h.i * d.perRow + h.j, h.k * lay.slots + h.m)
    requires if h.eof then n - 1 == |Lives(recs, lay, sh)| && h.i == |sh.widths| > 0 && h.j == sh.widths[h.i - 1]
             else n - 1 < |Lives(recs, lay, sh)| && Lives(recs, lay, sh)[n - 1].at == h.At()
    ensures Handed(recs, lay, d, sh, Pack(k), n + 1)
  {
    hide From, Unpack, Pack;
    PackExact(k);
  }

  lemma HandleFacts(recs: Recs, lay: Layout, sh: DirShape, h: DirHandle)
    requires h.Open(recs, lay, sh)
    ensures DirCore(recs, lay, h.dir, sh) && h.dir.perRow > 0
  {
  }

  lemma LeftSteps(recs: Recs, lay: Layout, sh: DirShape, n: nat)
    ensures n < 2 ==> Left(recs, lay, sh, n) == Left(recs, lay, sh, n + 1)
    ensures n >= 2 && n - 2 < |Lives(recs, lay, sh)| ==>
              Left(recs, lay, sh, n) != [] && Left(recs, lay, sh, n)[0] == Lives(recs, lay, sh)[n - 2]
              && Left(recs, lay, sh, n + 1) == Left(recs, lay, sh, n)[1..]
              && (Left(recs, lay, sh, n + 1) == [] <==> n - 1 == |Lives(recs, lay, sh)|)
              && (n - 1 < |Lives(recs, lay, sh)| ==> Left(recs, lay, sh, n + 1)[0] == Lives(recs, lay, sh)[n - 1])
    ensures n >= 2 && n - 2 == |Lives(recs, lay, sh)| ==> Left(recs, lay, sh, n) == []
  {
  }

  /** The prologue of md2DirNext: `".."`, then `"."`. */
  method Prologue(h: DirHandle, k0: Cookie) returns (item: Option<Item>, k: Cookie)
    ensures k0.position == 0 ==> item == Some(Up(h.dirID, h.dir)) && k == Cookie(k0.prologue, 0, 1)
    ensures k0.position == 1 ==> item == Some(Self(h.dirID)) && k == Cookie(false, 0, 0)
    ensures k0.position > 1 ==> item == Some(EMPTY_ITEM) && k == k0.(hash := 0)
  {
    item, k := Some(EMPTY_ITEM), k0;
    if k.position == 0 {
      item := Some(Up(h.dirID, h.dir));
      k := k.(position := k.position + 1);
    } else if k.position == 1 {
      item := Some(Self(h.dirID));
      k := k.(prologue := false, position := 0);
    }
    k := k.(hash := 0);
  }

  // ----- batches -----

  datatype Entry = Listed(item: Item, cookie: nat)

  /** dbs_readdir: a batch of at most `count` items, each with the cookie that continues behind it. */
  method ReadBatch(db: Store, h: DirHandle, id: Id, cookie0: nat, count: nat, ghost sh: DirShape, ghost n: nat)
    returns (r: Result<seq<Entry>>)
    requires Known(db.recs, db.lay, id, sh)
    modifies h
    ensures r.Err? <==> id !in db.recs || !db.recs[id].DirRec?
    ensures r.Err? ==> r.error == if id !in db.recs then NotFound else NotDirectory
    ensures r.Ok? && HashFits(db.recs[id].dir, sh) && Handed(db.recs, db.lay, db.recs[id].dir, sh, cookie0, n) ==>
              Continues(db.recs, db.lay, id, sh, Back(db.recs, db.lay, sh, n), count, r.value)
  {
    hide DirCore, DirOk, HashFits, Handed, Left, Stream, Back, Unpack, Lives;
    var o := DirOpen(db, h, id, cookie0, sh, n);
    if o.Err? { return Err(o.error); }
    ghost var good := HashFits(h.dir, sh) && Handed(db.recs, db.lay, h.dir, sh, cookie0, n);
    ghost var m := Back(db.recs, db.lay, sh, n);
    var list: seq<Entry>, cookie, i: nat := [], cookie0, 0;
    HandleFacts(db.recs, db.lay, sh, h);
    StreamLives(db.recs, db.lay, id, h.dir, sh);
    if good { HandedFacts(db.recs, db.lay, h.dir, sh, cookie0, n); }
    while i < count
      invariant h.Open(db.recs, db.lay, sh) && h.dirID == id && h.dir == db.recs[id].dir
      invariant i == |list| <= count
      invariant good ==> Reading(db.recs, db.lay, sh, h, cookie, m + i)
      invariant good ==> m + i <= |Stream(db.recs, id, h.dir, sh)|
      invariant good ==>
                  forall x :: 0 <= x < i ==>
                    list[x].item == Stream(db.recs, id, h.dir, sh)[m + x]
                    && Handed(db.recs, db.lay, h.dir, sh, list[x].cookie, m + x + 1)
    {
      var item;
      item, cookie := DirNext(db, h, cookie, sh, m + i);
      if item.None? { break; }
      list := list + [Listed(item.value, cookie)];
      i := i + 1;
    }
    r := Ok(list);
  }

  /** `list` is the part of the stream from item `n` on that a batch of `count` holds. */
  ghost predicate Continues(recs: Recs, lay: Layout, id: Id, sh: DirShape, n: nat, count: nat, list: seq<Entry>)
    requires id in recs && recs[id].DirRec?
  {
    var stream := Stream(recs, id, recs[id].dir, sh);
    && n <= |stream| && |list| == Min(count, |stream| - n)
    && forall x :: 0 <= x < |list| ==>
         list[x].item == stream[n + x] && Handed(recs, lay, recs[id].dir, sh, list[x].cookie, n + x + 1)
  }

  function ItemsOf(list: seq<Entry>): (s: seq<Item>)
    ensures |s| == |list| && forall x :: 0 <= x < |list| ==> s[x] == list[x].item
  {
    seq(|list|, x requires 0 <= x < |list| => list[x].item)
  }

  /** Every re-open of a reading in batches of `batch` goes on where the last batch ended. */
  ghost predicate Steady(recs: Recs, lay: Layout, sh: DirShape, batch: nat, end: nat)
    requires batch > 0
  {
    forall n: nat :: n < end && n % batch == 0 ==> Back(recs, lay, sh, n) == n
  }

  /** The reading loop of the clients: every batch opens the directory again at the last cookie.  Where every
      re-open goes on where the last batch ended, the directory reads as `".."`, `"."` and every entry exactly once
      (ListingComplete), in the order of one uninterrupted scan. */
  method ReadAll(db: Store, h: DirHandle, id: Id, batch: nat, ghost sh: DirShape) returns (r: Result<seq<Item>>)
    requires Known(db.recs, db.lay, id, sh) && batch > 0
    requires id in db.recs && db.recs[id].DirRec? ==>
               && HashFits(db.recs[id].dir, sh)
               && Steady(db.recs, db.lay, sh, batch, |Stream(db.recs, id, db.recs[id].dir, sh)|)
    modifies h
    ensures r == if id !in db.recs then Err(NotFound)
                 else if !db.recs[id].DirRec? then Err(NotDirectory)
                 else Ok(Stream(db.recs, id, db.recs[id].dir, sh))
  {
    hide DirCore, DirOk, HashFits, Handed, Stream, Back, Steady;
    var list: seq<Item>, cookie := [], 0;
    StreamStart(db.recs, db.lay, id, sh);
    while true
      invariant id in db.recs && db.recs[id].DirRec? ==>
                  && list <= Stream(db.recs, id, db.recs[id].dir, sh)
                  && (|list| % batch == 0 || list == Stream(db.recs, id, db.recs[id].dir, sh))
                  && Handed(db.recs, db.lay, db.recs[id].dir, sh, cookie, |list|)
      decreases if id in db.recs && db.recs[id].DirRec? then |Stream(db.recs, id, db.recs[id].dir, sh)| - |list| else 0
    {
      if id in db.recs && db.recs[id].DirRec? { SteadyAt(db.recs, db.lay, id, sh, batch, |list|); }
      var b := ReadBatch(db, h, id, cookie, batch, sh, |list|);
      if b.Err? { return Err(b.error); }
      if |b.value| == 0 {
        assert list == Stream(db.recs, id, db.recs[id].dir, sh);
        break;
      }
      NextMultiple(|list|, batch);
      list, cookie := list + ItemsOf(b.value), b.value[|b.value| - 1].cookie;
    }
    r := Ok(list);
  }

  /** A reading meant to deliver `wanted` items is the beginning of the stream if and only if its re-opens are steady. */
  ghost predicate BeginsExactly(recs: Recs, lay: Layout, sh: DirShape, batch: nat, stream: seq<Item>, list: seq<Item>, wanted: nat)
    requires batch > 0
  {
    var end := Min(wanted, |stream|);
    list == stream[..end] <==> Steady(recs, lay, sh, batch, end)
  }

  /** The items `count` batches ask for. */
  function Wanted(count: nat, batch: nat): nat {
    if count == 0 then 0 else Wanted(count - 1, batch) + batch
  }

  lemma {:induction false} WantedIs(count: nat, batch: nat)
    ensures Wanted(count, batch) == count * batch
  {
    if count > 0 {
      WantedIs(count - 1, batch);
      assert count * batch == (count - 1) * batch + batch;
    }
  }

  /** `count` batches of the reading loop, whatever the re-opens do: what has been read is the beginning of the stream
      if and only if every re-open went on where the last batch ended. */
  method ReadBatches(db: Store, h: DirHandle, id: Id, batch: nat, count: nat, ghost sh: DirShape)
    returns (list: seq<Item>)
    requires DirOk(db.recs, db.lay, id, sh) && batch > 0 && HashFits(db.recs[id].dir, sh)
    modifies h
    ensures BeginsExactly(db.recs, db.lay, sh, batch, Stream(db.recs, id, db.recs[id].dir, sh), list, Wanted(count, batch))
  {
    hide DirCore, HashFits, Handed, Stream, Back, Steady, Continues, ReadSoFar, Unpack, Lives;
    ghost var stream := Stream(db.recs, id, db.recs[id].dir, sh);
    ghost var m: nat, reached: nat, x: Option<nat> := 0, 0, None;
    var cookie: nat, i: nat := 0, 0;
    list := [];
    StreamStart(db.recs, db.lay, id, sh);
    ReadNothing(db.recs, db.lay, sh, batch, stream);
    while i < count
      invariant i <= count && reached == Wanted(i, batch) && m <= |stream|
      invariant Handed(db.recs, db.lay, db.recs[id].dir, sh, cookie, m)
      invariant ReadSoFar(db.recs, db.lay, sh, batch, stream, list, m, reached, x)
    {
      var b := ReadBatch(db, h, id, cookie, batch, sh, m);
      ghost var back := Back(db.recs, db.lay, sh, m);
      BatchFacts(db.recs, db.lay, id, sh, back, batch, b.value);
      if |b.value| == 0 {
        EndReached(db.recs, db.lay, db.recs[id].dir, sh, cookie, m, |stream|);
        break;
      }
      BatchStep(db.recs, db.lay, id, sh, batch, i, list, m, x, ItemsOf(b.value));
      x := if x.None? && back != m then Some(m) else x;
      list, cookie, m, i := list + ItemsOf(b.value), b.value[|b.value| - 1].cookie, back + |b.value|, i + 1;
      reached := reached + batch;
    }
    WantedIs(i, batch);
    WantedIs(count, batch);
    MulMonotone(i, count, batch);
    ReadExactly(db.recs, db.lay, sh, batch, stream, list, m, reached, x, Wanted(count, batch));
  }

  /** What has been read is the beginning of the stream, or it first differs from it at `x`, where a re-open went back. */
  ghost predicate ReadSoFar(recs: Recs, lay: Layout, sh: DirShape, batch: nat, stream: seq<Item>, list: seq<Item>, m: nat,
                            reached: nat, x: Option<nat>)
    requires batch > 0
  {
    match x
    case None => m == Min(reached, |stream|) && list == stream[..m] && Steady(recs, lay, sh, batch, m)
    case Some(y) =>
      y < |list| && y < |stream| && y < reached && list[y] != stream[y] && !Steady(recs, lay, sh, batch, y + 1)
  }

  lemma ReadNothing(recs: Recs, lay: Layout, sh: DirShape, batch: nat, stream: seq<Item>)
    requires batch > 0
    ensures ReadSoFar(recs, lay, sh, batch, stream, [], 0, 0, None)
  {
  }

  lemma ReadExactly(recs: Recs, lay: Layout, sh: DirShape, batch: nat, stream: seq<Item>, list: seq<Item>, m: nat,
                    reached: nat, x: Option<nat>, wanted: nat)
    requires batch > 0 && ReadSoFar(recs, lay, sh, batch, stream, list, m, reached, x)
    requires reached <= wanted && (reached < wanted && x.None? ==> m == |stream|)
    ensures BeginsExactly(recs, lay, sh, batch, stream, list, wanted)
  {
    hide Back;
    var end := Min(wanted, |stream|);
    if x.Some? { assert stream[..end][x.value] == stream[x.value]; }
  }

  lemma EndReached(recs: Recs, lay: Layout, d: DirInode, sh: DirShape, cookie: nat, m: nat, end: nat)
    requires DirCore(recs, lay, d, sh) && Handed(recs, lay, d, sh, cookie, m)
    ensures Back(recs, lay, sh, m) == end && m <= end ==> m == end
  {
    hide DirCore, Handed, Back;
    HandedFacts(recs, lay, d, sh, cookie, m);
  }

  lemma {:induction false} MulMonotone(a: nat, b: nat, d: nat)
    requires a <= b
    ensures a * d <= b * d
  {
    if a < b { Further(b, a, d); }
  }

  lemma BatchFacts(recs: Recs, lay: Layout, id: Id, sh: DirShape, n: nat, count: nat, list: seq<Entry>)
    requires id in recs && recs[id].DirRec? && Continues(recs, lay, id, sh, n, count, list)
    ensures var stream := Stream(recs, id, recs[id].dir, sh);
      && n <= |stream| && |list| == Min(count, |stream| - n) && ItemsOf(list) == stream[n..n + |list|]
      && (list != [] ==> Handed(recs, lay, recs[id].dir, sh, list[|list| - 1].cookie, n + |list|))
  {
    hide Stream, Handed;
  }

  /** One more batch. */
  lemma BatchStep(recs: Recs, lay: Layout, id: Id, sh: DirShape, batch: nat, i: nat, list: seq<Item>, m: nat, x: Option<nat>,
                  items: seq<Item>)
    requires DirOk(recs, lay, id, sh) && batch > 0 && items != []
    requires ReadSoFar(recs, lay, sh, batch, Stream(recs, id, recs[id].dir, sh), list, m, Wanted(i, batch), x)
    requires var stream, back := Stream(recs, id, recs[id].dir, sh), Back(recs, lay, sh, m);
      back <= |stream| && |items| == Min(batch, |stream| - back) && items == stream[back..back + |items|]
    ensures var back := Back(recs, lay, sh, m);
      ReadSoFar(recs, lay, sh, batch, Stream(recs, id, recs[id].dir, sh), list + items, back + |items|, Wanted(i + 1, batch),
                if x.None? && back != m then Some(m) else x)
  {
    hide DirCore, Stream, Lives, Between, Listing, Target, Back;
    var stream := Stream(recs, id, recs[id].dir, sh);
    WantedIs(i, batch);
    if x.None? {
      BackFacts(recs, lay, id, sh, m);
      DivModUnique(i * batch, batch, i, 0);
      forall n: nat | n < i * batch + batch && n % batch == 0 ensures n <= i * batch { Multiples(n, i, batch); }
      if Back(recs, lay, sh, m) != m {
        assert (list + items)[m] == stream[Back(recs, lay, sh, m)];
      }
    }
  }

  /** A re-open never skips, and where it goes back the entry differs. */
  lemma BackFacts(recs: Recs, lay: Layout, id: Id, sh: DirShape, m: nat)
    requires DirOk(recs, lay, id, sh) && m <= |Stream(recs, id, recs[id].dir, sh)|
    ensures var stream, back := Stream(recs, id, recs[id].dir, sh), Back(recs, lay, sh, m);
      back != m ==> back < m < |stream| && stream[back] != stream[m]
  {
    hide DirCore, Stream, Lives, Between, Listing, Target;
    StreamLives(recs, lay, id, recs[id].dir, sh);
    if Back(recs, lay, sh, m) != m {
      AgainLeft(recs, lay, recs[id].dir, sh, m);
      EntriesDiffer(recs, lay, id, sh, Back(recs, lay, sh, m), m);
    }
  }

  lemma Multiples(n: nat, i: nat, batch: nat)
    requires batch > 0 && n % batch == 0 && n < i * batch + batch
    ensures n <= i * batch
  {
    var q := n / batch;
    if q > i { Further(q, i, batch); }
    if q < i { Further(i, q, batch); }
  }

  /** No entry comes twice in the stream. */
  lemma EntriesDiffer(recs: Recs, lay: Layout, id: Id, sh: DirShape, a: nat, b: nat)
    requires DirOk(recs, lay, id, sh) && 2 <= a < b < |Stream(recs, id, recs[id].dir, sh)|
    ensures Stream(recs, id, recs[id].dir, sh)[a] != Stream(recs, id, recs[id].dir, sh)[b]
  {
    hide DirOk, Listing;
    ListingComplete(recs, lay, id, sh);
    assert Listing(recs, sh)[a - 2].name != Listing(recs, sh)[b - 2].name;
  }

  /** Where every chain fits the position field, every re-open is right. */
  lemma ShortChains(recs: Recs, lay: Layout, d: DirInode, sh: DirShape, n: nat)
    requires DirCore(recs, lay, d, sh) && forall b :: b in sh.chains ==> |sh.chains[b]| * lay.slots <= POSITIONS
    ensures Back(recs, lay, sh, n) == n
  {
    hide DirCore, From, Here;
    if n >= 3 && n - 2 < |Lives(recs, lay, sh)| {
      FromLive(recs, lay, sh, START, n - 2);
      var c := Lives(recs, lay, sh)[n - 2].at;
      CursorFacts(recs, lay, d, sh, c);
      Numbered(|ChainOf(sh, c.i, c.j)|, lay.slots, c.k, c.m);
    }
  }

  lemma {:induction false} LastLive(recs: Recs, lay: Layout, sh: DirShape, i: nat, j: nat, t: nat) returns (p: nat)
    requires Between(recs, lay, sh, i, j, 0, t) != []
    ensures p < t && Here(recs, sh, Pos(lay, i, j, p)) != []
    ensures |Between(recs, lay, sh, i, j, 0, p)| == |Between(recs, lay, sh, i, j, 0, t)| - 1
  {
    hide Here;
    BetweenJoin(recs, lay, sh, i, j, 0, t - 1, t);
    HereAt(recs, sh, Pos(lay, i, j, t - 1));
    assert Between(recs, lay, sh, i, j, t - 1, t) == Here(recs, sh, Pos(lay, i, j, t - 1)) + Between(recs, lay, sh, i, j, t, t);
    if Here(recs, sh, Pos(lay, i, j, t - 1)) != [] {
      p := t - 1;
    } else {
      p := LastLive(recs, lay, sh, i, j, t - 1);
    }
  }

  lemma InBucket(lay: Layout, len: nat, p: nat)
    requires p < len * lay.slots
    ensures BlockIndex(lay, p) < len && SlotIndex(lay, p) < lay.slots
    ensures p == BlockIndex(lay, p) * lay.slots + SlotIndex(lay, p)
  {
    var k := p / lay.slots;
    if k >= len { MulMonotone(len, k, lay.slots); }
  }

  lemma HereFirst(recs: Recs, lay: Layout, sh: DirShape, c: Cursor)
    requires InChain(lay, sh, c) && c.m < lay.slots && Here(recs, sh, c) != []
    ensures From(recs, lay, sh, c) != [] && From(recs, lay, sh, c)[0].at == c
  {
    hide Here;
    HereAt(recs, sh, c);
  }

  /** In a bucket with more live slots than the position field can tell apart, re-opening at the cookie for the last
      of them gives entries again. */
  lemma Overfull(recs: Recs, lay: Layout, d: DirInode, sh: DirShape, i: nat, j: nat) returns (n: nat)
    requires DirCore(recs, lay, d, sh) && i < |sh.widths| && j < sh.widths[i]
    requires |Between(recs, lay, sh, i, j, 0, |ChainOf(sh, i, j)| * lay.slots)| > POSITIONS
    ensures 3 <= n < |Lives(recs, lay, sh)| + 2 && Back(recs, lay, sh, n) < n
  {
    hide DirCore, From, Here, BlockIndex, SlotIndex;
    var p := LastLive(recs, lay, sh, i, j, |ChainOf(sh, i, j)| * lay.slots);
    var q := p % POSITIONS;
    BetweenAt(recs, lay, sh, i, j, 0, p);
    BetweenAt(recs, lay, sh, i, j, 0, q);
    BetweenJoin(recs, lay, sh, i, j, 0, q, p);
    InBucket(lay, |ChainOf(sh, i, j)|, p);
    HereFirst(recs, lay, sh, Pos(lay, i, j, p));
    FromBetween(recs, lay, sh, i, j, 0, p);
    PosNext(lay, 0);
    LaterEnd(recs, lay, sh, START, Pos(lay, i, j, p));
    LaterEnd(recs, lay, sh, START, Pos(lay, i, j, 0));
    n := |Lives(recs, lay, sh)| - |From(recs, lay, sh, Pos(lay, i, j, p))| + 2;
    AgainLeft(recs, lay, d, sh, n);
  }

  lemma NextMultiple(n: nat, batch: nat)
    requires batch > 0
    ensures n % batch == 0 ==> (n + batch) % batch == 0
  {
    if n % batch == 0 { DivModUnique(n + batch, batch, n / batch + 1, 0); }
  }

  /** At a multiple of the batch size, and at the end of the directory, reading goes on where it was. */
  lemma SteadyAt(recs: Recs, lay: Layout, id: Id, sh: DirShape, batch: nat, n: nat)
    requires DirOk(recs, lay, id, sh) && batch > 0 && Steady(recs, lay, sh, batch, |Stream(recs, id, recs[id].dir, sh)|)
    requires n % batch == 0 || n >= |Stream(recs, id, recs[id].dir, sh)|
    ensures Back(recs, lay, sh, n) == n
  {
    hide DirCore, Stream, Lives, Between;
    StreamLives(recs, lay, id, recs[id].dir, sh);
  }

  lemma StreamStart(recs: Recs, lay: Layout, id: Id, sh: DirShape)
    ensures id in recs && recs[id].DirRec? ==> Handed(recs, lay, recs[id].dir, sh, 0, 0)
  {
  }
}
