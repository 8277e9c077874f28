/** The dumper's cache (dump_cache.c): a hash table of chained entries, filled and emptied along the walk.
    It answers as the database would. */
module DumpCache {
  import opened Records
  import opened TagShapes
  import opened TagValues
  import opened TagOps
  import opened Worlds
  import opened CacheLists

  // ----- what the database answers -----

  /** A tag is made after its parent, and its data fits the inode. */
  ghost predicate TagsDescend(recs: Recs, lay: Layout) {
    forall id :: IsTag(recs, id) ==>
      recs[id].tag.parent < id && |recs[id].tag.data| == lay.tagSize && recs[id].tag.entries <= lay.tagSize
  }

  predicate Holds(kind: TagType) {
    kind == Primary || kind == Pseudo
  }

  /** The value of a tag: the data of the first primary or pseudo-primary tag on the way up. */
  ghost function DbValue(recs: Recs, id: Id): (r: Option<seq<byte>>) {
    if !IsTag(recs, id) then None
    else if Holds(IdentifyType(recs[id].tag)) then
      if recs[id].tag.entries <= |recs[id].tag.data| then Some(recs[id].tag.data[..recs[id].tag.entries]) else None
    else if recs[id].tag.parent < id then DbValue(recs, recs[id].tag.parent)
    else None
  }

  /** For tags that do not resolve to an invalid one, the dumper's value is the server's. */
  lemma {:induction false} ServerValue(recs: Recs, lay: Layout, id: Id)
    requires TagInv(recs, lay) && IsTag(recs, id)
    requires Top(recs, id).Some? && IsTag(recs, Top(recs, id).value) ==> !recs[Top(recs, id).value].tag.invalid
    ensures DbValue(recs, id) == Value(recs, id)
  {
    assert TagOk(recs, lay, id);
    TopIsTag(recs, lay, id);
    if Inherits(recs[id].tag) {
      var p := recs[id].tag.parent;
      if IsTag(recs, p) { ServerValue(recs, lay, p); }
    }
  }

  /** A removed tag without a parent: the dumper reads no bytes, where the server has no value. */
  lemma RemovedReads(r0: Recs, lay: Layout, id: Id)
    requires TagInv(r0, lay) && IsTag(r0, id) && r0[id].tag.parent == NULL
    ensures var r1 := r0[id := TagRec(RemovedTag(r0[id].tag))]; DbValue(r1, id) == Some([]) && Value(r1, id) == None
  {
    assert TagOk(r0, lay, id);
  }

  type Lists = map<Id, seq<Id>>

  /** The tags of every directory, in list order. */
  ghost predicate ListsOk(recs: Recs, lists: Lists) {
    forall n :: n in recs && recs[n].DirRec? ==>
      n in lists && TagsOk(recs, n, recs[n].dir.tag, lists[n]) && NamesOk(recs, lists[n])
  }

  ghost function FirstNamed(recs: Recs, tags: seq<Id>, name: string): (r: Option<Id>)
    ensures r.Some? ==> r.value in tags && IsTag(recs, r.value) && recs[r.value].tag.name == name
  {
    if tags == [] then None
    else if IsTag(recs, tags[0]) && recs[tags[0]].tag.name == name then Some(tags[0])
    else FirstNamed(recs, tags[1..], name)
  }

  ghost function DbTagId(recs: Recs, lists: Lists, dir: Id, name: string): Option<Id> {
    if dir in recs && recs[dir].DirRec? && dir in lists then FirstNamed(recs, lists[dir], name) else None
  }

  lemma {:induction false} NamedIs(recs: Recs, tags: seq<Id>, id: Id)
    requires NamesOk(recs, tags) && id in tags
    ensures FirstNamed(recs, tags, recs[id].tag.name) == Some(id)
  {
    var k :| 0 <= k < |tags| && tags[k] == id;
    if k > 0 {
      assert tags[1..][k - 1] == id;
      NamesTail(recs, tags);
      NamedIs(recs, tags[1..], id);
    }
  }

  lemma NamesTail(recs: Recs, tags: seq<Id>)
    requires NamesOk(recs, tags) && tags != []
    ensures NamesOk(recs, tags[1..])
  {
  }

  // ----- what the cache may hold -----

  /** What arrives in a buffer of `size` bytes that is closed by a zero. */
  function Clip(v: seq<byte>, size: nat): seq<byte>
    requires size > 0
  {
    v[..Min(|v|, size - 1)]
  }

  /** A value that went through a buffer of `size` bytes, at its full length. */
  function Terminated(v: seq<byte>, size: nat): (r: seq<byte>)
    requires |v| <= size && size > 0
    ensures |r| == |v|
  {
    if |v| < size then v else v[..size - 1] + [0]
  }

  /** A value that fills the inode loses its last byte when it is promoted; a buffer larger than the inode shows it. */
  lemma ClipTerminated(v: seq<byte>, n: nat, size: nat)
    requires |v| <= n && n > 0 && size > 0
    ensures Clip(Terminated(v, n), size) == Clip(v, size) <==> |v| < n || size <= n || v[n - 1] == 0
  {
    if |v| == n && size > n {
      assert Clip(v, size) == v && Clip(Terminated(v, n), size) == Terminated(v, n);
      assert Terminated(v, n)[n - 1] == 0;
    } else if |v| == n {
      assert Terminated(v, n)[..size - 1] == v[..size - 1];
    }
  }

  /** An entry agrees with the database.  A promoted tag is kept as a primary one with its resolved value. */
  ghost predicate InfoOk(recs: Recs, lay: Layout, lists: Lists, info: Info) {
    match info.data
    case DirInfo(tags) =>
      && info.id in recs && recs[info.id].DirRec? && info.id in lists
      && forall k :: 0 <= k < |tags| ==> tags[k] in lists[info.id]
    case TagInfo(dir, kind, value, name) =>
      && IsTag(recs, info.id) && name == recs[info.id].tag.name && dir == recs[info.id].tag.base
      && if Holds(kind) then
           var v := DbValue(recs, info.id);
           v.Some? && |v.value| <= lay.tagSize && (value == v || value == Some(Terminated(v.value, lay.tagSize)))
         else !Holds(IdentifyType(recs[info.id].tag)) && info.parent == recs[info.id].tag.parent
  }

  ghost predicate Coherent(recs: Recs, lay: Layout, lists: Lists, log: seq<Info>) {
    && (forall info :: info in log ==> InfoOk(recs, lay, lists, info))
    && (forall info :: info in log && info.data.DirInfo? ==>
          forall k :: 0 <= k < |info.data.tags| ==> First(log, info.data.tags[k]).Some?)
  }

  lemma TagEntryFound(recs: Recs, lay: Layout, lists: Lists, log: seq<Info>, dir: Info, k: nat)
    requires ListsOk(recs, lists) && Coherent(recs, lay, lists, log) && dir in log && dir.data.DirInfo? && k < |dir.data.tags|
    ensures var r := First(log, dir.data.tags[k]);
      && r.Some? && r.value.data.TagInfo? && r.value.id in lists[dir.id] && IsTag(recs, r.value.id)
      && r.value.data.name == recs[r.value.id].tag.name
  {
  }

  /** The parent field of a record's header. */
  function HeadParent(rec: Record): Id {
    match rec
    case DirRec(dir) => dir.parent
    case FileRec(file) => file.parent
    case LinkRec(link) => link.parent
    case TagRec(tag) => tag.parent
    case _ => NULL
  }

  datatype Fetched = Fetched(data: seq<byte>, length: nat)

  /** What cache_find_tag_value reports for a value: all of it, or what the buffer holds of it. */
  ghost predicate Answers(r: Option<Fetched>, v: Option<seq<byte>>, size: nat, tagSize: nat)
    requires size > 0
  {
    && (r.Some? <==> v.Some?)
    && (v.Some? ==> r.value.length == |v.value| && |r.value.data| == |Clip(v.value, size)|)
    && (v.Some? && (size <= tagSize || |v.value| < tagSize) ==> r.value.data == Clip(v.value, size))
  }

  lemma CachedAnswers(v: seq<byte>, value: seq<byte>, size: nat, tagSize: nat)
    requires size > 0 && tagSize > 0 && |v| <= tagSize && (value == v || value == Terminated(v, tagSize))
    ensures Answers(Some(Fetched(Clip(value, size), |value|)), Some(v), size, tagSize)
  {
  }

  class Cache {
    const recs: Recs          // the database, which does not change during a dump
    const lay: Layout
    ghost const lists: Lists
    const disabled: bool
    const buckets: array<seq<Info>>
    ghost var log: seq<Info>

    /** Each bucket is the part of the list that hashes there. */
    ghost predicate Valid()
      reads this, buckets
    {
      && buckets.Length == BUCKETS
      && (forall b :: 0 <= b < BUCKETS ==> buckets[b] == InBucket(log, b))
      && (disabled ==> log == [])
    }

    ghost predicate Agrees()
      reads this
    {
      TagsDescend(recs, lay) && ListsOk(recs, lists) && Coherent(recs, lay, lists, log)
    }

    constructor (recs: Recs, lay: Layout, ghost lists: Lists, disabled: bool)
      ensures Valid() && fresh(buckets) && log == []
      ensures this.recs == recs && this.lay == lay && this.lists == lists && this.disabled == disabled
    {
      this.recs, this.lay, this.lists, this.disabled := recs, lay, lists, disabled;
      buckets := new seq<Info>[BUCKETS](_ => []);
      log := [];
    }

    /** find_info: the newest entry for the ID. */
    method FindInfo(id: Id) returns (r: Option<Info>)
      requires Valid()
      ensures r == First(log, id)
    {
      var list := buckets[CalcHash(id)];
      FirstInBucket(log, id);
      var k: nat := 0;
      while k < |list|
        invariant k <= |list| && First(list[k..], id) == First(list, id)
      {
        if list[k].id == id { return Some(list[k]); }
        assert list[k..][1..] == list[k + 1..];
        k := k + 1;
      }
      r := None;
    }

    /** store_info puts an entry at the head of its bucket, whatever is there. */
    method StoreInfo(info: Info)
      requires Valid() && !disabled
      modifies `log, buckets
      ensures Valid() && log == [info] + old(log)
    {
      hide CalcHash;
      var h := CalcHash(info.id);
      buckets[h] := [info] + buckets[h];
      assert ([info] + log)[1..] == log;
      log := [info] + log;
    }

    /** The entry found for an ID is written over. */
    method ChangeInfo(info: Info)
      requires Valid() && !disabled && First(log, info.id).Some?
      modifies `log, buckets
      ensures Valid() && log == Change(old(log), info)
    {
      hide CalcHash, First, Drop, Change;
      var h := CalcHash(info.id);
      var list := buckets[h];
      FirstInBucket(log, info.id);
      var k: nat := 0;
      while k < |list| && list[k].id != info.id
        invariant k <= |list| && forall j :: 0 <= j < k ==> list[j].id != info.id
      {
        k := k + 1;
      }
      FirstAt(list, k, info.id, info);
      buckets[h] := list[k := info];
      forall b | 0 <= b < BUCKETS ensures buckets[b] == InBucket(Change(log, info), b) { ChangeInBucket(log, info, b); }
      log := Change(log, info);
    }

    /** The delinking part of remove_info. */
    method Delink(id: Id) returns (r: Option<Info>)
      requires Valid()
      modifies `log, buckets
      ensures Valid() && r == First(old(log), id) && log == Drop(old(log), id)
    {
      hide CalcHash, First, Drop;
      var h := CalcHash(id);
      var list := buckets[h];
      FirstInBucket(log, id);
      var k: nat := 0;
      while k < |list| && list[k].id != id
        invariant k <= |list| && forall j :: 0 <= j < k ==> list[j].id != id
      {
        k := k + 1;
      }
      FirstAt(list, k, id, Info(id, NULL, DirInfo([])));
      if k < |list| {
        r := Some(list[k]);
        buckets[h] := list[..k] + list[k + 1..];
      } else {
        r := None;
      }
      forall b | 0 <= b < BUCKETS ensures buckets[b] == InBucket(Drop(log, id), b) { DropInBucket(log, id, b); }
      log := Drop(log, id);
    }

    /** remove_info, which calls itself for the tags of a directory. */
    method RemoveInfo(id: Id)
      requires Valid()
      modifies `log, buckets
      ensures Valid() && log == Removed(old(log), id)
      decreases |log|
    {
      hide InBucket, Drop, CalcHash;
      var info := Delink(id);
      if info.Some? && info.value.data.DirInfo? {
        var tags := info.value.data.tags;
        ghost var start := log;
        assert tags[0..] == tags;
        var k: nat := 0;
        while k < |tags|
          invariant k <= |tags| && Valid() && |log| <= |start|
          invariant RemovedAll(log, tags[k..]) == RemovedAll(start, tags)
        {
          assert tags[k..][1..] == tags[k + 1..];
          RemoveInfo(tags[k]);
          k := k + 1;
        }
      }
    }

    /** cache_dir_enter. */
    method DirEnter(dir: Id, parent: Id)
      requires Valid()
      modifies `log, buckets
      ensures Valid() && log == if disabled then [] else [Info(dir, parent, DirInfo([]))] + old(log)
    {
      if disabled { return; }
      StoreInfo(Info(dir, parent, DirInfo([])));
    }

    /** cache_dir_leave. */
    method DirLeave(dir: Id)
      requires Valid()
      modifies `log, buckets
      ensures Valid() && log == Removed(old(log), dir)
    {
      if disabled { return; }
      RemoveInfo(dir);
    }

    /** cache_store_tag: a new entry, and one more tag in the entry of its directory. */
    method StoreTag(dir: Id, tag: Id, parent: Id, kind: TagType, name: string, value: Option<seq<byte>>)
      requires Valid() && dir != tag
      requires First(log, dir).Some? ==> First(log, dir).value.data.DirInfo?
      modifies `log, buckets
      ensures Valid()
      ensures var d := First(old(log), dir);
        log == if disabled || d.None? then old(log)
               else [Info(tag, parent, TagInfo(dir, kind, value, name))]
                    + Change(old(log), d.value.(data := DirInfo(d.value.data.tags + [tag])))
    {
      if disabled { return; }
      var d := FindInfo(dir);
      if d.None? { return; }
      ghost var before := log;
      var info := Info(tag, parent, TagInfo(dir, kind, value, name));
      StoreInfo(info);
      assert log[1..] == before;
      ChangeInfo(d.value.(data := DirInfo(d.value.data.tags + [tag])));
    }

    /** get_tag_type, which leaves the type alone when the cache is off. */
    method GetTagType(tag: Id) returns (r: Option<TagType>)
      requires Valid()
      ensures r == if First(log, tag).Some? && First(log, tag).value.data.TagInfo? then Some(First(log, tag).value.data.kind)
                   else None
    {
      if disabled { return None; }
      var info := FindInfo(tag);
      if info.Some? && info.value.data.TagInfo? { return Some(info.value.data.kind); }
      r := None;
    }

    method GetTagData(tag: Id) returns (r: Option<seq<byte>>)
      requires Valid()
      ensures r == if First(log, tag).Some? && First(log, tag).value.data.TagInfo? then First(log, tag).value.data.value
                   else None
    {
      var info := FindInfo(tag);
      if info.Some? && info.value.data.TagInfo? { return info.value.data.value; }
      r := None;
    }

    /** cache_get_tag_parent. */
    method GetTagParent(tag: Id) returns (parent: Id)
      requires Valid()
      ensures parent ==
              if First(log, tag).Some? && First(log, tag).value.data.TagInfo? then First(log, tag).value.parent
              else if tag !in recs then NULL
              else match recs[tag]
                   case DirRec(dir) => dir.parent
                   case FileRec(file) => file.parent
                   case LinkRec(link) => link.parent
                   case TagRec(tag) => tag.parent
                   case _ => NULL
    {
      if !disabled {
        var info := FindInfo(tag);
        if info.Some? && info.value.data.TagInfo? { return info.value.parent; }
      }
      if tag !in recs { return NULL; }
      parent := HeadParent(recs[tag]);
    }

    /** get_tag_id_by_name. */
    method GetTagIdByName(name: string, dir: Id) returns (r: Option<Id>)
      requires Valid() && Agrees()
      ensures r.Some? ==> r == DbTagId(recs, lists, dir, name)
    {
      hide CalcHash, InBucket, TagsDescend;
      var d := FindInfo(dir);
      if d.None? || !d.value.data.DirInfo? { return None; }
      assert InfoOk(recs, lay, lists, d.value);
      var tags := d.value.data.tags;
      var k: nat := 0;
      while k < |tags|
        invariant k <= |tags|
      {
        TagEntryFound(recs, lay, lists, log, d.value, k);
        var tag := FindInfo(tags[k]);
        if tag.value.data.name == name {
          NamedIs(recs, lists[dir], tag.value.id);
          return Some(tag.value.id);
        }
        k := k + 1;
      }
      r := None;
    }

    /** cache_get_tag_id: whatever is cached, the answer is that of the database. */
    method GetTagId(dir: Id, name: string) returns (r: Option<Id>)
      requires Valid() && Agrees()
      ensures r == DbTagId(recs, lists, dir, name)
    {
      hide CalcHash, InBucket, TagsDescend, Coherent, NamesOk;
      if !disabled {
        r := GetTagIdByName(name, dir);
        if r.Some? { return; }
      }
      if dir !in recs || !recs[dir].DirRec? { return None; }
      ghost var tags := lists[dir];
      assert TagsOk(recs, dir, recs[dir].dir.tag, tags);
      var id := recs[dir].dir.tag;
      ghost var k: nat := 0;
      while id != NULL
        invariant k <= |tags| && id == if k < |tags| then tags[k] else NULL
        invariant FirstNamed(recs, tags[k..], name) == FirstNamed(recs, tags, name)
        decreases |tags| - k
      {
        assert tags[k..][1..] == tags[k + 1..];
        if id !in recs { return None; }
        if recs[id].tag.name == name { return Some(id); }
        id := recs[id].tag.next;
        k := k + 1;
      }
      r := None;
    }

    /** cache_find_tag_value: whatever is cached, the answer is the value in the database. */
    method FindTagValue(tag: Id, size: nat) returns (r: Option<Fetched>)
      requires Valid() && Agrees() && size > 0
      ensures Answers(r, DbValue(recs, tag), size, lay.tagSize)
    {
      hide CalcHash, InBucket, ListsOk;
      var current := tag;
      while current != NULL
        invariant DbValue(recs, current) == DbValue(recs, tag)
        decreases current
      {
        var kind := GetTagType(current);
        var rec: Option<TagInode> := None;
        if kind.None? {
          if current !in recs || !recs[current].TagRec? { return None; }
          rec := Some(recs[current].tag);
          kind := Some(IdentifyType(rec.value));
        }
        if Holds(kind.value) {
          var value: Option<seq<byte>> := None;
          if rec.None? { value := GetTagData(current); }
          if value.None? {
            value := Some(recs[current].tag.data[..recs[current].tag.entries]);
          }
          CachedAnswers(DbValue(recs, current).value, value.value, size, lay.tagSize);
          return Some(Fetched(Clip(value.value, size), |value.value|));
        }
        current := GetTagParent(current);
      }
      r := None;
    }
  }
}
