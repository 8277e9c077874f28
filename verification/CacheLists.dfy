/** What the dumper's cache (dump_cache.c) holds, as one list with the newest entry first; the hash
    table keeps, in each bucket, the part of this list that hashes there. */
module CacheLists {
  import opened Records
  import opened TagOps

  datatype Payload =
    | DirInfo(tags: seq<Id>)
    | TagInfo(dir: Id, kind: TagType, value: Option<seq<byte>>, name: string)

  datatype Info = Info(id: Id, parent: Id, data: Payload)

  const BUCKETS: nat := 256

  function XorByte(a: nat, b: nat): (r: nat)
    requires a < BUCKETS && b < BUCKETS
    ensures r < BUCKETS
  {
    ((a as bv8) ^ (b as bv8)) as nat
  }

  /** calc_hash: the bytes of the ID, combined by exclusive or. */
  function CalcHash(id: Id): (h: nat)
    ensures h < BUCKETS
  {
    if id < 0x100 then id else XorByte(id % 0x100, CalcHash(id / 0x100))
  }

  lemma HashKnown()
    ensures CalcHash(0x1008) == 0x18 && CalcHash(0x12_3456) == 0x70 && CalcHash(0xff_00ff) == 0
  {
    XorKnown();
  }

  lemma XorKnown()
    ensures XorByte(0x08, 0x10) == 0x18 && XorByte(0x34, 0x12) == 0x26 && XorByte(0x56, 0x26) == 0x70
    ensures XorByte(0x00, 0xff) == 0xff && XorByte(0xff, 0xff) == 0
  {
  }

  /** The newest entry for an ID. */
  function First(log: seq<Info>, id: Id): (r: Option<Info>)
    ensures r.Some? ==> r.value.id == id && r.value in log
  {
    if log == [] then None else if log[0].id == id then Some(log[0]) else First(log[1..], id)
  }

  /** It is the first in the list. */
  lemma {:induction false} FirstIs(log: seq<Info>, id: Id)
    ensures First(log, id).None? <==> forall k :: 0 <= k < |log| ==> log[k].id != id
    ensures First(log, id).Some? ==>
              exists k :: 0 <= k < |log| && log[k] == First(log, id).value && log[k].id == id && forall j :: 0 <= j < k ==> log[j].id != id
  {
    if log != [] && log[0].id != id {
      FirstIs(log[1..], id);
      if k :| 0 <= k < |log[1..]| && log[1..][k].id == id && log[1..][k] == First(log[1..], id).value
              && forall j :: 0 <= j < k ==> log[1..][j].id != id {
        forall j | 0 <= j < k + 1 ensures log[j].id != id {
          if j > 0 { assert log[1..][j - 1] == log[j]; }
        }
        assert log[k + 1] == log[1..][k];
      } else {
        forall k | 0 <= k < |log| ensures log[k].id != id {
          if k > 0 { assert log[1..][k - 1] == log[k]; }
        }
      }
    }
  }

  lemma {:induction false} FirstSome(log: seq<Info>, info: Info)
    requires info in log
    ensures First(log, info.id).Some?
  {
    if log[0] != info { FirstSome(log[1..], info); }
  }

  function Drop(log: seq<Info>, id: Id): (r: seq<Info>)
    ensures if First(log, id).Some? then |r| == |log| - 1 else r == log
  {
    if log == [] then [] else if log[0].id == id then log[1..] else [log[0]] + Drop(log[1..], id)
  }

  /** Exactly the newest entry for the ID goes. */
  lemma {:induction false} DropIs(log: seq<Info>, id: Id, k: nat)
    requires k < |log| && log[k].id == id && forall j :: 0 <= j < k ==> log[j].id != id
    ensures Drop(log, id) == log[..k] + log[k + 1..]
  {
    if k > 0 {
      DropIs(log[1..], id, k - 1);
      assert log[..k] == [log[0]] + log[1..][..k - 1] && log[1..][k..] == log[k + 1..];
    }
  }

  /** The newest entry for the ID of `info` is replaced by it. */
  function Change(log: seq<Info>, info: Info): (r: seq<Info>)
    ensures |r| == |log|
  {
    if log == [] then [] else if log[0].id == info.id then [info] + log[1..] else [log[0]] + Change(log[1..], info)
  }

  ghost function InBucket(log: seq<Info>, b: nat): seq<Info> {
    if log == [] then []
    else if CalcHash(log[0].id) == b then [log[0]] + InBucket(log[1..], b)
    else InBucket(log[1..], b)
  }

  /** A bucket answers for the whole list. */
  lemma {:induction false} FirstInBucket(log: seq<Info>, id: Id)
    ensures First(InBucket(log, CalcHash(id)), id) == First(log, id)
  {
    hide CalcHash;
    if log != [] {
      FirstInBucket(log[1..], id);
      var rest := InBucket(log[1..], CalcHash(id));
      assert ([log[0]] + rest)[1..] == rest;
    }
  }

  lemma {:induction false} DropInBucket(log: seq<Info>, id: Id, b: nat)
    ensures InBucket(Drop(log, id), b) == if b == CalcHash(id) then Drop(InBucket(log, b), id) else InBucket(log, b)
  {
    hide CalcHash;
    if log != [] {
      DropInBucket(log[1..], id, b);
      var rest := InBucket(log[1..], b);
      assert ([log[0]] + rest)[1..] == rest;
      assert ([log[0]] + Drop(log[1..], id))[1..] == Drop(log[1..], id);
    }
  }

  lemma {:induction false} ChangeInBucket(log: seq<Info>, info: Info, b: nat)
    ensures InBucket(Change(log, info), b) ==
            if b == CalcHash(info.id) then Change(InBucket(log, b), info) else InBucket(log, b)
  {
    hide CalcHash;
    if log != [] {
      ChangeInBucket(log[1..], info, b);
      var rest := InBucket(log[1..], b);
      assert ([log[0]] + rest)[1..] == rest;
      assert ([log[0]] + Change(log[1..], info))[1..] == Change(log[1..], info);
      assert ([info] + log[1..])[1..] == log[1..];
    }
  }

  /** remove_info: the newest entry for an ID goes, and with a directory the entries of its tags. */
  function Removed(log: seq<Info>, id: Id): (r: seq<Info>)
    ensures |r| <= |log|
    decreases |log|, 0
  {
    match First(log, id)
    case None => log
    case Some(info) => if info.data.DirInfo? then RemovedAll(Drop(log, id), info.data.tags) else Drop(log, id)
  }

  function RemovedAll(log: seq<Info>, ids: seq<Id>): (r: seq<Info>)
    ensures |r| <= |log|
    decreases |log|, 1, |ids|
  {
    if ids == [] then log else RemovedAll(Removed(log, ids[0]), ids[1..])
  }

  // ----- the stack of directories -----

  /** A directory on the path of the walk and the tags stored for it, oldest first. */
  datatype Frame = Frame(dir: Id, parent: Id, tags: seq<Info>)

  ghost function InfoIds(infos: seq<Info>): (ids: seq<Id>)
    ensures |ids| == |infos| && forall k :: 0 <= k < |ids| ==> ids[k] == infos[k].id
  {
    seq(|infos|, k requires 0 <= k < |infos| => infos[k].id)
  }

  ghost function Newest(infos: seq<Info>): (r: seq<Info>)
    ensures |r| == |infos|
  {
    if infos == [] then [] else Newest(infos[1..]) + [infos[0]]
  }

  ghost function DirEntry(f: Frame): Info {
    Info(f.dir, f.parent, DirInfo(InfoIds(f.tags)))
  }

  ghost function Block(f: Frame): seq<Info> {
    Newest(f.tags) + [DirEntry(f)]
  }

  /** The list of a path: the deepest directory is the newest. */
  ghost function Flat(frames: seq<Frame>): seq<Info> {
    if frames == [] then [] else Block(frames[|frames| - 1]) + Flat(frames[..|frames| - 1])
  }

  ghost predicate TagEntries(tags: seq<Info>) {
    && (forall k :: 0 <= k < |tags| ==> tags[k].data.TagInfo?)
    && forall i, k :: 0 <= i < k < |tags| ==> tags[i].id != tags[k].id
  }

  ghost predicate FrameShape(f: Frame) {
    TagEntries(f.tags) && forall k :: 0 <= k < |f.tags| ==> f.tags[k].id != f.dir
  }

  lemma {:induction false} NewestHas(infos: seq<Info>, info: Info)
    ensures info in Newest(infos) <==> info in infos
  {
    if infos != [] { NewestHas(infos[1..], info); }
  }

  lemma {:induction false} NewestSnoc(infos: seq<Info>, info: Info)
    ensures Newest(infos + [info]) == [info] + Newest(infos)
  {
    if infos != [] {
      NewestSnoc(infos[1..], info);
      assert (infos + [info])[1..] == infos[1..] + [info];
    }
  }

  /** Entries before the first match do not matter. */
  lemma SkipFirst(before: seq<Info>, info: Info, rest: seq<Info>)
    requires forall k :: 0 <= k < |before| ==> before[k].id != info.id
    ensures First(before + [info] + rest, info.id) == Some(info)
    ensures Drop(before + [info] + rest, info.id) == before + rest
  {
    FindBehind(before, info, rest);
    DropBehind(before, info, rest);
  }

  lemma {:induction false} FindBehind(before: seq<Info>, info: Info, rest: seq<Info>)
    requires forall k :: 0 <= k < |before| ==> before[k].id != info.id
    ensures First(before + [info] + rest, info.id) == Some(info)
  {
    var log := before + [info] + rest;
    if before != [] {
      FindBehind(before[1..], info, rest);
      assert log[1..] == before[1..] + [info] + rest;
    }
  }

  lemma {:induction false} DropBehind(before: seq<Info>, info: Info, rest: seq<Info>)
    requires forall k :: 0 <= k < |before| ==> before[k].id != info.id
    ensures Drop(before + [info] + rest, info.id) == before + rest
  {
    hide First;
    var log := before + [info] + rest;
    if before == [] {
      assert log[1..] == before + rest;
    } else {
      DropBehind(before[1..], info, rest);
      assert log[1..] == before[1..] + [info] + rest;
      assert before + rest == [before[0]] + (before[1..] + rest);
    }
  }

  lemma {:induction false} SkipChange(before: seq<Info>, info: Info, info': Info, rest: seq<Info>)
    requires forall k :: 0 <= k < |before| ==> before[k].id != info.id
    requires info'.id == info.id
    ensures Change(before + [info] + rest, info') == before + [info'] + rest
  {
    var log := before + [info] + rest;
    if before == [] {
      assert log == [info] + rest;
    } else {
      SkipChange(before[1..], info, info', rest);
      assert log[1..] == before[1..] + [info] + rest;
    }
  }

  lemma {:induction false} NoFirst(list: seq<Info>, id: Id)
    requires forall k :: 0 <= k < |list| ==> list[k].id != id
    ensures First(list, id).None?
  {
  }

  /** Where a search that stops at `k` has arrived. */
  lemma FirstAt(list: seq<Info>, k: nat, id: Id, info: Info)
    requires k <= |list| && (forall j :: 0 <= j < k ==> list[j].id != id) && (k < |list| ==> list[k].id == id)
    requires info.id == id
    ensures k < |list| ==> First(list, id) == Some(list[k]) && Drop(list, id) == list[..k] + list[k + 1..]
    ensures k < |list| ==> Change(list, info) == list[k := info]
    ensures k == |list| ==> First(list, id).None? && Drop(list, id) == list
  {
    hide First, Drop, Change;
    if k < |list| {
      assert list == list[..k] + [list[k]] + list[k + 1..];
      assert list[k := info] == list[..k] + [info] + list[k + 1..];
      SkipFirst(list[..k], list[k], list[k + 1..]);
      SkipChange(list[..k], list[k], info, list[k + 1..]);
    } else {
      NoFirst(list, id);
    }
  }

  lemma {:induction false} RemoveTagEntries(tags: seq<Info>, rest: seq<Info>)
    requires TagEntries(tags)
    ensures RemovedAll(Newest(tags) + rest, InfoIds(tags)) == rest
  {
    if tags == [] {
      assert Newest(tags) + rest == rest;
    } else {
      var before, log := Newest(tags[1..]), Newest(tags) + rest;
      assert log == before + [tags[0]] + rest;
      forall k | 0 <= k < |before| ensures before[k].id != tags[0].id { NewestHas(tags[1..], before[k]); }
      SkipFirst(before, tags[0], rest);
      assert InfoIds(tags)[1..] == InfoIds(tags[1..]);
      RemoveTagEntries(tags[1..], rest);
    }
  }

  /** Leaving the deepest directory removes exactly what was stored since it was entered. */
  lemma PopFrame(f: Frame, rest: seq<Info>)
    requires FrameShape(f)
    ensures Removed(Block(f) + rest, f.dir) == rest
  {
    var before := Newest(f.tags);
    assert Block(f) + rest == before + [DirEntry(f)] + rest;
    forall k | 0 <= k < |before| ensures before[k].id != f.dir { NewestHas(f.tags, before[k]); }
    SkipFirst(before, DirEntry(f), rest);
    RemoveTagEntries(f.tags, rest);
  }

  /** Storing a tag for the deepest directory. */
  lemma PushTag(f: Frame, tag: Info, rest: seq<Info>)
    requires FrameShape(f)
    ensures First(Block(f) + rest, f.dir) == Some(DirEntry(f))
    ensures [tag] + Change(Block(f) + rest, DirEntry(f.(tags := f.tags + [tag]))) == Block(f.(tags := f.tags + [tag])) + rest
  {
    hide First, Change, InfoIds;
    var before, f' := Newest(f.tags), f.(tags := f.tags + [tag]);
    forall k | 0 <= k < |before| ensures before[k].id != f.dir { NewestHas(f.tags, before[k]); }
    SkipFirst(before, DirEntry(f), rest);
    SkipChange(before, DirEntry(f), DirEntry(f'), rest);
    NewestSnoc(f.tags, tag);
    Regroup([tag], before, [DirEntry(f')], rest);
  }

  lemma Regroup(a: seq<Info>, b: seq<Info>, c: seq<Info>, d: seq<Info>)
    ensures a + (b + c + d) == (a + b) + c + d
  {
  }

  /** Every entry of the list belongs to a directory of the path. */
  lemma {:induction false} FlatHas(frames: seq<Frame>, info: Info)
    requires info in Flat(frames)
    ensures exists k :: 0 <= k < |frames| && (info == DirEntry(frames[k]) || info in frames[k].tags)
  {
    var l := |frames| - 1;
    if info in Block(frames[l]) {
      NewestHas(frames[l].tags, info);
    } else {
      FlatHas(frames[..l], info);
    }
  }

  lemma {:induction false} FlatOf(frames: seq<Frame>, k: nat, info: Info)
    requires k < |frames| && (info == DirEntry(frames[k]) || info in frames[k].tags)
    ensures info in Flat(frames)
  {
    var l := |frames| - 1;
    if k == l {
      NewestHas(frames[l].tags, info);
    } else {
      FlatOf(frames[..l], k, info);
    }
  }
}
