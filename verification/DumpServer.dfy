/** The dumper reads the stores the file system makes. */
module DumpServer {
  import opened Records
  import opened TagValues
  import opened TagShapes
  import opened Worlds
  import opened FileSystems
  import opened DirShapes
  import opened DumpCache

  ghost function ListsOf(w: World): Lists {
    map d | d in w.recs && w.recs[d].DirRec? :: TagsAt(w, d)
  }

  /** In every store a run of the file system leaves, tags point to older tags and every directory has a proper
      tag list, so the answers of the dumper are those of the server. */
  lemma ServerStore(w: World, lay: Layout)
    requires Settled(w, lay) && TagInv(w.recs, lay)
    ensures TagsDescend(w.recs, lay) && ListsOk(w.recs, ListsOf(w))
  {
    hide Settled, TagsOk, NamesOk, DirShapeOk;
    forall id | IsTag(w.recs, id)
      ensures w.recs[id].tag.parent < id && |w.recs[id].tag.data| == lay.tagSize && w.recs[id].tag.entries <= lay.tagSize
    {
      assert TagOk(w.recs, lay, id);
    }
    forall d | d in w.recs && w.recs[d].DirRec?
      ensures TagsOk(w.recs, d, w.recs[d].dir.tag, TagsAt(w, d)) && NamesOk(w.recs, TagsAt(w, d))
    {
      DirKnown(w, lay, d);
      ListOf(w.recs, lay, d, DirAt(w, d), TagsAt(w, d));
    }
  }

  lemma ListOf(recs: Recs, lay: Layout, d: Id, dir: DirShape, tags: seq<Id>)
    requires DirShapeOk(recs, lay, d, dir, tags)
    ensures TagsOk(recs, d, recs[d].dir.tag, tags) && NamesOk(recs, tags)
  {
  }

  /** A dump of the store of a file system: whatever the cache holds, a tag that does not resolve to an invalid
      one has the value the server reads, up to the size of the caller's buffer. */
  method TagValueOf(fs: FileSystem, cache: Cache, tag: Id, size: nat) returns (r: Option<Fetched>)
    requires fs.Sound() && cache.Valid() && cache.recs == fs.db.recs && cache.lay == fs.db.lay
    requires cache.lists == ListsOf(fs.W()) && Coherent(cache.recs, cache.lay, cache.lists, cache.log)
    requires IsTag(fs.db.recs, tag) && 0 < size <= fs.db.lay.tagSize
    requires Value(fs.db.recs, tag).Some?
    ensures var v := Value(fs.db.recs, tag).value;
            r == Some(Fetched(if |v| < size then v else v[..size - 1], |v|))
  {
    hide Settled, Coherent, TagInv, Value, DbValue, ListsOk;
    ServerStore(fs.W(), fs.db.lay);
    ValidTop(fs.db.recs, fs.db.lay, tag);
    ServerValue(fs.db.recs, fs.db.lay, tag);
    ClipIs(Value(fs.db.recs, tag).value, size);
    r := cache.FindTagValue(tag, size);
  }

  lemma ClipIs(v: seq<byte>, size: nat)
    requires size > 0
    ensures Clip(v, size) == if |v| < size then v else v[..size - 1]
  {
  }

  lemma ValidTop(recs: Recs, lay: Layout, tag: Id)
    requires TagInv(recs, lay) && Value(recs, tag).Some?
    ensures Top(recs, tag).Some? && IsTag(recs, Top(recs, tag).value) && !recs[Top(recs, tag).value].tag.invalid
  {
  }
}
