/** The tag list of a directory: tag inodes linked from the directory inode (md2tags.c). */
module TagShapes {
  import opened Records
  import opened FileShapes
  import opened DirShapes

  /** MAX_TAG_NAME_SIZE - 1 characters of a tag name are kept. */
  const TAG_NAME: nat := 61

  ghost predicate IsTag(recs: Recs, id: Id) {
    id in recs && id != NULL && recs[id].TagRec?
  }

  /** The list from `head` is `tags`; each tag belongs to directory `n`. */
  ghost predicate TagsOk(recs: Recs, n: Id, head: Id, tags: seq<Id>) {
    && head == Head(tags) && Distinct(tags)
    && forall k :: 0 <= k < |tags| ==>
         IsTag(recs, tags[k]) && recs[tags[k]].tag.base == n && recs[tags[k]].tag.next == NextIn(tags, k)
  }

  lemma TagsFrame(r0: Recs, r1: Recs, n: Id, head: Id, tags: seq<Id>)
    requires TagsOk(r0, n, head, tags)
    requires forall id :: id in tags ==> id in r1 && id in r0 && r0[id] == r1[id]
    ensures TagsOk(r1, n, head, tags)
  {
  }
}
