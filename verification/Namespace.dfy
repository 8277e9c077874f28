/** The namespace: every directory entry names an inode whose parent is that directory. */
module Namespace {
  import opened Records
  import opened Worlds

  ghost predicate IsEntry(v: View, d: Id, name: Name) {
    d in v && v[d].DirNode? && name in v[d].entries
  }

  ghost function EntryOf(v: View, d: Id, name: Name): Item
    requires IsEntry(v, d, name)
  {
    v[d].entries[name]
  }

  /** Entries name inodes that know their directory, and no inode has two entries. */
  ghost predicate TreeOk(v: View) {
    && (forall d, name :: IsEntry(v, d, name) ==>
          EntryOf(v, d, name).name == name && EntryOf(v, d, name).id in v && v[EntryOf(v, d, name).id].parent == d)
    && (forall d, a, b :: IsEntry(v, d, a) && IsEntry(v, d, b) && EntryOf(v, d, a).id == EntryOf(v, d, b).id ==> a == b)
  }

  ghost predicate Unnamed(v: View, n: Id) {
    forall d, name :: IsEntry(v, d, name) ==> EntryOf(v, d, name).id != n
  }

  ghost function WithEntry(v: View, d: Id, item: Item): View
    requires d in v && v[d].DirNode?
  {
    v[d := v[d].(entries := v[d].entries[item.name := item])]
  }

  ghost function WithoutEntry(v: View, d: Id, name: Name): View
    requires d in v && v[d].DirNode?
  {
    v[d := v[d].(entries := v[d].entries - {name})]
  }

  lemma EmptyTree()
    ensures TreeOk(map[])
  {
  }

  lemma TreeNew(v: View, n: Id, node: Node)
    requires TreeOk(v) && n !in v && (node.DirNode? ==> node.entries == map[])
    ensures TreeOk(v[n := node]) && Unnamed(v[n := node], n)
  {
    var v1 := v[n := node];
    forall d, name | IsEntry(v1, d, name) ensures IsEntry(v, d, name) && EntryOf(v1, d, name) == EntryOf(v, d, name) {
    }
  }

  /** A node may change anything but its parent and its entries. */
  lemma TreeSame(v: View, n: Id, node: Node)
    requires TreeOk(v) && n in v && node.parent == v[n].parent
    requires node.DirNode? <==> v[n].DirNode?
    requires node.DirNode? ==> node.entries == v[n].entries
    ensures TreeOk(v[n := node])
    ensures forall x :: Unnamed(v, x) ==> Unnamed(v[n := node], x)
  {
    var v1 := v[n := node];
    forall d, name | IsEntry(v1, d, name) ensures IsEntry(v, d, name) && EntryOf(v1, d, name) == EntryOf(v, d, name) {
    }
  }

  lemma TreeAdd(v: View, d: Id, item: Item)
    requires TreeOk(v) && d in v && v[d].DirNode? && item.name !in v[d].entries
    requires item.id in v && v[item.id].parent == d && Unnamed(v, item.id)
    ensures TreeOk(WithEntry(v, d, item))
  {
    var v1 := WithEntry(v, d, item);
    forall e, name | IsEntry(v1, e, name)
      ensures if e == d && name == item.name then EntryOf(v1, e, name) == item
              else IsEntry(v, e, name) && EntryOf(v1, e, name) == EntryOf(v, e, name)
    {
    }
    assert forall x :: x in v1 <==> x in v;
    assert forall x :: x in v ==> v1[x].parent == v[x].parent;
  }

  lemma TreeRemove(v: View, d: Id, name: Name)
    requires TreeOk(v) && IsEntry(v, d, name)
    ensures TreeOk(WithoutEntry(v, d, name)) && Unnamed(WithoutEntry(v, d, name), EntryOf(v, d, name).id)
  {
    var v1 := WithoutEntry(v, d, name);
    forall e, other | IsEntry(v1, e, other)
      ensures IsEntry(v, e, other) && EntryOf(v1, e, other) == EntryOf(v, e, other) && (e != d || other != name)
    {
    }
    assert forall x :: x in v1 <==> x in v;
    assert forall x :: x in v ==> v1[x].parent == v[x].parent;
  }

  lemma TreeDelete(v: View, n: Id)
    requires TreeOk(v) && Unnamed(v, n)
    ensures TreeOk(v - {n})
  {
    var v1 := v - {n};
    forall e, other | IsEntry(v1, e, other) ensures IsEntry(v, e, other) && EntryOf(v1, e, other) == EntryOf(v, e, other) {
    }
  }

  // ----- rename -----

  /** The view after dbs_rename: one entry moved, and its inode re-parented. */
  ghost function Renamed(v: View, from: Id, fromName: Name, to: Id, toName: Name): View
    requires IsEntry(v, from, fromName) && to in v && v[to].DirNode?
  {
    var item := EntryOf(v, from, fromName);
    var v2 := WithoutEntry(WithEntry(v, to, item.(name := toName)), from, fromName);
    if item.id in v2 then v2[item.id := v2[item.id].(parent := to)] else v2
  }

  /** A rename moves exactly one item: the new name finds the same ID, the old name is absent, every other lookup
      is unchanged, and the entries still name inodes that know their directory. */
  lemma RenameMovesOne(v: View, from: Id, fromName: Name, to: Id, toName: Name)
    requires TreeOk(v) && IsEntry(v, from, fromName) && to in v && v[to].DirNode? && !IsEntry(v, to, toName)
    ensures var v3, item := Renamed(v, from, fromName, to, toName), EntryOf(v, from, fromName);
            && TreeOk(v3) && v3.Keys == v.Keys
            && IsEntry(v3, to, toName) && EntryOf(v3, to, toName) == item.(name := toName)
            && !IsEntry(v3, from, fromName) && v3[item.id].parent == to
            && (forall d: Id, name: Name :: (d, name) != (from, fromName) && (d, name) != (to, toName) ==>
                  (IsEntry(v3, d, name) <==> IsEntry(v, d, name)) && (IsEntry(v, d, name) ==> EntryOf(v3, d, name) == EntryOf(v, d, name)))
            && (forall d :: d in v && d != item.id ==> v3[d].parent == v[d].parent)
  {
    var v3, item := Renamed(v, from, fromName, to, toName), EntryOf(v, from, fromName);
    assert item.id in v;
    forall d, name
      ensures IsEntry(v3, d, name) <==> (d == to && name == toName) || (IsEntry(v, d, name) && (d, name) != (from, fromName))
      ensures IsEntry(v3, d, name) ==>
                EntryOf(v3, d, name) == if d == to && name == toName then item.(name := toName) else EntryOf(v, d, name)
    {
    }
    forall d | d in v ensures v3[d].parent == if d == item.id then to else v[d].parent {
    }
    RenamedTree(v, v3, from, fromName, to, toName);
  }

  /** A rename changes no more of any inode than the two entry maps and one parent. */
  lemma RenameKeeps(v: View, from: Id, fromName: Name, to: Id, toName: Name)
    requires TreeOk(v) && IsEntry(v, from, fromName) && to in v && v[to].DirNode?
    ensures var v3, item := Renamed(v, from, fromName, to, toName), EntryOf(v, from, fromName);
            && item.id in v && v3.Keys == v.Keys
            && (forall d :: d in v && d != item.id && d != from && d != to ==> v3[d] == v[d])
            && (item.id != from ==> v3[from].DirNode? && v3[from] == v[from].(entries := v3[from].entries))
            && (item.id != to ==> v3[to].DirNode? && v3[to] == v[to].(entries := v3[to].entries))
            && (item.id != from && item.id != to ==> v3[item.id] == v[item.id].(parent := to))
  {
  }

  lemma RenamedTree(v: View, v3: View, from: Id, fromName: Name, to: Id, toName: Name)
    requires TreeOk(v) && IsEntry(v, from, fromName) && v3.Keys == v.Keys && EntryOf(v, from, fromName).id in v
    requires forall d, name :: IsEntry(v3, d, name) <==> (d == to && name == toName) || (IsEntry(v, d, name) && (d, name) != (from, fromName))
    requires forall d, name :: IsEntry(v3, d, name) ==>
               EntryOf(v3, d, name) == if d == to && name == toName then EntryOf(v, from, fromName).(name := toName) else EntryOf(v, d, name)
    requires forall d :: d in v ==> v3[d].parent == if d == EntryOf(v, from, fromName).id then to else v[d].parent
    requires !IsEntry(v, to, toName)
    ensures TreeOk(v3)
  {
    var id := EntryOf(v, from, fromName).id;
    forall d, name | IsEntry(v, d, name) && (d, name) != (from, fromName) ensures EntryOf(v, d, name).id != id {
      assert v[EntryOf(v, d, name).id].parent == d && v[id].parent == from;
    }
  }

  /** The number of entries: one fewer in the source, one more in the target, or the same number in one directory. */
  lemma RenameCounts(v: View, from: Id, fromName: Name, to: Id, toName: Name)
    requires TreeOk(v) && IsEntry(v, from, fromName) && to in v && v[to].DirNode? && !IsEntry(v, to, toName)
    ensures var v3 := Renamed(v, from, fromName, to, toName);
            && from in v3 && v3[from].DirNode? && to in v3 && v3[to].DirNode?
            && if from == to then |v3[from].entries| == |v[from].entries|
               else |v3[from].entries| == |v[from].entries| - 1 && |v3[to].entries| == |v[to].entries| + 1
  {
    var item := EntryOf(v, from, fromName);
    var e := v[to].entries[toName := item.(name := toName)];
    assert e.Keys == v[to].entries.Keys + {toName};
    if from == to {
      assert (e - {fromName}).Keys == e.Keys - {fromName};
    } else {
      assert (v[from].entries - {fromName}).Keys == v[from].entries.Keys - {fromName};
    }
  }
}
