/**
  A mounted volume changed in place: the primitives of the merge, each proved by what
  every path holds afterwards.
 */
module Volumes {
  import opened Wrappers
  import opened FileTree

  class Volume {
    var nodes: Tree

    ghost predicate Valid()
      reads this
    {
      WellFormed(nodes)
    }

    constructor Empty()
      ensures nodes == map[] && Valid()
    {
      nodes := map[];
    }

    /** None exactly when the path is shadowed: no walk goes through a file or a link. */
    method EntryPath(rel: Path) returns (r: Option<Path>)
      ensures r.None? <==> Shadowed(nodes, rel)
      ensures r.Some? ==> r.value == rel
    {
      var i := 1;
      while i < |rel|
        invariant 1 <= i
        invariant forall q :: Above(q, rel) && |q| < i ==> !IsLeaf(nodes, q)
      {
        if IsLeaf(nodes, rel[..i]) {
          assert Above(rel[..i], rel);
          return None;
        }
        assert forall q :: Above(q, rel) && |q| == i ==> q == rel[..i];
        i := i + 1;
      }
      return Some(rel);
    }

    // what the merge hashes: None when absent, a directory, or behind an entry
    method Lookup(rel: Path) returns (e: Option<Entry>)
      requires Valid()
      ensures e == EntryAt(nodes, rel)
    {
      var p := EntryPath(rel);
      match p
      case None =>
        EntriesArePrefixFree(nodes);
        return None;
      case Some(at) =>
        return EntryAt(nodes, at);
    }

    method Unlink(p: Path)
      requires Valid() && IsLeaf(nodes, p)
      modifies this
      ensures Valid() && nodes == old(nodes) - {p}
    {
      nodes := nodes - {p};
    }

    method RemoveTree(p: Path)
      requires Valid() && p in nodes && nodes[p].Dir?
      modifies this
      ensures Valid()
      ensures nodes == map q | q in old(nodes) && q != p && !Above(p, q) :: old(nodes)[q]
    {
      assert p != [];
      nodes := map q | q in nodes && q != p && !Above(p, q) :: nodes[q];
      forall r, q | r in nodes && Above(q, r) ensures q in nodes && nodes[q].Dir? {
        assert q in old(nodes);
        assert Above(p, q) ==> Above(p, r);
      }
    }

    // every directory above p, those that exist included
    method MakeParents(p: Path)
      requires Valid() && !Shadowed(nodes, p)
      modifies this
      ensures Valid()
      ensures forall q :: q in nodes <==> q in old(nodes) || Above(q, p)
      ensures forall q :: q in nodes ==> nodes[q] == if q in old(nodes) then old(nodes)[q] else Dir
    {
      var made := set i | 0 < i < |p| :: p[..i];
      assert forall q :: q in made <==> Above(q, p) by {
        forall q | Above(q, p) ensures q in made {
          assert q == p[..|q|] && 0 < |q| < |p|;
        }
      }
      nodes := map q | q in nodes.Keys + made :: if q in nodes then nodes[q] else Dir;
      forall r, q | r in nodes && Above(q, r) ensures q in nodes && nodes[q].Dir? {
        if r !in old(nodes) {
          assert Above(q, p);
        }
        assert q in old(nodes) && Above(q, p) ==> old(nodes)[q].Dir?;
      }
    }

    /**
      Reproduce an entry at dest, whatever stood there. A directory at dest goes with
      everything below it; nothing else changes.
     */
    method CopyEntry(e: Entry, dest: Path)
      requires Valid() && dest != [] && !Shadowed(nodes, dest)
      modifies this
      ensures Valid()
      ensures forall q :: EntryAt(nodes, q) ==
                          if q == dest then Some(e)
                          else if Above(dest, q) then None
                          else EntryAt(old(nodes), q)
    {
      if IsLeaf(nodes, dest) {
        Unlink(dest);
      } else if dest in nodes {
        RemoveTree(dest);
      }
      assert forall q :: EntryAt(nodes, q) ==
                         if q == dest || Above(dest, q) then None else EntryAt(old(nodes), q);
      assert !Shadowed(nodes, dest) by {
        forall q | Above(q, dest) ensures !IsLeaf(nodes, q) {
          assert !IsLeaf(old(nodes), q);
          assert EntryAt(nodes, q) == EntryAt(old(nodes), q);
        }
      }
      assert forall q :: q in nodes ==> q != dest && !Above(dest, q);
      MakeParents(dest);
      nodes := nodes[dest := Leaf(e)];
    }

    // what stands above one entry of the result, and is no entry itself, is unlinked
    method UnlinkAbove(rel: Path, entries: set<Path>)
      requires Valid() && PrefixFree(entries) && rel in entries
      modifies this
      ensures Valid()
      ensures forall q :: EntryAt(nodes, q) == if Above(q, rel) then None else EntryAt(old(nodes), q)
    {
      var n := 1;
      while n < |rel|
        invariant 1 <= n
        invariant Valid()
        invariant forall q :: EntryAt(nodes, q) == if Above(q, rel) && |q| < n then None else EntryAt(old(nodes), q)
      {
        var walked := rel[..n];
        assert Above(walked, rel) && walked !in entries;
        if IsLeaf(nodes, walked) && walked !in entries {
          Unlink(walked);
        }
        assert EntryAt(nodes, walked) == None;
        assert forall q :: Above(q, rel) && |q| == n ==> q == walked;
        n := n + 1;
      }
    }

    /**
      Afterwards every entry can be copied to its place, since no leaf stands in its way; a path
      that stands above none of them is untouched.
     */
    method UnlinkStaleAncestors(entries: set<Path>)
      requires Valid() && PrefixFree(entries)
      modifies this
      ensures Valid()
      ensures forall q :: EntryAt(nodes, q) ==
                          if exists r :: r in entries && Above(q, r) then None
                          else EntryAt(old(nodes), q)
    {
      var order := Sorted(entries);
      for k := 0 to |order|
        invariant Valid()
        invariant forall q :: EntryAt(nodes, q) ==
                              if exists i :: 0 <= i < k && Above(q, order[i]) then None
                              else EntryAt(old(nodes), q)
      {
        UnlinkAbove(order[k], entries);
      }
      assert forall r :: r in entries ==> exists i :: 0 <= i < |order| && order[i] == r;
    }
  }
}
