/**
  A mounted volume as the merge sees it: directories, regular files and symbolic links.
  Paths run through directories only, so what stands below a link or a file is unreachable.
 */
module FileTree {
  import opened Wrappers
  import opened Common

  type Path = seq<string>

  datatype Entry = File(bytes: seq<Byte>) | Link(target: string)

  datatype Node = Dir | Leaf(entry: Entry)

  type Tree = map<Path, Node>

  // q is a directory component on the way to p
  predicate Above(q: Path, p: Path) {
    q != [] && q < p
  }

  // every path on the way to a node is a directory
  ghost predicate WellFormed(t: Tree) {
    && [] !in t
    && forall p, q :: p in t && Above(q, p) ==> q in t && t[q].Dir?
  }

  predicate IsLeaf(t: Tree, p: Path) {
    p in t && t[p].Leaf?
  }

  // the identity of a path: what it holds when it is a file or a link
  function EntryAt(t: Tree, p: Path): Option<Entry> {
    if IsLeaf(t, p) then Some(t[p].entry) else None
  }

  function Entries(t: Tree): map<Path, Entry> {
    map p | p in t && t[p].Leaf? :: t[p].entry
  }

  // a file or a link stands above p
  ghost predicate Shadowed(t: Tree, p: Path) {
    exists q :: Above(q, p) && IsLeaf(t, q)
  }

  ghost predicate PrefixFree(entries: set<Path>) {
    forall p, q :: p in entries && q in entries ==> !Above(q, p)
  }

  lemma EntriesArePrefixFree(t: Tree)
    requires WellFormed(t)
    ensures PrefixFree(Entries(t).Keys)
    ensures forall p :: p in t ==> !Shadowed(t, p)
  {
  }

  lemma SameEntries(t: Tree, u: map<Path, Entry>)
    requires forall p :: EntryAt(t, p) == if p in u then Some(u[p]) else None
    ensures Entries(t) == u
  {
    forall p ensures p in Entries(t) <==> p in u {
      assert EntryAt(t, p) == if p in u then Some(u[p]) else None;
    }
    forall p | p in u ensures Entries(t)[p] == u[p] {
      assert EntryAt(t, p) == Some(u[p]);
    }
  }

  // ---- the order of the walk ----

  // The path as text, as it is sorted.
  function Render(p: Path): string {
    if p == [] then "" else if |p| == 1 then p[0] else p[0] + "/" + Render(p[1..])
  }

  predicate TextLeq(s: string, t: string) {
    s == [] || (t != [] && (s[0] < t[0] || (s[0] == t[0] && TextLeq(s[1..], t[1..]))))
  }

  lemma {:induction false} TextLeqTotal(s: string, t: string)
    ensures TextLeq(s, t) || TextLeq(t, s)
  {
    if s != [] && t != [] && s[0] == t[0] {
      TextLeqTotal(s[1..], t[1..]);
    }
  }

  lemma {:induction false} TextLeqTransitive(s: string, t: string, u: string)
    requires TextLeq(s, t) && TextLeq(t, u)
    ensures TextLeq(s, u)
  {
    if s != [] && s[0] == t[0] && t[0] == u[0] {
      TextLeqTransitive(s[1..], t[1..], u[1..]);
    }
  }

  // A text sorts strictly before every proper extension of it.
  lemma {:induction false} ExtensionSortsAfter(s: string, more: string)
    requires more != []
    ensures !TextLeq(s + more, s)
  {
    if s != [] {
      assert (s + more)[1..] == s[1..] + more;
      ExtensionSortsAfter(s[1..], more);
    }
  }

  lemma {:induction false} RenderExtends(q: Path, p: Path) returns (more: string)
    requires Above(q, p)
    ensures more != [] && Render(p) == Render(q) + more
  {
    assert q[0] == p[0];
    if |q| == 1 {
      more := "/" + Render(p[1..]);
      assert Render(p) == p[0] + "/" + Render(p[1..]);
    } else {
      assert Above(q[1..], p[1..]);
      more := RenderExtends(q[1..], p[1..]);
      assert Render(p) == p[0] + "/" + Render(p[1..]);
      assert Render(q) == q[0] + "/" + Render(q[1..]);
    }
  }

  /** Sorting the texts puts what stands above a path before the path. */
  lemma AncestorSortsFirst(q: Path, p: Path)
    requires Above(q, p)
    ensures !TextLeq(Render(p), Render(q))
  {
    var more := RenderExtends(q, p);
    ExtensionSortsAfter(Render(q), more);
  }

  ghost predicate InOrder(ps: seq<Path>) {
    forall i, j :: 0 <= i < j < |ps| ==> TextLeq(Render(ps[i]), Render(ps[j]))
  }

  ghost function Elements(ps: seq<Path>): set<Path> {
    set p | p in ps
  }

  ghost predicate Lists(ps: seq<Path>, s: set<Path>) {
    && (forall p :: p in ps <==> p in s)
    && (forall i, j :: 0 <= i < j < |ps| ==> ps[i] != ps[j])
  }

  /** `sorted` on a set of paths: each once, in the order of their texts. */
  method Sorted(s: set<Path>) returns (ps: seq<Path>)
    ensures Lists(ps, s) && InOrder(ps)
  {
    ps := [];
    var left := s;
    while left != {}
      invariant left <= s
      invariant Lists(ps, s - left) && InOrder(ps)
      decreases |left|
    {
      var p :| p in left;
      left := left - {p};
      ps := Insert(ps, p);
      assert s - left == (s - left - {p}) + {p};
    }
    assert s - left == s;
  }

  method Insert(ps: seq<Path>, p: Path) returns (r: seq<Path>)
    requires InOrder(ps) && p !in ps
    requires forall i, j :: 0 <= i < j < |ps| ==> ps[i] != ps[j]
    ensures InOrder(r) && |r| == |ps| + 1
    ensures forall q :: q in r <==> q in ps || q == p
    ensures forall i, j :: 0 <= i < j < |r| ==> r[i] != r[j]
  {
    var k := 0;
    while k < |ps| && TextLeq(Render(ps[k]), Render(p))
      invariant 0 <= k <= |ps|
      invariant forall i :: 0 <= i < k ==> TextLeq(Render(ps[i]), Render(p))
    {
      k := k + 1;
    }
    r := ps[..k] + [p] + ps[k..];
    forall i | k <= i < |ps| ensures TextLeq(Render(p), Render(ps[i])) {
      TextLeqTotal(Render(p), Render(ps[k]));
      if k < i {
        TextLeqTransitive(Render(p), Render(ps[k]), Render(ps[i]));
      }
    }
    forall i, j | 0 <= i < j < |r| ensures TextLeq(Render(r[i]), Render(r[j])) && r[i] != r[j] {
      var i', j' := if i < k then i else i - 1, if j < k then j else j - 1;
      assert i != k ==> r[i] == ps[i'] && ps[i'] in ps;
      assert j != k ==> r[j] == ps[j'] && ps[j'] in ps;
    }
    assert ps == ps[..k] + ps[k..];
  }

  /** In sorted order, everything listed that stands above ps[k] comes before it. */
  lemma AncestorsComeFirst(ps: seq<Path>, k: nat)
    requires InOrder(ps) && k < |ps|
    ensures forall i :: k <= i < |ps| ==> !Above(ps[i], ps[k])
  {
    forall i | k <= i < |ps| ensures !Above(ps[i], ps[k]) {
      if Above(ps[i], ps[k]) {
        AncestorSortsFirst(ps[i], ps[k]);
      }
    }
  }
}
