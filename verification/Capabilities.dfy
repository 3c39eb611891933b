/** The order of capabilities: every dependency before what depends on it. */
module Capabilities {
  import opened Wrappers

  // name to the names it depends on
  type Catalog = map<string, seq<string>>

  datatype Error =
    | Unknown(name: string)
    | Missing(current: string, dep: string)
    | Cycle(path: seq<string>)

  // ---- the specification ----

  predicate DependsOn(catalog: Catalog, a: string, b: string) {
    a in catalog && b in catalog[a]
  }

  // each name depends directly on the next
  predicate IsPath(catalog: Catalog, path: seq<string>) {
    && path != []
    && forall i :: 0 <= i < |path| - 1 ==> DependsOn(catalog, path[i], path[i + 1])
  }

  ghost predicate Reaches(catalog: Catalog, a: string, b: string) {
    exists path :: IsPath(catalog, path) && path[0] == a && path[|path| - 1] == b
  }

  // a real cycle: a path of at least one dependency back to its start
  predicate IsCycle(catalog: Catalog, path: seq<string>) {
    IsPath(catalog, path) && |path| >= 2 && path[0] == path[|path| - 1]
  }

  // the names in ordered before i
  predicate Before(ordered: seq<string>, i: nat, name: string)
    requires i <= |ordered|
  {
    name in ordered[..i]
  }

  // each once, and everything it depends on before it
  ghost predicate Sorted(catalog: Catalog, ordered: seq<string>) {
    && (forall i :: 0 <= i < |ordered| ==> ordered[i] in catalog)
    && (forall i, j :: 0 <= i < j < |ordered| ==> ordered[i] != ordered[j])
    && (forall i, b :: 0 <= i < |ordered| && DependsOn(catalog, ordered[i], b) ==> Before(ordered, i, b))
  }

  // What a sorted list holds, it holds with everything reachable from it.
  lemma {:induction false} SortedIsClosed(catalog: Catalog, ordered: seq<string>, path: seq<string>)
    requires Sorted(catalog, ordered) && IsPath(catalog, path) && path[0] in ordered
    ensures path[|path| - 1] in ordered
    decreases |path|
  {
    if |path| > 1 {
      var i :| 0 <= i < |ordered| && ordered[i] == path[0];
      assert Before(ordered, i, path[1]);
      assert IsPath(catalog, path[1..]) by {
        forall k | 0 <= k < |path[1..]| - 1 ensures DependsOn(catalog, path[1..][k], path[1..][k + 1]) {
          assert DependsOn(catalog, path[k + 1], path[k + 2]);
        }
      }
      SortedIsClosed(catalog, ordered, path[1..]);
    }
  }

  // Along a path the place in a sorted list only goes down.
  lemma {:induction false} PathsGoDown(catalog: Catalog, ordered: seq<string>, path: seq<string>, i: nat)
    requires Sorted(catalog, ordered) && IsPath(catalog, path)
    requires i < |ordered| && ordered[i] == path[0]
    ensures |path| > 1 ==> exists j :: 0 <= j < i && ordered[j] == path[|path| - 1]
    decreases |path|
  {
    if |path| > 1 {
      assert Before(ordered, i, path[1]);
      var k :| 0 <= k < i && ordered[k] == path[1];
      assert IsPath(catalog, path[1..]) by {
        forall k | 0 <= k < |path[1..]| - 1 ensures DependsOn(catalog, path[1..][k], path[1..][k + 1]) {
          assert DependsOn(catalog, path[k + 1], path[k + 2]);
        }
      }
      PathsGoDown(catalog, ordered, path[1..], k);
      assert path[1..][|path| - 2] == path[|path| - 1];
    }
  }

  /** Nothing in a sorted list is on a cycle. */
  lemma SortedHasNoCycle(catalog: Catalog, ordered: seq<string>, path: seq<string>)
    requires Sorted(catalog, ordered) && IsCycle(catalog, path)
    ensures path[0] !in ordered
  {
    if i :| 0 <= i < |ordered| && ordered[i] == path[0] {
      PathsGoDown(catalog, ordered, path, i);
    }
  }

  // ---- the algorithm ----

  class Sorter {
    const catalog: Catalog
    var ordered: seq<string>
    var visiting: seq<string>

    constructor (catalog: Catalog)
      ensures this.catalog == catalog && ordered == [] && visiting == []
    {
      this.catalog := catalog;
      ordered, visiting := [], [];
    }

    // visiting is the path the walk is on; what it has finished is sorted and apart from it
    ghost predicate Valid(name: string)
      reads this
    {
      && Sorted(catalog, ordered)
      && (forall x :: x in visiting ==> x in catalog && x !in ordered)
      && (forall i, j :: 0 <= i < j < |visiting| ==> visiting[i] != visiting[j])
      && (visiting != [] ==> IsPath(catalog, visiting) && visiting[0] == name)
      && (forall x :: x in ordered ==> Reaches(catalog, name, x))
    }

    ghost function Unvisited(): set<string>
      reads this
    {
      catalog.Keys - (set x | x in visiting)
    }

    // everything visited so far and what is under way
    ghost predicate Honest(name: string, error: Error)
      reads this
    {
      match error
      case Unknown(_) => false
      case Missing(current, dep) =>
        Reaches(catalog, name, current) && DependsOn(catalog, current, dep) && dep !in catalog
      case Cycle(path) => IsCycle(catalog, path) && Reaches(catalog, name, path[0])
    }

    // current joins the walk
    method Push(name: string, current: string)
      requires Valid(name) && current in catalog && current !in visiting && current !in ordered
      requires if visiting == [] then current == name else DependsOn(catalog, visiting[|visiting| - 1], current)
      modifies `visiting
      ensures Valid(name) && visiting == old(visiting) + [current]
      ensures Unvisited() < old(Unvisited()) && Reaches(catalog, name, current)
    {
      WalkGoesOn(catalog, visiting, current);
      visiting := visiting + [current];
      WalkIsReached(catalog, name, visiting, |visiting| - 1);
      assert current in old(Unvisited()) && current !in Unvisited();
    }

    // current leaves the walk, finished
    method Pop(name: string)
      requires Valid(name) && visiting != [] && Reaches(catalog, name, visiting[|visiting| - 1])
      requires
        var deps := catalog[visiting[|visiting| - 1]];
        forall j :: 0 <= j < |deps| ==> deps[j] in ordered
      modifies this
      ensures Valid(name) && visiting == old(visiting)[..|old(visiting)| - 1]
      ensures ordered == old(ordered) + [old(visiting)[|old(visiting)| - 1]]
    {
      var current := visiting[|visiting| - 1];
      assert visiting[..|visiting| - 1] + [current] == visiting;
      visiting := visiting[..|visiting| - 1];
      AppendKeepsSorted(catalog, ordered, current);
      ordered := ordered + [current];
    }

    lemma CycleFound(name: string, at: nat, current: string)
      requires Valid(name) && at < |visiting| && visiting[at] == current
      requires DependsOn(catalog, visiting[|visiting| - 1], current)
      ensures Honest(name, Cycle(visiting[at..] + [current]))
    {
      CycleOnTheWalk(catalog, visiting, at, current);
      WalkIsReached(catalog, name, visiting, at);
    }

    /** Append current and all it needs, unless it is there; an error names what is wrong. */
    method Visit(name: string, current: string) returns (error: Option<Error>)
      requires Valid(name) && current in catalog
      requires if visiting == [] then current == name else DependsOn(catalog, visiting[|visiting| - 1], current)
      modifies this
      ensures error.None? ==> Valid(name) && visiting == old(visiting)
      ensures error.None? ==> old(ordered) <= ordered && current in ordered
      ensures error.None? && current !in old(ordered) ==> ordered[|ordered| - 1] == current
      ensures error.Some? ==> Honest(name, error.value)
      decreases Unvisited(), 1
    {
      if current in visiting {
        var at := IndexOf(visiting, current);
        CycleFound(name, at, current);
        return Some(Cycle(visiting[at..] + [current]));
      }
      if current in ordered {
        return None;
      }
      ghost var walk := visiting;
      Push(name, current);
      var deps := catalog[current];
      for i := 0 to |deps|
        invariant Valid(name) && visiting == walk + [current]
        invariant old(ordered) <= ordered
        invariant forall j :: 0 <= j < i ==> deps[j] in ordered
      {
        if deps[i] !in catalog {
          return Some(Missing(current, deps[i]));
        }
        error := Visit(name, deps[i]);
        if error.Some? {
          return;
        }
      }
      Pop(name);
      assert visiting == walk;
      return None;
    }
  }

  method IndexOf(xs: seq<string>, x: string) returns (at: nat)
    requires x in xs
    ensures at < |xs| && xs[at] == x && x !in xs[..at]
  {
    at := 0;
    while xs[at] != x
      invariant at < |xs| && x !in xs[..at]
      decreases |xs| - at
    {
      at := at + 1;
    }
  }

  lemma WalkGoesOn(catalog: Catalog, walk: seq<string>, current: string)
    requires walk != [] ==> IsPath(catalog, walk) && DependsOn(catalog, walk[|walk| - 1], current)
    ensures IsPath(catalog, walk + [current])
  {
  }

  lemma WalkIsReached(catalog: Catalog, name: string, walk: seq<string>, at: nat)
    requires at < |walk| && IsPath(catalog, walk) && walk[0] == name
    ensures Reaches(catalog, name, walk[at])
  {
    var path := walk[..at + 1];
    assert IsPath(catalog, path) && path[0] == name && path[|path| - 1] == walk[at];
  }

  lemma CycleOnTheWalk(catalog: Catalog, walk: seq<string>, at: nat, current: string)
    requires at < |walk| && IsPath(catalog, walk) && walk[at] == current
    requires DependsOn(catalog, walk[|walk| - 1], current)
    ensures IsCycle(catalog, walk[at..] + [current])
  {
    var path := walk[at..] + [current];
    forall k | 0 <= k < |path| - 1 ensures DependsOn(catalog, path[k], path[k + 1]) {
      if k < |path| - 2 {
        assert DependsOn(catalog, walk[at + k], walk[at + k + 1]);
      }
    }
  }

  lemma AppendKeepsSorted(catalog: Catalog, ordered: seq<string>, current: string)
    requires Sorted(catalog, ordered) && current in catalog && current !in ordered
    requires forall j :: 0 <= j < |catalog[current]| ==> catalog[current][j] in ordered
    ensures Sorted(catalog, ordered + [current])
  {
    var more := ordered + [current];
    forall i, b | 0 <= i < |more| && DependsOn(catalog, more[i], b) ensures Before(more, i, b) {
      if i < |ordered| {
        assert Before(ordered, i, b);
        assert more[..i] == ordered[..i];
      } else {
        assert more[..i] == ordered;
      }
    }
  }

  /**
    Success lists exactly what name reaches, each once, every dependency before what needs
    it and name last. An error names a missing dependency that is reached, or a cycle that
    is real and reached.
   */
  method Order(catalog: Catalog, name: string) returns (r: Result<seq<string>, Error>)
    ensures r.Ok? ==>
      && Sorted(catalog, r.value)
      && (forall x :: x in r.value <==> Reaches(catalog, name, x))
      && r.value != [] && r.value[|r.value| - 1] == name
    ensures r.Err? ==>
      match r.error
      case Unknown(n) => n == name && name !in catalog
      case Missing(current, dep) =>
        Reaches(catalog, name, current) && DependsOn(catalog, current, dep) && dep !in catalog
      case Cycle(path) => IsCycle(catalog, path) && Reaches(catalog, name, path[0])
    ensures name in catalog && (forall a, b :: DependsOn(catalog, a, b) ==> b in catalog) ==>
      (r.Err? <==> exists path :: IsCycle(catalog, path) && Reaches(catalog, name, path[0]))
  {
    if name !in catalog {
      return Err(Unknown(name));
    }
    var sorter := new Sorter(catalog);
    var error := sorter.Visit(name, name);
    if error.Some? {
      return Err(error.value);
    }
    var ordered := sorter.ordered;
    forall x | Reaches(catalog, name, x) ensures x in ordered {
      var path :| IsPath(catalog, path) && path[0] == name && path[|path| - 1] == x;
      SortedIsClosed(catalog, ordered, path);
    }
    forall path | IsCycle(catalog, path) ensures !Reaches(catalog, name, path[0]) {
      SortedHasNoCycle(catalog, ordered, path);
    }
    return Ok(ordered);
  }
}
