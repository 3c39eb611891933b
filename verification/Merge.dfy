/**
  Merging two forks with the parent they share, and writing the result onto a volume snapped
  from that parent. The specification is declarative: a pick per path, and a picked path
  survives when no picked path stands above it.
 */
module Merge {
  import opened Wrappers
  import opened FileTree
  import opened Volumes

  type Held = Option<Entry>

  // ---- the specification ----

  datatype Verdict = Unchanged | AutoMerged | Conflict

  function Judge(p: Held, a: Held, b: Held): Verdict {
    if a == p && b == p then Unchanged
    else if a == p || b == p || a == b then AutoMerged
    else Conflict
  }

  // What the merge wants at a path; a conflict takes fork A, or B where A deleted.
  function Pick(p: Held, a: Held, b: Held): Held {
    if b == p then a
    else if a == p then b
    else if a.Some? then a
    else b
  }

  function PickAt(P: Tree, A: Tree, B: Tree, r: Path): Held {
    Pick(EntryAt(P, r), EntryAt(A, r), EntryAt(B, r))
  }

  function JudgeAt(P: Tree, A: Tree, B: Tree, r: Path): Verdict {
    Judge(EntryAt(P, r), EntryAt(A, r), EntryAt(B, r))
  }

  function AllEntries(P: Tree, A: Tree, B: Tree): set<Path> {
    Entries(P).Keys + Entries(A).Keys + Entries(B).Keys
  }

  // r is picked, and nothing picked stands above it
  ghost predicate Survives(P: Tree, A: Tree, B: Tree, r: Path) {
    && PickAt(P, A, B, r).Some?
    && forall q :: Above(q, r) ==> PickAt(P, A, B, q).None?
  }

  ghost function Merged(P: Tree, A: Tree, B: Tree): map<Path, Entry> {
    map r | r in AllEntries(P, A, B) && Survives(P, A, B, r) :: PickAt(P, A, B, r).value
  }

  // the listed paths at which the three trees hold the same
  ghost function Untouched(P: Tree, A: Tree, B: Tree): set<Path> {
    set r | r in AllEntries(P, A, B) && EntryAt(P, r) == EntryAt(A, r) && EntryAt(A, r) == EntryAt(B, r)
  }

  // the listed paths at which they hold three different things
  ghost function Contested(P: Tree, A: Tree, B: Tree): set<Path> {
    set r | r in AllEntries(P, A, B)
            && EntryAt(P, r) != EntryAt(A, r) && EntryAt(A, r) != EntryAt(B, r) && EntryAt(P, r) != EntryAt(B, r)
  }

  // What a merge reports: how many paths nobody touched, each contested path once with what each
  // tree held there, and how many paths are neither.
  ghost predicate Reports(P: Tree, A: Tree, B: Tree, result: MergeResult) {
    && result.kept == |Untouched(P, A, B)|
    && (forall r :: r in Contested(P, A, B) ==>
          ConflictInfo(r, EntryAt(P, r), EntryAt(A, r), EntryAt(B, r)) in result.conflicts)
    && (forall c :: c in result.conflicts ==>
          c.path in Contested(P, A, B)
          && c == ConflictInfo(c.path, EntryAt(P, c.path), EntryAt(A, c.path), EntryAt(B, c.path)))
    && |result.conflicts| == |Contested(P, A, B)|
    && result.autoMerged == |AllEntries(P, A, B) - Untouched(P, A, B) - Contested(P, A, B)|
  }

  ghost function Judged(P: Tree, A: Tree, B: Tree, among: set<Path>, v: Verdict): set<Path> {
    set r | r in among && JudgeAt(P, A, B, r) == v
  }

  lemma PickedIsListed(P: Tree, A: Tree, B: Tree, r: Path)
    requires PickAt(P, A, B, r).Some?
    ensures r in AllEntries(P, A, B)
  {
    assert r in Entries(P) || r in Entries(A) || r in Entries(B);
  }

  // Something picked stands above r exactly when something that survives does.
  lemma {:induction false} TopmostPick(P: Tree, A: Tree, B: Tree, q: Path, r: Path) returns (top: Path)
    requires Above(q, r) && PickAt(P, A, B, q).Some?
    ensures Above(top, r) && Survives(P, A, B, top)
    decreases |q|
  {
    top := q;
    if q' :| Above(q', q) && PickAt(P, A, B, q').Some? {
      top := TopmostPick(P, A, B, q', r);
    }
  }

  // ---- the merge ----

  datatype ConflictInfo = ConflictInfo(path: Path, parentHash: Held, aHash: Held, bHash: Held)

  datatype MergeResult = MergeResult(conflicts: seq<ConflictInfo>, autoMerged: nat, kept: nat)

  // The conflicts reported are the paths where all three differ pairwise, each once, with
  // what each tree held there.
  ghost predicate ReportsConflicts(P: Tree, A: Tree, B: Tree, among: set<Path>, conflicts: seq<ConflictInfo>) {
    && (forall r :: r in Judged(P, A, B, among, Conflict) ==>
                      ConflictInfo(r, EntryAt(P, r), EntryAt(A, r), EntryAt(B, r)) in conflicts)
    && (forall c :: c in conflicts ==>
                      && c.path in Judged(P, A, B, among, Conflict)
                      && c == ConflictInfo(c.path, EntryAt(P, c.path), EntryAt(A, c.path), EntryAt(B, c.path)))
    && |conflicts| == |Judged(P, A, B, among, Conflict)|
  }

  ghost predicate Counts(P: Tree, A: Tree, B: Tree, among: set<Path>, result: MergeResult) {
    && ReportsConflicts(P, A, B, among, result.conflicts)
    && result.autoMerged == |Judged(P, A, B, among, AutoMerged)|
    && result.kept == |Judged(P, A, B, among, Unchanged)|
  }

  // src was written at dest, in place of all that stood there; nothing when either is None
  ghost predicate Applied(was: Tree, src: Held, dest: Option<Path>, now: Tree) {
    forall q :: EntryAt(now, q) ==
                if src.None? || dest.None? then EntryAt(was, q)
                else if q == dest.value then src
                else if Above(dest.value, q) then None
                else EntryAt(was, q)
  }

  method Apply(src: Held, dest: Option<Path>, output: Volume)
    requires output.Valid()
    requires dest.Some? ==> dest.value != [] && !Shadowed(output.nodes, dest.value)
    modifies output
    ensures output.Valid() && Applied(old(output.nodes), src, dest, output.nodes)
  {
    if src.None? || dest.None? {
      return;
    }
    output.CopyEntry(src.value, dest.value);
  }

  lemma ElementsNext(order: seq<Path>, k: nat)
    requires k < |order| && forall i, j :: 0 <= i < j < |order| ==> order[i] != order[j]
    ensures Elements(order[..k + 1]) == Elements(order[..k]) + {order[k]} && order[k] !in Elements(order[..k])
  {
    assert order[..k + 1] == order[..k] + [order[k]];
  }

  /**
    The walk over every path of the three trees, in order, into an empty output. It leaves
    exactly the picks nothing picked stands above, and reports every path under one verdict.
   */
  method ThreeWayMerge(parent: Volume, forkA: Volume, forkB: Volume, output: Volume) returns (result: MergeResult)
    requires parent.Valid() && forkA.Valid() && forkB.Valid()
    requires output != parent && output != forkA && output != forkB && output.nodes == map[]
    modifies output
    ensures output.Valid()
    ensures Entries(output.nodes) == Merged(parent.nodes, forkA.nodes, forkB.nodes)
    ensures Reports(parent.nodes, forkA.nodes, forkB.nodes, result)
  {
    ghost var P, A, B := parent.nodes, forkA.nodes, forkB.nodes;
    result := MergeResult([], 0, 0);
    var order := Sorted(AllEntries(parent.nodes, forkA.nodes, forkB.nodes));
    for k := 0 to |order|
      invariant HalfWay(P, A, B, order, k, output.nodes)
      invariant Counts(P, A, B, Elements(order[..k]), result)
    {
      ElementsNext(order, k);
      CountsNext(P, A, B, Elements(order[..k]), order[k], result);
      result := MergeStep(parent, forkA, forkB, output, order, k, result, order[k]);
    }
    assert order[..|order|] == order;
    assert Elements(order) == AllEntries(P, A, B);
    WholeWay(P, A, B, order, output.nodes);
    CountsReport(P, A, B, result);
  }

  lemma UntouchedAreUnchanged(P: Tree, A: Tree, B: Tree)
    ensures Judged(P, A, B, AllEntries(P, A, B), Unchanged) == Untouched(P, A, B)
  {
    var judged := Judged(P, A, B, AllEntries(P, A, B), Unchanged);
    forall r ensures r in judged <==> r in Untouched(P, A, B) {
      VerdictsByEquality(P, A, B, r);
    }
  }

  lemma ContestedAreConflicts(P: Tree, A: Tree, B: Tree)
    ensures Judged(P, A, B, AllEntries(P, A, B), Conflict) == Contested(P, A, B)
  {
    var judged := Judged(P, A, B, AllEntries(P, A, B), Conflict);
    forall r ensures r in judged <==> r in Contested(P, A, B) {
      VerdictsByEquality(P, A, B, r);
    }
  }

  lemma TheRestIsMerged(P: Tree, A: Tree, B: Tree, all: set<Path>)
    ensures Judged(P, A, B, all, AutoMerged) == all - Judged(P, A, B, all, Unchanged) - Judged(P, A, B, all, Conflict)
  {
    var judged := Judged(P, A, B, all, AutoMerged);
    forall r ensures r in judged <==> r in all - Judged(P, A, B, all, Unchanged) - Judged(P, A, B, all, Conflict) {
      var verdict := JudgeAt(P, A, B, r);
    }
  }

  // the walk's verdicts, counted, are what the report says of the trees
  lemma CountsReport(P: Tree, A: Tree, B: Tree, result: MergeResult)
    requires Counts(P, A, B, AllEntries(P, A, B), result)
    ensures Reports(P, A, B, result)
  {
    UntouchedAreUnchanged(P, A, B);
    ContestedAreConflicts(P, A, B);
    TheRestIsMerged(P, A, B, AllEntries(P, A, B));
  }

  // The output after the first k paths: what survives among them.
  ghost predicate HalfWay(P: Tree, A: Tree, B: Tree, order: seq<Path>, k: nat, out: Tree) {
    && k <= |order|
    && WellFormed(out)
    && forall q :: EntryAt(out, q) ==
                   if q in order[..k] && Survives(P, A, B, q) then PickAt(P, A, B, q) else None
  }

  lemma WholeWay(P: Tree, A: Tree, B: Tree, order: seq<Path>, out: Tree)
    requires Lists(order, AllEntries(P, A, B)) && HalfWay(P, A, B, order, |order|, out)
    ensures Entries(out) == Merged(P, A, B)
  {
    assert order[..|order|] == order;
    forall r ensures EntryAt(out, r) == if r in Merged(P, A, B) then Some(Merged(P, A, B)[r]) else None {
      if PickAt(P, A, B, r).Some? {
        PickedIsListed(P, A, B, r);
      }
    }
    SameEntries(out, Merged(P, A, B));
  }

  // What the walk does at one path, from what the three trees hold there.
  method Resolve(rel: Path, hp: Held, ha: Held, hb: Held, outFile: Option<Path>, output: Volume, was: MergeResult)
    returns (result: MergeResult)
    requires output.Valid()
    requires outFile.Some? ==> outFile.value != [] && !Shadowed(output.nodes, outFile.value)
    modifies output
    ensures output.Valid() && Applied(old(output.nodes), Pick(hp, ha, hb), outFile, output.nodes)
    ensures result == Tally(hp, ha, hb, was, rel)
  {
    if ha == hp && hb == hp {
      Apply(hp, outFile, output);
      result := was.(kept := was.kept + 1);
    } else if ha != hp && hb == hp {
      Apply(ha, outFile, output);
      result := was.(autoMerged := was.autoMerged + 1);
    } else if ha == hp && hb != hp {
      Apply(hb, outFile, output);
      result := was.(autoMerged := was.autoMerged + 1);
    } else if ha == hb {
      Apply(ha, outFile, output);
      result := was.(autoMerged := was.autoMerged + 1);
    } else {
      result := was.(conflicts := was.conflicts + [ConflictInfo(rel, hp, ha, hb)]);
      if ha.Some? {
        Apply(ha, outFile, output);
      } else {
        Apply(hb, outFile, output);
      }
    }
  }

  // one path of the walk
  method MergeStep(parent: Volume, forkA: Volume, forkB: Volume, output: Volume,
                   ghost order: seq<Path>, ghost k: nat, was: MergeResult, rel: Path)
    returns (result: MergeResult)
    requires parent.Valid() && forkA.Valid() && forkB.Valid()
    requires output != parent && output != forkA && output != forkB
    requires Lists(order, AllEntries(parent.nodes, forkA.nodes, forkB.nodes)) && InOrder(order)
    requires k < |order| && order[k] == rel
    requires HalfWay(parent.nodes, forkA.nodes, forkB.nodes, order, k, output.nodes)
    modifies output
    ensures HalfWay(parent.nodes, forkA.nodes, forkB.nodes, order, k + 1, output.nodes)
    ensures result == TallyAt(parent.nodes, forkA.nodes, forkB.nodes, was, rel)
  {
    var outFile := output.EntryPath(rel);
    var hp := parent.Lookup(rel);
    var ha := forkA.Lookup(rel);
    var hb := forkB.Lookup(rel);
    ghost var P, A, B := parent.nodes, forkA.nodes, forkB.nodes;
    assert rel in AllEntries(P, A, B);
    result := Resolve(rel, hp, ha, hb, outFile, output, was);
    HalfWayNext(P, A, B, order, k, old(output.nodes), outFile, output.nodes);
  }

  lemma HalfWayNext(P: Tree, A: Tree, B: Tree, order: seq<Path>, k: nat,
                    was: Tree, dest: Option<Path>, out: Tree)
    requires Lists(order, AllEntries(P, A, B)) && InOrder(order) && k < |order|
    requires HalfWay(P, A, B, order, k, was) && WellFormed(out)
    requires dest == if Shadowed(was, order[k]) then None else Some(order[k])
    requires Applied(was, PickAt(P, A, B, order[k]), dest, out)
    ensures HalfWay(P, A, B, order, k + 1, out)
  {
    var rel := order[k];
    ShadowedWhenPickedAbove(P, A, B, order, k, was);
    assert order[..k + 1] == order[..k] + [rel];
    assert rel !in order[..k];
    forall q | Above(rel, q) ensures q !in order[..k] {
      if i :| 0 <= i < k && order[i] == q {
        AncestorsComeFirst(order, i);
      }
    }
  }

  // Half way, an entry of the output stands above the next path exactly when a pick does.
  lemma ShadowedWhenPickedAbove(P: Tree, A: Tree, B: Tree, order: seq<Path>, k: nat, out: Tree)
    requires Lists(order, AllEntries(P, A, B)) && InOrder(order) && k < |order|
    requires forall q :: EntryAt(out, q) ==
                         if q in order[..k] && Survives(P, A, B, q) then PickAt(P, A, B, q) else None
    ensures Shadowed(out, order[k]) <==> exists q :: Above(q, order[k]) && PickAt(P, A, B, q).Some?
  {
    var rel := order[k];
    if q :| Above(q, rel) && PickAt(P, A, B, q).Some? {
      var top := TopmostPick(P, A, B, q, rel);
      PickedIsListed(P, A, B, top);
      var i :| 0 <= i < |order| && order[i] == top;
      AncestorsComeFirst(order, k);
      assert order[..k][i] == top;
      assert EntryAt(out, top).Some?;
    }
    if Shadowed(out, rel) {
      var q :| Above(q, rel) && IsLeaf(out, q);
      assert EntryAt(out, q).Some?;
    }
  }

  function Tally(p: Held, a: Held, b: Held, was: MergeResult, r: Path): MergeResult {
    match Judge(p, a, b)
    case Unchanged => was.(kept := was.kept + 1)
    case AutoMerged => was.(autoMerged := was.autoMerged + 1)
    case Conflict => was.(conflicts := was.conflicts + [ConflictInfo(r, p, a, b)])
  }

  function TallyAt(P: Tree, A: Tree, B: Tree, was: MergeResult, r: Path): MergeResult {
    Tally(EntryAt(P, r), EntryAt(A, r), EntryAt(B, r), was, r)
  }

  lemma JudgedWithOneMore(P: Tree, A: Tree, B: Tree, was: set<Path>, r: Path, v: Verdict)
    ensures Judged(P, A, B, was + {r}, v) == Judged(P, A, B, was, v) + if v == JudgeAt(P, A, B, r) then {r} else {}
  {
    var more := Judged(P, A, B, was, v) + if v == JudgeAt(P, A, B, r) then {r} else {};
    forall x ensures x in Judged(P, A, B, was + {r}, v) <==> x in more {
    }
  }

  lemma JudgedGrows(P: Tree, A: Tree, B: Tree, was: set<Path>, r: Path, v: Verdict)
    requires r !in was
    ensures Judged(P, A, B, was + {r}, v) == Judged(P, A, B, was, v) + if v == JudgeAt(P, A, B, r) then {r} else {}
    ensures |Judged(P, A, B, was + {r}, v)| == |Judged(P, A, B, was, v)| + if v == JudgeAt(P, A, B, r) then 1 else 0
  {
    JudgedWithOneMore(P, A, B, was, r, v);
    assert r !in Judged(P, A, B, was, v);
  }

  // One more path moves exactly one of the three counters.
  lemma CountsNext(P: Tree, A: Tree, B: Tree, was: set<Path>, r: Path, result: MergeResult)
    requires r !in was && Counts(P, A, B, was, result)
    ensures Counts(P, A, B, was + {r}, TallyAt(P, A, B, result, r))
  {
    JudgedGrows(P, A, B, was, r, Unchanged);
    JudgedGrows(P, A, B, was, r, AutoMerged);
    ReportsNext(P, A, B, was, r, result.conflicts);
  }

  lemma ReportsNext(P: Tree, A: Tree, B: Tree, was: set<Path>, r: Path, conflicts: seq<ConflictInfo>)
    requires r !in was && ReportsConflicts(P, A, B, was, conflicts)
    ensures
      var next := if JudgeAt(P, A, B, r) == Conflict
                  then conflicts + [ConflictInfo(r, EntryAt(P, r), EntryAt(A, r), EntryAt(B, r))] else conflicts;
      ReportsConflicts(P, A, B, was + {r}, next)
  {
    JudgedGrows(P, A, B, was, r, Conflict);
  }

  // ---- the application onto the parent's snapshot ----

  /**
    Apply the merged tree onto a volume that starts equal to the parent: no stale entry of
    the parent survives, no merged entry is skipped, and the delete pass removes nothing the
    merge placed.
   */
  method ApplyOnto(parent: Tree, mergeOutput: Volume, output: Volume)
    requires mergeOutput.Valid() && output.Valid() && output != mergeOutput
    requires output.nodes == parent
    modifies output
    ensures output.Valid()
    ensures Entries(output.nodes) == Entries(mergeOutput.nodes)
  {
    ghost var M := Entries(mergeOutput.nodes);
    var merged := Entries(mergeOutput.nodes).Keys;
    EntriesArePrefixFree(mergeOutput.nodes);
    output.UnlinkStaleAncestors(merged);
    ghost var cleared := output.nodes;
    var order := Sorted(merged);
    for k := 0 to |order|
      invariant output.Valid()
      invariant forall q :: q in order[..k] ==> EntryAt(output.nodes, q) == Some(M[q])
      invariant forall q :: EntryAt(output.nodes, q).Some? && q !in order[..k] ==>
                              EntryAt(output.nodes, q) == EntryAt(cleared, q)
    {
      var rel := order[k];
      assert rel in merged;
      assert !Shadowed(output.nodes, rel) by {
        forall q | Above(q, rel) ensures !IsLeaf(output.nodes, q) {
          assert q !in merged;
          assert EntryAt(cleared, q) == None;
        }
      }
      var dest := output.EntryPath(rel);
      if dest.Some? {
        output.CopyEntry(mergeOutput.nodes[rel].entry, dest.value);
      }
      assert order[..k + 1] == order[..k] + [rel];
      assert forall q :: Above(rel, q) ==> q !in merged;
    }
    assert order[..|order|] == order;
    DeletePass(parent, merged, output);
    forall q ensures EntryAt(output.nodes, q) == if q in M then Some(M[q]) else None {
      assert q !in merged && EntryAt(cleared, q).Some? ==> q in Entries(parent).Keys - merged;
    }
    SameEntries(output.nodes, M);
  }

  // Every entry of the parent that the merge did not keep is unlinked, and nothing else is.
  method DeletePass(parent: Tree, merged: set<Path>, output: Volume)
    requires output.Valid()
    modifies output
    ensures output.Valid()
    ensures forall q :: EntryAt(output.nodes, q) ==
                        if q in Entries(parent).Keys - merged then None else EntryAt(old(output.nodes), q)
  {
    var order := Sorted(Entries(parent).Keys - merged);
    for k := 0 to |order|
      invariant output.Valid()
      invariant forall q :: EntryAt(output.nodes, q) ==
                            if q in order[..k] then None else EntryAt(old(output.nodes), q)
    {
      var target := output.EntryPath(order[k]);
      EntriesArePrefixFree(output.nodes);
      if target.Some? && IsLeaf(output.nodes, target.value) {
        output.Unlink(target.value);
      }
      assert order[..k + 1] == order[..k] + [order[k]];
    }
    assert order[..|order|] == order;
  }

  /** Merge into a scratch volume, then apply the result onto the parent's snapshot. */
  method MergeInto(parent: Volume, forkA: Volume, forkB: Volume, output: Volume) returns (result: MergeResult)
    requires parent.Valid() && forkA.Valid() && forkB.Valid()
    requires output != parent && output != forkA && output != forkB
    requires output.nodes == parent.nodes
    modifies output
    ensures output.Valid()
    ensures Entries(output.nodes) == Merged(parent.nodes, forkA.nodes, forkB.nodes)
    ensures Reports(parent.nodes, forkA.nodes, forkB.nodes, result)
  {
    var mergeOutput := new Volume.Empty();
    result := ThreeWayMerge(parent, forkA, forkB, mergeOutput);
    ApplyOnto(parent.nodes, mergeOutput, output);
  }

  // ---- what the merge means ----

  /** The result is a tree again: no entry stands above another. */
  lemma MergedIsPrefixFree(P: Tree, A: Tree, B: Tree)
    ensures PrefixFree(Merged(P, A, B).Keys)
  {
  }

  /**
    What the walk makes of a path: it is untouched exactly when the three trees agree there, a
    conflict exactly when they differ pairwise, and merged by itself otherwise.
   */
  lemma VerdictsByEquality(P: Tree, A: Tree, B: Tree, r: Path)
    ensures
      var p, a, b := EntryAt(P, r), EntryAt(A, r), EntryAt(B, r);
      && (JudgeAt(P, A, B, r) == Unchanged <==> p == a && a == b)
      && (JudgeAt(P, A, B, r) == Conflict <==> p != a && a != b && p != b)
      && (JudgeAt(P, A, B, r) == AutoMerged <==> (p == a || a == b || p == b) && !(p == a && a == b))
  {
  }

  lemma AddUp<T>(all: set<T>, same: set<T>, apart: set<T>)
    requires same <= all && apart <= all && same !! apart
    ensures |all| == |same| + |apart| + |all - same - apart|
  {
    assert |all| == |same + apart| + |all - (same + apart)|;
    assert all - (same + apart) == all - same - apart;
  }

  /** The three counts of a merge add up to the paths it walked. */
  lemma CountsSumToPaths(P: Tree, A: Tree, B: Tree, result: MergeResult)
    requires Reports(P, A, B, result)
    ensures result.kept + result.autoMerged + |result.conflicts| == |AllEntries(P, A, B)|
  {
    var all, same, apart := AllEntries(P, A, B), Untouched(P, A, B), Contested(P, A, B);
    forall r | r in same ensures r in all && r !in apart {
    }
    AddUp(all, same, apart);
  }

  lemma PickedTreeIsMerged(P: Tree, A: Tree, B: Tree, T: Tree)
    requires WellFormed(T)
    requires forall r :: PickAt(P, A, B, r) == EntryAt(T, r)
    ensures Merged(P, A, B) == Entries(T)
  {
    forall r ensures EntryAt(T, r) == if r in Merged(P, A, B) then Some(Merged(P, A, B)[r]) else None {
      assert PickAt(P, A, B, r) == EntryAt(T, r);
      if EntryAt(T, r).Some? {
        PickedIsListed(P, A, B, r);
        forall q | Above(q, r) ensures PickAt(P, A, B, q).None? {
          assert PickAt(P, A, B, q) == EntryAt(T, q);
        }
      }
    }
    SameEntries(T, Merged(P, A, B));
  }

  /** A fork that changed nothing leaves the other fork, and equal forks merge to themselves. */
  lemma MergeIdentities(P: Tree, A: Tree)
    requires WellFormed(P) && WellFormed(A)
    ensures Merged(P, A, P) == Entries(A)
    ensures Merged(P, P, A) == Entries(A)
    ensures Merged(P, A, A) == Entries(A)
  {
    PickedTreeIsMerged(P, A, P, A);
    PickedTreeIsMerged(P, P, A, A);
    PickedTreeIsMerged(P, A, A, A);
  }

  /** Without a conflict it does not matter which fork is called A. */
  lemma SymmetricWithoutConflict(P: Tree, A: Tree, B: Tree)
    requires forall r :: JudgeAt(P, A, B, r) != Conflict
    ensures Merged(P, A, B) == Merged(P, B, A)
  {
    forall r ensures PickAt(P, A, B, r) == PickAt(P, B, A, r) {
      assert JudgeAt(P, A, B, r) != Conflict;
    }
    assert forall r :: Survives(P, A, B, r) <==> Survives(P, B, A, r);
    assert AllEntries(P, A, B) == AllEntries(P, B, A);
  }

  /**
    When a change of fork A is lost. A path A wrote survives the merge exactly when B has
    no entry of its own, new or rewritten, at a path above it. Such a loss is not reported
    as a conflict of the path.
   */
  lemma ChangeOfASurvives(P: Tree, A: Tree, B: Tree, r: Path)
    requires WellFormed(P) && WellFormed(A) && WellFormed(B)
    requires EntryAt(A, r).Some? && EntryAt(A, r) != EntryAt(P, r)
    ensures (r in Merged(P, A, B) && Some(Merged(P, A, B)[r]) == EntryAt(A, r)) <==>
            !exists q :: Above(q, r) && EntryAt(B, q).Some? && EntryAt(B, q) != EntryAt(P, q)
  {
    assert PickAt(P, A, B, r) == EntryAt(A, r);
    PickedIsListed(P, A, B, r);
    forall q | Above(q, r)
      ensures PickAt(P, A, B, q).Some? <==> EntryAt(B, q).Some? && EntryAt(B, q) != EntryAt(P, q)
    {
      assert r in A && q in A && A[q].Dir?;
    }
  }

  /**
    When a change of fork B is lost. Where the forks do not conflict, it survives exactly when A
    has no entry of its own above it; where they do, the conflict is reported and A's entry, if
    it has one, is taken.
   */
  lemma ChangeOfBSurvives(P: Tree, A: Tree, B: Tree, r: Path)
    requires WellFormed(P) && WellFormed(A) && WellFormed(B)
    requires EntryAt(B, r).Some? && EntryAt(B, r) != EntryAt(P, r)
    ensures JudgeAt(P, A, B, r) != Conflict || EntryAt(A, r).None? ==>
      ((r in Merged(P, A, B) && Some(Merged(P, A, B)[r]) == EntryAt(B, r)) <==>
       !exists q :: Above(q, r) && EntryAt(A, q).Some? && EntryAt(A, q) != EntryAt(P, q))
    ensures JudgeAt(P, A, B, r) == Conflict && EntryAt(A, r).Some? && r in Merged(P, A, B) ==>
      Some(Merged(P, A, B)[r]) == EntryAt(A, r) != EntryAt(B, r)
  {
    PickedIsListed(P, A, B, r);
    forall q | Above(q, r)
      ensures PickAt(P, A, B, q).Some? <==> EntryAt(A, q).Some? && EntryAt(A, q) != EntryAt(P, q)
    {
      assert r in B && q in B && B[q].Dir?;
    }
  }

  /** The loss happens: B turns a directory into a link, A adds a file below it, no conflict. */
  lemma SilentLoss()
    ensures exists P: Tree, A: Tree, B: Tree, r: Path ::
              && WellFormed(P) && WellFormed(A) && WellFormed(B)
              && EntryAt(A, r).Some? && EntryAt(A, r) != EntryAt(P, r)
              && JudgeAt(P, A, B, r) == AutoMerged
              && r !in Merged(P, A, B)
  {
    var dir, r := ["d"], ["d", "f"];
    var P: Tree := map[];
    var A: Tree := map[dir := Dir, r := Leaf(File([]))];
    var B: Tree := map[dir := Leaf(Link("/x"))];
    assert WellFormed(A) by {
      forall p, q | p in A && Above(q, p) ensures q in A && A[q].Dir? {
        assert |q| == 1 && q[0] == p[0] && q == dir;
      }
    }
    assert Above(dir, r);
    assert PickAt(P, A, B, dir).Some?;
    assert JudgeAt(P, A, B, r) == AutoMerged;
  }
}
