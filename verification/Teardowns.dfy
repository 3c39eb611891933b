/**
  The teardown pass is a run of the protocol: each best-effort step of the pass is the protocol's
  step for it, its outcome the step's, so what is proved of every run holds of every pass.
 */
module Teardowns {
  import opened Wrappers
  import opened Allocator
  import opened Cleanup
  import Protocol = Computers

  // the protocol's step for a step of the pass; the steps before the removals are one, taken first
  function StepOf(c: Protocol.Id, r: Ran): seq<Protocol.Step> {
    match r.what
    case VolumeRemoval => [Protocol.RemoveVolume(c, false, r.outcome.Fine?)]
    case TapTeardown => [Protocol.RemoveTap(c, false, r.outcome.Fine?)]
    case StatusUpdate => [Protocol.MarkDestroyed(c, false)]
    case SlotRelease => [Protocol.ReleaseSlot(c, false)]
    case _ => []
  }

  function StepsOf(c: Protocol.Id, ran: seq<Ran>): seq<Protocol.Step> {
    if ran == [] then [Protocol.Disconnect(c, false)]
    else StepsOf(c, ran[..|ran| - 1]) + StepOf(c, ran[|ran| - 1])
  }

  ghost predicate Ended(ran: seq<Ran>, what: What) {
    exists i :: 0 <= i < |ran| && ran[i].what == what && ran[i].outcome.Fine?
  }

  lemma EndedOneMore(ran: seq<Ran>, next: Ran, what: What)
    ensures Ended(ran + [next], what) <==> Ended(ran, what) || (what == next.what && next.outcome.Fine?)
  {
    var more := ran + [next];
    if what == next.what && next.outcome.Fine? {
      assert more[|ran|] == next;
    } else if Ended(ran, what) {
      var i :| 0 <= i < |ran| && ran[i].what == what && ran[i].outcome.Fine?;
      assert more[i] == ran[i];
    }
  }

  // the computer a teardown takes apart, and the pool it began with
  datatype Target = Target(c: Protocol.Id, slot: int, volume: int, pool: Pool)

  // where the teardown stands when the pass has run so far
  ghost predicate Stands(s: Protocol.System, g: Target, ran: seq<Ran>) {
    && (if Did(ran, SlotRelease) then g.c !in s.teardowns && s.pool == Release(g.pool, g.slot)
        else
          && g.c in s.teardowns && s.teardowns[g.c].slot == g.slot && s.teardowns[g.c].volume == g.volume
          && s.pool == g.pool
          && s.teardowns[g.c].stage ==
             if Did(ran, StatusUpdate) then Protocol.Marked
             else Protocol.Removing(Did(ran, VolumeRemoval), Did(ran, TapTeardown)))
    && (Did(ran, StatusUpdate) ==> !Protocol.Undestroyed(s, g.c))
    && (Ended(ran, TapTeardown) ==> g.slot !in s.taps) && (Ended(ran, VolumeRemoval) ==> g.volume !in s.volumes)
  }

  // what the n-th step of a pass finds done, given the order of the phases
  lemma Before(ran: seq<Ran>, planned: set<What>, n: nat, what: What)
    requires RanOnce(ran, planned) && n < |ran| && what in planned
    ensures what == ran[n].what ==> !Did(ran[..n], what)
    ensures Phase(what) < Phase(ran[n].what) ==> Did(ran[..n], what)
    ensures Phase(what) > Phase(ran[n].what) ==> !Did(ran[..n], what)
  {
    assert Did(ran, what);
    var k :| 0 <= k < |ran| && ran[k].what == what;
    if k < n {
      assert ran[..n][k].what == what;
    }
  }

  lemma NextStands(s: Protocol.System, g: Target, ran: seq<Ran>, planned: set<What>, n: nat)
    requires RanOnce(ran, planned) && {VolumeRemoval, TapTeardown, StatusUpdate, SlotRelease} <= planned && n < |ran|
    requires Stands(s, g, ran[..n])
    ensures
      var steps := StepOf(g.c, ran[n]);
      Protocol.IsRun(s, steps) && Stands(Protocol.After(s, steps), g, ran[..n + 1])
  {
    var steps := StepOf(g.c, ran[n]);
    assert ran[..n + 1] == ran[..n] + [ran[n]];
    forall what | what in {VolumeRemoval, TapTeardown, StatusUpdate, SlotRelease}
      ensures Did(ran[..n + 1], what) <==> Did(ran[..n], what) || what == ran[n].what
      ensures Ended(ran[..n + 1], what) <==> Ended(ran[..n], what) || (what == ran[n].what && ran[n].outcome.Fine?)
      ensures what == ran[n].what ==> !Did(ran[..n], what)
      ensures Phase(what) < Phase(ran[n].what) ==> Did(ran[..n], what)
      ensures Phase(what) > Phase(ran[n].what) ==> !Did(ran[..n], what)
    {
      DidOneMore(ran[..n], ran[n], what);
      EndedOneMore(ran[..n], ran[n], what);
      Before(ran, planned, n, what);
    }
    if steps != [] {
      Protocol.OneStep(s, steps[0]);
      assert steps == [steps[0]];
    }
  }

  lemma {:induction false} PrefixRuns(s: Protocol.System, g: Target, ran: seq<Ran>, planned: set<What>, n: nat)
    requires Protocol.InStage(s.teardowns, g.c, Protocol.Disconnecting)
    requires g == Target(g.c, s.teardowns[g.c].slot, s.teardowns[g.c].volume, s.pool)
    requires RanOnce(ran, planned) && {VolumeRemoval, TapTeardown, StatusUpdate, SlotRelease} <= planned && n <= |ran|
    ensures
      var steps := StepsOf(g.c, ran[..n]);
      Protocol.IsRun(s, steps) && Stands(Protocol.After(s, steps), g, ran[..n])
  {
    if n == 0 {
      Protocol.OneStep(s, Protocol.Disconnect(g.c, false));
    } else {
      PrefixRuns(s, g, ran, planned, n - 1);
      assert ran[..n][..n - 1] == ran[..n - 1];
      var t := Protocol.After(s, StepsOf(g.c, ran[..n - 1]));
      NextStands(t, g, ran, planned, n - 1);
      Protocol.RunsConcatenate(s, StepsOf(g.c, ran[..n - 1]), StepOf(g.c, ran[n - 1]));
    }
  }

  /**
    However a pass's steps end, from the claim on it is a run of the protocol that takes the
    teardown to its end and keeps the protocol's invariant. It leaves the row destroyed and the slot
    free, and a tap or a volume only where its own try to remove it did not end well.
   */
  lemma PassIsARun(s: Protocol.System, c: Protocol.Id, process: bool, address: bool, ran: seq<Ran>)
    requires Protocol.Inv(s) && Protocol.InStage(s.teardowns, c, Protocol.Disconnecting)
    requires RanOnce(ran, Planned(process, address))
    ensures Protocol.IsRun(s, StepsOf(c, ran))
    ensures
      var w, t := s.teardowns[c], Protocol.After(s, StepsOf(c, ran));
      && Protocol.Inv(t) && c !in t.teardowns && !Protocol.Undestroyed(t, c) && t.pool == Release(s.pool, w.slot)
      && (w.slot in t.taps ==> !Ended(ran, TapTeardown)) && (w.volume in t.volumes ==> !Ended(ran, VolumeRemoval))
  {
    var planned, steps := Planned(process, address), StepsOf(c, ran);
    assert ran[..|ran|] == ran;
    PrefixRuns(s, Target(c, s.teardowns[c].slot, s.teardowns[c].volume, s.pool), ran, planned, |ran|);
    assert SlotRelease in planned && StatusUpdate in planned;
    NoClaims(c, ran);
    UnclaimedIsDisciplined(s, steps);
    Protocol.RunKeepsInv(s, steps);
  }

  lemma {:induction false} NoClaims(c: Protocol.Id, ran: seq<Ran>)
    ensures forall i :: 0 <= i < |StepsOf(c, ran)| ==> !StepsOf(c, ran)[i].Claim?
  {
    if ran != [] {
      NoClaims(c, ran[..|ran| - 1]);
    }
  }

  lemma {:induction false} UnclaimedIsDisciplined(s: Protocol.System, steps: seq<Protocol.Step>)
    requires Protocol.IsRun(s, steps) && forall i :: 0 <= i < |steps| ==> !steps[i].Claim?
    ensures Protocol.IsDisciplinedRun(s, steps)
    decreases |steps|
  {
    if steps != [] {
      UnclaimedIsDisciplined(Protocol.Next(s, steps[0]), steps[1..]);
    }
  }
}
