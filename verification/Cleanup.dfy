/**
  The pass that takes a computer apart: no step waits on how another ended, and the earliest
  failure and the earliest interruption are kept side by side.
 */
module Cleanup {
  import opened Wrappers

  datatype What = RouteRemoval | Kill | Evict | VolumeRemoval | TapTeardown | StatusUpdate | Gauge | SlotRelease

  // how one best-effort step ends
  datatype Outcome = Fine | Failed(error: string) | Interrupted(cause: string)

  datatype Ran = Ran(what: What, outcome: Outcome)

  function FirstFailed(ran: seq<Ran>): Option<Ran> {
    if ran == [] then None
    else
      var earlier := FirstFailed(ran[..|ran| - 1]);
      if earlier.Some? then earlier
      else if ran[|ran| - 1].outcome.Failed? then Some(ran[|ran| - 1]) else None
  }

  function FirstInterrupted(ran: seq<Ran>): Option<string> {
    if ran == [] then None
    else
      var earlier := FirstInterrupted(ran[..|ran| - 1]);
      if earlier.Some? then earlier
      else if ran[|ran| - 1].outcome.Interrupted? then Some(ran[|ran| - 1].outcome.cause) else None
  }

  /** What is remembered is the earliest of its kind. */
  lemma {:induction false} FirstFailedIsFirst(ran: seq<Ran>)
    ensures FirstFailed(ran).None? <==> forall i :: 0 <= i < |ran| ==> !ran[i].outcome.Failed?
    ensures FirstFailed(ran).Some? ==>
      exists i :: 0 <= i < |ran| && ran[i] == FirstFailed(ran).value && ran[i].outcome.Failed?
                  && forall j :: 0 <= j < i ==> !ran[j].outcome.Failed?
  {
    if ran != [] {
      var init := ran[..|ran| - 1];
      FirstFailedIsFirst(init);
      if FirstFailed(init).Some? {
        var i :| 0 <= i < |init| && init[i] == FirstFailed(init).value && init[i].outcome.Failed?
                 && forall j :: 0 <= j < i ==> !init[j].outcome.Failed?;
        assert ran[i] == init[i] && forall j :: 0 <= j < i ==> ran[j] == init[j];
      } else {
        assert forall j :: 0 <= j < |init| ==> ran[j] == init[j];
        assert ran[|ran| - 1].outcome.Failed? ==> ran[|ran| - 1] == FirstFailed(ran).value;
      }
    }
  }

  function Phase(what: What): nat {
    match what
    case RouteRemoval => 0
    case Kill => 0
    case Evict => 0
    case VolumeRemoval => 1
    case TapTeardown => 1
    case StatusUpdate => 2
    case Gauge => 3
    case SlotRelease => 4
  }

  ghost predicate Did(ran: seq<Ran>, what: What) {
    exists i :: 0 <= i < |ran| && ran[i].what == what
  }

  /** Just the planned steps, each once, no phase before an earlier one. */
  ghost predicate RanOnce(ran: seq<Ran>, planned: set<What>) {
    && (forall what :: what in planned <==> Did(ran, what))
    && (forall i, j :: 0 <= i < j < |ran| ==> ran[i].what != ran[j].what && Phase(ran[i].what) <= Phase(ran[j].what))
  }

  lemma DidOneMore(ran: seq<Ran>, next: Ran, what: What)
    ensures Did(ran + [next], what) <==> Did(ran, what) || what == next.what
  {
    var more := ran + [next];
    if what == next.what {
      assert more[|ran|].what == what;
    } else if Did(ran, what) {
      var i :| 0 <= i < |ran| && ran[i].what == what;
      assert more[i].what == what;
    }
  }

  lemma OneMoreRan(ran: seq<Ran>, planned: set<What>, next: Ran)
    requires RanOnce(ran, planned) && next.what !in planned
    requires forall what :: what in planned ==> Phase(what) <= Phase(next.what)
    ensures RanOnce(ran + [next], planned + {next.what})
  {
    forall what ensures what in planned + {next.what} <==> Did(ran + [next], what) {
      DidOneMore(ran, next, what);
    }
    forall i | 0 <= i < |ran| ensures ran[i].what in planned {
      assert Did(ran, ran[i].what);
    }
  }

  class CleanupPass {
    var failure: Option<Ran>
    var interrupted: Option<string>
    var ran: seq<Ran>  // what the log says of the pass

    ghost predicate Remembers()
      reads this
    {
      failure == FirstFailed(ran) && interrupted == FirstInterrupted(ran)
    }

    constructor ()
      ensures Remembers() && ran == []
    {
      failure, interrupted, ran := None, None, [];
    }

    method Step(what: What) returns (outcome: Outcome)
      requires Remembers()
      modifies this
      ensures Remembers() && ran == old(ran) + [Ran(what, outcome)]
    {
      outcome := *;
      if outcome.Failed? {
        if failure.None? {
          failure := Some(Ran(what, outcome));
        }
      } else if outcome.Interrupted? {
        if interrupted.None? {
          interrupted := Some(outcome.cause);
        }
      }
      ran := ran + [Ran(what, outcome)];
      assert ran[..|ran| - 1] == old(ran);
    }

    // The independent steps of a phase together: they end in any order.
    method Steps(whats: set<What>, ghost planned: set<What>, ghost phase: nat)
      requires Remembers() && RanOnce(ran, planned)
      requires forall what :: what in planned ==> Phase(what) < phase
      requires forall what :: what in whats ==> Phase(what) == phase
      modifies this
      ensures Remembers() && RanOnce(ran, planned + whats)
    {
      var left := whats;
      ghost var done := planned;
      while left != {}
        invariant left <= whats && done == planned + (whats - left)
        invariant Remembers() && RanOnce(ran, done)
      {
        var what :| what in left;
        ghost var before := ran;
        var outcome := Step(what);
        OneMoreRan(before, done, Ran(what, outcome));
        done := done + {what};
        left := left - {what};
      }
      assert done == planned + whats;
    }

    // the phases one after another
    method Phases(first: set<What>, ghost planned: set<What>)
      requires Remembers() && ran == []
      requires forall what :: what in first ==> Phase(what) == 0
      requires planned == first + {VolumeRemoval, TapTeardown} + {StatusUpdate} + {Gauge} + {SlotRelease}
      modifies this
      ensures Remembers() && RanOnce(ran, planned)
    {
      Steps(first, {}, 0);
      ghost var done := {} + first;
      assert done == first;
      Steps({VolumeRemoval, TapTeardown}, done, 1);
      done := done + {VolumeRemoval, TapTeardown};
      Steps({StatusUpdate}, done, 2);
      done := done + {StatusUpdate};
      Steps({Gauge}, done, 3);
      done := done + {Gauge};
      Steps({SlotRelease}, done, 4);
    }
  }

  function Planned(process: bool, address: bool): set<What> {
    {RouteRemoval, VolumeRemoval, TapTeardown, StatusUpdate, Gauge, SlotRelease}
    + (if process then {Kill} else {}) + (if address then {Evict} else {})
  }

  function Disconnecting(process: bool, address: bool): set<What> {
    {RouteRemoval} + (if process then {Kill} else {}) + (if address then {Evict} else {})
  }

  lemma PhaseSets(process: bool, address: bool)
    ensures Planned(process, address) ==
            Disconnecting(process, address) + {VolumeRemoval, TapTeardown} + {StatusUpdate} + {Gauge} + {SlotRelease}
    ensures forall what :: what in Disconnecting(process, address) ==> Phase(what) == 0
    ensures SlotRelease in Planned(process, address)
  {
  }

  /**
    The teardown of a computer. However its steps end, each planned one runs exactly once, the
    volume and the tap go after the process, the slot is released last of all, and the pass
    reports the earliest failure and the earliest interruption of those that ran.
   */
  method Teardown(process: bool, address: bool)
    returns (failure: Option<Ran>, raised: Option<string>, ran: seq<Ran>)
    ensures RanOnce(ran, Planned(process, address))
    ensures ran != [] && ran[|ran| - 1].what == SlotRelease
    ensures failure == FirstFailed(ran) && raised == FirstInterrupted(ran)
  {
    var cleanup := new CleanupPass();
    PhaseSets(process, address);
    cleanup.Phases(Disconnecting(process, address), Planned(process, address));
    failure, raised, ran := cleanup.failure, cleanup.interrupted, cleanup.ran;
    SlotGoesLast(ran, Planned(process, address));
  }

  lemma SlotGoesLast(ran: seq<Ran>, planned: set<What>)
    requires RanOnce(ran, planned) && SlotRelease in planned
    ensures ran != [] && ran[|ran| - 1].what == SlotRelease
  {
    assert Did(ran, SlotRelease);
    var i :| 0 <= i < |ran| && ran[i].what == SlotRelease;
    OnlySlotIsLastPhase(ran[|ran| - 1].what);
  }

  lemma OnlySlotIsLastPhase(what: What)
    ensures Phase(what) >= 4 <==> what == SlotRelease
  {
  }
}
