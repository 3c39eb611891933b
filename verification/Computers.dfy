/**
  Bring-up and teardown of computers as a protocol: every stretch between two awaits is one
  step, any host step may fail, and the process may crash and restart anywhere. Database
  writes succeed.
 */
module Computers {
  import opened Wrappers
  import opened Allocator

  type Id = nat

  datatype Status = Running | Destroying | Destroyed

  datatype Row = Row(slot: int, volume: int, status: Status)

  // Where a bring-up or a teardown is suspended.
  datatype Stage =
    | Snapping                                     // slot and volume id acquired, disk snap in flight
    | Booting                                      // disk snapped, VM restoring or booting
    | Recorded                                     // row inserted, SSH warm and route in flight
    | Disconnecting                                // cleanup: route, process, SSH session
    | Removing(volumeTried: bool, tapTried: bool)  // cleanup: volume and tap, together
    | Marked                                       // cleanup: row destroyed, slot not yet released

  // tapLeft and volumeLeft: this pass tried the removal, and it failed or was interrupted.
  datatype Work = Work(slot: int, volume: int, stage: Stage, tapLeft: bool, volumeLeft: bool)

  // taps and volumes are what is up on the host; stuck is what was left behind there.
  datatype System = System(
    pool: Pool, rows: map<Id, Row>, bringUps: map<Id, Work>, teardowns: map<Id, Work>,
    taps: set<int>, stuckTaps: set<int>, volumes: set<int>, stuckVolumes: set<int>)

  datatype Step =
    | Acquire(c: Id, slot: int)
    | SnapFails(c: Id)
    | SnapDone(c: Id)
    | TapUp(c: Id)                                  // the hypervisor has made the tap, the boot goes on
    | Insert(c: Id)
    | Return(c: Id)
    | Fail(c: Id)                                   // a bring-up fails after the snap: abandon it
    | Claim(c: Id)                                  // destroy or the dead-VM reaper wins the row
    | Disconnect(c: Id, abandon: bool)
    | RemoveVolume(c: Id, abandon: bool, ok: bool)
    | RemoveTap(c: Id, abandon: bool, ok: bool)
    | MarkDestroyed(c: Id, abandon: bool)
    | ReleaseSlot(c: Id, abandon: bool)
    | TakeVolumeId                                  // a checkpoint or a recipe takes a volume id
    | Restart(pool: Pool)                           // crash, then startup

  function Works(s: System, abandon: bool): map<Id, Work> {
    if abandon then s.bringUps else s.teardowns
  }

  function SetWork(s: System, abandon: bool, works: map<Id, Work>): System {
    if abandon then s.(bringUps := works) else s.(teardowns := works)
  }

  // the teardowns that startup resumes
  function Interrupted(rows: map<Id, Row>): map<Id, Work> {
    map c | c in rows && rows[c].status == Destroying :: Work(rows[c].slot, rows[c].volume, Disconnecting, false, false)
  }

  ghost function ActiveSlots(rows: map<Id, Row>): set<int> {
    set c | c in rows && rows[c].status != Destroyed :: rows[c].slot
  }

  ghost function ActiveVolumes(rows: map<Id, Row>): set<int> {
    set c | c in rows && rows[c].status != Destroyed :: rows[c].volume
  }

  predicate InStage(works: map<Id, Work>, c: Id, stage: Stage) {
    c in works && works[c].stage == stage
  }

  ghost predicate Enabled(s: System, step: Step) {
    match step
    case Acquire(c, slot) =>
      c !in s.rows && c !in s.bringUps && c !in s.teardowns && MayIssue(s.pool, slot)
    case SnapFails(c) => InStage(s.bringUps, c, Snapping)
    case SnapDone(c) => InStage(s.bringUps, c, Snapping)
    case TapUp(c) => InStage(s.bringUps, c, Booting)
    case Insert(c) => InStage(s.bringUps, c, Booting)
    case Return(c) => InStage(s.bringUps, c, Recorded)
    case Fail(c) => InStage(s.bringUps, c, Booting) || InStage(s.bringUps, c, Recorded)
    case Claim(c) => c in s.rows && s.rows[c].status == Running
    case Disconnect(c, abandon) => InStage(Works(s, abandon), c, Disconnecting)
    case RemoveVolume(c, abandon, _) =>
      c in Works(s, abandon) && Works(s, abandon)[c].stage.Removing? && !Works(s, abandon)[c].stage.volumeTried
    case RemoveTap(c, abandon, _) =>
      c in Works(s, abandon) && Works(s, abandon)[c].stage.Removing? && !Works(s, abandon)[c].stage.tapTried
    case MarkDestroyed(c, abandon) => InStage(Works(s, abandon), c, Removing(true, true))
    case ReleaseSlot(c, abandon) => InStage(Works(s, abandon), c, Marked)
    case TakeVolumeId => true
    case Restart(pool) => Rebuilt(pool, ActiveSlots(s.rows), ActiveVolumes(s.rows) + s.volumes)
  }

  ghost function Next(s: System, step: Step): System
    requires Enabled(s, step)
  {
    match step
    case Acquire(c, slot) =>
      s.(pool := Issue(s.pool, slot), bringUps := s.bringUps[c := Work(slot, s.pool.nextVolume, Snapping, false, false)])
    case SnapFails(c) =>
      s.(pool := Release(s.pool, s.bringUps[c].slot), bringUps := s.bringUps - {c})
    case SnapDone(c) =>
      s.(volumes := s.volumes + {s.bringUps[c].volume},
         bringUps := s.bringUps[c := s.bringUps[c].(stage := Booting)])
    case TapUp(c) =>
      s.(taps := s.taps + {s.bringUps[c].slot}, stuckTaps := s.stuckTaps - {s.bringUps[c].slot})
    case Insert(c) =>
      var w := s.bringUps[c];
      s.(taps := s.taps + {w.slot}, stuckTaps := s.stuckTaps - {w.slot}, rows := s.rows[c := Row(w.slot, w.volume, Running)],
         bringUps := s.bringUps[c := w.(stage := Recorded)])
    case Return(c) => s.(bringUps := s.bringUps - {c})
    case Fail(c) => s.(bringUps := s.bringUps[c := s.bringUps[c].(stage := Disconnecting)])
    case Claim(c) =>
      var r := s.rows[c];
      s.(rows := s.rows[c := r.(status := Destroying)],
         teardowns := s.teardowns[c := Work(r.slot, r.volume, Disconnecting, false, false)])
    case Disconnect(c, abandon) =>
      var w := Works(s, abandon)[c];
      SetWork(s, abandon, Works(s, abandon)[c := w.(stage := Removing(false, false))])
    case RemoveVolume(c, abandon, ok) =>
      var w := Works(s, abandon)[c];
      var t := SetWork(s, abandon, Works(s, abandon)[c := w.(stage := w.stage.(volumeTried := true), volumeLeft := !ok)]);
      if ok then t.(volumes := s.volumes - {w.volume}) else t.(stuckVolumes := s.stuckVolumes + {w.volume})
    case RemoveTap(c, abandon, ok) =>
      var w := Works(s, abandon)[c];
      var t := SetWork(s, abandon, Works(s, abandon)[c := w.(stage := w.stage.(tapTried := true), tapLeft := !ok)]);
      if ok then t.(taps := s.taps - {w.slot}, stuckTaps := s.stuckTaps - {w.slot}) else t.(stuckTaps := s.stuckTaps + {w.slot})
    case MarkDestroyed(c, abandon) =>
      var w := Works(s, abandon)[c];
      var t := SetWork(s, abandon, Works(s, abandon)[c := w.(stage := Marked)]);
      if c in s.rows then t.(rows := s.rows[c := s.rows[c].(status := Destroyed)]) else t
    case ReleaseSlot(c, abandon) =>
      SetWork(s, abandon, Works(s, abandon) - {c}).(pool := Release(s.pool, Works(s, abandon)[c].slot))
    case TakeVolumeId => s.(pool := s.pool.(nextVolume := s.pool.nextVolume + 1))
    case Restart(pool) =>
      s.(pool := pool, bringUps := map[], teardowns := Interrupted(s.rows),
         stuckTaps := s.stuckTaps + (s.taps - ActiveSlots(s.rows)),
         stuckVolumes := s.stuckVolumes + (s.volumes - ActiveVolumes(s.rows)))
  }

  // Nobody claims a row before its bring-up has returned.
  predicate Disciplined(s: System, step: Step) {
    step.Claim? ==> step.c !in s.bringUps
  }

  ghost predicate IsRun(s: System, steps: seq<Step>)
    decreases |steps|
  {
    steps == [] || (Enabled(s, steps[0]) && IsRun(Next(s, steps[0]), steps[1..]))
  }

  ghost predicate IsDisciplinedRun(s: System, steps: seq<Step>)
    decreases |steps|
  {
    steps == [] || (Enabled(s, steps[0]) && Disciplined(s, steps[0]) && IsDisciplinedRun(Next(s, steps[0]), steps[1..]))
  }

  ghost function After(s: System, steps: seq<Step>): System
    requires IsRun(s, steps)
    decreases |steps|
  {
    if steps == [] then s else After(Next(s, steps[0]), steps[1..])
  }

  ghost predicate Initial(s: System) {
    && s.pool.Sound() && s.pool.Held() == {} && s.rows == map[] && s.bringUps == map[] && s.teardowns == map[]
    && s.taps == {} && s.stuckTaps == {} && s.volumes == {} && s.stuckVolumes == {}
  }

  // ---- who holds what ----

  predicate Undestroyed(s: System, c: Id) {
    c in s.rows && s.rows[c].status != Destroyed
  }

  predicate Holds(s: System, c: Id) {
    c in s.bringUps || c in s.teardowns || Undestroyed(s, c)
  }

  function SlotOf(s: System, c: Id): int
    requires Holds(s, c)
  {
    if c in s.bringUps then s.bringUps[c].slot
    else if c in s.teardowns then s.teardowns[c].slot
    else s.rows[c].slot
  }

  function VolumeOf(s: System, c: Id): int
    requires Holds(s, c)
  {
    if c in s.bringUps then s.bringUps[c].volume
    else if c in s.teardowns then s.teardowns[c].volume
    else s.rows[c].volume
  }

  // What the row of c says, given the work on c.
  ghost predicate RowFollowsWork(s: System, c: Id) {
    if c in s.bringUps then
      var w := s.bringUps[c];
      && c !in s.teardowns
      && (w.stage.Snapping? || w.stage.Booting? ==> c !in s.rows)
      && (w.stage.Recorded? ==> c in s.rows)
      && (c in s.rows ==> s.rows[c] == Row(w.slot, w.volume, if w.stage.Marked? then Destroyed else Running))
    else if c in s.teardowns then
      var w := s.teardowns[c];
      && !w.stage.Snapping? && !w.stage.Booting? && !w.stage.Recorded?
      && c in s.rows
      && s.rows[c] == Row(w.slot, w.volume, if w.stage.Marked? then Destroyed else Destroying)
    else
      c in s.rows ==> s.rows[c].status != Destroying
  }

  // A row and the work on it agree, and the row's status follows the work's stage.
  ghost predicate RowsFollowWork(s: System) {
    forall c :: RowFollowsWork(s, c)
  }

  // The held slots are exactly the slots of the holders, one each.
  ghost predicate SlotsPartitioned(s: System) {
    && s.pool.Sound()
    && (forall c :: Holds(s, c) ==> SlotOf(s, c) in s.pool.Held())
    && (forall c, d :: Holds(s, c) && Holds(s, d) && c != d ==> SlotOf(s, c) != SlotOf(s, d))
    && (forall x :: x in s.pool.Held() ==> exists c :: Holds(s, c) && SlotOf(s, c) == x)
  }

  ghost predicate VolumesDistinct(s: System) {
    && (forall c :: Holds(s, c) ==> VolumeOf(s, c) < s.pool.nextVolume)
    && (forall c, d :: Holds(s, c) && Holds(s, d) && c != d ==> VolumeOf(s, c) != VolumeOf(s, d))
    && (forall v :: v in s.volumes ==> v < s.pool.nextVolume)
  }

  // What a pass has tried to remove is gone, unless its own try failed; and what a pass left
  // behind is known to be stuck.
  predicate RemovalsHonest(s: System, w: Work) {
    && (w.tapLeft ==> (w.stage.Removing? && w.stage.tapTried) || w.stage.Marked?)
    && (w.volumeLeft ==> (w.stage.Removing? && w.stage.volumeTried) || w.stage.Marked?)
    && (w.stage.Snapping? ==> w.volume !in s.volumes && (w.slot in s.taps ==> w.slot in s.stuckTaps))
    && ((w.stage.Removing? && w.stage.tapTried) || w.stage.Marked? ==> (w.slot in s.taps ==> w.tapLeft))
    && ((w.stage.Removing? && w.stage.volumeTried) || w.stage.Marked? ==> (w.volume in s.volumes ==> w.volumeLeft))
    && (w.tapLeft && w.slot in s.taps ==> w.slot in s.stuckTaps)
    && (w.volumeLeft && w.volume in s.volumes ==> w.volume in s.stuckVolumes)
  }

  ghost predicate VolumeHeld(s: System, v: int) {
    exists c :: Holds(s, c) && VolumeOf(s, c) == v
  }

  // A tap that is up belongs to a held slot and a volume to a holder, unless it is stuck.
  ghost predicate HostClean(s: System) {
    && (forall x :: x in s.taps ==> x in s.pool.Held() || x in s.stuckTaps)
    && (forall v :: v in s.volumes ==> VolumeHeld(s, v) || v in s.stuckVolumes)
    && (forall c :: c in s.bringUps ==> RemovalsHonest(s, s.bringUps[c]))
    && (forall c :: c in s.teardowns ==> RemovalsHonest(s, s.teardowns[c]))
  }

  ghost predicate Inv(s: System) {
    RowsFollowWork(s) && SlotsPartitioned(s) && VolumesDistinct(s) && HostClean(s)
  }

  // ---- every disciplined step keeps the invariant ----

  lemma RowsKept(s: System, step: Step)
    requires RowsFollowWork(s) && Enabled(s, step) && Disciplined(s, step)
    ensures RowsFollowWork(Next(s, step))
  {
    forall c ensures RowFollowsWork(Next(s, step), c) {
      assert RowFollowsWork(s, c);
    }
  }

  lemma HoldersKept(s: System, step: Step)
    requires Inv(s) && Enabled(s, step) && Disciplined(s, step)
    requires !step.Acquire? && !step.SnapFails? && !step.ReleaseSlot? && !step.Restart?
    ensures forall c :: Holds(Next(s, step), c) <==> Holds(s, c)
    ensures forall c :: Holds(s, c) ==> SlotOf(Next(s, step), c) == SlotOf(s, c) && VolumeOf(Next(s, step), c) == VolumeOf(s, c)
  {
    forall c
      ensures Holds(Next(s, step), c) <==> Holds(s, c)
      ensures Holds(s, c) ==> SlotOf(Next(s, step), c) == SlotOf(s, c) && VolumeOf(Next(s, step), c) == VolumeOf(s, c)
    {
      assert RowFollowsWork(s, c);
    }
  }

  lemma AcquireKeepsSlots(s: System, c: Id, slot: int)
    requires Inv(s) && Enabled(s, Acquire(c, slot))
    ensures SlotsPartitioned(Next(s, Acquire(c, slot))) && VolumesDistinct(Next(s, Acquire(c, slot)))
  {
    var t := Next(s, Acquire(c, slot));
    IssueHolds(s.pool, slot);
    assert forall d :: Holds(t, d) <==> Holds(s, d) || d == c;
    assert forall d :: Holds(s, d) ==> SlotOf(t, d) == SlotOf(s, d) && VolumeOf(t, d) == VolumeOf(s, d);
    assert Holds(t, c) && SlotOf(t, c) == slot;
    forall x | x in t.pool.Held() ensures exists d :: Holds(t, d) && SlotOf(t, d) == x {
      if x != slot {
        var d :| Holds(s, d) && SlotOf(s, d) == x;
        assert Holds(t, d);
      }
    }
  }

  lemma RestartKeepsSlots(s: System, pool: Pool)
    requires Inv(s) && Enabled(s, Restart(pool))
    ensures SlotsPartitioned(Next(s, Restart(pool))) && VolumesDistinct(Next(s, Restart(pool)))
  {
    var t := Next(s, Restart(pool));
    forall c | Holds(t, c)
      ensures Holds(s, c) && SlotOf(t, c) == SlotOf(s, c) && VolumeOf(t, c) == VolumeOf(s, c)
      ensures SlotOf(t, c) in t.pool.Held() && VolumeOf(t, c) < t.pool.nextVolume
    {
      assert RowFollowsWork(s, c) && Undestroyed(s, c);
      assert SlotOf(s, c) in s.pool.Held();
      assert s.rows[c].slot in ActiveSlots(s.rows) && s.rows[c].volume in ActiveVolumes(s.rows);
    }
    forall x | x in t.pool.Held() ensures exists c :: Holds(t, c) && SlotOf(t, c) == x {
      var c :| c in s.rows && s.rows[c].status != Destroyed && s.rows[c].slot == x;
      assert Holds(t, c) && SlotOf(t, c) == x;
    }
  }

  lemma QuietStepKeepsSlots(s: System, step: Step)
    requires Inv(s) && Enabled(s, step) && Disciplined(s, step)
    requires !step.Acquire? && !step.SnapFails? && !step.ReleaseSlot? && !step.Restart?
    ensures SlotsPartitioned(Next(s, step)) && VolumesDistinct(Next(s, step))
  {
    var t := Next(s, step);
    HoldersKept(s, step);
    assert step.SnapDone? ==> Holds(s, step.c);
    assert t.pool.Held() == s.pool.Held();
    forall x | x in t.pool.Held() ensures exists c :: Holds(t, c) && SlotOf(t, c) == x {
      var c :| Holds(s, c) && SlotOf(s, c) == x;
      assert Holds(t, c);
    }
  }

  lemma SlotsKept(s: System, step: Step)
    requires Inv(s) && Enabled(s, step) && Disciplined(s, step)
    ensures SlotsPartitioned(Next(s, step)) && VolumesDistinct(Next(s, step))
  {
    match step
    case Acquire(c, slot) =>
      AcquireKeepsSlots(s, c, slot);
    case SnapFails(c) =>
      assert RowFollowsWork(s, c);
      DropHolder(s, Next(s, step), c);
    case ReleaseSlot(c, _) =>
      assert RowFollowsWork(s, c);
      DropHolder(s, Next(s, step), c);
    case Restart(pool) =>
      RestartKeepsSlots(s, pool);
    case _ =>
      QuietStepKeepsSlots(s, step);
  }

  // A holder that goes away with its slot released leaves the others as they were.
  lemma DropHolder(s: System, t: System, c: Id)
    requires Inv(s) && Holds(s, c) && !Holds(t, c)
    requires forall d :: d != c ==> (Holds(t, d) <==> Holds(s, d))
    requires forall d :: Holds(t, d) ==> SlotOf(t, d) == SlotOf(s, d) && VolumeOf(t, d) == VolumeOf(s, d)
    requires t.pool == Release(s.pool, SlotOf(s, c)) && t.volumes == s.volumes
    ensures SlotsPartitioned(t) && VolumesDistinct(t)
  {
    ReleaseFrees(s.pool, SlotOf(s, c));
    forall x | x in t.pool.Held() ensures exists d :: Holds(t, d) && SlotOf(t, d) == x {
      var d :| Holds(s, d) && SlotOf(s, d) == x;
      assert Holds(t, d);
    }
  }

  lemma TapsKept(s: System, step: Step)
    requires Inv(s) && Enabled(s, step) && Disciplined(s, step)
    ensures var t := Next(s, step); forall x :: x in t.taps ==> x in t.pool.Held() || x in t.stuckTaps
  {
    var t := Next(s, step);
    match step
    case Acquire(c, slot) =>
      IssueHolds(s.pool, slot);
    case SnapFails(c) =>
      assert Holds(s, c);
      ReleaseFrees(s.pool, s.bringUps[c].slot);
    case ReleaseSlot(c, abandon) =>
      assert Holds(s, c) && RemovalsHonest(s, Works(s, abandon)[c]);
      ReleaseFrees(s.pool, Works(s, abandon)[c].slot);
    case TapUp(c) =>
      assert Holds(s, c) && SlotOf(s, c) in s.pool.Held();
    case Insert(c) =>
      assert Holds(s, c) && SlotOf(s, c) in s.pool.Held();
    case _ =>
  }

  // a holder that stays keeps its volume
  lemma VolumeStaysHeld(s: System, t: System, v: int, gone: Option<Id>)
    requires VolumeHeld(s, v)
    requires forall c: Id :: Holds(s, c) && Some(c) != gone ==> Holds(t, c) && VolumeOf(t, c) == VolumeOf(s, c)
    requires gone.Some? && Holds(s, gone.value) ==> VolumeOf(s, gone.value) != v
    ensures VolumeHeld(t, v)
  {
    var c :| Holds(s, c) && VolumeOf(s, c) == v;
    assert Holds(t, c) && VolumeOf(t, c) == v;
  }

  lemma ReleaseKeepsVolumes(s: System, c: Id, abandon: bool)
    requires Inv(s) && Enabled(s, ReleaseSlot(c, abandon))
    ensures
      var t := Next(s, ReleaseSlot(c, abandon));
      forall v :: v in t.volumes ==> VolumeHeld(t, v) || v in t.stuckVolumes
  {
    var t := Next(s, ReleaseSlot(c, abandon));
    assert RowFollowsWork(s, c) && RemovalsHonest(s, Works(s, abandon)[c]) && Holds(s, c);
    forall v | v in t.volumes && v !in t.stuckVolumes ensures VolumeHeld(t, v) {
      VolumeStaysHeld(s, t, v, Some(c));
    }
  }

  lemma SnapKeepsVolumes(s: System, step: Step)
    requires Inv(s) && Enabled(s, step) && (step.SnapFails? || step.SnapDone? || step.Acquire?)
    ensures
      var t := Next(s, step);
      forall v :: v in t.volumes ==> VolumeHeld(t, v) || v in t.stuckVolumes
  {
    var t := Next(s, step);
    var c := step.c;
    assert RowFollowsWork(s, c);
    if step.SnapDone? {
      assert Holds(t, c) && VolumeOf(t, c) == s.bringUps[c].volume;
    }
    forall v | v in t.volumes && v !in t.stuckVolumes ensures VolumeHeld(t, v) {
      if !(step.SnapDone? && v == s.bringUps[c].volume) {
        assert v in s.volumes && VolumeHeld(s, v);
        if step.SnapFails? {
          assert RemovalsHonest(s, s.bringUps[c]);
          VolumeStaysHeld(s, t, v, Some(c));
        } else {
          VolumeStaysHeld(s, t, v, None);
        }
      }
    }
  }

  lemma RestartKeepsVolumes(s: System, pool: Pool)
    requires Inv(s) && Enabled(s, Restart(pool))
    ensures
      var t := Next(s, Restart(pool));
      forall v :: v in t.volumes ==> VolumeHeld(t, v) || v in t.stuckVolumes
  {
    var t := Next(s, Restart(pool));
    forall v | v in t.volumes && v !in t.stuckVolumes ensures VolumeHeld(t, v) {
      var c :| c in s.rows && s.rows[c].status != Destroyed && s.rows[c].volume == v;
      assert Holds(t, c) && VolumeOf(t, c) == v;
    }
  }

  lemma VolumesKept(s: System, step: Step)
    requires Inv(s) && Enabled(s, step) && Disciplined(s, step)
    ensures var t := Next(s, step); forall v :: v in t.volumes ==> VolumeHeld(t, v) || v in t.stuckVolumes
  {
    if step.SnapFails? || step.SnapDone? || step.Acquire? {
      SnapKeepsVolumes(s, step);
    } else if step.ReleaseSlot? {
      ReleaseKeepsVolumes(s, step.c, step.abandon);
    } else if step.Restart? {
      RestartKeepsVolumes(s, step.pool);
    } else {
      var t := Next(s, step);
      HoldersKept(s, step);
      forall v | v in t.volumes && v !in t.stuckVolumes ensures VolumeHeld(t, v) {
        VolumeStaysHeld(s, t, v, None);
      }
    }
  }

  // A pass that a step on another computer leaves alone stays honest.
  lemma HonestFramed(s: System, t: System, w: Work)
    requires RemovalsHonest(s, w)
    requires w.slot in t.taps ==> w.slot in s.taps && (w.slot in s.stuckTaps ==> w.slot in t.stuckTaps)
    requires w.volume in t.volumes ==> w.volume in s.volumes && (w.volume in s.stuckVolumes ==> w.volume in t.stuckVolumes)
    ensures RemovalsHonest(t, w)
  {
  }

  lemma OtherHonest(s: System, step: Step, d: Id, abandon: bool)
    requires Inv(s) && Enabled(s, step) && Disciplined(s, step) && !step.Restart? && !step.TakeVolumeId?
    requires step.c != d && d in Works(Next(s, step), abandon)
    ensures RemovalsHonest(Next(s, step), Works(Next(s, step), abandon)[d])
  {
    assert RowFollowsWork(s, d) && RowFollowsWork(s, step.c);
    assert d in Works(s, abandon) && Works(Next(s, step), abandon)[d] == Works(s, abandon)[d];
    assert Holds(s, d) && (!step.Acquire? ==> Holds(s, step.c));
    HonestFramed(s, Next(s, step), Works(s, abandon)[d]);
  }

  lemma OwnHonest(s: System, step: Step, abandon: bool)
    requires Inv(s) && Enabled(s, step) && Disciplined(s, step) && !step.Restart? && !step.TakeVolumeId?
    requires step.c in Works(Next(s, step), abandon)
    ensures RemovalsHonest(Next(s, step), Works(Next(s, step), abandon)[step.c])
  {
    assert RowFollowsWork(s, step.c);
    if step.Acquire? {
      IssueHolds(s.pool, step.slot);
    } else if step.c in Works(s, abandon) {
      assert RemovalsHonest(s, Works(s, abandon)[step.c]);
    }
  }

  lemma HonestKept(s: System, step: Step, d: Id, abandon: bool)
    requires Inv(s) && Enabled(s, step) && Disciplined(s, step) && !step.Restart?
    requires d in Works(Next(s, step), abandon)
    ensures RemovalsHonest(Next(s, step), Works(Next(s, step), abandon)[d])
  {
    if step.TakeVolumeId? {
      HonestFramed(s, Next(s, step), Works(s, abandon)[d]);
    } else if step.c != d {
      OtherHonest(s, step, d, abandon);
    } else {
      OwnHonest(s, step, abandon);
    }
  }

  lemma HostKept(s: System, step: Step)
    requires Inv(s) && Enabled(s, step) && Disciplined(s, step)
    ensures HostClean(Next(s, step))
  {
    var t := Next(s, step);
    TapsKept(s, step);
    VolumesKept(s, step);
    if !step.Restart? {
      forall d | d in t.bringUps ensures RemovalsHonest(t, t.bringUps[d]) {
        HonestKept(s, step, d, true);
      }
      forall d | d in t.teardowns ensures RemovalsHonest(t, t.teardowns[d]) {
        HonestKept(s, step, d, false);
      }
    }
  }

  lemma StepKeepsInv(s: System, step: Step)
    requires Inv(s) && Enabled(s, step) && Disciplined(s, step)
    ensures Inv(Next(s, step))
  {
    RowsKept(s, step);
    SlotsKept(s, step);
    HostKept(s, step);
  }

  lemma {:induction false} RunKeepsInv(s: System, steps: seq<Step>)
    requires Inv(s) && IsDisciplinedRun(s, steps)
    ensures IsRun(s, steps) && Inv(After(s, steps))
    decreases |steps|
  {
    if steps != [] {
      StepKeepsInv(s, steps[0]);
      RunKeepsInv(Next(s, steps[0]), steps[1..]);
    }
  }

  // ---- main results ----

  /** No two undestroyed computers share a slot or a volume, whatever failed or crashed on the way. */
  lemma UndestroyedShareNothing(s: System, steps: seq<Step>, c: Id, d: Id)
    requires Initial(s) && IsDisciplinedRun(s, steps)
    ensures IsRun(s, steps)
    ensures
      var t := After(s, steps);
      Undestroyed(t, c) && Undestroyed(t, d) && c != d ==>
        && t.rows[c].slot != t.rows[d].slot
        && t.rows[c].volume != t.rows[d].volume
        && t.rows[c].slot in AllSlots()
  {
    RunKeepsInv(s, steps);
    var t := After(s, steps);
    if Undestroyed(t, c) && Undestroyed(t, d) && c != d {
      assert Holds(t, c) && Holds(t, d);
      assert RowFollowsWork(t, c) && RowFollowsWork(t, d);
    }
  }

  /**
    Free and held slots partition the issued ones, and a slot is held exactly while a
    bring-up, a teardown or an undestroyed row accounts for it: no slot leaks, none is
    released twice.
   */
  lemma SlotsNeverLeak(s: System, steps: seq<Step>, x: int)
    requires Initial(s) && IsDisciplinedRun(s, steps)
    ensures IsRun(s, steps)
    ensures
      var t := After(s, steps);
      && (x in Usable(t.pool.nextSlot) <==> (x in t.pool.free) != (x in t.pool.Held()))
      && (x in t.pool.Held() <==> exists c :: Holds(t, c) && SlotOf(t, c) == x)
      && STAGING_SLOT !in t.pool.Held()
  {
    RunKeepsInv(s, steps);
  }

  // the slot a step hands back, if any
  function ReleasedBy(s: System, step: Step): Option<int> {
    match step
    case SnapFails(c) => if c in s.bringUps then Some(s.bringUps[c].slot) else None
    case ReleaseSlot(c, abandon) => if c in Works(s, abandon) then Some(Works(s, abandon)[c].slot) else None
    case _ => None
  }

  /**
    A release always hands back a slot that was held, so the allocator never refuses one. Its pass
    has tried both removals by then, and a tap or a volume still up is one this very pass failed
    to remove. Nothing accounts for the slot after.
   */
  lemma ReleasedOnceAndLast(s: System, steps: seq<Step>, step: Step)
    requires Initial(s) && IsDisciplinedRun(s, steps)
    requires IsRun(s, steps) && Enabled(After(s, steps), step)
    requires ReleasedBy(After(s, steps), step).Some?
    ensures
      var t := After(s, steps);
      var x := ReleasedBy(t, step).value;
      && x in t.pool.Held() && x !in Next(t, step).pool.Held()
      && (step.ReleaseSlot? ==>
            var w := Works(t, step.abandon)[step.c];
            (x in t.taps ==> w.tapLeft) && (w.volume in t.volumes ==> w.volumeLeft))
      && forall c :: Holds(Next(t, step), c) ==> SlotOf(Next(t, step), c) != x
  {
    RunKeepsInv(s, steps);
    var t := After(s, steps);
    assert Holds(t, step.c) && RowFollowsWork(t, step.c);
    if step.ReleaseSlot? {
      assert RemovalsHonest(t, Works(t, step.abandon)[step.c]);
    }
    StepKeepsInv(t, step);
    ReleaseFrees(t.pool, ReleasedBy(t, step).value);
  }

  // ---- what is up ----

  // a bring-up has snapped its disk before it boots, and made its tap before it records its row
  ghost predicate BroughtUp(s: System, c: Id) {
    c in s.bringUps ==>
      && (s.bringUps[c].stage.Booting? || s.bringUps[c].stage.Recorded? ==> s.bringUps[c].volume in s.volumes)
      && (s.bringUps[c].stage.Recorded? ==> s.bringUps[c].slot in s.taps)
  }

  predicate Up(s: System, c: Id) {
    && c in s.rows && s.rows[c].status == Running && c !in s.bringUps
    && s.rows[c].slot in s.taps && s.rows[c].volume in s.volumes
  }

  predicate Claimed(s: System, c: Id) {
    c in s.rows && s.rows[c].status != Running
  }

  lemma BroughtUpKept(s: System, step: Step, c: Id)
    requires Inv(s) && Enabled(s, step) && Disciplined(s, step) && BroughtUp(s, c)
    ensures BroughtUp(Next(s, step), c)
  {
    assert RowFollowsWork(s, c);
    if !step.TakeVolumeId? && !step.Restart? && step.c != c && c in s.bringUps {
      OtherStaysUp(s, step, c);
    }
  }

  // what another computer's step takes away is its own
  lemma OtherStaysUp(s: System, step: Step, c: Id)
    requires Inv(s) && Enabled(s, step) && !step.TakeVolumeId? && !step.Restart? && step.c != c && Holds(s, c)
    ensures
      var t := Next(s, step);
      && (SlotOf(s, c) in s.taps ==> SlotOf(s, c) in t.taps)
      && (VolumeOf(s, c) in s.volumes ==> VolumeOf(s, c) in t.volumes)
  {
    if !step.Acquire? {
      assert Holds(s, step.c) && RowFollowsWork(s, step.c);
    }
  }

  lemma UpKept(s: System, step: Step, c: Id)
    requires Inv(s) && Enabled(s, step) && Disciplined(s, step) && Up(s, c)
    ensures Up(Next(s, step), c) || Claimed(Next(s, step), c)
  {
    assert RowFollowsWork(s, c);
    if !step.TakeVolumeId? && !step.Restart? && step.c != c {
      OtherStaysUp(s, step, c);
    }
  }

  lemma ClaimedKept(s: System, step: Step, c: Id)
    requires Inv(s) && Enabled(s, step) && Disciplined(s, step) && Claimed(s, c)
    ensures Claimed(Next(s, step), c)
  {
    assert RowFollowsWork(s, c);
  }

  lemma {:induction false} RunBringsUp(s: System, steps: seq<Step>, c: Id)
    requires Inv(s) && BroughtUp(s, c) && IsDisciplinedRun(s, steps)
    ensures IsRun(s, steps) && BroughtUp(After(s, steps), c)
    decreases |steps|
  {
    if steps != [] {
      StepKeepsInv(s, steps[0]);
      BroughtUpKept(s, steps[0], c);
      RunBringsUp(Next(s, steps[0]), steps[1..], c);
    }
  }

  lemma {:induction false} RunKeepsUp(s: System, steps: seq<Step>, c: Id)
    requires Inv(s) && (Up(s, c) || Claimed(s, c)) && IsDisciplinedRun(s, steps)
    ensures IsRun(s, steps) && (Up(After(s, steps), c) || Claimed(After(s, steps), c))
    decreases |steps|
  {
    if steps != [] {
      StepKeepsInv(s, steps[0]);
      if Up(s, c) {
        UpKept(s, steps[0], c);
      } else {
        ClaimedKept(s, steps[0], c);
      }
      RunKeepsUp(Next(s, steps[0]), steps[1..], c);
    }
  }

  /**
    A computer whose bring-up returns has its tap and its volume up, and keeps them for as long as
    its row is running, whatever fails or crashes elsewhere.
   */
  lemma RunningStaysUp(s: System, steps: seq<Step>, c: Id, more: seq<Step>)
    requires Initial(s) && IsDisciplinedRun(s, steps)
    requires IsRun(s, steps) && Enabled(After(s, steps), Return(c))
    requires IsDisciplinedRun(Next(After(s, steps), Return(c)), more)
    ensures IsRun(Next(After(s, steps), Return(c)), more)
    ensures
      var r := Next(After(s, steps), Return(c));
      var t := After(r, more);
      && c in r.rows && r.rows[c].status == Running && r.rows[c].slot in r.taps && r.rows[c].volume in r.volumes
      && c in t.rows && (t.rows[c].status == Running ==> t.rows[c].slot in t.taps && t.rows[c].volume in t.volumes)
  {
    RunKeepsInv(s, steps);
    RunBringsUp(s, steps, c);
    var t := After(s, steps);
    assert RowFollowsWork(t, c);
    StepKeepsInv(t, Return(c));
    RunKeepsUp(Next(t, Return(c)), more, c);
  }

  // ---- volume ids ----

  predicate TakesVolume(step: Step) {
    step.Acquire? || step.TakeVolumeId?
  }

  lemma {:induction false} VolumeIdsGrow(s: System, steps: seq<Step>)
    requires IsRun(s, steps) && forall i :: 0 <= i < |steps| ==> !steps[i].Restart?
    ensures s.pool.nextVolume <= After(s, steps).pool.nextVolume
    ensures steps != [] && TakesVolume(steps[0]) ==> s.pool.nextVolume < After(s, steps).pool.nextVolume
    decreases |steps|
  {
    if steps != [] {
      VolumeIdsGrow(Next(s, steps[0]), steps[1..]);
    }
  }

  // the id a step gives out: every taker gets the pool's next one, a bring-up for its disk
  function TakenId(s: System, step: Step): int
    requires TakesVolume(step)
  {
    s.pool.nextVolume
  }

  /** Between two restarts no volume id is given out twice, whoever takes it. */
  lemma VolumeIdsAreFresh(s: System, first: Step, between: seq<Step>, second: Step)
    requires Enabled(s, first) && TakesVolume(first)
    requires IsRun(Next(s, first), between) && forall i :: 0 <= i < |between| ==> !between[i].Restart?
    requires Enabled(After(Next(s, first), between), second) && TakesVolume(second)
    ensures
      var t := After(Next(s, first), between);
      && TakenId(s, first) < TakenId(t, second)
      && (second.Acquire? ==> Next(t, second).bringUps[second.c].volume == TakenId(t, second))
  {
    VolumeIdsGrow(Next(s, first), between);
  }

  /** What is up on the host has a holder, unless it was left there. */
  lemma FreeSlotsHaveNoTap(s: System, steps: seq<Step>, x: int)
    requires Initial(s) && IsDisciplinedRun(s, steps)
    ensures IsRun(s, steps)
    ensures
      var t := After(s, steps);
      && (x in t.taps && x !in t.stuckTaps ==> exists c :: Holds(t, c) && SlotOf(t, c) == x)
      && (x in t.volumes && x !in t.stuckVolumes ==> VolumeHeld(t, x))
  {
    RunKeepsInv(s, steps);
  }

  // a bring-up that a crash cuts off before its row is inserted
  predicate Unrecorded(s: System, c: Id) {
    c in s.bringUps && c !in s.rows
  }

  /**
    A tap or a volume is left behind in two ways only: its removal failed or was interrupted, or
    the process crashed during a bring-up that had not recorded its row.
   */
  lemma LeftBehindInTwoWays(s: System, steps: seq<Step>, step: Step, x: int)
    requires Initial(s) && IsDisciplinedRun(s, steps)
    requires IsRun(s, steps) && Enabled(After(s, steps), step) && Disciplined(After(s, steps), step)
    ensures
      var t := After(s, steps);
      x in Next(t, step).stuckTaps && x !in t.stuckTaps ==>
        || (step.RemoveTap? && !step.ok && Works(t, step.abandon)[step.c].slot == x)
        || (step.Restart? && exists c :: Unrecorded(t, c) && t.bringUps[c].slot == x)
    ensures
      var t := After(s, steps);
      x in Next(t, step).stuckVolumes && x !in t.stuckVolumes ==>
        || (step.RemoveVolume? && !step.ok && Works(t, step.abandon)[step.c].volume == x)
        || (step.Restart? && exists c :: Unrecorded(t, c) && t.bringUps[c].volume == x)
  {
    RunKeepsInv(s, steps);
    if step.Restart? {
      CrashLeaves(After(s, steps), step.pool, x);
    }
  }

  lemma CrashLeaves(t: System, pool: Pool, x: int)
    requires Inv(t) && Enabled(t, Restart(pool))
    ensures x in Next(t, Restart(pool)).stuckTaps && x !in t.stuckTaps ==>
      exists c :: Unrecorded(t, c) && t.bringUps[c].slot == x
    ensures x in Next(t, Restart(pool)).stuckVolumes && x !in t.stuckVolumes ==>
      exists c :: Unrecorded(t, c) && t.bringUps[c].volume == x
  {
    var u := Next(t, Restart(pool));
    if x in u.stuckTaps && x !in t.stuckTaps {
      var c :| Holds(t, c) && SlotOf(t, c) == x;
      if !Unrecorded(t, c) {
        HolderIsRecorded(t, c);
      }
    }
    if x in u.stuckVolumes && x !in t.stuckVolumes {
      var c :| Holds(t, c) && VolumeOf(t, c) == x;
      if !Unrecorded(t, c) {
        HolderIsRecorded(t, c);
      }
    }
  }

  // a holder whose row is neither running nor destroying has nothing up that is not known to be stuck
  lemma HolderIsRecorded(t: System, c: Id)
    requires Inv(t) && Holds(t, c) && !Unrecorded(t, c)
    ensures SlotOf(t, c) in ActiveSlots(t.rows) || (SlotOf(t, c) in t.taps ==> SlotOf(t, c) in t.stuckTaps)
    ensures VolumeOf(t, c) in ActiveVolumes(t.rows) || (VolumeOf(t, c) in t.volumes ==> VolumeOf(t, c) in t.stuckVolumes)
  {
    assert RowFollowsWork(t, c);
    assert c in t.bringUps ==> RemovalsHonest(t, t.bringUps[c]);
    assert c in t.teardowns ==> RemovalsHonest(t, t.teardowns[c]);
    if Undestroyed(t, c) {
      assert t.rows[c].slot in ActiveSlots(t.rows) && t.rows[c].volume in ActiveVolumes(t.rows);
    }
  }

  /** An acquire is refused exactly when 254 computers hold the 254 slots. */
  lemma RefusedExactlyWhenFull(s: System, steps: seq<Step>)
    requires Initial(s) && IsDisciplinedRun(s, steps)
    ensures IsRun(s, steps)
    ensures
      var t := After(s, steps);
      && ((forall slot :: !MayIssue(t.pool, slot)) <==> t.pool.Held() == AllSlots())
      && |AllSlots()| == 254
  {
    RunKeepsInv(s, steps);
    FullWhenNothingToIssue(After(s, steps).pool);
    AllSlotsAre254();
  }

  // ---- the discipline is needed ----

  lemma {:induction false} RunsConcatenate(s: System, xs: seq<Step>, ys: seq<Step>)
    requires IsRun(s, xs) && IsRun(After(s, xs), ys)
    ensures IsRun(s, xs + ys) && After(s, xs + ys) == After(After(s, xs), ys)
    decreases |xs|
  {
    if xs == [] {
      assert xs + ys == ys;
    } else {
      assert (xs + ys)[0] == xs[0] && (xs + ys)[1..] == xs[1..] + ys;
      RunsConcatenate(Next(s, xs[0]), xs[1..], ys);
    }
  }

  lemma OneStep(s: System, step: Step)
    requires Enabled(s, step)
    ensures IsRun(s, [step]) && After(s, [step]) == Next(s, step)
  {
    assert [step][1..] == [];
    assert IsRun(Next(s, step), []);
  }

  predicate InCleanup(w: Work) {
    w.stage.Disconnecting? || w.stage.Removing? || w.stage.Marked?
  }

  // the next step of a cleanup pass
  function NextOfPass(w: Work, c: Id, abandon: bool): Step
    requires InCleanup(w)
  {
    if w.stage.Disconnecting? then Disconnect(c, abandon)
    else if w.stage.Marked? then ReleaseSlot(c, abandon)
    else if !w.stage.volumeTried then RemoveVolume(c, abandon, true)
    else if !w.stage.tapTried then RemoveTap(c, abandon, true)
    else MarkDestroyed(c, abandon)
  }

  function StepsLeft(w: Work): nat
    requires InCleanup(w)
  {
    match w.stage
    case Marked => 1
    case Removing(volumeTried, tapTried) => 2 + (if volumeTried then 0 else 1) + (if tapTried then 0 else 1)
    case _ => 5
  }

  // A pass runs to its end from wherever it is.
  lemma CleanupRun(s: System, c: Id, abandon: bool) returns (steps: seq<Step>)
    requires c in Works(s, abandon) && InCleanup(Works(s, abandon)[c]) && c in s.rows
    requires Works(s, abandon)[c].stage.Marked? ==> s.rows[c].status == Destroyed
    ensures IsRun(s, steps)
    ensures
      var t := After(s, steps);
      && t.pool == Release(s.pool, Works(s, abandon)[c].slot)
      && t.rows == s.rows[c := s.rows[c].(status := Destroyed)]
      && Works(t, abandon) == Works(s, abandon) - {c} && Works(t, !abandon) == Works(s, !abandon)
    decreases StepsLeft(Works(s, abandon)[c])
  {
    var w := Works(s, abandon)[c];
    var step := NextOfPass(w, c, abandon);
    var t := Next(s, step);
    OneStep(s, step);
    if w.stage.Marked? {
      steps := [step];
      assert s.rows == s.rows[c := s.rows[c].(status := Destroyed)];
    } else {
      assert Works(t, abandon) == Works(s, abandon)[c := Works(t, abandon)[c]];
      var rest := CleanupRun(t, c, abandon);
      RunsConcatenate(s, [step], rest);
      steps := [step] + rest;
      assert Works(t, abandon) - {c} == Works(s, abandon) - {c};
    }
  }

  lemma BringUpRun(s: System, c: Id, slot: int) returns (steps: seq<Step>)
    requires Enabled(s, Acquire(c, slot))
    ensures IsRun(s, steps)
    ensures
      var t := After(s, steps);
      && t.pool == Issue(s.pool, slot)
      && t.rows == s.rows[c := Row(slot, s.pool.nextVolume, Running)]
      && t.bringUps == s.bringUps && t.teardowns == s.teardowns
  {
    var s1 := Next(s, Acquire(c, slot));
    var s2 := Next(s1, SnapDone(c));
    var s3 := Next(s2, Insert(c));
    OneStep(s3, Return(c));
    OneStep(s2, Insert(c));
    OneStep(s1, SnapDone(c));
    OneStep(s, Acquire(c, slot));
    RunsConcatenate(s2, [Insert(c)], [Return(c)]);
    RunsConcatenate(s1, [SnapDone(c)], [Insert(c)] + [Return(c)]);
    steps := [Acquire(c, slot)] + ([SnapDone(c)] + ([Insert(c)] + [Return(c)]));
    RunsConcatenate(s, [Acquire(c, slot)], [SnapDone(c)] + ([Insert(c)] + [Return(c)]));
    assert s.bringUps[c := s1.bringUps[c]] - {c} == s.bringUps;
  }

  // a bring-up fails if it has not yet, and its abandonment runs to the end
  lemma AbandonRun(s: System, c: Id) returns (steps: seq<Step>)
    requires c in s.bringUps && (s.bringUps[c].stage.Recorded? || InCleanup(s.bringUps[c])) && !s.bringUps[c].stage.Marked?
    requires c in s.rows
    ensures IsRun(s, steps)
    ensures
      var t := After(s, steps);
      && t.pool == Release(s.pool, s.bringUps[c].slot)
      && t.rows == s.rows[c := s.rows[c].(status := Destroyed)]
      && t.bringUps == s.bringUps - {c} && t.teardowns == s.teardowns
  {
    if s.bringUps[c].stage.Recorded? {
      OneStep(s, Fail(c));
      var t := Next(s, Fail(c));
      var rest := CleanupRun(t, c, true);
      RunsConcatenate(s, [Fail(c)], rest);
      steps := [Fail(c)] + rest;
      assert t.bringUps - {c} == s.bringUps - {c};
    } else {
      steps := CleanupRun(s, c, true);
    }
  }

  // who can be claimed early: a bring-up with its row inserted, warming up or being abandoned
  lemma ClaimableBringUp(s: System, c: Id)
    requires Inv(s) && Enabled(s, Claim(c)) && !Disciplined(s, Claim(c))
    ensures c in s.bringUps && (s.bringUps[c].stage.Recorded? || InCleanup(s.bringUps[c])) && !s.bringUps[c].stage.Marked?
    ensures s.bringUps[c].slot == s.rows[c].slot && s.bringUps[c].slot in s.pool.Held() && c !in s.teardowns
  {
    assert RowFollowsWork(s, c);
    assert Holds(s, c) && SlotOf(s, c) in s.pool.Held();
  }

  /**
    Whenever a row is claimed before its bring-up, or the abandoning of it, has returned, its slot
    can be released twice: two later computers end up running on one slot.
   */
  lemma EarlyClaimSharesASlot(s: System, c: Id, d: Id, e: Id) returns (steps: seq<Step>)
    requires Inv(s) && Enabled(s, Claim(c)) && !Disciplined(s, Claim(c))
    requires d != e && d !in s.rows && e !in s.rows
    requires d !in s.bringUps && e !in s.bringUps && d !in s.teardowns && e !in s.teardowns
    ensures IsRun(Next(s, Claim(c)), steps)
    ensures
      var t := After(Next(s, Claim(c)), steps);
      Undestroyed(t, d) && Undestroyed(t, e) && t.rows[d].slot == t.rows[e].slot
  {
    ClaimableBringUp(s, c);
    var x := s.bringUps[c].slot;
    var s0 := Next(s, Claim(c));
    var teardown := CleanupRun(s0, c, false);
    var s1 := After(s0, teardown);
    assert x in s1.pool.free - {STAGING_SLOT};
    var first := BringUpRun(s1, d, x);
    var s2 := After(s1, first);
    var abandon := AbandonRun(s2, c);
    var s3 := After(s2, abandon);
    assert x in s3.pool.free - {STAGING_SLOT};
    var second := BringUpRun(s3, e, x);
    RunsConcatenate(s2, abandon, second);
    RunsConcatenate(s1, first, abandon + second);
    RunsConcatenate(s0, teardown, first + (abandon + second));
    steps := teardown + (first + (abandon + second));
  }

  /** And it happens: a run from the start to two live computers on one slot. */
  lemma EarlyClaimIsReachable(s: System) returns (steps: seq<Step>, d: Id, e: Id)
    requires Initial(s)
    ensures IsRun(s, steps) && d != e
    ensures
      var t := After(s, steps);
      Undestroyed(t, d) && Undestroyed(t, e) && t.rows[d].slot == t.rows[e].slot
  {
    d, e := 1, 2;
    var slot := SomeSlot(s.pool);
    var up := RecordedRun(s, 0, slot);
    var t := After(s, up);
    OneStep(t, Claim(0));
    var rest := EarlyClaimSharesASlot(t, 0, d, e);
    RunsConcatenate(t, [Claim(0)], rest);
    RunsConcatenate(s, up, [Claim(0)] + rest);
    steps := up + ([Claim(0)] + rest);
  }

  lemma SomeSlot(p: Pool) returns (slot: int)
    requires p.Sound() && p.Held() == {}
    ensures MayIssue(p, slot)
  {
    AllSlotsAre254();
    FullWhenNothingToIssue(p);
    slot :| MayIssue(p, slot);
  }

  // a bring-up as far as its row
  lemma RecordedRun(s: System, c: Id, slot: int) returns (steps: seq<Step>)
    requires Initial(s) && MayIssue(s.pool, slot)
    ensures IsRun(s, steps) && Inv(After(s, steps))
    ensures
      var t := After(s, steps);
      t.rows.Keys == {c} && t.bringUps.Keys == {c} && t.teardowns == map[] && t.rows[c].status == Running
  {
    steps := [Acquire(c, slot), SnapDone(c), Insert(c)];
    var s1 := Next(s, Acquire(c, slot));
    var s2 := Next(s1, SnapDone(c));
    assert steps[1..] == [SnapDone(c), Insert(c)] && steps[1..][1..] == [Insert(c)] && [Insert(c)][1..] == [];
    assert IsDisciplinedRun(Next(s2, Insert(c)), []);
    assert IsDisciplinedRun(s2, [Insert(c)]);
    assert IsDisciplinedRun(s1, steps[1..]);
    RunKeepsInv(s, steps);
    OneStep(s2, Insert(c));
    assert After(s1, steps[1..]) == After(s2, [Insert(c)]);
  }
}
