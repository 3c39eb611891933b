/**
  When a labelled chain is linear: each new head's parent is the previous head. The steps on
  the label are forks by label that refuse a conflict and self-destruct; a fork whose head
  has been replaced by the time of its check is what breaks the chain.
 */
module LinearChain {
  import opened Wrappers
  import opened LabelChain

  // the newest checkpoint ever made with the label below n, deleted or not
  function MadeBelow(s: System, k: Key, n: nat): Option<CheckpointId>
    requires n <= |s.checkpoints|
  {
    if n == 0 then None
    else if s.checkpoints[n - 1].key == Some(k) then Some(n - 1)
    else MadeBelow(s, k, n - 1)
  }

  // every checkpoint of the label but the first has the one before it as its parent
  ghost predicate Linear(s: System, k: Key) {
    forall i :: 0 <= i < |s.checkpoints| && s.checkpoints[i].key == Some(k) && MadeBelow(s, k, i).Some? ==>
      s.checkpoints[i].parent == MadeBelow(s, k, i)
  }

  predicate Owned(s: System, c: ComputerId) {
    exists t :: t in s.tasks && TaskComputer(s.tasks[t].phase) == Some(c)
  }

  // The head a fork resolved is still the head when its check passes.
  predicate HeadStands(s: System, step: Step, k: Key) {
    step.Check? && step.t in s.tasks && s.tasks[step.t].key == k && s.tasks[step.t].phase.Resolved? ==>
      Head(s, k) == Some(s.tasks[step.t].phase.head)
  }

  /**
    Everything on the label is a fork by label that refuses a conflict, checkpoints once and
    self-destructs; the rest of the world leaves its computers alone while they run, prunes
    anything but the head, and makes no other checkpoint of them or of the label.
   */
  ghost predicate StepsTheChain(s: System, step: Step, k: Key) {
    match step
    case Enter(_, key, mode, byId) => key == k ==> mode == ErrorOnConflict && byId.None?
    case Stop(c) => Active(s, k, c) ==> !Owned(s, c)
    case IdleCheckpoint(c) => Active(s, k, c) ==> !Owned(s, c)
    case OtherCheckpoint(ckpt) =>
      && (ckpt.key == Some(k) ==> MadeBelow(s, k, |s.checkpoints|).None? && ckpt.computer.None?)
      && (ckpt.computer.Some? ==> !Active(s, k, ckpt.computer.value))
    case Delete(i) => Head(s, k) != Some(i)
    case _ => true
  }

  ghost predicate InsertedStillRuns(s: System, k: Key, t: TaskId) {
    t in s.tasks && s.tasks[t].key == k && (s.tasks[t].phase.Inserted? || s.tasks[t].phase.Executing?) ==>
      && Active(s, k, s.tasks[t].phase.c)
      && LatestOfBelow(s, s.tasks[t].phase.c, |s.checkpoints|).None?
  }

  // the label's tasks refuse a conflict
  predicate Refuses(s: System, k: Key, t: TaskId) {
    t in s.tasks && s.tasks[t].key == k ==> s.tasks[t].mode == ErrorOnConflict && s.tasks[t].byId.None?
  }

  // and fork its head
  predicate ForksHead(s: System, k: Key, t: TaskId) {
    t in s.tasks && s.tasks[t].key == k && s.tasks[t].phase.Admitted? ==> Head(s, k) == Some(s.tasks[t].phase.head)
  }

  ghost predicate TaskBelongs(s: System, k: Key, t: TaskId) {
    Refuses(s, k, t) && ForksHead(s, k, t) && InsertedStillRuns(s, k, t)
  }

  ghost predicate TasksBelong(s: System, k: Key) {
    forall t :: TaskBelongs(s, k, t)
  }

  // a task's computer was forked from its label
  ghost predicate OwnKnown(s: System, t: TaskId) {
    t in s.tasks && TaskComputer(s.tasks[t].phase).Some? ==>
      var c := TaskComputer(s.tasks[t].phase).value;
      && c in s.computers && s.computers[c].source.Some?
      && Labelled(s, s.computers[c].source.value, s.tasks[t].key)
  }

  ghost predicate ComputersBelong(s: System) {
    && (forall t :: OwnKnown(s, t))
    && (forall t, t' :: t in s.tasks && t' in s.tasks && t != t' && TaskComputer(s.tasks[t].phase).Some? ==>
          TaskComputer(s.tasks[t].phase) != TaskComputer(s.tasks[t'].phase))
    && (forall i :: 0 <= i < |s.checkpoints| && s.checkpoints[i].computer.Some? ==>
          s.checkpoints[i].computer.value in s.computers)
  }

  ghost predicate ActiveAtHead(s: System, k: Key) {
    && (forall c :: Active(s, k, c) ==> ParentFor(s, c) == Head(s, k))
    && (forall c, d :: Active(s, k, c) && Active(s, k, d) ==> c == d)
  }

  ghost predicate ChainInv(s: System, k: Key) {
    && Inv(s)
    && Linear(s, k)
    && Head(s, k) == MadeBelow(s, k, |s.checkpoints|)
    && TasksBelong(s, k) && ComputersBelong(s) && ActiveAtHead(s, k)
  }

  // ---- how the queries move ----

  lemma {:induction false} MadeBelowIs(s: System, k: Key, n: nat)
    requires n <= |s.checkpoints|
    ensures MadeBelow(s, k, n).Some? ==> MadeBelow(s, k, n).value < n && Labelled(s, MadeBelow(s, k, n).value, k)
    ensures MadeBelow(s, k, n).None? ==> forall i :: 0 <= i < n ==> !Labelled(s, i, k)
  {
    if n > 0 {
      MadeBelowIs(s, k, n - 1);
    }
  }

  lemma {:induction false} MadeBelowSame(s: System, u: System, k: Key, n: nat)
    requires n <= |s.checkpoints| && s.checkpoints <= u.checkpoints
    ensures MadeBelow(u, k, n) == MadeBelow(s, k, n)
  {
    if n > 0 {
      MadeBelowSame(s, u, k, n - 1);
    }
  }

  lemma {:induction false} NewestBelowSame(s: System, u: System, k: Key, n: nat)
    requires n <= |s.checkpoints| && s.checkpoints <= u.checkpoints && s.deleted == u.deleted
    ensures NewestBelow(u, k, n) == NewestBelow(s, k, n)
  {
    if n > 0 {
      NewestBelowSame(s, u, k, n - 1);
    }
  }

  lemma {:induction false} LatestOfBelowSame(s: System, u: System, c: ComputerId, n: nat)
    requires n <= |s.checkpoints| && s.checkpoints <= u.checkpoints && s.deleted == u.deleted
    ensures LatestOfBelow(u, c, n) == LatestOfBelow(s, c, n)
  {
    if n > 0 {
      LatestOfBelowSame(s, u, c, n - 1);
    }
  }

  lemma {:induction false} LatestOfNobody(s: System, c: ComputerId, n: nat)
    requires n <= |s.checkpoints| && ComputersBelong(s) && c !in s.computers
    ensures LatestOfBelow(s, c, n).None?
  {
    if n > 0 {
      LatestOfNobody(s, c, n - 1);
    }
  }

  lemma {:induction false} NewestBelowAfterDelete(s: System, u: System, k: Key, n: nat, i: CheckpointId)
    requires n <= |s.checkpoints| && u.checkpoints == s.checkpoints && u.deleted == s.deleted + {i}
    requires NewestBelow(s, k, n) != Some(i)
    ensures NewestBelow(u, k, n) == NewestBelow(s, k, n)
  {
    if n > 0 && !Carries(s, n - 1, k) {
      NewestBelowAfterDelete(s, u, k, n - 1, i);
    }
  }

  lemma {:induction false} LatestOfBelowAfterDelete(s: System, u: System, c: ComputerId, n: nat, i: CheckpointId)
    requires n <= |s.checkpoints| && u.checkpoints == s.checkpoints && u.deleted == s.deleted + {i}
    requires LatestOfBelow(s, c, n) != Some(i)
    ensures LatestOfBelow(u, c, n) == LatestOfBelow(s, c, n)
  {
    if n > 0 && !(Present(s, n - 1) && s.checkpoints[n - 1].computer == Some(c)) {
      LatestOfBelowAfterDelete(s, u, c, n - 1, i);
    }
  }

  // ---- steps that make no checkpoint and delete none ----

  lemma QueriesSame(s: System, u: System, k: Key)
    requires u.checkpoints == s.checkpoints && u.deleted == s.deleted
    ensures Head(u, k) == Head(s, k)
    ensures MadeBelow(u, k, |u.checkpoints|) == MadeBelow(s, k, |s.checkpoints|)
    ensures forall c :: LatestOfBelow(u, c, |u.checkpoints|) == LatestOfBelow(s, c, |s.checkpoints|)
    ensures Linear(s, k) ==> Linear(u, k)
  {
    NewestBelowSame(s, u, k, |s.checkpoints|);
    MadeBelowSame(s, u, k, |s.checkpoints|);
    forall c ensures LatestOfBelow(u, c, |u.checkpoints|) == LatestOfBelow(s, c, |s.checkpoints|) {
      LatestOfBelowSame(s, u, c, |s.checkpoints|);
    }
    forall i | 0 <= i < |s.checkpoints| ensures MadeBelow(u, k, i) == MadeBelow(s, k, i) {
      MadeBelowSame(s, u, k, i);
    }
  }

  predicate MakesOrDeletes(step: Step) {
    step.TakeCheckpoint? || step.IdleCheckpoint? || step.OtherCheckpoint? || step.Delete?
  }

  lemma QuietKeepsOwn(s: System, step: Step, t: TaskId)
    requires Known(s) && OwnKnown(s, t) && Enabled(s, step) && !MakesOrDeletes(step)
    ensures OwnKnown(Next(s, step), t)
  {
  }

  lemma QuietKeepsOwnership(s: System, step: Step)
    requires Known(s) && ComputersBelong(s) && Enabled(s, step)
    requires !MakesOrDeletes(step)
    ensures ComputersBelong(Next(s, step))
  {
    forall t ensures OwnKnown(Next(s, step), t) {
      QuietKeepsOwn(s, step, t);
    }
    if step.Insert? {
      forall t | t in s.tasks ensures TaskComputer(s.tasks[t].phase) != Some(step.c) {
        assert OwnKnown(s, t);
      }
    }
  }

  lemma QuietKeepsActive(s: System, step: Step, k: Key)
    requires ChainInv(s, k) && Enabled(s, step) && StepsTheChain(s, step, k)
    requires !MakesOrDeletes(step)
    ensures ActiveAtHead(Next(s, step), k)
  {
    var u := Next(s, step);
    QueriesSame(s, u, k);
    NewestBelowIs(s, k, |s.checkpoints|);
    if step.Insert? {
      assert TaskBelongs(s, k, step.t);
      LatestOfNobody(s, step.c, |s.checkpoints|);
    }
    forall c | Active(u, k, c) ensures ParentFor(u, c) == Head(u, k) {
      if !Active(s, k, c) {
        ActivatedByInsert(s, step, k, c);
      } else {
        assert u.computers[c].source == s.computers[c].source;
      }
    }
    forall c, d | Active(u, k, c) && Active(u, k, d) ensures c == d {
      if !Active(s, k, c) {
        ActivatedByInsert(s, step, k, c);
        assert NoneActive(s, k);
      }
      if !Active(s, k, d) {
        ActivatedByInsert(s, step, k, d);
        assert NoneActive(s, k);
      }
    }
  }

  // the computer a step stops, if any
  function Stopped(s: System, step: Step): Option<ComputerId> {
    match step
    case Abandon(t) => if t in s.tasks then TaskComputer(s.tasks[t].phase) else None
    case DestroyOwn(t) => if t in s.tasks then TaskComputer(s.tasks[t].phase) else None
    case Stop(c) => Some(c)
    case _ => None
  }

  lemma QuietKeepsRunning(s: System, step: Step, k: Key, c: ComputerId)
    requires Enabled(s, step) && !MakesOrDeletes(step)
    requires Active(s, k, c) && Stopped(s, step) != Some(c)
    ensures Active(Next(s, step), k, c)
  {
  }

  // A task still bringing up or running its computer: it was before, or it has just inserted it.
  lemma StillInserted(s: System, step: Step, t: TaskId)
    requires Enabled(s, step)
    requires t in Next(s, step).tasks
    requires Next(s, step).tasks[t].phase.Inserted? || Next(s, step).tasks[t].phase.Executing?
    ensures t in s.tasks && s.tasks[t].key == Next(s, step).tasks[t].key
    ensures if step.Insert? && step.t == t then Next(s, step).tasks[t].phase.c == step.c
            else s.tasks[t].phase.Inserted? || s.tasks[t].phase.Executing?
    ensures !(step.Insert? && step.t == t) ==> TaskComputer(s.tasks[t].phase) == Some(Next(s, step).tasks[t].phase.c)
  {
  }

  lemma QuietKeepsInserted(s: System, step: Step, k: Key, t: TaskId)
    requires Known(s) && ComputersBelong(s) && Enabled(s, step) && StepsTheChain(s, step, k)
    requires !MakesOrDeletes(step)
    requires step.Insert? && s.tasks[step.t].key == k ==> Head(s, k) == Some(s.tasks[step.t].phase.head)
    requires InsertedStillRuns(s, k, t)
    ensures InsertedStillRuns(Next(s, step), k, t)
  {
    var u := Next(s, step);
    if t in u.tasks && u.tasks[t].key == k && (u.tasks[t].phase.Inserted? || u.tasks[t].phase.Executing?) {
      var c := u.tasks[t].phase.c;
      StillInserted(s, step, t);
      LatestOfBelowSame(s, u, c, |s.checkpoints|);
      if step.Insert? && step.t == t {
        NewestBelowIs(s, k, |s.checkpoints|);
        LatestOfNobody(s, c, |s.checkpoints|);
      } else {
        QuietKeepsRunning(s, step, k, c);
      }
    }
  }

  lemma QuietKeepsRefuses(s: System, step: Step, k: Key, t: TaskId)
    requires Refuses(s, k, t) && Enabled(s, step) && StepsTheChain(s, step, k) && !MakesOrDeletes(step)
    ensures Refuses(Next(s, step), k, t)
  {
  }

  lemma QuietKeepsForks(s: System, step: Step, k: Key, t: TaskId)
    requires Refuses(s, k, t) && ForksHead(s, k, t) && Enabled(s, step) && HeadStands(s, step, k) && !MakesOrDeletes(step)
    requires Head(Next(s, step), k) == Head(s, k)
    ensures ForksHead(Next(s, step), k, t)
  {
  }

  lemma QuietKeepsTasks(s: System, step: Step, k: Key)
    requires ChainInv(s, k) && Enabled(s, step) && StepsTheChain(s, step, k) && HeadStands(s, step, k)
    requires !MakesOrDeletes(step)
    ensures TasksBelong(Next(s, step), k)
  {
    var u := Next(s, step);
    QuietKeepsHead(s, step, k);
    if step.Insert? {
      assert TaskBelongs(s, k, step.t);
    }
    forall t ensures TaskBelongs(u, k, t) {
      assert TaskBelongs(s, k, t);
      QuietKeepsRefuses(s, step, k, t);
      QuietKeepsForks(s, step, k, t);
      QuietKeepsInserted(s, step, k, t);
    }
  }

  lemma QuietKeepsHead(s: System, step: Step, k: Key)
    requires Enabled(s, step) && !MakesOrDeletes(step)
    ensures Head(Next(s, step), k) == Head(s, k)
    ensures Next(s, step).checkpoints == s.checkpoints && Next(s, step).deleted == s.deleted
  {
    NewestBelowSame(s, Next(s, step), k, |s.checkpoints|);
  }

  lemma QuietKeepsChain(s: System, step: Step, k: Key)
    requires ChainInv(s, k) && Enabled(s, step) && StepsTheChain(s, step, k) && HeadStands(s, step, k)
    requires !MakesOrDeletes(step)
    ensures ChainInv(Next(s, step), k)
  {
    InvKept(s, step);
    QueriesSame(s, Next(s, step), k);
    QuietKeepsOwnership(s, step);
    QuietKeepsActive(s, step, k);
    QuietKeepsTasks(s, step, k);
  }

  // ---- a checkpoint is made ----

  // the new checkpoint, if it carries the label, has the label's newest as its parent
  predicate Continues(s: System, ckpt: Checkpoint, k: Key) {
    ckpt.key == Some(k) && MadeBelow(s, k, |s.checkpoints|).Some? ==>
      ckpt.parent == MadeBelow(s, k, |s.checkpoints|)
  }

  lemma AfterAppend(s: System, u: System, ckpt: Checkpoint, k: Key)
    requires u.checkpoints == s.checkpoints + [ckpt] && u.deleted == s.deleted
    requires |s.checkpoints| !in s.deleted
    ensures Head(u, k) == if ckpt.key == Some(k) then Some(|s.checkpoints|) else Head(s, k)
    ensures MadeBelow(u, k, |u.checkpoints|) ==
            if ckpt.key == Some(k) then Some(|s.checkpoints|) else MadeBelow(s, k, |s.checkpoints|)
    ensures forall c: ComputerId :: LatestOfBelow(u, c, |u.checkpoints|) ==
                        if ckpt.computer == Some(c) then Some(|s.checkpoints|) else LatestOfBelow(s, c, |s.checkpoints|)
    ensures Linear(s, k) && Continues(s, ckpt, k) ==> Linear(u, k)
  {
    NewestBelowSame(s, u, k, |s.checkpoints|);
    MadeBelowSame(s, u, k, |s.checkpoints|);
    forall c: ComputerId ensures LatestOfBelow(u, c, |u.checkpoints|) ==
                     if ckpt.computer == Some(c) then Some(|s.checkpoints|) else LatestOfBelow(s, c, |s.checkpoints|)
    {
      LatestOfBelowSame(s, u, c, |s.checkpoints|);
    }
    forall i | 0 <= i <= |s.checkpoints| ensures MadeBelow(u, k, i) == MadeBelow(s, k, i) {
      MadeBelowSame(s, u, k, i);
    }
  }

  lemma ActiveAfterAppend(s: System, u: System, ckpt: Checkpoint, k: Key, c: ComputerId)
    requires Known(s) && u.checkpoints == s.checkpoints + [ckpt] && u.deleted == s.deleted && u.computers == s.computers
    ensures Active(u, k, c) <==> Active(s, k, c)
  {
  }

  // The one active computer of the label makes the new head.
  lemma HeadMadeByActive(s: System, u: System, k: Key, c: ComputerId)
    requires ChainInv(s, k) && Active(s, k, c) && Inv(u)
    requires u.checkpoints == s.checkpoints + [Checkpoint(Some(k), ParentFor(s, c), Some(c))]
    requires u.deleted == s.deleted && u.computers == s.computers
    requires ComputersBelong(u)
    requires forall t :: t in u.tasks ==> t in s.tasks && u.tasks[t].key == s.tasks[t].key
    requires forall t :: t in u.tasks ==> u.tasks[t].phase == s.tasks[t].phase || u.tasks[t].phase.Checkpointed?
    requires forall t :: t in u.tasks ==> u.tasks[t].mode == s.tasks[t].mode && u.tasks[t].byId == s.tasks[t].byId
    requires forall t :: t in u.tasks && TaskComputer(u.tasks[t].phase) == Some(c) ==> u.tasks[t].phase.Checkpointed?
    ensures ChainInv(u, k)
  {
    var ckpt := Checkpoint(Some(k), ParentFor(s, c), Some(c));
    AfterAppend(s, u, ckpt, k);
    forall d ensures Active(u, k, d) <==> Active(s, k, d) {
      ActiveAfterAppend(s, u, ckpt, k, d);
    }
    forall t ensures TaskBelongs(u, k, t) {
      assert TaskBelongs(s, k, t);
    }
  }

  // A checkpoint of another label, by nobody active on this one.
  lemma OtherLabelMade(s: System, u: System, ckpt: Checkpoint, k: Key)
    requires ChainInv(s, k) && Inv(u)
    requires u.checkpoints == s.checkpoints + [ckpt] && ckpt.key != Some(k)
    requires ckpt.computer.Some? ==> !Active(s, k, ckpt.computer.value)
    requires u.deleted == s.deleted && u.computers == s.computers
    requires ComputersBelong(u)
    requires forall t :: t in u.tasks && u.tasks[t].key == k ==> t in s.tasks && u.tasks[t] == s.tasks[t]
    ensures ChainInv(u, k)
  {
    AfterAppend(s, u, ckpt, k);
    forall d ensures Active(u, k, d) <==> Active(s, k, d) {
      ActiveAfterAppend(s, u, ckpt, k, d);
    }
    forall t ensures TaskBelongs(u, k, t) {
      assert TaskBelongs(s, k, t);
    }
  }

  lemma TakeKeepsOwnership(s: System, t: TaskId)
    requires Known(s) && ComputersBelong(s) && Enabled(s, TakeCheckpoint(t))
    ensures ComputersBelong(Next(s, TakeCheckpoint(t)))
  {
    var u := Next(s, TakeCheckpoint(t));
    assert OwnKnown(s, t);
    forall t' ensures OwnKnown(u, t') {
      assert OwnKnown(s, t');
    }
  }

  lemma TakeKeepsChain(s: System, t: TaskId, k: Key)
    requires ChainInv(s, k) && Enabled(s, TakeCheckpoint(t))
    ensures ChainInv(Next(s, TakeCheckpoint(t)), k)
  {
    var u := Next(s, TakeCheckpoint(t));
    var c := s.tasks[t].phase.c;
    InvKept(s, TakeCheckpoint(t));
    assert OwnKnown(s, t) && TaskBelongs(s, k, t);
    TakeKeepsOwnership(s, t);
    if s.tasks[t].key == k {
      HeadMadeByActive(s, u, k, c);
    } else {
      OtherLabelMade(s, u, u.checkpoints[|s.checkpoints|], k);
    }
  }

  lemma IdleKeepsChain(s: System, c: ComputerId, k: Key)
    requires ChainInv(s, k) && Enabled(s, IdleCheckpoint(c)) && StepsTheChain(s, IdleCheckpoint(c), k)
    ensures ChainInv(Next(s, IdleCheckpoint(c)), k)
  {
    var u := Next(s, IdleCheckpoint(c));
    InvKept(s, IdleCheckpoint(c));
    forall t ensures OwnKnown(u, t) {
      assert OwnKnown(s, t);
    }
    assert ComputersBelong(u);
    if Active(s, k, c) {
      HeadMadeByActive(s, u, k, c);
    } else {
      OtherLabelMade(s, u, u.checkpoints[|s.checkpoints|], k);
    }
  }

  lemma OtherKeepsChain(s: System, ckpt: Checkpoint, k: Key)
    requires ChainInv(s, k) && Enabled(s, OtherCheckpoint(ckpt)) && StepsTheChain(s, OtherCheckpoint(ckpt), k)
    ensures ChainInv(Next(s, OtherCheckpoint(ckpt)), k)
  {
    var u := Next(s, OtherCheckpoint(ckpt));
    InvKept(s, OtherCheckpoint(ckpt));
    forall t ensures OwnKnown(u, t) {
      assert OwnKnown(s, t);
    }
    assert ComputersBelong(u);
    if ckpt.key == Some(k) {
      MadeBelowIs(s, k, |s.checkpoints|);
      AfterAppend(s, u, ckpt, k);
      forall d ensures !Active(s, k, d) && !Active(u, k, d) {
        ActiveAfterAppend(s, u, ckpt, k, d);
        assert Active(s, k, d) ==> Labelled(s, s.computers[d].source.value, k);
      }
      forall t ensures TaskBelongs(u, k, t) {
        assert TaskBelongs(s, k, t);
      }
    } else {
      OtherLabelMade(s, u, ckpt, k);
    }
  }

  lemma DeleteKeepsChain(s: System, i: CheckpointId, k: Key)
    requires ChainInv(s, k) && Enabled(s, Delete(i)) && StepsTheChain(s, Delete(i), k)
    ensures ChainInv(Next(s, Delete(i)), k)
  {
    var u := Next(s, Delete(i));
    InvKept(s, Delete(i));
    forall t ensures OwnKnown(u, t) {
      assert OwnKnown(s, t);
    }
    NewestBelowAfterDelete(s, u, k, |s.checkpoints|, i);
    MadeBelowSame(s, u, k, |s.checkpoints|);
    forall j | 0 <= j < |s.checkpoints| ensures MadeBelow(u, k, j) == MadeBelow(s, k, j) {
      MadeBelowSame(s, u, k, j);
    }
    forall c | Active(u, k, c) ensures Active(s, k, c) && ParentFor(u, c) == Head(u, k) {
      assert Active(s, k, c);
      assert ParentFor(s, c) == Head(s, k);
      LatestOfBelowAfterDelete(s, u, c, |s.checkpoints|, i);
    }
    forall t ensures TaskBelongs(u, k, t) {
      assert TaskBelongs(s, k, t);
      if t in s.tasks && s.tasks[t].key == k && (s.tasks[t].phase.Inserted? || s.tasks[t].phase.Executing?) {
        LatestOfBelowAfterDelete(s, u, s.tasks[t].phase.c, |s.checkpoints|, i);
      }
    }
  }

  lemma StepKeepsChain(s: System, step: Step, k: Key)
    requires ChainInv(s, k) && Enabled(s, step) && StepsTheChain(s, step, k) && HeadStands(s, step, k)
    ensures ChainInv(Next(s, step), k)
  {
    match step
    case TakeCheckpoint(t) =>
      TakeKeepsChain(s, t, k);
    case IdleCheckpoint(c) =>
      IdleKeepsChain(s, c, k);
    case OtherCheckpoint(ckpt) =>
      OtherKeepsChain(s, ckpt, k);
    case Delete(i) =>
      DeleteKeepsChain(s, i, k);
    case _ =>
      QuietKeepsChain(s, step, k);
  }

  // ---- main results ----

  ghost predicate IsChainRun(s: System, steps: seq<Step>, k: Key)
    decreases |steps|
  {
    steps == [] ||
    (Enabled(s, steps[0]) && StepsTheChain(s, steps[0], k) && HeadStands(s, steps[0], k)
     && IsChainRun(Next(s, steps[0]), steps[1..], k))
  }

  lemma {:induction false} ChainRunKeepsInv(s: System, steps: seq<Step>, k: Key)
    requires ChainInv(s, k) && IsChainRun(s, steps, k)
    ensures IsRun(s, steps) && ChainInv(After(s, steps), k)
    decreases |steps|
  {
    if steps != [] {
      StepKeepsChain(s, steps[0], k);
      ChainRunKeepsInv(Next(s, steps[0]), steps[1..], k);
    }
  }

  /**
    A label stepped by refusing, self-destructing forks grows one linear chain, through
    crashes, abandoned forks, prunes and idle reaps, as long as every fork's head still
    stands when its check passes.
   */
  lemma NewHeadsFollowTheHead(s: System, steps: seq<Step>, k: Key, i: CheckpointId)
    requires Initial(s) && IsChainRun(s, steps, k)
    ensures IsRun(s, steps)
    ensures
      var u := After(s, steps);
      Labelled(u, i, k) && MadeBelow(u, k, i).Some? ==> u.checkpoints[i].parent == MadeBelow(u, k, i)
  {
    InitialInv(s);
    assert ChainInv(s, k);
    ChainRunKeepsInv(s, steps, k);
  }

  /**
    And only then. From any point of such a run, a fork admitted on a head that has been
    replaced breaks the chain as soon as it runs to its checkpoint undisturbed.
   */
  lemma StaleHeadForksTheChain(s: System, k: Key, t: TaskId, c: ComputerId)
    requires ChainInv(s, k) && Enabled(s, Check(t)) && s.tasks[t].key == k
    requires !HeadStands(s, Check(t), k) && Head(s, k).Some?
    requires c !in s.computers
    ensures IsRun(s, [Check(t), Insert(t, c), Return(t), TakeCheckpoint(t)])
    ensures !Linear(After(s, [Check(t), Insert(t, c), Return(t), TakeCheckpoint(t)]), k)
  {
    var s3 := Forked(s, k, t, c);
    var s4 := Next(s3, TakeCheckpoint(t));
    FourSteps(s, Check(t), Insert(t, c), Return(t), TakeCheckpoint(t));
    LatestOfNobody(s, c, |s.checkpoints|);
    LatestOfBelowSame(s, s3, c, |s.checkpoints|);
    assert s4.checkpoints[|s.checkpoints|].parent == Some(s.tasks[t].phase.head);
    MadeBelowSame(s, s4, k, |s.checkpoints|);
  }

  lemma Forked(s: System, k: Key, t: TaskId, c: ComputerId) returns (u: System)
    requires Known(s) && Enabled(s, Check(t)) && s.tasks[t].key == k && c !in s.computers
    ensures Enabled(Next(s, Check(t)), Insert(t, c))
    ensures Enabled(Next(Next(s, Check(t)), Insert(t, c)), Return(t))
    ensures u == Next(Next(Next(s, Check(t)), Insert(t, c)), Return(t))
    ensures Enabled(u, TakeCheckpoint(t)) && u.tasks[t].phase == Executing(c) && u.tasks[t].key == k
    ensures u.checkpoints == s.checkpoints && u.deleted == s.deleted
    ensures c in u.computers && u.computers[c].source == Some(s.tasks[t].phase.head)
  {
    u := Next(Next(Next(s, Check(t)), Insert(t, c)), Return(t));
  }

  lemma FourSteps(s: System, a: Step, b: Step, c: Step, d: Step)
    requires Enabled(s, a) && Enabled(Next(s, a), b) && Enabled(Next(Next(s, a), b), c)
    requires Enabled(Next(Next(Next(s, a), b), c), d)
    ensures IsRun(s, [a, b, c, d])
    ensures After(s, [a, b, c, d]) == Next(Next(Next(Next(s, a), b), c), d)
  {
    var s1, s2, s3 := Next(s, a), Next(Next(s, a), b), Next(Next(Next(s, a), b), c);
    var s4 := Next(s3, d);
    assert IsRun(s4, []) && After(s4, []) == s4;
    assert [d][1..] == [] && IsRun(s3, [d]) && After(s3, [d]) == s4;
    assert [c, d][1..] == [d] && IsRun(s2, [c, d]) && After(s2, [c, d]) == s4;
    assert [b, c, d][1..] == [c, d] && IsRun(s1, [b, c, d]) && After(s1, [b, c, d]) == s4;
    assert [a, b, c, d][1..] == [b, c, d];
  }

  lemma Prepend(s: System, step: Step, rest: seq<Step>, k: Key) returns (steps: seq<Step>)
    requires Enabled(s, step) && StepsTheChain(s, step, k) && HeadStands(s, step, k)
    requires IsChainRun(Next(s, step), rest, k) && IsRun(Next(s, step), rest)
    ensures IsChainRun(s, steps, k) && IsRun(s, steps) && After(s, steps) == After(Next(s, step), rest)
  {
    steps := [step] + rest;
    assert steps[1..] == rest;
  }

  // One run of the label is executing on computer 7, forked from the label's first checkpoint.
  function OneExecuting(k: Key): System {
    System(Locks(map[], map[0 := Entry(0, None)], 1),
           map[1 := Task(k, ErrorOnConflict, None, 0, Executing(7))],
           [Checkpoint(Some(k), None, None)], {}, map[7 := Computer(Some(0), true)])
  }

  function OneResolved(k: Key): System {
    System(Locks(map[k := 0], map[0 := Entry(1, Some(1))], 1),
           map[1 := Task(k, ErrorOnConflict, None, 0, Resolved(0))],
           [Checkpoint(Some(k), None, None)], {}, map[])
  }

  lemma ReachOneResolved(s: System, k: Key, rest: seq<Step>) returns (steps: seq<Step>)
    requires Initial(s) && IsChainRun(OneResolved(k), rest, k) && IsRun(OneResolved(k), rest)
    ensures IsChainRun(s, steps, k) && IsRun(s, steps) && After(s, steps) == After(OneResolved(k), rest)
  {
    var root := OtherCheckpoint(Checkpoint(Some(k), None, None));
    var s1 := Next(s, root);
    var s2 := Next(s1, Enter(1, k, ErrorOnConflict, None));
    var s3 := Next(s2, Acquire(1));
    assert Head(s3, k) == Some(0);
    assert Next(s3, Resolve(1)) == OneResolved(k);
    steps := Prepend(s3, Resolve(1), rest, k);
    steps := Prepend(s2, Acquire(1), steps, k);
    steps := Prepend(s1, Enter(1, k, ErrorOnConflict, None), steps, k);
    steps := Prepend(s, root, steps, k);
  }

  lemma ReachOneExecuting(k: Key, rest: seq<Step>) returns (steps: seq<Step>)
    requires IsChainRun(OneExecuting(k), rest, k) && IsRun(OneExecuting(k), rest)
    ensures IsChainRun(OneResolved(k), steps, k) && IsRun(OneResolved(k), steps)
    ensures After(OneResolved(k), steps) == After(OneExecuting(k), rest)
  {
    var s4 := OneResolved(k);
    assert Head(s4, k) == Some(0);
    var s5 := Next(s4, Check(1));
    var s6 := Next(s5, Insert(1, 7));
    assert Next(s6, Return(1)) == OneExecuting(k);
    steps := Prepend(s6, Return(1), rest, k);
    steps := Prepend(s5, Insert(1, 7), steps, k);
    steps := Prepend(s4, Check(1), steps, k);
  }

  // a second fork resolves the head while the first run is still executing
  function TwoOnOneHead(k: Key): System {
    System(Locks(map[k := 1], map[0 := Entry(0, None), 1 := Entry(1, Some(2))], 2),
           map[1 := Task(k, ErrorOnConflict, None, 0, Executing(7)), 2 := Task(k, ErrorOnConflict, None, 1, Resolved(0))],
           [Checkpoint(Some(k), None, None)], {}, map[7 := Computer(Some(0), true)])
  }

  lemma ReplacedUnderneath(k: Key) returns (steps: seq<Step>)
    ensures IsChainRun(TwoOnOneHead(k), steps, k) && IsRun(TwoOnOneHead(k), steps)
    ensures
      var u := After(TwoOnOneHead(k), steps);
      && Enabled(u, Check(2)) && u.tasks[2].key == k && u.tasks[2].phase == Resolved(0)
      && Head(u, k) == Some(1)
  {
    var s10 := TwoOnOneHead(k);
    var s11 := Next(s10, TakeCheckpoint(1));
    var s12 := Next(s11, DestroyOwn(1));
    assert Head(s12, k) == Some(1);
    steps := Prepend(s11, DestroyOwn(1), [], k);
    steps := Prepend(s10, TakeCheckpoint(1), steps, k);
  }

  lemma SecondResolves(s: System, k: Key)
    requires s == Next(Next(OneExecuting(k), Enter(2, k, ErrorOnConflict, None)), Acquire(2))
    ensures Enabled(s, Resolve(2)) && Next(s, Resolve(2)) == TwoOnOneHead(k)
  {
    assert Head(s, k) == Some(0);
  }

  lemma ReachTwoOnOneHead(k: Key, rest: seq<Step>) returns (steps: seq<Step>)
    requires IsChainRun(TwoOnOneHead(k), rest, k) && IsRun(TwoOnOneHead(k), rest)
    ensures IsChainRun(OneExecuting(k), steps, k) && IsRun(OneExecuting(k), steps)
    ensures After(OneExecuting(k), steps) == After(TwoOnOneHead(k), rest)
  {
    var s7 := OneExecuting(k);
    var s8 := Next(s7, Enter(2, k, ErrorOnConflict, None));
    var s9 := Next(s8, Acquire(2));
    SecondResolves(s9, k);
    steps := Prepend(s9, Resolve(2), rest, k);
    steps := Prepend(s8, Acquire(2), steps, k);
    steps := Prepend(s7, Enter(2, k, ErrorOnConflict, None), steps, k);
  }

  /**
    Such a fork exists: one task resolves the head, the run it waited for checkpoints and
    destroys its computer, and the second fork's check then passes on the replaced head.
   */
  lemma StaleHeadIsReachable(s: System, k: Key) returns (steps: seq<Step>, t: TaskId)
    requires Initial(s)
    ensures IsChainRun(s, steps, k) && IsRun(s, steps)
    ensures Enabled(After(s, steps), Check(t)) && After(s, steps).tasks[t].key == k
    ensures !HeadStands(After(s, steps), Check(t), k) && Head(After(s, steps), k).Some?
  {
    t := 2;
    steps := ReplacedUnderneath(k);
    steps := ReachTwoOnOneHead(k, steps);
    steps := ReachOneExecuting(k, steps);
    steps := ReachOneResolved(s, k, steps);
  }
}
