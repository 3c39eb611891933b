/**
  Admission to a labelled chain of checkpoints. Forks of one label take that label's lock,
  whose entry in the table comes and goes with its users; checkpoints are taken outside the
  lock. Every stretch between two awaits is one step.
 */
module LabelChain {
  import opened Wrappers

  // an (account, label) pair
  type Key = (string, string)
  type TaskId = nat
  type LockId = nat
  type ComputerId = nat
  // a checkpoint is known by its place in the order of creation
  type CheckpointId = nat

  datatype Exclusive = Shared | ErrorOnConflict | DeferOnConflict

  datatype Checkpoint = Checkpoint(key: Option<Key>, parent: Option<CheckpointId>, computer: Option<ComputerId>)

  datatype Computer = Computer(source: Option<CheckpointId>, running: bool)

  datatype Phase =
    | Waiting                                     // counted on the entry, lock not yet acquired
    | Locked                                      // lock acquired
    | Resolved(head: CheckpointId)                // head read
    | Admitted(head: CheckpointId)                // active-computer check passed, forking
    | Inserted(head: CheckpointId, c: ComputerId) // row inserted, bring-up not yet returned
    | Executing(c: ComputerId)                    // lock released, the command runs
    | Checkpointed(c: ComputerId)                 // checkpoint taken, destroy to come

  // byId is the checkpoint a fork by id names; None is a fork by label.
  datatype Task = Task(key: Key, mode: Exclusive, byId: Option<CheckpointId>, lock: LockId, phase: Phase) {
    // between entering the label's lock and leaving it
    predicate Inside() {
      !phase.Executing? && !phase.Checkpointed?
    }

    predicate HoldsLock() {
      Inside() && !phase.Waiting?
    }
  }

  // The table of lock entries, and the entries themselves: a task keeps the entry it entered
  // by, whatever becomes of the table.
  datatype Entry = Entry(users: int, holder: Option<TaskId>)

  datatype Locks = Locks(table: map<Key, LockId>, heap: map<LockId, Entry>, nextLock: LockId)

  datatype System = System(
    locks: Locks, tasks: map<TaskId, Task>,
    checkpoints: seq<Checkpoint>, deleted: set<CheckpointId>,
    computers: map<ComputerId, Computer>)

  // ---- queries ----

  predicate Present(s: System, i: CheckpointId) {
    i < |s.checkpoints| && i !in s.deleted
  }

  predicate Carries(s: System, i: CheckpointId, k: Key) {
    Present(s, i) && s.checkpoints[i].key == Some(k)
  }

  // the newest checkpoint below n that carries the label
  function NewestBelow(s: System, k: Key, n: nat): Option<CheckpointId> {
    if n == 0 then None
    else if Carries(s, n - 1, k) then Some(n - 1)
    else NewestBelow(s, k, n - 1)
  }

  function Head(s: System, k: Key): Option<CheckpointId> {
    NewestBelow(s, k, |s.checkpoints|)
  }

  function LatestOfBelow(s: System, c: ComputerId, n: nat): Option<CheckpointId> {
    if n == 0 then None
    else if Present(s, n - 1) && s.checkpoints[n - 1].computer == Some(c) then Some(n - 1)
    else LatestOfBelow(s, c, n - 1)
  }

  // the parent `create` gives a checkpoint of c: c's latest one, else what c was forked from
  function ParentFor(s: System, c: ComputerId): Option<CheckpointId>
    requires c in s.computers
  {
    var latest := LatestOfBelow(s, c, |s.checkpoints|);
    if latest.Some? then latest else s.computers[c].source
  }

  // c is what the active-computer check of k finds
  predicate Active(s: System, k: Key, c: ComputerId) {
    && c in s.computers && s.computers[c].running
    && s.computers[c].source.Some? && Carries(s, s.computers[c].source.value, k)
  }

  ghost predicate NoneActive(s: System, k: Key) {
    forall c :: !Active(s, k, c)
  }

  // ---- the lock table ----

  function EntryOf(locks: Locks, lock: LockId): Entry {
    if lock in locks.heap then locks.heap[lock] else Entry(0, None)
  }

  function Entering(locks: Locks, k: Key): LockId {
    if k in locks.table then locks.table[k] else locks.nextLock
  }

  // get or create the label's entry, and count in
  function EnterLocks(locks: Locks, k: Key): Locks {
    var lock := Entering(locks, k);
    var e := if k in locks.table then EntryOf(locks, lock) else Entry(0, None);
    Locks(locks.table[k := lock], locks.heap[lock := e.(users := e.users + 1)],
          if k in locks.table then locks.nextLock else locks.nextLock + 1)
  }

  function AcquireLock(locks: Locks, lock: LockId, t: TaskId): Locks {
    locks.(heap := locks.heap[lock := EntryOf(locks, lock).(holder := Some(t))])
  }

  // release the lock if t holds it, count out, and drop the entry when nobody is left
  function LeaveLocks(locks: Locks, k: Key, lock: LockId, t: TaskId): Locks {
    var e := EntryOf(locks, lock);
    var left := Entry(e.users - 1, if e.holder == Some(t) then None else e.holder);
    Locks(if left.users == 0 && k in locks.table && locks.table[k] == lock then locks.table - {k} else locks.table,
          locks.heap[lock := left], locks.nextLock)
  }

  // ---- steps ----

  datatype Step =
    | Enter(t: TaskId, key: Key, mode: Exclusive, byId: Option<CheckpointId>)
    | Acquire(t: TaskId)
    | Leave(t: TaskId)                        // cancelled while waiting, or refused, deferred or failed inside
    | Resolve(t: TaskId)
    | Check(t: TaskId)                        // passes
    | Insert(t: TaskId, c: ComputerId)
    | Abandon(t: TaskId)                      // the bring-up failed after the row was inserted
    | Return(t: TaskId)                       // the fork is done: leave the lock, run the command
    | TakeCheckpoint(t: TaskId)
    | DestroyOwn(t: TaskId)
    | Die(t: TaskId)                          // the run raised: the computer is left as it is
    | InsertUnlabelled(c: ComputerId, source: Option<CheckpointId>)
    | Stop(c: ComputerId)                     // a destroy from anywhere
    | IdleCheckpoint(c: ComputerId)           // the idle reap's, under the source's label if it still exists
    | OtherCheckpoint(ckpt: Checkpoint)       // any other way a checkpoint is made
    | Delete(i: CheckpointId)
    | Restart

  ghost predicate Enabled(s: System, step: Step) {
    match step
    case Enter(t, key, mode, byId) =>
      t !in s.tasks && (byId.Some? ==> byId.value < |s.checkpoints| && s.checkpoints[byId.value].key == Some(key))
    case Acquire(t) => t in s.tasks && s.tasks[t].phase.Waiting? && EntryOf(s.locks, s.tasks[t].lock).holder.None?
    case Leave(t) => t in s.tasks && s.tasks[t].Inside() && !s.tasks[t].phase.Inserted?
    case Resolve(t) => t in s.tasks && s.tasks[t].phase.Locked? && (s.tasks[t].byId.Some? || Head(s, s.tasks[t].key).Some?)
    case Check(t) =>
      && t in s.tasks && s.tasks[t].phase.Resolved?
      && (s.tasks[t].mode != Shared ==> NoneActive(s, s.tasks[t].key))
    case Insert(t, c) => t in s.tasks && s.tasks[t].phase.Admitted? && c !in s.computers
    case Abandon(t) => t in s.tasks && s.tasks[t].phase.Inserted?
    case Return(t) => t in s.tasks && s.tasks[t].phase.Inserted?
    case TakeCheckpoint(t) => t in s.tasks && s.tasks[t].phase.Executing?
    case DestroyOwn(t) => t in s.tasks && s.tasks[t].phase.Checkpointed?
    case Die(t) => t in s.tasks && !s.tasks[t].Inside()
    case InsertUnlabelled(c, source) =>
      && c !in s.computers
      && (source.Some? ==> source.value < |s.checkpoints| && s.checkpoints[source.value].key.None?)
    case Stop(c) => c in s.computers
    case IdleCheckpoint(c) => c in s.computers && s.computers[c].running
    case OtherCheckpoint(ckpt) => ckpt.computer.Some? ==> ckpt.computer.value in s.computers
    case Delete(i) => Present(s, i)
    case Restart => true
  }

  function LeaveLock(s: System, t: TaskId): System
    requires t in s.tasks
  {
    s.(locks := LeaveLocks(s.locks, s.tasks[t].key, s.tasks[t].lock, t))
  }

  function SetPhase(s: System, t: TaskId, phase: Phase): System
    requires t in s.tasks
  {
    s.(tasks := s.tasks[t := s.tasks[t].(phase := phase)])
  }

  function StopComputer(s: System, c: ComputerId): System
  {
    if c in s.computers then s.(computers := s.computers[c := s.computers[c].(running := false)]) else s
  }

  function TaskComputer(phase: Phase): Option<ComputerId> {
    match phase
    case Inserted(_, c) => Some(c)
    case Executing(c) => Some(c)
    case Checkpointed(c) => Some(c)
    case _ => None
  }

  // the label the idle reap gives: the source's while it exists, else the reaper's own
  function IdleKey(s: System, c: ComputerId): Option<Key>
    requires c in s.computers
  {
    var source := s.computers[c].source;
    if source.Some? && Present(s, source.value) then s.checkpoints[source.value].key else None
  }

  ghost function Next(s: System, step: Step): System
    requires Enabled(s, step)
  {
    match step
    case Enter(t, key, mode, byId) =>
      s.(locks := EnterLocks(s.locks, key),
         tasks := s.tasks[t := Task(key, mode, byId, Entering(s.locks, key), Waiting)])
    case Acquire(t) => SetPhase(s, t, Locked).(locks := AcquireLock(s.locks, s.tasks[t].lock, t))
    case Leave(t) => LeaveLock(s, t).(tasks := s.tasks - {t})
    case Resolve(t) =>
      SetPhase(s, t, Resolved(if s.tasks[t].byId.Some? then s.tasks[t].byId.value else Head(s, s.tasks[t].key).value))
    case Check(t) => SetPhase(s, t, Admitted(s.tasks[t].phase.head))
    case Insert(t, c) =>
      SetPhase(s, t, Inserted(s.tasks[t].phase.head, c)).(
        computers := s.computers[c := Computer(Some(s.tasks[t].phase.head), true)])
    case Abandon(t) => StopComputer(LeaveLock(s, t).(tasks := s.tasks - {t}), s.tasks[t].phase.c)
    case Return(t) => SetPhase(LeaveLock(s, t), t, Executing(s.tasks[t].phase.c))
    case TakeCheckpoint(t) =>
      var c := s.tasks[t].phase.c;
      var parent := if c in s.computers then ParentFor(s, c) else None;
      SetPhase(s, t, Checkpointed(c)).(
        checkpoints := s.checkpoints + [Checkpoint(Some(s.tasks[t].key), parent, Some(c))])
    case DestroyOwn(t) => StopComputer(s.(tasks := s.tasks - {t}), s.tasks[t].phase.c)
    case Die(t) => s.(tasks := s.tasks - {t})
    case InsertUnlabelled(c, source) => s.(computers := s.computers[c := Computer(source, true)])
    case Stop(c) => StopComputer(s, c)
    case IdleCheckpoint(c) =>
      s.(checkpoints := s.checkpoints + [Checkpoint(IdleKey(s, c), ParentFor(s, c), Some(c))])
    case OtherCheckpoint(ckpt) => s.(checkpoints := s.checkpoints + [ckpt])
    case Delete(i) => s.(deleted := s.deleted + {i})
    case Restart => s.(locks := Locks(map[], map[], 0), tasks := map[])
  }

  // ---- the lock table's invariant ----

  // those between entering the label's lock and leaving it
  ghost function UsersOf(tasks: map<TaskId, Task>, k: Key): set<TaskId> {
    set t | t in tasks && tasks[t].Inside() && tasks[t].key == k
  }

  // everyone inside a label shares the one entry in the table
  ghost predicate TaskOk(s: System, t: TaskId) {
    t in s.tasks && s.tasks[t].Inside() ==>
      && s.tasks[t].key in s.locks.table && s.locks.table[s.tasks[t].key] == s.tasks[t].lock
      && (s.tasks[t].HoldsLock() <==> EntryOf(s.locks, s.tasks[t].lock).holder == Some(t))
  }

  // an entry counts exactly those inside, and an idle label has none
  ghost predicate KeyOk(s: System, k: Key) {
    && (k in s.locks.table ==>
          var lock := s.locks.table[k];
          && lock in s.locks.heap && lock < s.locks.nextLock
          && s.locks.heap[lock].users == |UsersOf(s.tasks, k)|
          && (s.locks.heap[lock].holder.Some? ==>
                var t := s.locks.heap[lock].holder.value;
                t in s.tasks && s.tasks[t].HoldsLock() && s.tasks[t].key == k))
    && (k in s.locks.table <==> UsersOf(s.tasks, k) != {})
  }

  ghost predicate LockInv(s: System) {
    && (forall t :: TaskOk(s, t))
    && (forall k :: KeyOk(s, k))
    && (forall k, k' :: k in s.locks.table && k' in s.locks.table && k != k' ==>
          s.locks.table[k] != s.locks.table[k'])
  }

  lemma OthersStay(was: map<TaskId, Task>, now: map<TaskId, Task>, t: TaskId)
    requires now - {t} == was - {t}
    ensures forall t' :: t' != t ==> (t' in now <==> t' in was) && (t' in now ==> now[t'] == was[t'])
  {
    forall t' | t' != t ensures (t' in now <==> t' in was) && (t' in now ==> now[t'] == was[t']) {
      assert t' in now <==> t' in (now - {t});
      assert t' in was <==> t' in (was - {t});
      if t' in now {
        assert (now - {t})[t'] == (was - {t})[t'];
      }
    }
  }

  // what t leaving does to its fellows and the table
  ghost predicate HasLeft(s: System, t: TaskId, u: System) {
    && t in s.tasks && s.tasks[t].Inside()
    && u.locks == LeaveLocks(s.locks, s.tasks[t].key, s.tasks[t].lock, t)
    && u.tasks - {t} == s.tasks - {t}
    && (t in u.tasks ==> !u.tasks[t].Inside())
  }

  lemma UsersAfterLeave(s: System, t: TaskId, u: System, k: Key)
    requires HasLeft(s, t, u)
    ensures UsersOf(u.tasks, k) == if k == s.tasks[t].key then UsersOf(s.tasks, k) - {t} else UsersOf(s.tasks, k)
    ensures t in UsersOf(s.tasks, s.tasks[t].key)
  {
    OthersStay(s.tasks, u.tasks, t);
  }

  lemma KeyAfterLeave(s: System, t: TaskId, u: System, k: Key)
    requires LockInv(s) && HasLeft(s, t, u)
    ensures KeyOk(u, k)
  {
    assert TaskOk(s, t) && KeyOk(s, k);
    UsersAfterLeave(s, t, u, k);
    if k in s.locks.table && s.locks.heap[s.locks.table[k]].holder.Some? {
      OthersStay(s.tasks, u.tasks, t);
    }
  }

  lemma TaskAfterLeave(s: System, t: TaskId, u: System, other: TaskId)
    requires LockInv(s) && HasLeft(s, t, u)
    ensures TaskOk(u, other)
  {
    OthersStay(s.tasks, u.tasks, t);
    if other in u.tasks && u.tasks[other].Inside() {
      var k := u.tasks[other].key;
      assert TaskOk(s, t) && TaskOk(s, other) && KeyOk(s, k);
      UsersAfterLeave(s, t, u, k);
      assert other in UsersOf(u.tasks, k);
      KeyAfterLeave(s, t, u, k);
      if s.tasks[other].lock == s.tasks[t].lock {
        assert k == s.tasks[t].key;
      }
    }
  }

  lemma LeaveKeepsLocks(s: System, t: TaskId, u: System)
    requires LockInv(s) && HasLeft(s, t, u)
    ensures LockInv(u)
  {
    forall k ensures KeyOk(u, k) {
      KeyAfterLeave(s, t, u, k);
    }
    forall other ensures TaskOk(u, other) {
      TaskAfterLeave(s, t, u, other);
    }
  }

  lemma UsersGrow(tasks: map<TaskId, Task>, t: TaskId, task: Task)
    requires t !in tasks && task.Inside()
    ensures UsersOf(tasks[t := task], task.key) == UsersOf(tasks, task.key) + {t}
    ensures |UsersOf(tasks[t := task], task.key)| == |UsersOf(tasks, task.key)| + 1
  {
    assert UsersOf(tasks[t := task], task.key) == UsersOf(tasks, task.key) + {t};
  }

  lemma EnterKeepsItsKey(s: System, t: TaskId, task: Task, u: System)
    requires KeyOk(s, task.key) && t !in s.tasks && task.lock == Entering(s.locks, task.key) && task.phase == Waiting
    requires u == s.(locks := EnterLocks(s.locks, task.key), tasks := s.tasks[t := task])
    ensures KeyOk(u, task.key)
  {
    UsersGrow(s.tasks, t, task);
    assert t in UsersOf(u.tasks, task.key);
  }

  lemma EnterKeepsOtherKey(s: System, t: TaskId, task: Task, u: System, k: Key)
    requires LockInv(s) && t !in s.tasks && task.lock == Entering(s.locks, task.key) && task.phase == Waiting
    requires u == s.(locks := EnterLocks(s.locks, task.key), tasks := s.tasks[t := task])
    requires k != task.key
    ensures KeyOk(u, k)
  {
    assert KeyOk(s, k) && KeyOk(s, task.key);
    assert UsersOf(u.tasks, k) == UsersOf(s.tasks, k);
  }

  lemma EnterKeepsTask(s: System, step: Step, t: TaskId)
    requires LockInv(s) && step.Enter? && Enabled(s, step)
    ensures TaskOk(Next(s, step), t)
  {
    assert TaskOk(s, t) && KeyOk(s, step.key);
    if t in s.tasks && s.tasks[t].Inside() {
      assert KeyOk(s, s.tasks[t].key);
    }
  }

  lemma EnterKeepsLocks(s: System, step: Step)
    requires LockInv(s) && step.Enter? && Enabled(s, step)
    ensures LockInv(Next(s, step))
  {
    var u := Next(s, step);
    forall k ensures KeyOk(u, k) {
      if k == step.key {
        assert KeyOk(s, k);
        EnterKeepsItsKey(s, step.t, u.tasks[step.t], u);
      } else {
        EnterKeepsOtherKey(s, step.t, u.tasks[step.t], u, k);
      }
    }
    forall t ensures TaskOk(u, t) {
      EnterKeepsTask(s, step, t);
    }
    forall k, k' | k in u.locks.table && k' in u.locks.table && k != k' ensures u.locks.table[k] != u.locks.table[k'] {
      assert KeyOk(s, k) && KeyOk(s, k');
    }
  }

  lemma AcquireKeepsLocks(s: System, t: TaskId)
    requires LockInv(s) && Enabled(s, Acquire(t))
    ensures LockInv(Next(s, Acquire(t)))
  {
    var u := Next(s, Acquire(t));
    assert TaskOk(s, t) && KeyOk(s, s.tasks[t].key);
    forall k ensures KeyOk(u, k) {
      assert KeyOk(s, k);
      assert UsersOf(u.tasks, k) == UsersOf(s.tasks, k);
    }
    forall t' ensures TaskOk(u, t') {
      assert TaskOk(s, t');
    }
  }

  // A task that moves on without entering or leaving its lock.
  lemma PhaseKeepsLocks(s: System, u: System, t: TaskId)
    requires LockInv(s) && t in s.tasks && u.locks == s.locks
    requires u.tasks - {t} == s.tasks - {t}
    requires t in u.tasks ==> u.tasks[t].key == s.tasks[t].key && u.tasks[t].lock == s.tasks[t].lock
    requires (t in u.tasks && u.tasks[t].Inside()) == s.tasks[t].Inside()
    requires t in u.tasks ==> u.tasks[t].HoldsLock() == s.tasks[t].HoldsLock()
    ensures LockInv(u)
  {
    assert forall t' :: t' != t ==> (t' in u.tasks <==> t' in (u.tasks - {t}));
    assert forall t' :: t' != t ==> (t' in s.tasks <==> t' in (s.tasks - {t}));
    assert forall t' :: t' != t && t' in u.tasks ==> u.tasks[t'] == (u.tasks - {t})[t'] == (s.tasks - {t})[t'] == s.tasks[t'];
    forall k ensures KeyOk(u, k) {
      assert KeyOk(s, k);
      assert UsersOf(u.tasks, k) == UsersOf(s.tasks, k);
    }
    forall t' ensures TaskOk(u, t') {
      assert TaskOk(s, t');
    }
  }

  lemma LocksKept(s: System, step: Step)
    requires LockInv(s) && Enabled(s, step)
    ensures LockInv(Next(s, step))
  {
    var u := Next(s, step);
    match step
    case Enter(t, key, mode, byId) =>
      EnterKeepsLocks(s, step);
    case Acquire(t) =>
      AcquireKeepsLocks(s, t);
    case Leave(t) =>
      LeaveKeepsLocks(s, t, u);
    case Abandon(t) =>
      LeaveKeepsLocks(s, t, u);
    case Return(t) =>
      LeaveKeepsLocks(s, t, u);
    case Resolve(t) =>
      PhaseKeepsLocks(s, u, t);
    case Check(t) =>
      PhaseKeepsLocks(s, u, t);
    case Insert(t, _) =>
      PhaseKeepsLocks(s, u, t);
    case TakeCheckpoint(t) =>
      PhaseKeepsLocks(s, u, t);
    case DestroyOwn(t) =>
      PhaseKeepsLocks(s, u, t);
    case Die(t) =>
      PhaseKeepsLocks(s, u, t);
    case Restart =>
      assert forall k :: UsersOf(u.tasks, k) == {};
    case _ =>
      SameLocks(s, u);
  }

  lemma SameLocks(s: System, u: System)
    requires LockInv(s) && u.locks == s.locks && u.tasks == s.tasks
    ensures LockInv(u)
  {
    forall k ensures KeyOk(u, k) {
      assert KeyOk(s, k);
    }
    forall t ensures TaskOk(u, t) {
      assert TaskOk(s, t);
    }
  }

  // ---- the table, changed in place ----

  /**
    The table of locks. While it is valid, all tasks inside a label share the table's one entry,
    which counts them, one of them at most holds its lock, and an idle label has no entry.
   */
  class LabelLocks {
    var table: map<Key, LockId>
    var heap: map<LockId, Entry>
    var nextLock: LockId
    ghost var tasks: map<TaskId, Task>  // those inside a label

    ghost function View(): System
      reads this
    {
      System(Locks(table, heap, nextLock), tasks, [], {}, map[])
    }

    ghost predicate Valid()
      reads this
    {
      LockInv(View())
    }

    constructor ()
      ensures Valid() && tasks == map[] && table == map[]
    {
      table, heap, nextLock, tasks := map[], map[], 0, map[];
      new;
      assert forall k :: UsersOf(tasks, k) == {};
    }

    /** Up to the acquisition: the entry the others inside the label have, or a new one if there are none. */
    method Enter(k: Key, ghost t: TaskId) returns (lock: LockId)
      requires Valid() && t !in tasks
      modifies this
      ensures Valid() && tasks == old(tasks)[t := Task(k, Shared, None, lock, Waiting)]
      ensures forall u :: u in UsersOf(old(tasks), k) ==> old(tasks)[u].lock == lock
      ensures UsersOf(old(tasks), k) == {} ==> lock !in old(table).Values
      ensures lock in heap && heap[lock].users == |UsersOf(tasks, k)| && table == old(table)[k := lock]
    {
      ghost var was := View();
      assert KeyOk(was, k);
      forall u | u in UsersOf(tasks, k) ensures k in table && tasks[u].lock == table[k] {
        assert TaskOk(was, u);
      }
      forall other | other in table ensures table[other] < nextLock {
        assert KeyOk(was, other);
      }
      if k !in table {
        table := table[k := nextLock];
        heap := heap[nextLock := Entry(0, None)];
        nextLock := nextLock + 1;
      }
      lock := table[k];
      heap := heap[lock := heap[lock].(users := heap[lock].users + 1)];
      tasks := tasks[t := Task(k, Shared, None, lock, Waiting)];
      assert table == was.locks.table[k := lock];
      assert View() == Next(was, Step.Enter(t, k, Shared, None));
      EnterKeepsLocks(was, Step.Enter(t, k, Shared, None));
      assert KeyOk(View(), k);
    }

    /** The entry's lock is free: its new holder is the only one inside the label to hold it. */
    method Acquire(lock: LockId, t: TaskId)
      requires Valid() && t in tasks && tasks[t].phase == Waiting && tasks[t].lock == lock
      requires EntryOf(View().locks, lock).holder.None?
      modifies this
      ensures Valid() && tasks == old(tasks)[t := old(tasks)[t].(phase := Locked)] && table == old(table)
      ensures forall u :: u in UsersOf(tasks, tasks[t].key) && tasks[u].HoldsLock() <==> u == t
    {
      ghost var was := View();
      assert TaskOk(was, t) && KeyOk(was, tasks[t].key);
      heap := heap[lock := heap[lock].(holder := Some(t))];
      tasks := tasks[t := tasks[t].(phase := Locked)];
      assert View() == Next(was, Step.Acquire(t));
      AcquireKeepsLocks(was, t);
      forall u | u in UsersOf(tasks, tasks[t].key) && tasks[u].HoldsLock() ensures u == t {
        assert TaskOk(View(), u) && TaskOk(View(), t);
      }
    }

    /** The `finally` of the entry: the last one out of a label takes its entry along. */
    method Leave(k: Key, lock: LockId, t: TaskId)
      requires Valid() && t in tasks && tasks[t].Inside() && tasks[t].key == k && tasks[t].lock == lock
      modifies this
      ensures Valid() && tasks == old(tasks) - {t}
      ensures table == if UsersOf(tasks, k) == {} then old(table) - {k} else old(table)
      ensures k in table ==> table[k] == lock && lock in heap && heap[lock].users == |UsersOf(tasks, k)|
      ensures lock in heap && heap[lock].holder != Some(t)
    {
      ghost var was := View();
      assert TaskOk(was, t) && KeyOk(was, k);
      if heap[lock].holder == Some(t) {
        heap := heap[lock := heap[lock].(holder := None)];
      }
      heap := heap[lock := heap[lock].(users := heap[lock].users - 1)];
      if heap[lock].users == 0 && k in table && table[k] == lock {
        table := table - {k};
      }
      tasks := tasks - {t};
      assert View().locks == LeaveLocks(was.locks, k, lock, t);
      LeaveKeepsLocks(was, t, View());
      assert KeyOk(View(), k);
    }
  }

  // ---- admission ----

  // what a task remembers of the checkpoint it forks
  function HeadOf(phase: Phase): Option<CheckpointId> {
    match phase
    case Resolved(head) => Some(head)
    case Admitted(head) => Some(head)
    case Inserted(head, _) => Some(head)
    case _ => None
  }

  predicate Labelled(s: System, i: CheckpointId, k: Key) {
    i < |s.checkpoints| && s.checkpoints[i].key == Some(k)
  }

  ghost predicate Known(s: System) {
    && (forall i :: i in s.deleted ==> i < |s.checkpoints|)
    && (forall c :: c in s.computers && s.computers[c].source.Some? ==> s.computers[c].source.value < |s.checkpoints|)
    && TasksKnown(s)
  }

  ghost predicate TaskKnown(s: System, t: TaskId)
    requires t in s.tasks
  {
    && (s.tasks[t].byId.Some? ==> Labelled(s, s.tasks[t].byId.value, s.tasks[t].key))
    && (HeadOf(s.tasks[t].phase).Some? ==> Labelled(s, HeadOf(s.tasks[t].phase).value, s.tasks[t].key))
  }

  ghost predicate TasksKnown(s: System) {
    forall t :: t in s.tasks ==> TaskKnown(s, t)
  }

  // an exclusive fork that passed its check still has the label to itself
  ghost predicate AdmittedAlone(s: System) {
    forall t :: t in s.tasks && s.tasks[t].phase.Admitted? && s.tasks[t].mode != Shared ==> NoneActive(s, s.tasks[t].key)
  }

  ghost predicate Inv(s: System) {
    LockInv(s) && Known(s) && AdmittedAlone(s)
  }

  lemma {:induction false} NewestBelowIs(s: System, k: Key, n: nat)
    requires n <= |s.checkpoints|
    ensures NewestBelow(s, k, n).Some? ==>
              var i := NewestBelow(s, k, n).value;
              i < n && Carries(s, i, k) && forall j :: i < j < n ==> !Carries(s, j, k)
    ensures NewestBelow(s, k, n).None? ==> forall j :: 0 <= j < n ==> !Carries(s, j, k)
  {
    if n > 0 {
      NewestBelowIs(s, k, n - 1);
    }
  }

  lemma TaskKnownKept(s: System, step: Step, t: TaskId)
    requires Known(s) && Enabled(s, step) && t in Next(s, step).tasks
    ensures TaskKnown(Next(s, step), t)
  {
    if t in s.tasks {
      assert TaskKnown(s, t);
      if step == Resolve(t) {
        NewestBelowIs(s, s.tasks[t].key, |s.checkpoints|);
      }
    }
  }

  lemma TasksKnownKept(s: System, step: Step)
    requires Known(s) && Enabled(s, step)
    ensures TasksKnown(Next(s, step))
  {
    forall t | t in Next(s, step).tasks ensures TaskKnown(Next(s, step), t) {
      TaskKnownKept(s, step, t);
    }
  }

  lemma KnownKept(s: System, step: Step)
    requires Known(s) && Enabled(s, step)
    ensures Known(Next(s, step))
  {
    TasksKnownKept(s, step);
  }

  /**
    A fork by id gets the checkpoint it names; a fork by label the newest one that carries the
    label and still exists, and none when there is none.
   */
  lemma ResolvesTheNewest(s: System, t: TaskId)
    requires t in s.tasks && s.tasks[t].phase.Locked?
    ensures
      var k := s.tasks[t].key;
      var candidates := set i: nat | i < |s.checkpoints| && i !in s.deleted && s.checkpoints[i].key == Some(k);
      && (Enabled(s, Resolve(t)) <==> s.tasks[t].byId.Some? || candidates != {})
      && (Enabled(s, Resolve(t)) ==>
            var phase := Next(s, Resolve(t)).tasks[t].phase;
            && phase.Resolved?
            && (s.tasks[t].byId.Some? ==> phase.head == s.tasks[t].byId.value)
            && (s.tasks[t].byId.None? ==> phase.head in candidates && forall i :: i in candidates ==> i <= phase.head))
  {
    NewestBelowIs(s, s.tasks[t].key, |s.checkpoints|);
    var candidates := set i: nat | i < |s.checkpoints| && i !in s.deleted && s.checkpoints[i].key == Some(s.tasks[t].key);
    assert forall i: nat :: i in candidates <==> i < |s.checkpoints| && Carries(s, i, s.tasks[t].key);
    if Head(s, s.tasks[t].key).Some? {
      assert Head(s, s.tasks[t].key).value in candidates;
    }
  }

  /**
    An exclusive fork passes its check exactly when no running computer comes from a checkpoint
    that exists and carries the label; a shared one always.
   */
  lemma AdmitsExactly(s: System, t: TaskId)
    requires t in s.tasks && s.tasks[t].phase.Resolved?
    ensures
      Enabled(s, Check(t)) <==>
        || s.tasks[t].mode == Shared
        || forall c :: c in s.computers && s.computers[c].running && s.computers[c].source.Some? ==>
             var i := s.computers[c].source.value;
             i in s.deleted || i >= |s.checkpoints| || s.checkpoints[i].key != Some(s.tasks[t].key)
  {
    var k := s.tasks[t].key;
    if forall c :: c in s.computers ==> !Active(s, k, c) {
      assert NoneActive(s, k);
    } else {
      var c :| c in s.computers && Active(s, k, c);
      assert !NoneActive(s, k);
    }
  }

  /** A bring-up abandoned after its row was inserted leaves a stopped computer and nothing else. */
  lemma AbandonLeavesAStoppedRow(s: System, t: TaskId, c: ComputerId)
    requires Enabled(s, Insert(t, c))
    ensures
      var u := Next(Next(s, Insert(t, c)), Abandon(t));
      && u.computers == s.computers[c := Computer(Some(s.tasks[t].phase.head), false)]
      && u.tasks == s.tasks - {t} && u.checkpoints == s.checkpoints && u.deleted == s.deleted
      && u.locks == Next(s, Leave(t)).locks
  {
  }

  /** One task at a time is past the acquisition of a label's lock. */
  lemma OneHolderPerLabel(s: System, t: TaskId, t': TaskId)
    requires LockInv(s) && t in s.tasks && t' in s.tasks
    requires s.tasks[t].HoldsLock() && s.tasks[t'].HoldsLock() && s.tasks[t].key == s.tasks[t'].key
    ensures t == t'
  {
    assert TaskOk(s, t) && TaskOk(s, t');
  }

  // Only an insert makes a computer active, and only on the label it was admitted to.
  lemma ActivatedByInsert(s: System, step: Step, k: Key, c: ComputerId)
    requires Known(s) && Enabled(s, step) && Active(Next(s, step), k, c) && !Active(s, k, c)
    ensures step.Insert? && step.c == c && s.tasks[step.t].key == k
  {
  }

  lemma InvKept(s: System, step: Step)
    requires Inv(s) && Enabled(s, step)
    ensures Inv(Next(s, step))
  {
    LocksKept(s, step);
    KnownKept(s, step);
    var u := Next(s, step);
    forall t | t in u.tasks && u.tasks[t].phase.Admitted? && u.tasks[t].mode != Shared
      ensures NoneActive(u, u.tasks[t].key)
    {
      forall c ensures !Active(u, u.tasks[t].key, c) {
        if Active(u, u.tasks[t].key, c) && !Active(s, u.tasks[t].key, c) {
          ActivatedByInsert(s, step, u.tasks[t].key, c);
          OneHolderPerLabel(s, t, step.t);
        }
      }
    }
  }

  ghost predicate IsRun(s: System, steps: seq<Step>)
    decreases |steps|
  {
    steps == [] || (Enabled(s, steps[0]) && IsRun(Next(s, steps[0]), steps[1..]))
  }

  ghost function After(s: System, steps: seq<Step>): System
    requires IsRun(s, steps)
    decreases |steps|
  {
    if steps == [] then s else After(Next(s, steps[0]), steps[1..])
  }

  predicate Initial(s: System) {
    s == System(Locks(map[], map[], 0), map[], [], {}, map[])
  }

  lemma InitialInv(s: System)
    requires Initial(s)
    ensures Inv(s)
  {
    assert forall k :: UsersOf(s.tasks, k) == {};
  }

  lemma {:induction false} RunKeepsInv(s: System, steps: seq<Step>)
    requires Inv(s) && IsRun(s, steps)
    ensures Inv(After(s, steps))
    decreases |steps|
  {
    if steps != [] {
      InvKept(s, steps[0]);
      RunKeepsInv(Next(s, steps[0]), steps[1..]);
    }
  }

  /**
    Whatever else happens, when an exclusive fork's row is inserted no other computer the
    check can see is running on its account and label.
   */
  lemma ExclusiveAdmission(s: System, steps: seq<Step>, t: TaskId, c: ComputerId)
    requires Initial(s) && IsRun(s, steps)
    requires Enabled(After(s, steps), Insert(t, c)) && After(s, steps).tasks[t].mode != Shared
    ensures
      var before := After(s, steps);
      var k := before.tasks[t].key;
      NoneActive(before, k) && forall d :: Active(Next(before, Insert(t, c)), k, d) ==> d == c
  {
    InitialInv(s);
    RunKeepsInv(s, steps);
    var before := After(s, steps);
    forall d | Active(Next(before, Insert(t, c)), before.tasks[t].key, d) ensures d == c {
      if d != c {
        ActivatedByInsert(before, Insert(t, c), before.tasks[t].key, d);
      }
    }
  }

  /**
    The lock table over every run: all who hold or wait for a label share its one entry, the
    entry counts them exactly, one of them at most holds the lock, and an idle label has no entry.
   */
  lemma LockEntriesAreExact(s: System, steps: seq<Step>, k: Key)
    requires Initial(s) && IsRun(s, steps)
    ensures
      var u := After(s, steps);
      && (k in u.locks.table <==> UsersOf(u.tasks, k) != {})
      && (k in u.locks.table ==>
            && u.locks.table[k] in u.locks.heap
            && u.locks.heap[u.locks.table[k]].users == |UsersOf(u.tasks, k)|)
      && (forall t :: t in UsersOf(u.tasks, k) ==> k in u.locks.table && u.tasks[t].lock == u.locks.table[k])
      && (forall t, t' | t in UsersOf(u.tasks, k) && t' in UsersOf(u.tasks, k) ::
            u.tasks[t].HoldsLock() && u.tasks[t'].HoldsLock() ==> t == t')
  {
    InitialInv(s);
    RunKeepsInv(s, steps);
    var u := After(s, steps);
    assert KeyOk(u, k);
    forall t | t in UsersOf(u.tasks, k) ensures k in u.locks.table && u.tasks[t].lock == u.locks.table[k] {
      assert TaskOk(u, t);
    }
    forall t, t' | t in UsersOf(u.tasks, k) && t' in UsersOf(u.tasks, k) && u.tasks[t].HoldsLock() && u.tasks[t'].HoldsLock()
      ensures t == t'
    {
      OneHolderPerLabel(u, t, t');
    }
  }
}
