/**
  The SSH connection pool: one pooled connection per address, health-checked when idle, with
  an eviction that takes no lock. The code compares generation counters; the results here
  are about time, which the model keeps beside them.
 */
module SshPool {
  import opened Wrappers

  type Address = string
  type TaskId = nat
  type ConnId = nat

  // begun is when its connect started
  datatype Conn = Conn(id: ConnId, begun: nat)

  datatype Phase =
    | Waiting                              // for the address's lock
    | Probing(pooled: Conn, seenGen: nat)  // lock held, health check in flight
    | Connecting(gen: nat, begun: nat)     // lock held, connect in flight

  datatype Task = Task(ip: Address, phase: Phase)

  datatype Pool = Pool(
    conns: map<Address, Conn>, gen: map<Address, nat>, locks: map<Address, TaskId>, tasks: map<TaskId, Task>,
    // what happened: the clock, when each address was last evicted, and what the pool has closed
    now: nat, evicted: map<Address, nat>, closed: set<ConnId>, nextConn: ConnId)

  datatype Step =
    | Ask(t: TaskId, ip: Address)
    | TakeRecent(t: TaskId)                 // lock acquired, pooled and used a moment ago
    | StartProbe(t: TaskId)                 // lock acquired, pooled but idle
    | StartConnect(t: TaskId)               // lock acquired, nothing pooled
    | ProbeReturns(t: TaskId, healthy: bool)
    | ConnectReturns(t: TaskId)
    | GiveUp(t: TaskId)                     // cancelled, or the connect failed
    | Evict(ip: Address)                    // teardown's, or exec's on the connection that failed it

  function GenOf(p: Pool, ip: Address): nat {
    if ip in p.gen then p.gen[ip] else 0
  }

  // since the address was last evicted, or since ever
  predicate SinceEviction(p: Pool, ip: Address, time: nat) {
    ip in p.evicted ==> time > p.evicted[ip]
  }

  predicate InPhase(p: Pool, t: TaskId, waiting: bool) {
    t in p.tasks && p.tasks[t].phase.Waiting? == waiting
  }

  predicate Enabled(p: Pool, step: Step) {
    match step
    case Ask(t, _) => t !in p.tasks
    case TakeRecent(t) => InPhase(p, t, true) && p.tasks[t].ip !in p.locks && p.tasks[t].ip in p.conns
    case StartProbe(t) => InPhase(p, t, true) && p.tasks[t].ip !in p.locks && p.tasks[t].ip in p.conns
    case StartConnect(t) => InPhase(p, t, true) && p.tasks[t].ip !in p.locks && p.tasks[t].ip !in p.conns
    case ProbeReturns(t, _) => t in p.tasks && p.tasks[t].phase.Probing?
    case ConnectReturns(t) => t in p.tasks && p.tasks[t].phase.Connecting?
    case GiveUp(t) => t in p.tasks
    case Evict(_) => true
  }

  // The connection `_pooled` hands its caller in this step, if it does.
  function Returned(p: Pool, step: Step): Option<Conn>
    requires Enabled(p, step)
  {
    match step
    case TakeRecent(t) => Some(p.conns[p.tasks[t].ip])
    case ProbeReturns(t, healthy) =>
      if healthy && GenOf(p, p.tasks[t].ip) == p.tasks[t].phase.seenGen then Some(p.tasks[t].phase.pooled) else None
    case ConnectReturns(t) =>
      if GenOf(p, p.tasks[t].ip) == p.tasks[t].phase.gen then Some(Conn(p.nextConn, p.tasks[t].phase.begun)) else None
    case _ => None
  }

  function Leave(p: Pool, t: TaskId): Pool
    requires t in p.tasks
  {
    p.(tasks := p.tasks - {t}, locks := if p.tasks[t].phase.Waiting? then p.locks else p.locks - {p.tasks[t].ip})
  }

  function Hold(p: Pool, t: TaskId, phase: Phase): Pool
    requires t in p.tasks
  {
    p.(tasks := p.tasks[t := p.tasks[t].(phase := phase)], locks := p.locks[p.tasks[t].ip := t])
  }

  function Act(p: Pool, step: Step): Pool
    requires Enabled(p, step)
  {
    match step
    case Ask(t, ip) => p.(tasks := p.tasks[t := Task(ip, Waiting)])
    case TakeRecent(t) => Leave(p, t)
    case StartProbe(t) =>
      var ip := p.tasks[t].ip;
      Hold(p, t, Probing(p.conns[ip], GenOf(p, ip)))
    case StartConnect(t) => Hold(p, t, Connecting(GenOf(p, p.tasks[t].ip), p.now))
    case ProbeReturns(t, healthy) =>
      var ip, pooled := p.tasks[t].ip, p.tasks[t].phase.pooled;
      if Returned(p, step).Some? then Leave(p, t)
      else
        // only our own entry is dropped: evict may have popped it meanwhile
        Hold(p, t, Connecting(GenOf(p, ip), p.now)).(
          closed := p.closed + {pooled.id},
          conns := if ip in p.conns && p.conns[ip] == pooled then p.conns - {ip} else p.conns)
    case ConnectReturns(t) =>
      var ip := p.tasks[t].ip;
      var q := Leave(p, t).(nextConn := p.nextConn + 1);
      if Returned(p, step).Some? then q.(conns := p.conns[ip := Returned(p, step).value])
      else q.(closed := p.closed + {p.nextConn})
    case GiveUp(t) => Leave(p, t)
    case Evict(ip) =>
      p.(gen := p.gen[ip := GenOf(p, ip) + 1], evicted := p.evicted[ip := p.now],
         closed := if ip in p.conns then p.closed + {p.conns[ip].id} else p.closed,
         conns := p.conns - {ip})
  }

  // every step takes time
  function Next(p: Pool, step: Step): Pool
    requires Enabled(p, step)
  {
    Act(p, step).(now := p.now + 1)
  }

  // ---- the invariant ----

  ghost predicate ConnOk(p: Pool, ip: Address) {
    ip in p.conns ==>
      && SinceEviction(p, ip, p.conns[ip].begun)
      && p.conns[ip].id !in p.closed && p.conns[ip].id < p.nextConn
  }

  // The generation stands exactly while what a task is probing is still pooled, and what it is
  // connecting is newer than the last eviction.
  ghost predicate TaskOk(p: Pool, t: TaskId) {
    t in p.tasks ==>
      var Task(ip, phase) := p.tasks[t];
      && (!phase.Waiting? ==> ip in p.locks && p.locks[ip] == t)
      && (phase.Probing? ==>
            && phase.seenGen <= GenOf(p, ip) && phase.pooled.id < p.nextConn
            && (ip in p.conns ==> p.conns[ip] == phase.pooled)
            && (phase.seenGen == GenOf(p, ip) <==> ip in p.conns))
      && (phase.Connecting? ==>
            && phase.gen <= GenOf(p, ip) && ip !in p.conns && phase.begun < p.now
            && (phase.gen == GenOf(p, ip) <==> SinceEviction(p, ip, phase.begun)))
  }

  ghost predicate Inv(p: Pool) {
    && (forall ip :: ip in p.conns ==> ConnOk(p, ip))
    && (forall t :: t in p.tasks ==> TaskOk(p, t))
    && (forall ip :: ip in p.locks ==> LockOk(p, ip))
    && Books(p)
  }

  ghost predicate LockOk(p: Pool, ip: Address) {
    ip in p.locks ==>
      p.locks[ip] in p.tasks && p.tasks[p.locks[ip]].ip == ip && !p.tasks[p.locks[ip]].phase.Waiting?
  }

  ghost predicate Books(p: Pool) {
    && (forall ip :: ip in p.evicted ==> p.evicted[ip] < p.now)
    && (forall id :: id in p.closed ==> id < p.nextConn)
    && (forall ip, ip' :: ip in p.conns && ip' in p.conns && ip != ip' ==> p.conns[ip].id != p.conns[ip'].id)
  }

  // Two addresses never share a connection, pooled or under probe.
  ghost predicate ProbesApart(p: Pool) {
    forall t, ip :: t in p.tasks && p.tasks[t].phase.Probing? && ip in p.conns && ip != p.tasks[t].ip ==>
      p.conns[ip].id != p.tasks[t].phase.pooled.id
  }

  lemma EvictKeepsTask(p: Pool, ip: Address, t: TaskId)
    requires Inv(p)
    ensures TaskOk(Next(p, Evict(ip)), t)
  {
    assert t in p.tasks ==> TaskOk(p, t);
  }

  // a task is fine while what it knows of its own address stands
  lemma TaskUndisturbed(p: Pool, q: Pool, t: TaskId)
    requires TaskOk(p, t) && t in p.tasks && t in q.tasks && q.tasks[t] == p.tasks[t]
    requires p.nextConn <= q.nextConn && p.now <= q.now
    requires
      var ip := p.tasks[t].ip;
      && (ip in q.conns <==> ip in p.conns) && (ip in p.conns ==> q.conns[ip] == p.conns[ip])
      && GenOf(q, ip) == GenOf(p, ip) && (SinceEviction(p, ip, 0) ==> SinceEviction(q, ip, 0))
      && (ip in q.evicted <==> ip in p.evicted) && (ip in p.evicted ==> q.evicted[ip] == p.evicted[ip])
      && (ip in p.locks && p.locks[ip] == t ==> ip in q.locks && q.locks[ip] == t)
    ensures TaskOk(q, t)
  {
  }

  lemma OtherTaskStays(p: Pool, step: Step, t: TaskId)
    requires Enabled(p, step) && !step.Evict? && step.t != t
    ensures
      var q := Next(p, step);
      (t in q.tasks <==> t in p.tasks) && (t in p.tasks ==> q.tasks[t] == p.tasks[t])
  {
  }

  // only the holder of an address's lock changes what is pooled there
  lemma OtherConnStays(p: Pool, step: Step, ip: Address)
    requires Enabled(p, step) && !step.Evict? && (step.t in p.tasks ==> p.tasks[step.t].ip != ip)
    ensures
      var q := Next(p, step);
      && (ip in q.conns <==> ip in p.conns) && (ip in p.conns ==> q.conns[ip] == p.conns[ip])
      && q.gen == p.gen && q.evicted == p.evicted && p.nextConn <= q.nextConn && p.now <= q.now
  {
  }

  lemma OtherLockStays(p: Pool, step: Step, ip: Address)
    requires Enabled(p, step) && !step.Evict? && (step.t in p.tasks ==> p.tasks[step.t].ip != ip)
    ensures
      var q := Next(p, step);
      (ip in q.locks <==> ip in p.locks) && (ip in p.locks ==> q.locks[ip] == p.locks[ip])
  {
  }

  lemma OtherAddressKept(p: Pool, step: Step, t: TaskId)
    requires TaskOk(p, t) && Enabled(p, step) && !step.Evict? && step.t != t && t in p.tasks
    requires step.t in p.tasks ==> p.tasks[step.t].ip != p.tasks[t].ip
    ensures TaskOk(Next(p, step), t)
  {
    OtherTaskStays(p, step, t);
    OtherConnStays(p, step, p.tasks[t].ip);
    OtherLockStays(p, step, p.tasks[t].ip);
    TaskUndisturbed(p, Next(p, step), t);
  }

  lemma OtherTaskKept(p: Pool, step: Step, t: TaskId)
    requires Inv(p) && Enabled(p, step) && !step.Evict? && step.t != t
    ensures TaskOk(Next(p, step), t)
  {
    OtherTaskStays(p, step, t);
    if t in p.tasks && !p.tasks[t].phase.Waiting? {
      assert TaskOk(p, t);
      if step.t in p.tasks && p.tasks[step.t].ip == p.tasks[t].ip {
        SameAddressWaits(p, step, t);
      } else {
        OtherAddressKept(p, step, t);
      }
    }
  }

  // another task of the address can only be waiting, and can only give up
  lemma SameAddressWaits(p: Pool, step: Step, t: TaskId)
    requires Inv(p) && Enabled(p, step) && !step.Evict? && step.t != t && t in p.tasks && step.t in p.tasks
    requires p.tasks[step.t].ip == p.tasks[t].ip && !p.tasks[t].phase.Waiting?
    ensures step.GiveUp? && p.tasks[step.t].phase.Waiting? && TaskOk(Next(p, step), t)
  {
    assert TaskOk(p, t) && TaskOk(p, step.t);
  }

  lemma OwnTaskKept(p: Pool, step: Step)
    requires Inv(p) && Enabled(p, step) && !step.Evict?
    ensures TaskOk(Next(p, step), step.t)
  {
    if step.t in p.tasks {
      assert TaskOk(p, step.t);
      assert p.tasks[step.t].ip in p.conns ==> ConnOk(p, p.tasks[step.t].ip);
    }
  }

  lemma StepKeepsTask(p: Pool, step: Step, t: TaskId)
    requires Inv(p) && Enabled(p, step)
    ensures TaskOk(Next(p, step), t)
  {
    if step.Evict? {
      EvictKeepsTask(p, step.ip, t);
    } else if step.t == t {
      OwnTaskKept(p, step);
    } else {
      OtherTaskKept(p, step, t);
    }
  }

  lemma StepKeepsConn(p: Pool, step: Step, ip: Address)
    requires Inv(p) && ProbesApart(p) && Enabled(p, step)
    ensures ConnOk(Next(p, step), ip)
  {
    assert ConnOk(p, ip);
    if !step.Evict? && step.t in p.tasks {
      assert TaskOk(p, step.t);
    }
  }

  lemma StepKeepsApart(p: Pool, step: Step)
    requires Inv(p) && ProbesApart(p) && Enabled(p, step)
    ensures ProbesApart(Next(p, step))
  {
    forall t | t in p.tasks ensures TaskOk(p, t) {
    }
    forall ip | ip in p.conns ensures ConnOk(p, ip) {
    }
  }

  lemma StepKeepsLock(p: Pool, step: Step, ip: Address)
    requires Inv(p) && Enabled(p, step)
    ensures LockOk(Next(p, step), ip)
  {
    assert LockOk(p, ip);
    if !step.Evict? && step.t in p.tasks {
      assert TaskOk(p, step.t);
    }
  }

  lemma StepKeepsBooks(p: Pool, step: Step)
    requires Inv(p) && Enabled(p, step)
    ensures Books(Next(p, step))
  {
    assert forall ip :: ip in p.conns ==> ConnOk(p, ip);
    if !step.Evict? && step.t in p.tasks {
      assert TaskOk(p, step.t);
    }
  }

  lemma StepKeepsInv(p: Pool, step: Step)
    requires Inv(p) && ProbesApart(p) && Enabled(p, step)
    ensures Inv(Next(p, step)) && ProbesApart(Next(p, step))
  {
    var q := Next(p, step);
    forall t | t in q.tasks ensures TaskOk(q, t) {
      StepKeepsTask(p, step, t);
    }
    forall ip | ip in q.conns ensures ConnOk(q, ip) {
      StepKeepsConn(p, step, ip);
    }
    forall ip | ip in q.locks ensures LockOk(q, ip) {
      StepKeepsLock(p, step, ip);
    }
    StepKeepsApart(p, step);
    StepKeepsBooks(p, step);
  }

  predicate IsRun(p: Pool, steps: seq<Step>)
    decreases |steps|
  {
    steps == [] || (Enabled(p, steps[0]) && IsRun(Next(p, steps[0]), steps[1..]))
  }

  function After(p: Pool, steps: seq<Step>): Pool
    requires IsRun(p, steps)
    decreases |steps|
  {
    if steps == [] then p else After(Next(p, steps[0]), steps[1..])
  }

  const EMPTY := Pool(map[], map[], map[], map[], 0, map[], {}, 0)

  lemma {:induction false} RunKeepsInv(p: Pool, steps: seq<Step>)
    requires Inv(p) && ProbesApart(p) && IsRun(p, steps)
    ensures Inv(After(p, steps)) && ProbesApart(After(p, steps))
    decreases |steps|
  {
    if steps != [] {
      StepKeepsInv(p, steps[0]);
      RunKeepsInv(Next(p, steps[0]), steps[1..]);
    }
  }

  /** A pooled connection was begun after its address was last evicted, and is open. */
  lemma PooledIsFresh(steps: seq<Step>, ip: Address)
    requires IsRun(EMPTY, steps)
    ensures
      var p := After(EMPTY, steps);
      ip in p.conns ==> SinceEviction(p, ip, p.conns[ip].begun) && p.conns[ip].id !in p.closed
  {
    RunKeepsInv(EMPTY, steps);
    assert ConnOk(After(EMPTY, steps), ip);
  }

  /**
    A connection handed to a caller was begun after its address was last evicted, however
    evictions fell between its awaits, and the pool has not closed it.
   */
  lemma ReturnedIsFresh(steps: seq<Step>, step: Step)
    requires IsRun(EMPTY, steps) && Enabled(After(EMPTY, steps), step)
    requires Returned(After(EMPTY, steps), step).Some?
    ensures
      var p := After(EMPTY, steps);
      var conn := Returned(p, step).value;
      SinceEviction(p, p.tasks[step.t].ip, conn.begun) && conn.id !in p.closed
  {
    RunKeepsInv(EMPTY, steps);
    var p := After(EMPTY, steps);
    assert TaskOk(p, step.t);
    if p.tasks[step.t].ip in p.conns {
      assert ConnOk(p, p.tasks[step.t].ip);
    }
  }

  /**
    A probed connection is used again exactly when it is healthy and still pooled. A finished
    connect is pooled and handed out exactly when its address was not evicted since it began;
    else it is closed.
   */
  lemma ReturnedUnlessEvicted(steps: seq<Step>, step: Step)
    requires IsRun(EMPTY, steps) && Enabled(After(EMPTY, steps), step)
    ensures
      var p := After(EMPTY, steps);
      var q := Next(p, step);
      && (step.ProbeReturns? ==>
            var ip := p.tasks[step.t].ip;
            var reused := step.healthy && ip in p.conns;
            && Returned(p, step) == (if reused then Some(p.tasks[step.t].phase.pooled) else None)
            && q.conns == (if reused then p.conns else p.conns - {ip})
            && (!reused ==> p.tasks[step.t].phase.pooled.id in q.closed && step.t in q.tasks && q.tasks[step.t].phase.Connecting?))
      && (step.ConnectReturns? ==>
            var Task(ip, phase) := p.tasks[step.t];
            if ip in p.evicted && phase.begun <= p.evicted[ip] then
              Returned(p, step).None? && q.conns == p.conns && p.nextConn in q.closed
            else
              && Returned(p, step) == Some(Conn(p.nextConn, phase.begun)) && p.nextConn !in q.closed
              && q.conns == p.conns[ip := Conn(p.nextConn, phase.begun)])
  {
    RunKeepsInv(EMPTY, steps);
    var p := After(EMPTY, steps);
    if step.ProbeReturns? || step.ConnectReturns? {
      assert TaskOk(p, step.t);
      var ip := p.tasks[step.t].ip;
      if ip !in p.conns {
        assert p.conns - {ip} == p.conns;
      }
    }
  }

  // ---- no connection is lost ----

  ghost predicate Pooled(p: Pool, id: ConnId) {
    exists ip :: ip in p.conns && p.conns[ip].id == id
  }

  ghost predicate Accounted(p: Pool) {
    forall id: ConnId :: id < p.nextConn ==> Pooled(p, id) || id in p.closed
  }

  // what stays in the pool, or is closed as it leaves
  lemma StillAccounted(p: Pool, step: Step, id: ConnId)
    requires Inv(p) && Enabled(p, step) && (Pooled(p, id) || id in p.closed)
    ensures Pooled(Next(p, step), id) || id in Next(p, step).closed
  {
    if id !in p.closed {
      var ip :| ip in p.conns && p.conns[ip].id == id;
      if !step.Evict? && step.t in p.tasks {
        assert TaskOk(p, step.t);
      }
      var q := Next(p, step);
      assert (ip in q.conns && q.conns[ip].id == id) || id in q.closed;
    }
  }

  lemma {:induction false} RunAccounts(p: Pool, steps: seq<Step>)
    requires Inv(p) && ProbesApart(p) && Accounted(p) && IsRun(p, steps)
    ensures Accounted(After(p, steps))
    decreases |steps|
  {
    if steps != [] {
      var q := Next(p, steps[0]);
      StepKeepsInv(p, steps[0]);
      forall id: ConnId | id < q.nextConn ensures Pooled(q, id) || id in q.closed {
        if id < p.nextConn {
          StillAccounted(p, steps[0], id);
        } else {
          NewAccounted(p, steps[0]);
        }
      }
      RunAccounts(q, steps[1..]);
    }
  }

  lemma NewAccounted(p: Pool, step: Step)
    requires Enabled(p, step) && step.ConnectReturns?
    ensures Pooled(Next(p, step), p.nextConn) || p.nextConn in Next(p, step).closed
  {
    var q := Next(p, step);
    if Returned(p, step).Some? {
      assert p.tasks[step.t].ip in q.conns && q.conns[p.tasks[step.t].ip].id == p.nextConn;
    }
  }

  /** Every connection the pool ever made is pooled or closed, one of the two. */
  lemma NoConnectionLeaks(steps: seq<Step>, id: ConnId)
    requires IsRun(EMPTY, steps)
    ensures
      var p := After(EMPTY, steps);
      id < p.nextConn ==> (Pooled(p, id) <==> id !in p.closed)
  {
    RunKeepsInv(EMPTY, steps);
    RunAccounts(EMPTY, steps);
    var p := After(EMPTY, steps);
    if ip :| ip in p.conns && p.conns[ip].id == id {
      assert ConnOk(p, ip);
    }
  }

  /** At most one task per address is probing or connecting for the pool. */
  lemma OneConnectInFlight(steps: seq<Step>, t: TaskId, t': TaskId)
    requires IsRun(EMPTY, steps)
    requires InPhase(After(EMPTY, steps), t, false) && InPhase(After(EMPTY, steps), t', false)
    requires After(EMPTY, steps).tasks[t].ip == After(EMPTY, steps).tasks[t'].ip
    ensures t == t'
  {
    RunKeepsInv(EMPTY, steps);
    var p := After(EMPTY, steps);
    assert TaskOk(p, t) && TaskOk(p, t');
  }
}
