/**
  The membrane, its state changed in place. A Membrane is valid when a run of commands led to it,
  so every theorem about runs is one about it; each method says what it does to the queue, the
  log and the pending turn.
 */
module Membranes {
  import opened Wrappers
  import opened Json
  import opened Common
  import opened Turn
  import opened TurnRuns

  // ---- what the steps do ----

  lemma BegunOrQueued(m: Machine, hand: seq<Arrival>, n: Machine)
    requires Order(m, hand) && Order(n, []) && n.log.accepted == m.log.accepted
    ensures n.log.started + n.state.queue == m.log.started + hand + m.state.queue
  {
    assert n.log.started + [] + n.state.queue == n.log.started + n.state.queue;
  }

  // what a turn from this principal takes of the inbox and of memory
  predicate Takes(principal: string, all: seq<InboxItem>, recalled: seq<string>,
                  drained: seq<InboxItem>, left: seq<InboxItem>, recalls: seq<string>) {
    if principal == "anonymous" then drained == [] && left == all && recalls == []
    else drained == all && left == [] && recalls == recalled
  }

  // the window's exchanges, oldest first, each as what came in and what was answered
  predicate RetoldBy(messages: seq<Message>, window: seq<Exchange>) {
    && |messages| == 2 * |window|
    && forall i :: 0 <= i < |window| ==>
         && messages[2 * i] == Past(window[i].arrival.principal, window[i].arrival.door, window[i].arrival.message)
         && messages[2 * i + 1] == Replied(window[i].reply)
  }

  // The turn's first messages: the window, then the turn itself with what it takes of the inbox.
  predicate Composes(m: Machine, a: Arrival, e: StartEnv, p: Pending, left: seq<InboxItem>) {
    && |p.messages| == 2 * |m.state.window| + 1
    && RetoldBy(p.messages[..2 * |m.state.window|], m.state.window)
    && var now := p.messages[2 * |m.state.window|];
      && now.Now? && now == Now(m.state.turn + 1, a, p.drained, now.recalled)
      && Takes(a.principal, m.state.inbox + e.polled, e.recalled, p.drained, left, now.recalled)
  }

  // the turn has begun, and its first request is what has been posted
  predicate Begins(m: Machine, a: Arrival, e: StartEnv, n: Machine) {
    && n.state.pending.Some?
    && var p, turn := n.state.pending.value, m.state.turn + 1;
      && Composes(m, a, e, p, n.state.inbox)
      && p == Pending(turn, a, p.messages, e.tools, Some(m.jobs), [], 1, [e.effort], 1, p.drained, [])
      && n.state == m.state.(turn := turn, inbox := n.state.inbox, pending := Some(p))
      && n.log == m.log.(started := m.log.started + [a], added := m.log.added + e.polled,
                         requests := m.log.requests + [Request(turn, m.jobs, p.messages, e.tools)])
  }

  lemma {:induction false} HistoryRetells(window: seq<Exchange>)
    ensures RetoldBy(HistoryFrom(window), window)
  {
    if window != [] {
      HistoryRetells(window[1..]);
      var rest := HistoryFrom(window[1..]);
      forall i | 0 <= i < |window|
        ensures HistoryFrom(window)[2 * i] == Past(window[i].arrival.principal, window[i].arrival.door, window[i].arrival.message)
        ensures HistoryFrom(window)[2 * i + 1] == Replied(window[i].reply)
      {
        if i > 0 {
          assert rest[2 * (i - 1)] == HistoryFrom(window)[2 * i] && rest[2 * (i - 1) + 1] == HistoryFrom(window)[2 * i + 1];
          assert window[1..][i - 1] == window[i];
        }
      }
    }
  }

  lemma OpenedComposes(m: Machine, a: Arrival, e: StartEnv)
    requires m.state.pending.None? && |m.state.window| <= WINDOW
    ensures Composes(m, a, e, Opened(m, a, e).state.pending.value, Opened(m, a, e).state.inbox)
  {
    var p := Opened(m, a, e).state.pending.value;
    HistoryRetells(m.state.window);
    assert p.messages[..2 * |m.state.window|] == HistoryFrom(m.state.window);
  }

  lemma OpenedBegins(m: Machine, a: Arrival, env: Env)
    requires m.state.pending.None? && |m.state.window| <= WINDOW && env.start(m.state.turn + 1).posted
    ensures Begins(m, a, env.start(m.state.turn + 1), StartTurn(m, a, env))
  {
    var e := env.start(m.state.turn + 1);
    OpenedComposes(m, a, e);
    var o := Opened(m, a, e);
    assert StartTurn(m, a, env) == PostOrClose(o, e.tools, e.effort, e.posted, env);
    assert PostOrClose(o, e.tools, e.effort, e.posted, env) == Posted(o, e.tools, e.effort);
  }

  lemma WindowIsShort(m: Machine, hand: seq<Arrival>)
    requires Order(m, hand)
    ensures |m.state.window| <= WINDOW
  {
  }

  // the queue and the log after a turn starts
  lemma StartMoves(m: Machine, a: Arrival, env: Env)
    requires m.state.pending.None? && Good(m, [a])
    ensures
      var n := StartTurn(m, a, env);
      && m.log.started + [a] <= n.log.started
      && n.log.started + n.state.queue == m.log.started + [a] + m.state.queue
      && FailedSince(|m.log.closed|, n.log.closed) && n.log.consumed == m.log.consumed
      && (n.state.pending.None? ==> n.state.queue == [])
  {
    StartKeeps(m, a, env);
    StartGrows(m, a, env);
    BegunOrQueued(m, [a], StartTurn(m, a, env));
  }

  /**
    A turn that starts is the next to begin, on its first request. If the relay takes that, it
    waits and the queue with it; else the queue's turns begin in their order, and those that end
    meanwhile fail. An authenticated turn takes the whole inbox, an anonymous one nothing.
   */
  lemma StartsNext(m: Machine, a: Arrival, env: Env)
    requires m.state.pending.None? && Good(m, [a])
    ensures
      var n, e := StartTurn(m, a, env), env.start(m.state.turn + 1);
      && m.log.started + [a] <= n.log.started
      && n.log.started + n.state.queue == m.log.started + [a] + m.state.queue
      && FailedSince(|m.log.closed|, n.log.closed) && n.log.consumed == m.log.consumed
      && (n.state.pending.None? ==> n.state.queue == [])
      && (e.posted ==> Begins(m, a, e, n))
      && (!e.posted ==> |n.log.closed| > |m.log.closed| && n.log.closed[|m.log.closed|].exchange.arrival == a)
  {
    StartMoves(m, a, env);
    WindowIsShort(m, [a]);
    var e := env.start(m.state.turn + 1);
    if e.posted {
      OpenedBegins(m, a, env);
    } else {
      CloseGrows(Opened(m, a, e), Failed, env);
    }
  }

  /**
    A request that is taken carries a job the membrane never had and a well-formed conversation,
    and is all that happens; one that is refused fails the turn.
   */
  lemma PostSendsOrFails(m: Machine, tools: set<string>, effort: Option<string>, posted: bool, env: Env)
    requires Good(m, []) && Ready(m, tools)
    ensures
      var p, n := m.state.pending.value, PostOrClose(m, tools, effort, posted, env);
      if posted then
        && n.log == m.log.(requests := m.log.requests + [Request(p.turn, m.jobs, p.messages, tools)])
        && WellFormed(p.messages) && !WasPosted(m.log.requests, m.jobs)
        && n.state == m.state.(pending := Some(p.(job := Some(m.jobs), modelCalls := p.modelCalls + 1, efforts := p.efforts + [effort])))
        && n.jobs > m.jobs && Sent(n)
      else EndsAs(m, Failed, n)
  {
    PostKeeps(m, tools, effort, posted, env);
    PostGrows(m, tools, effort, posted, env);
  }

  /**
    A turn that fails puts what it drained back in front of the inbox, so nothing is delivered;
    one that does not has delivered it. Either way it is the newest of the last ten.
   */
  lemma EndGivesBack(m: Machine, stopped: Stop, reference: Option<InboxItem>)
    requires m.state.pending.Some? && Good(m, [])
    ensures
      var p, n := m.state.pending.value, Ended(m, stopped, reference);
      && n.state.pending.None? && n.state.queue == m.state.queue && n.log.requests == m.log.requests
      && (if stopped == Failed then
            n.state.inbox == p.drained + m.state.inbox && Delivered(n.log.closed) == Delivered(m.log.closed)
          else
            && n.state.inbox == m.state.inbox + (if reference.Some? then [reference.value] else [])
            && Delivered(n.log.closed) == Delivered(m.log.closed) + p.drained)
      && WindowOf(n.state.window, n.log.closed)
      && n.state.window != [] && n.state.window[|n.state.window| - 1].turn == m.state.turn == |n.log.closed|
  {
    EndedGood(m, stopped, reference);
    var n := Ended(m, stopped, reference);
    DeliveredNext(m.log.closed, n.log.closed[|m.log.closed|]);
    LastTenInOrder(n.log.closed, n.log.started);
  }

  /** After a turn the queue's begin in their order, until one waits or all have ended. */
  lemma CloseStartsTheQueue(m: Machine, stopped: Stop, env: Env)
    requires m.state.pending.Some? && Good(m, [])
    ensures
      var n := CloseTurn(m, stopped, env);
      && EndsAs(m, stopped, n)
      && m.log.started <= n.log.started && n.log.started + n.state.queue == m.log.started + m.state.queue
      && (n.state.pending.None? ==> |n.log.closed| == |m.log.closed| + 1 + |m.state.queue|)
      && (m.state.queue == [] ==> n.state.pending.None?)
  {
    CloseKeeps(m, stopped, env);
    CloseGrows(m, stopped, env);
    BegunOrQueued(m, [], CloseTurn(m, stopped, env));
    assert m.log.started + [] == m.log.started;
    assert |CloseTurn(m, stopped, env).log.started| + |CloseTurn(m, stopped, env).state.queue| == |m.log.started| + |m.state.queue|;
  }

  /** An answer ends its turn or moves it on by one request, and no queued arrival is lost to it. */
  lemma AnswerEndsOrContinues(m: Machine, c: Completion, env: Env)
    requires Good(m, []) && Waiting(m)
    ensures
      var n := ContinueTurn(m, c, env);
      && Continues(m, c, env, n)
      && m.log.started <= n.log.started && n.log.started + n.state.queue == m.log.started + m.state.queue
  {
    ContinueKeeps(m, c, env);
    ContinueGrows(m, c, env);
    BegunOrQueued(m, [], ContinueTurn(m, c, env));
    assert m.log.started + [] == m.log.started;
  }

  predicate Settled(report: Report) {
    !report.Unreachable? && !report.InFlight?
  }

  lemma FinishReads(m: Machine, report: Report, env: Env)
    requires Inv(m) && m.state.pending.Some? && Settled(report)
    ensures
      var p, n := m.state.pending.value, Finish(m, report, env);
      && p.job.Some? && p.job.value !in m.log.consumed && n.log.consumed == m.log.consumed + [p.job.value]
      && (n.state.pending.Some? ==> n.state.pending.value.job != p.job)
  {
    FinishKeeps(m, report, env);
    var c := Consumed(m);
    if report.Answer? {
      ContinueGrows(c, report.completion, env);
    } else {
      CloseGrows(c, Failed, env);
    }
    var n, job := Finish(m, report, env), m.state.pending.value.job.value;
    assert n.log.consumed[|m.log.consumed|] == job;
  }

  // Only what Continues and EndsAs look at is the same in both.
  lemma ConsumedApart(m: Machine, c: Completion, env: Env, n: Machine)
    requires m.state.pending.Some?
    ensures Continues(Consumed(m), c, env, n) ==> Continues(m, c, env, n)
    ensures EndsAs(Consumed(m), Failed, n) ==> EndsAs(m, Failed, n)
  {
  }

  /**
    A settled job is read, for the first time, and is no longer the pending one: an answer moves
    its turn on or ends it, and any other outcome fails it. Nothing else does anything.
   */
  lemma SettleReadsOnce(m: Machine, report: Report, env: Env)
    requires Inv(m)
    ensures
      var n := Settle(m, report, env);
      if m.state.pending.None? || !Settled(report) then n == m
      else
        var job := m.state.pending.value.job;
        && job.Some? && job.value !in m.log.consumed && n.log.consumed == m.log.consumed + [job.value]
        && (n.state.pending.Some? ==> n.state.pending.value.job != job)
        && (if report.Answer? then Continues(m, report.completion, env, n) else EndsAs(m, Failed, n))
  {
    if m.state.pending.Some? && Settled(report) {
      FinishReads(m, report, env);
      var c, n := Consumed(m), Finish(m, report, env);
      if report.Answer? {
        ContinueGrows(c, report.completion, env);
        ConsumedApart(m, report.completion, env, n);
      } else {
        CloseGrows(c, Failed, env);
        ConsumedApart(m, Completion([], None), env, n);
      }
    }
  }

  /** Whatever a command is about, but a wake-up, it reads the pending job first if that has settled. */
  lemma EveryCommandSettlesFirst(m: Machine, c: Command, env: Env)
    requires Inv(m) && (c.SayCommand? || c.RootCommand?)
    ensures
      var n := Step(m, c, env);
      && n.log.consumed == m.log.consumed + (if m.state.pending.Some? && Settled(c.report) then [m.state.pending.value.job.value] else [])
      && (c.RootCommand? ==>
            |c.items| <= |n.state.inbox| && n.state.inbox[|n.state.inbox| - |c.items|..] == c.items)
  {
    SettleReadsOnce(m, c.report, env);
    var settled := Settle(m, c.report, env);
    if c.SayCommand? && c.arrival.Some? && settled.state.pending.None? {
      StartGrows(settled.(log := settled.log.(accepted := settled.log.accepted + [c.arrival.value])), c.arrival.value, env);
    }
  }

  /** A wake-up does something exactly when it names the pending job and that job has settled. */
  lemma ResumeOnlyPending(m: Machine, job: nat, report: Report, env: Env)
    requires Inv(m)
    ensures Resume(m, job, report, env) != m <==>
            m.state.pending.Some? && m.state.pending.value.job == Some(job) && Settled(report)
    ensures Resume(m, job, report, env) != m ==>
      job !in m.log.consumed && Resume(m, job, report, env).log.consumed == m.log.consumed + [job]
  {
    if m.state.pending.Some? && m.state.pending.value.job == Some(job) && Settled(report) {
      FinishReads(m, report, env);
      assert |Resume(m, job, report, env).log.consumed| > |m.log.consumed|;
    }
  }

  /**
    A message that comes while a turn is pending changes nothing but the queue. Else its turn is
    the next and only one to begin, and it waits for the relay or has failed.
   */
  lemma SayQueuesOrStarts(m: Machine, a: Arrival, env: Env)
    requires Inv(m)
    ensures
      var n, k := Say(m, a, env), |m.log.closed|;
      if m.state.pending.Some? then
        n == m.(state := m.state.(queue := m.state.queue + [a]), log := m.log.(accepted := m.log.accepted + [a]))
      else
        && n.state.queue == [] && n.state.turn == m.state.turn + 1 && n.log.started == m.log.started + [a]
        && (n.state.pending.Some? ==> n.state.pending.value.arrival == a && n.log.closed == m.log.closed)
        && (n.state.pending.None? ==>
              && |n.log.closed| == k + 1 && n.log.closed[k].exchange.arrival == a
              && n.log.closed[k].exchange.reply.stopped == Failed)
  {
    if m.state.pending.None? {
      AcceptedGood(m, a);
      var taken := m.(log := m.log.(accepted := m.log.accepted + [a]));
      SayKeeps(m, a, env);
      StartsNext(taken, a, env);
      StartGrows(taken, a, env);
      OneTurnBegan(m, Say(m, a, env), a);
    }
  }

  lemma OneTurnBegan(m: Machine, n: Machine, a: Arrival)
    requires Inv(m) && m.state.pending.None? && Inv(n)
    requires n.log.started + n.state.queue == m.log.started + [a] + m.state.queue
    requires m.log.started + [a] <= n.log.started && m.log.closed <= n.log.closed
    ensures n.state.queue == [] && n.state.turn == m.state.turn + 1 && n.log.started == m.log.started + [a]
    ensures n.state.pending.Some? ==> n.state.pending.value.arrival == a && n.log.closed == m.log.closed
    ensures n.state.pending.None? ==>
      |n.log.closed| == |m.log.closed| + 1 && n.log.closed[|m.log.closed|].exchange.arrival == a
  {
    var k := |m.log.closed|;
    assert |n.log.started| + |n.state.queue| == |m.log.started| + 1;
    if n.state.pending.None? {
      assert TurnOf(n.log.closed[k].exchange, k, n.log.started);
    } else {
      assert |n.log.closed| == k;
    }
  }

  /** The next command of a run. */
  lemma RunsOn(history: seq<(Command, Env)>, c: Command, env: Env)
    ensures Run(INITIAL, history + [(c, env)]) == Step(Run(INITIAL, history), c, env)
    ensures Recorded(Run(INITIAL, history), Step(Run(INITIAL, history), c, env))
  {
    RunKeeps(history);
    StepRecords(Run(INITIAL, history), c, env);
    assert (history + [(c, env)])[..|history|] == history;
  }

  // ---- the state, changed in place ----

  class Membrane {
    var turn: nat
    var inbox: seq<InboxItem>
    var window: seq<Exchange>
    var pending: Option<Pending>
    var queue: seq<Arrival>
    var jobs: nat
    ghost var log: Log
    ghost var history: seq<(Command, Env)>

    ghost function View(): Machine
      reads this
    {
      Machine(State(turn, inbox, window, pending, queue), log, jobs)
    }

    ghost predicate Valid()
      reads this
    {
      View() == Run(INITIAL, history)
    }

    constructor ()
      ensures Valid() && history == []
    {
      turn, inbox, window, pending, queue, jobs := 0, [], [], None, [], 0;
      log := Log([], [], [], [], [], []);
      history := [];
    }

    method Open(a: Arrival, here: StartEnv)
      requires pending.None?
      modifies this
      ensures history == old(history) && View() == Opened(old(View()), a, here)
    {
      turn := turn + 1;
      inbox := inbox + here.polled;
      var drained, recalled := [], [];
      if Authenticated(a.principal) {
        drained, inbox := inbox, [];
        recalled := here.recalled;
      }
      var recent := if |window| <= WINDOW then window else window[|window| - WINDOW..];
      var messages := HistoryFrom(recent) + [Now(turn, a, drained, recalled)];
      pending := Some(Pending(turn, a, messages, here.tools, None, [], 0, [], 1, drained, []));
      log := log.(started := log.started + [a], added := log.added + here.polled);
    }

    method Start(a: Arrival, env: Env)
      requires pending.None?
      modifies this
      ensures history == old(history) && View() == StartTurn(old(View()), a, env)
      decreases |queue|, 2
    {
      var here := env.start(turn + 1);
      Open(a, here);
      PostElseClose(here.tools, here.effort, here.posted, env);
    }

    method PostElseClose(tools: set<string>, effort: Option<string>, posted: bool, env: Env)
      requires pending.Some?
      modifies this
      ensures history == old(history) && View() == PostOrClose(old(View()), tools, effort, posted, env)
      decreases |queue|, 1
    {
      if posted {
        var p := pending.value;
        log := log.(requests := log.requests + [Request(p.turn, jobs, p.messages, tools)]);
        p := p.(job := Some(jobs));
        jobs := jobs + 1;
        p := p.(modelCalls := p.modelCalls + 1);
        p := p.(efforts := p.efforts + [effort]);
        pending := Some(p);
      } else {
        Close(Failed, env);
      }
    }

    method End(stopped: Stop, reference: Option<InboxItem>)
      requires pending.Some?
      modifies this
      ensures history == old(history) && View() == Ended(old(View()), stopped, reference)
    {
      var p := pending.value;
      if stopped == Failed && p.drained != [] {
        inbox := p.drained + inbox;
      }
      if stopped != Failed && reference.Some? {
        inbox := inbox + [reference.value];
        log := log.(added := log.added + [reference.value]);
      }
      var exchange := Exchange(p.turn, p.arrival, Reply(stopped, p.said), p.offered, p.calls, p.modelCalls, p.efforts, p.forks, p.job);
      window := window + [exchange];
      if |window| > WINDOW {
        window := window[|window| - WINDOW..];
      }
      pending := None;
      log := log.(closed := log.closed + [Closed(exchange, p.drained)]);
    }

    method Close(stopped: Stop, env: Env)
      requires pending.Some?
      modifies this
      ensures history == old(history) && View() == CloseTurn(old(View()), stopped, env)
      decreases |queue|, 0
    {
      End(stopped, env.reference(pending.value.turn));
      if queue != [] {
        var head := queue[0];
        queue := queue[1..];
        Start(head, env);
      }
    }

    method Continue(c: Completion, env: Env)
      requires pending.Some?
      modifies this
      ensures history == old(history) && View() == ContinueTurn(old(View()), c, env)
    {
      var p := pending.value;
      var text := TextIn(c.content);
      if !IsBlank(text) {
        p := p.(said := p.said + [text]);
      }
      pending := Some(p);
      assert View() == Heard(old(View()), c);
      var calls := CallsIn(c.content);
      if c.stopReason == Some("max_tokens") {
        Close(MaxTokens, env);
      } else if calls == [] {
        Close(Done, env);
      } else {
        ghost var heard := View();
        p := p.(messages := p.messages + [Spoke(c.content)]);
        var ran, results, capped := RunCalls(calls, env.tools, p.calls, env.call);
        p := p.(calls := ran);
        if capped {
          pending := Some(p);
          assert View() == CallsRun(heard, c, env);
          Close(CapReached, env);
        } else {
          p := p.(messages := p.messages + [Answered(results)]);
          p := p.(forks := p.forks + 1);
          p := p.(offered := p.offered + env.tools);
          pending := Some(p);
          assert View() == CallsRun(heard, c, env);
          PostElseClose(env.tools, env.effort, env.posted, env);
        }
      }
    }

    method SettleJob(report: Report, env: Env)
      modifies this
      ensures history == old(history) && View() == Settle(old(View()), report, env)
      ensures report.Unreachable? || report.InFlight? ==> View() == old(View())
    {
      if pending.Some? && !report.Unreachable? && !report.InFlight? {
        if pending.value.job.Some? {
          log := log.(consumed := log.consumed + [pending.value.job.value]);
        }
        if report.Answer? {
          Continue(report.completion, env);
        } else {
          Close(Failed, env);
        }
      }
    }

    method ResumeJob(job: nat, report: Report, env: Env)
      modifies this
      ensures history == old(history) && View() == Resume(old(View()), job, report, env)
      ensures old(pending).None? || old(pending).value.job != Some(job) ==> View() == old(View())
    {
      if pending.Some? && pending.value.job == Some(job) {
        SettleJob(report, env);
      }
    }

    method Hear(a: Arrival, env: Env)
      modifies this
      ensures history == old(history) && View() == Say(old(View()), a, env)
      ensures old(pending).Some? ==>
        && queue == old(queue) + [a] && pending == old(pending) && turn == old(turn) && inbox == old(inbox)
        && window == old(window) && jobs == old(jobs) && log == old(log).(accepted := old(log.accepted) + [a])
    {
      log := log.(accepted := log.accepted + [a]);
      if pending.Some? {
        queue := queue + [a];
      } else {
        Start(a, env);
      }
    }

    method Act(c: Command, env: Env)
      modifies this
      ensures history == old(history) && View() == Step(old(View()), c, env)
    {
      match c
      case SayCommand(report, arrival) =>
        SettleJob(report, env);
        if arrival.Some? {
          Hear(arrival.value, env);
        }
      case ResumeCommand(job, report) =>
        ResumeJob(job, report, env);
      case RootCommand(report, items) =>
        SettleJob(report, env);
        inbox := inbox + items;
        log := log.(added := log.added + items);
      case Crashed(lost) =>
        jobs := jobs + lost;
    }

    /**
      One process: settle, act, save. It adds one command to the run the state stands for and
      rewrites nothing that has happened; one that crashes leaves the saved state as it was.
     */
    method Command(c: Command, env: Env)
      requires Valid()
      modifies this
      ensures Valid() && history == old(history) + [(c, env)] && Recorded(old(View()), View())
      ensures c.Crashed? ==>
        turn == old(turn) && inbox == old(inbox) && window == old(window) && pending == old(pending) && queue == old(queue)
    {
      RunsOn(history, c, env);
      Act(c, env);
      history := history + [(c, env)];
    }
  }
}
