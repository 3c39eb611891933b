/** What holds of the turn machine between commands, over every run. */
module TurnRuns {
  import opened Wrappers
  import opened Json
  import opened Common
  import opened Turn

  // ---- arrivals become turns in order ----

  function Exchanges(closed: seq<Closed>): (r: seq<Exchange>)
    ensures |r| == |closed|
  {
    seq(|closed|, i requires 0 <= i < |closed| => closed[i].exchange)
  }

  predicate TurnOf(x: Exchange, i: nat, started: seq<Arrival>) {
    x.turn == i + 1 && i < |started| && x.arrival == started[i]
  }

  // hand holds the arrival taken off the queue whose turn has not begun
  ghost predicate Order(m: Machine, hand: seq<Arrival>) {
    var s, log := m.state, m.log;
    && log.accepted == log.started + hand + s.queue
    && s.turn == |log.started| == |log.closed| + (if s.pending.Some? then 1 else 0)
    && (forall i: nat :: i < |log.closed| ==> TurnOf(log.closed[i].exchange, i, log.started))
    && (s.pending.Some? ==> s.pending.value.turn == s.turn && s.pending.value.arrival == log.started[s.turn - 1])
    && s.window == LastTen(Exchanges(log.closed))
  }

  // ---- the inbox ----

  function Delivered(closed: seq<Closed>): seq<InboxItem> {
    if closed == [] then []
    else
      var last := closed[|closed| - 1];
      Delivered(closed[..|closed| - 1]) + if last.exchange.reply.stopped == Failed then [] else last.drained
  }

  function DrainedNow(s: State): seq<InboxItem> {
    if s.pending.Some? then s.pending.value.drained else []
  }

  ghost predicate Conserved(m: Machine) {
    m.log.added == Delivered(m.log.closed) + DrainedNow(m.state) + m.state.inbox
  }

  ghost predicate InboxKept(m: Machine) {
    && Conserved(m)
    && (m.state.pending.Some? && m.state.pending.value.drained != [] ==>
          Authenticated(m.state.pending.value.arrival.principal))
    && (forall i :: 0 <= i < |m.log.closed| ==> DrainerOk(m.log.closed[i]))
  }

  predicate DrainerOk(c: Closed) {
    c.drained != [] ==> Authenticated(c.exchange.arrival.principal)
  }

  // ---- jobs ----

  predicate Increasing(s: seq<nat>) {
    forall i, j :: 0 <= i < j < |s| ==> s[i] < s[j]
  }

  predicate AllBelow(s: seq<nat>, bound: nat) {
    forall i :: 0 <= i < |s| ==> s[i] < bound
  }

  ghost predicate WasPosted(requests: seq<Request>, job: nat) {
    exists i :: 0 <= i < |requests| && requests[i].job == job
  }

  ghost predicate JobsKept(m: Machine) {
    && Increasing(m.log.consumed) && AllBelow(m.log.consumed, m.jobs)
    && (forall j :: j in m.log.consumed ==> WasPosted(m.log.requests, j))
    && (forall i, j :: 0 <= i < j < |m.log.requests| ==> m.log.requests[i].job < m.log.requests[j].job)
    && (forall i :: 0 <= i < |m.log.requests| ==> m.log.requests[i].job < m.jobs)
  }

  // ---- bounds ----

  predicate WithinBounds(calls: seq<Ran>, modelCalls: nat, efforts: seq<Option<string>>, forks: nat) {
    |calls| <= 20 && |efforts| == modelCalls <= |calls| + 1 && forks <= modelCalls + 1
  }

  predicate ExchangeOk(x: Exchange) {
    WithinBounds(x.calls, x.modelCalls, x.efforts, x.forks)
  }

  ghost predicate Bounded(m: Machine) {
    && (forall i :: 0 <= i < |m.log.closed| ==> ExchangeOk(m.log.closed[i].exchange))
    && (m.state.pending.Some? ==>
          var p := m.state.pending.value;
          WithinBounds(p.calls, p.modelCalls, p.efforts, p.forks))
  }

  // ---- requests ----

  // a tool_result for each call, with its id, in order
  predicate Answers(results: seq<ToolResult>, content: seq<Block>) {
    var calls := CallsIn(content);
    |results| == |calls| && forall k :: 0 <= k < |calls| ==> results[k].toolUseId == calls[k].id
  }

  predicate MessageOk(ms: seq<Message>, i: nat)
    requires i < |ms|
  {
    && (FromUser(ms[i]) <==> i % 2 == 0)
    && (ms[i].Spoke? ==> i + 1 < |ms| && ms[i + 1].Answered? && Answers(ms[i + 1].results, ms[i].content))
  }

  /** User and assistant alternate, user first and last, and every tool call is answered next. */
  predicate WellFormed(ms: seq<Message>) {
    |ms| % 2 == 1 && forall i: nat :: i < |ms| ==> MessageOk(ms, i)
  }

  function CountTurn(requests: seq<Request>, turn: nat): nat {
    if requests == [] then 0
    else
      CountTurn(requests[..|requests| - 1], turn) + if requests[|requests| - 1].turn == turn then 1 else 0
  }

  ghost predicate Extends(requests: seq<Request>) {
    forall i :: 0 < i < |requests| && requests[i - 1].turn == requests[i].turn ==>
      requests[i - 1].messages < requests[i].messages
  }

  predicate LastTurnIs(requests: seq<Request>, turn: nat) {
    requests != [] && requests[|requests| - 1].turn == turn
  }

  ghost predicate Ordered(requests: seq<Request>, turn: nat) {
    && (forall i, j :: 0 <= i < j < |requests| ==> requests[i].turn <= requests[j].turn)
    && (forall i :: 0 <= i < |requests| ==> requests[i].turn <= turn)
  }

  ghost predicate RequestsOk(requests: seq<Request>) {
    (forall i :: 0 <= i < |requests| ==> WellFormed(requests[i].messages)) && Extends(requests)
  }

  // every tool list a request carried is in the turn's offered list
  ghost predicate OfferedCovers(requests: seq<Request>, turn: nat, offered: set<string>) {
    forall i :: 0 <= i < |requests| && requests[i].turn == turn ==> requests[i].tools <= offered
  }

  ghost predicate ExchangeMatches(x: Exchange, requests: seq<Request>) {
    CountTurn(requests, x.turn) == x.modelCalls && OfferedCovers(requests, x.turn, x.offered)
  }

  ghost predicate RequestsKept(m: Machine) {
    var requests := m.log.requests;
    && RequestsOk(requests) && Ordered(requests, m.state.turn)
    && (forall i :: 0 <= i < |m.log.closed| ==> ExchangeMatches(m.log.closed[i].exchange, requests))
    && (m.state.pending.Some? ==>
          var p := m.state.pending.value;
          CountTurn(requests, p.turn) == p.modelCalls && OfferedCovers(requests, p.turn, p.offered))
  }

  // ---- the phases of a pending turn ----

  ghost predicate Good(m: Machine, hand: seq<Arrival>) {
    Order(m, hand) && InboxKept(m) && JobsKept(m) && Bounded(m) && RequestsKept(m)
  }

  // its last request has been posted
  ghost predicate Waiting(m: Machine) {
    && m.state.pending.Some?
    && var p, requests := m.state.pending.value, m.log.requests;
      && LastTurnIs(requests, p.turn)
      && requests[|requests| - 1].messages == p.messages
      && p.forks == p.modelCalls
  }

  // its job's answer has not been read
  ghost predicate Sent(m: Machine) {
    && Waiting(m)
    && var p, requests := m.state.pending.value, m.log.requests;
      p.job == Some(requests[|requests| - 1].job) && AllBelow(m.log.consumed, requests[|requests| - 1].job)
  }

  // its next request is composed
  ghost predicate Ready(m: Machine, tools: set<string>) {
    && m.state.pending.Some?
    && var p, requests := m.state.pending.value, m.log.requests;
      && WellFormed(p.messages) && p.modelCalls <= |p.calls| && p.forks == p.modelCalls + 1 && tools <= p.offered
      && (LastTurnIs(requests, p.turn) ==> requests[|requests| - 1].messages < p.messages)
  }

  /** What holds between commands. */
  ghost predicate Inv(m: Machine) {
    && Good(m, [])
    && (m.state.pending.None? ==> m.state.queue == [])
    && (m.state.pending.Some? ==> Sent(m))
  }

  // ---- a turn opens ----

  lemma OpenedOrder(m: Machine, a: Arrival, e: StartEnv)
    requires m.state.pending.None? && Order(m, [a])
    ensures Order(Opened(m, a, e), [])
  {
    var n := Opened(m, a, e);
    assert n.log.accepted == n.log.started + [] + n.state.queue;
    forall i: nat | i < |n.log.closed| ensures TurnOf(n.log.closed[i].exchange, i, n.log.started) {
      assert TurnOf(m.log.closed[i].exchange, i, m.log.started);
    }
  }

  lemma OpenedInbox(m: Machine, a: Arrival, e: StartEnv)
    requires m.state.pending.None? && InboxKept(m)
    ensures InboxKept(Opened(m, a, e))
  {
    var d := Delivered(m.log.closed);
    assert d + [] + m.state.inbox + e.polled == d + (m.state.inbox + e.polled) + [];
    assert d + [] + m.state.inbox + e.polled == d + [] + (m.state.inbox + e.polled);
  }

  lemma {:induction false} HistoryAlternates(window: seq<Exchange>)
    ensures |HistoryFrom(window)| == 2 * |window|
    ensures forall i :: 0 <= i < |HistoryFrom(window)| ==>
      if i % 2 == 0 then HistoryFrom(window)[i].Past? else HistoryFrom(window)[i].Replied?
  {
    if window != [] {
      HistoryAlternates(window[1..]);
      var rest := HistoryFrom(window[1..]);
      forall i | 2 <= i < |HistoryFrom(window)|
        ensures HistoryFrom(window)[i] == rest[i - 2] && (i - 2) % 2 == i % 2
      {
      }
    }
  }

  lemma {:induction false} NoneOfTurn(requests: seq<Request>, turn: nat)
    requires forall i :: 0 <= i < |requests| ==> requests[i].turn < turn
    ensures CountTurn(requests, turn) == 0
  {
    if requests != [] {
      NoneOfTurn(requests[..|requests| - 1], turn);
    }
  }

  lemma OpeningMessages(window: seq<Exchange>, last: Message)
    requires last.Now?
    ensures WellFormed(HistoryFrom(window) + [last])
  {
    var history := HistoryFrom(window);
    HistoryAlternates(window);
    forall i: nat | i < |history| + 1 ensures MessageOk(history + [last], i) {
      if i < |history| {
        assert (history + [last])[i] == history[i];
      }
    }
  }

  lemma OpenedRequests(m: Machine, a: Arrival, e: StartEnv)
    requires m.state.pending.None? && RequestsKept(m)
    ensures RequestsKept(Opened(m, a, e))
  {
    NoneOfTurn(m.log.requests, m.state.turn + 1);
  }

  lemma OpenedGood(m: Machine, a: Arrival, e: StartEnv)
    requires m.state.pending.None? && Good(m, [a])
    ensures Good(Opened(m, a, e), [])
  {
    OpenedOrder(m, a, e);
    OpenedInbox(m, a, e);
    OpenedRequests(m, a, e);
  }

  lemma OpenedReady(m: Machine, a: Arrival, e: StartEnv)
    requires m.state.pending.None? && Ordered(m.log.requests, m.state.turn)
    ensures Ready(Opened(m, a, e), e.tools)
  {
    var window := LastTen(m.state.window);
    OpeningMessages(window, Opened(m, a, e).state.pending.value.messages[|HistoryFrom(window)|]);
  }

  // ---- a request is posted ----

  // a request of the pending turn is added, which touches no closed turn's
  lemma PostedMatches(m: Machine, requests: seq<Request>, i: nat)
    requires Order(m, []) && RequestsKept(m) && m.state.pending.Some? && i < |m.log.closed|
    requires |requests| == |m.log.requests| + 1 && requests[..|m.log.requests|] == m.log.requests
    requires requests[|m.log.requests|].turn == m.state.turn
    ensures ExchangeMatches(m.log.closed[i].exchange, requests)
  {
    assert ExchangeMatches(m.log.closed[i].exchange, m.log.requests);
    assert TurnOf(m.log.closed[i].exchange, i, m.log.started);
  }

  lemma PostedExtends(requests: seq<Request>, next: Request)
    requires RequestsOk(requests) && WellFormed(next.messages)
    requires LastTurnIs(requests, next.turn) ==> requests[|requests| - 1].messages < next.messages
    ensures RequestsOk(requests + [next])
  {
    var all := requests + [next];
    forall i | 0 < i < |all| && all[i - 1].turn == all[i].turn ensures all[i - 1].messages < all[i].messages {
      if i < |requests| {
        assert requests[i - 1].turn == requests[i].turn;
      }
    }
  }

  lemma PostedRequests(m: Machine, tools: set<string>, effort: Option<string>)
    requires Good(m, []) && Ready(m, tools)
    ensures RequestsKept(Posted(m, tools, effort))
  {
    var n, requests := Posted(m, tools, effort), m.log.requests;
    var next := n.log.requests;
    assert next[..|next| - 1] == requests;
    PostedExtends(requests, next[|requests|]);
    forall i | 0 <= i < |m.log.closed| ensures ExchangeMatches(m.log.closed[i].exchange, next) {
      PostedMatches(m, next, i);
    }
  }

  lemma PostedSent(m: Machine, tools: set<string>, effort: Option<string>)
    requires Good(m, []) && Ready(m, tools)
    ensures Inv(Posted(m, tools, effort))
  {
    PostedRequests(m, tools, effort);
    var n := Posted(m, tools, effort);
    forall j | j in n.log.consumed ensures WasPosted(n.log.requests, j) {
      var i :| 0 <= i < |m.log.requests| && m.log.requests[i].job == j;
      assert n.log.requests[i].job == j;
    }
  }

  // ---- a turn ends ----

  lemma EndedOrder(m: Machine, stopped: Stop, reference: Option<InboxItem>)
    requires m.state.pending.Some? && Order(m, [])
    ensures Order(Ended(m, stopped, reference), [])
  {
    var n := Ended(m, stopped, reference);
    var before, after := Exchanges(m.log.closed), Exchanges(n.log.closed);
    assert after == before + [after[|before|]];
    forall i: nat | i < |n.log.closed| ensures TurnOf(n.log.closed[i].exchange, i, n.log.started) {
      if i < |m.log.closed| {
        assert TurnOf(m.log.closed[i].exchange, i, m.log.started);
      }
    }
  }

  lemma DeliveredNext(closed: seq<Closed>, next: Closed)
    ensures Delivered(closed + [next]) ==
            if next.exchange.reply.stopped == Failed then Delivered(closed) else Delivered(closed) + next.drained
  {
    assert (closed + [next])[..|closed|] == closed;
  }

  lemma Regroup(delivered: seq<InboxItem>, drained: seq<InboxItem>, inbox: seq<InboxItem>, noted: seq<InboxItem>)
    ensures delivered + drained + inbox == delivered + [] + (drained + inbox + [])
    ensures delivered + drained + inbox + noted == (delivered + drained) + [] + (inbox + noted)
    ensures delivered + drained + inbox == (delivered + drained) + [] + (inbox + [])
  {
  }

  lemma EndedConserves(m: Machine, stopped: Stop, reference: Option<InboxItem>)
    requires m.state.pending.Some? && Conserved(m)
    ensures Conserved(Ended(m, stopped, reference))
  {
    var n := Ended(m, stopped, reference);
    var p, d := m.state.pending.value, Delivered(m.log.closed);
    DeliveredNext(m.log.closed, n.log.closed[|m.log.closed|]);
    Regroup(d, p.drained, m.state.inbox, if reference.Some? then [reference.value] else []);
  }

  lemma EndedInbox(m: Machine, stopped: Stop, reference: Option<InboxItem>)
    requires m.state.pending.Some? && InboxKept(m)
    ensures InboxKept(Ended(m, stopped, reference))
  {
    EndedConserves(m, stopped, reference);
  }

  lemma EndedGood(m: Machine, stopped: Stop, reference: Option<InboxItem>)
    requires m.state.pending.Some? && Good(m, [])
    ensures Good(Ended(m, stopped, reference), [])
  {
    EndedOrder(m, stopped, reference);
    EndedInbox(m, stopped, reference);
  }

  lemma Dequeued(m: Machine)
    requires Good(m, []) && m.state.queue != []
    ensures Good(m.(state := m.state.(queue := m.state.queue[1..])), [m.state.queue[0]])
  {
    var n := m.(state := m.state.(queue := m.state.queue[1..]));
    assert m.log.started + [] + m.state.queue == m.log.started + [m.state.queue[0]] + n.state.queue;
  }

  // ---- the recursion of posting, closing and starting ----

  lemma {:induction false} StartKeeps(m: Machine, a: Arrival, env: Env)
    requires m.state.pending.None? && Good(m, [a])
    ensures Inv(StartTurn(m, a, env))
    decreases |m.state.queue|, 2
  {
    var e := env.start(m.state.turn + 1);
    OpenedGood(m, a, e);
    OpenedReady(m, a, e);
    PostKeeps(Opened(m, a, e), e.tools, e.effort, e.posted, env);
  }

  lemma {:induction false} PostKeeps(m: Machine, tools: set<string>, effort: Option<string>, posted: bool, env: Env)
    requires Good(m, []) && Ready(m, tools)
    ensures Inv(PostOrClose(m, tools, effort, posted, env))
    decreases |m.state.queue|, 1
  {
    if posted {
      PostedSent(m, tools, effort);
    } else {
      CloseKeeps(m, Failed, env);
    }
  }

  lemma {:induction false} CloseKeeps(m: Machine, stopped: Stop, env: Env)
    requires m.state.pending.Some? && Good(m, [])
    ensures Inv(CloseTurn(m, stopped, env))
    decreases |m.state.queue|, 0
  {
    var reference := env.reference(m.state.pending.value.turn);
    EndedGood(m, stopped, reference);
    var e := Ended(m, stopped, reference);
    if e.state.queue != [] {
      Dequeued(e);
      StartKeeps(e.(state := e.state.(queue := e.state.queue[1..])), e.state.queue[0], env);
    }
  }

  // ---- the answer ----

  lemma HeardKeeps(m: Machine, c: Completion)
    requires Good(m, []) && Waiting(m)
    ensures Good(Heard(m, c), []) && Waiting(Heard(m, c))
  {
    var n := Heard(m, c);
    assert n.state.pending.value == m.state.pending.value.(said := n.state.pending.value.said);
  }

  lemma CallsRunKeeps(m: Machine, c: Completion, env: Env)
    requires Good(m, []) && Waiting(m) && CallsIn(c.content) != []
    ensures Good(CallsRun(m, c, env), [])
  {
  }

  lemma CallsRunReady(m: Machine, c: Completion, env: Env)
    requires Good(m, []) && Waiting(m) && CallsIn(c.content) != []
    requires |m.state.pending.value.calls| + |CallsIn(c.content)| <= CAP
    ensures Ready(CallsRun(m, c, env), env.tools)
  {
    var p, q := m.state.pending.value, CallsRun(m, c, env).state.pending.value;
    var k := |p.messages|;
    assert WellFormed(p.messages);
    assert q.messages[..k] == p.messages;
    forall i: nat | i < |q.messages| ensures MessageOk(q.messages, i) {
      if i < k {
        assert MessageOk(p.messages, i);
        assert q.messages[i] == p.messages[i];
      }
    }
  }

  lemma ContinueKeeps(m: Machine, c: Completion, env: Env)
    requires Good(m, []) && Waiting(m)
    ensures Inv(ContinueTurn(m, c, env))
  {
    var h := Heard(m, c);
    HeardKeeps(m, c);
    if c.stopReason == Some("max_tokens") {
      CloseKeeps(h, MaxTokens, env);
    } else if CallsIn(c.content) == [] {
      CloseKeeps(h, Done, env);
    } else {
      var r := CallsRun(h, c, env);
      CallsRunKeeps(h, c, env);
      if |h.state.pending.value.calls| + |CallsIn(c.content)| > CAP {
        CloseKeeps(r, CapReached, env);
      } else {
        CallsRunReady(h, c, env);
        PostKeeps(r, env.tools, env.effort, env.posted, env);
      }
    }
  }

  lemma ConsumedKeeps(m: Machine)
    requires Inv(m) && m.state.pending.Some?
    ensures Good(Consumed(m), []) && Waiting(Consumed(m))
  {
    var n := Consumed(m);
    assert Order(n, []) && InboxKept(n) && Bounded(n) && RequestsKept(n);
    var last := |m.log.requests| - 1;
    assert m.log.requests[last].job == m.state.pending.value.job.value;
  }

  lemma AnswerKeeps(m: Machine, c: Completion, env: Env)
    requires Inv(m) && m.state.pending.Some?
    ensures Inv(ContinueTurn(Consumed(m), c, env))
  {
    ConsumedKeeps(m);
    ContinueKeeps(Consumed(m), c, env);
  }

  lemma FailureKeeps(m: Machine, env: Env)
    requires Inv(m) && m.state.pending.Some?
    ensures Inv(CloseTurn(Consumed(m), Failed, env))
  {
    ConsumedKeeps(m);
    CloseKeeps(Consumed(m), Failed, env);
  }

  lemma FinishKeeps(m: Machine, report: Report, env: Env)
    requires Inv(m) && m.state.pending.Some?
    ensures Inv(Finish(m, report, env))
  {
    match report
    case Unreachable =>
    case InFlight =>
    case Answer(completion) => AnswerKeeps(m, completion, env);
    case _ => FailureKeeps(m, env);
  }

  // a message taken in, its turn not begun
  lemma AcceptedGood(m: Machine, a: Arrival)
    requires Inv(m) && m.state.pending.None?
    ensures Good(m.(log := m.log.(accepted := m.log.accepted + [a])), [a])
  {
    var n := m.(log := m.log.(accepted := m.log.accepted + [a]));
    assert n.log.accepted == n.log.started + [a] + n.state.queue;
  }

  lemma SayKeeps(m: Machine, a: Arrival, env: Env)
    requires Inv(m)
    ensures Inv(Say(m, a, env))
  {
    var n := m.(log := m.log.(accepted := m.log.accepted + [a]));
    if m.state.pending.Some? {
      var q := n.(state := n.state.(queue := n.state.queue + [a]));
      assert q.log.accepted == q.log.started + [] + q.state.queue;
    } else {
      AcceptedGood(m, a);
      StartKeeps(n, a, env);
    }
  }

  lemma SettleKeeps(m: Machine, report: Report, env: Env)
    requires Inv(m)
    ensures Inv(Settle(m, report, env))
  {
    if m.state.pending.Some? {
      FinishKeeps(m, report, env);
    }
  }

  lemma RootKeeps(m: Machine, items: seq<InboxItem>)
    requires Inv(m)
    ensures Inv(m.(state := m.state.(inbox := m.state.inbox + items), log := m.log.(added := m.log.added + items)))
  {
    var head := Delivered(m.log.closed) + DrainedNow(m.state);
    assert head + m.state.inbox + items == head + (m.state.inbox + items);
  }

  lemma SayCommandKeeps(m: Machine, report: Report, arrival: Option<Arrival>, env: Env)
    requires Inv(m)
    ensures Inv(Step(m, SayCommand(report, arrival), env))
  {
    SettleKeeps(m, report, env);
    if arrival.Some? {
      SayKeeps(Settle(m, report, env), arrival.value, env);
    }
  }

  lemma ResumeKeeps(m: Machine, job: nat, report: Report, env: Env)
    requires Inv(m)
    ensures Inv(Resume(m, job, report, env))
  {
    SettleKeeps(m, report, env);
  }

  lemma StepKeeps(m: Machine, c: Command, env: Env)
    requires Inv(m)
    ensures Inv(Step(m, c, env))
  {
    match c
    case SayCommand(report, arrival) => SayCommandKeeps(m, report, arrival, env);
    case ResumeCommand(job, report) => ResumeKeeps(m, job, report, env);
    case RootCommand(report, items) =>
      SettleKeeps(m, report, env);
      RootKeeps(Settle(m, report, env), items);
    case Crashed(jobs) =>
  }

  lemma {:induction false} RunKeeps(commands: seq<(Command, Env)>)
    ensures Inv(Run(INITIAL, commands))
  {
    if commands != [] {
      RunKeeps(commands[..|commands| - 1]);
      var last := commands[|commands| - 1];
      StepKeeps(Run(INITIAL, commands[..|commands| - 1]), last.0, last.1);
    }
  }

  // ---- what a step adds to what has happened ----

  ghost predicate Grown(m: Machine, n: Machine) {
    && n.log.accepted == m.log.accepted && n.log.consumed == m.log.consumed
    && m.log.started <= n.log.started && m.log.closed <= n.log.closed
    && m.log.requests <= n.log.requests && m.log.added <= n.log.added
  }

  // every turn that closed since then failed
  predicate FailedSince(k: nat, closed: seq<Closed>) {
    k <= |closed| && forall i :: k <= i < |closed| ==> closed[i].exchange.reply.stopped == Failed
  }

  // the pending turn closed so, and each turn that closed after it failed at its first request
  predicate EndsAs(m: Machine, stopped: Stop, n: Machine)
    requires m.state.pending.Some?
  {
    var p, k := m.state.pending.value, |m.log.closed|;
    && k < |n.log.closed| && n.log.closed[k].drained == p.drained
    && n.log.closed[k].exchange ==
       Exchange(p.turn, p.arrival, Reply(stopped, p.said), p.offered, p.calls, p.modelCalls, p.efforts, p.forks, p.job)
    && FailedSince(k + 1, n.log.closed)
  }

  /** A turn that starts is the next to begin; what closes before one waits again has failed. */
  lemma {:induction false} StartGrows(m: Machine, a: Arrival, env: Env)
    requires m.state.pending.None?
    ensures
      var n := StartTurn(m, a, env);
      Grown(m, n) && m.log.started + [a] <= n.log.started && FailedSince(|m.log.closed|, n.log.closed)
    decreases |m.state.queue|, 2
  {
    var e := env.start(m.state.turn + 1);
    PostGrows(Opened(m, a, e), e.tools, e.effort, e.posted, env);
  }

  lemma {:induction false} PostGrows(m: Machine, tools: set<string>, effort: Option<string>, posted: bool, env: Env)
    requires m.state.pending.Some?
    ensures
      var n := PostOrClose(m, tools, effort, posted, env);
      Grown(m, n) && (if posted then n.log.closed == m.log.closed else EndsAs(m, Failed, n))
    decreases |m.state.queue|, 1
  {
    if !posted {
      CloseGrows(m, Failed, env);
    }
  }

  lemma {:induction false} CloseGrows(m: Machine, stopped: Stop, env: Env)
    requires m.state.pending.Some?
    ensures Grown(m, CloseTurn(m, stopped, env)) && EndsAs(m, stopped, CloseTurn(m, stopped, env))
    decreases |m.state.queue|, 0
  {
    var e := Ended(m, stopped, env.reference(m.state.pending.value.turn));
    if e.state.queue != [] {
      StartGrows(e.(state := e.state.(queue := e.state.queue[1..])), e.state.queue[0], env);
    }
  }

  // how an answer ends a turn that has run so many calls, if it does
  function Ending(done: nat, c: Completion): Option<Stop> {
    if c.stopReason == Some("max_tokens") then Some(MaxTokens)
    else if CallsIn(c.content) == [] then Some(Done)
    else if done + |CallsIn(c.content)| > 20 then Some(CapReached)
    else None
  }

  // the calls an answer leaves the turn with: all it asked for, or as many as the cap lets run,
  // each with what came of it
  predicate CallsAfter(before: seq<Ran>, c: Completion, env: Env, after: seq<Ran>) {
    var calls, k := CallsIn(c.content), |before|;
    && before <= after
    && match Ending(k, c)
       case None => |after| == k + |calls| && forall i :: 0 <= i < |calls| ==> CallRan(calls[i], env.tools, env.call(k + i), after[k + i])
       case Some(CapReached) =>
         && k <= |after| == 20 <= k + |calls|
         && forall i :: 0 <= i < 20 - k ==> CallRan(calls[i], env.tools, env.call(k + i), after[k + i])
       case Some(_) => after == before
  }

  // a result for each call of the content, in order: what is recorded of it, under its id
  predicate SendsBack(results: seq<ToolResult>, content: seq<Block>, ran: seq<Ran>) {
    var calls := CallsIn(content);
    && |results| == |calls| <= |ran|
    && forall i :: 0 <= i < |calls| ==> results[i] == ToolResult(calls[i].id, ran[|ran| - |calls| + i].result)
  }

  // what was said before, and the answer's text unless it is blank
  predicate SaysAfter(before: seq<string>, c: Completion, after: seq<string>) {
    after == if IsBlank(TextIn(c.content)) then before else before + [TextIn(c.content)]
  }

  // The next request of the turn: the answer and the results of its calls on top of what there was.
  predicate MovesOn(m: Machine, c: Completion, env: Env, n: Machine)
    requires m.state.pending.Some?
  {
    && n.state.pending.Some?
    && var p, q := m.state.pending.value, n.state.pending.value;
      && CallsAfter(p.calls, c, env, q.calls) && SaysAfter(p.said, c, q.said)
      && |q.messages| == |p.messages| + 2 && q.messages[..|p.messages|] == p.messages
      && q.messages[|p.messages|] == Spoke(c.content)
      && q.messages[|p.messages| + 1].Answered? && SendsBack(q.messages[|p.messages| + 1].results, c.content, q.calls)
      && q == p.(messages := q.messages, calls := q.calls, said := q.said, job := Some(m.jobs),
                 offered := p.offered + env.tools, forks := p.forks + 1,
                 modelCalls := p.modelCalls + 1, efforts := p.efforts + [env.effort])
      && n.state == m.state.(pending := Some(q))
      && n.log.closed == m.log.closed
      && n.log.requests == m.log.requests + [Request(p.turn, m.jobs, q.messages, env.tools)]
  }

  // The turn ended as the answer says, or moved on, or its next request was refused and it failed.
  predicate Continues(m: Machine, c: Completion, env: Env, n: Machine)
    requires m.state.pending.Some?
  {
    var p, k := m.state.pending.value, |m.log.closed|;
    var ending := Ending(|p.calls|, c);
    if ending.None? && env.posted then MovesOn(m, c, env, n)
    else
      && k < |n.log.closed| && FailedSince(k + 1, n.log.closed) && n.log.closed[k].drained == p.drained
      && var x := n.log.closed[k].exchange;
        && x.turn == p.turn && x.arrival == p.arrival && x.job == p.job && CallsAfter(p.calls, c, env, x.calls)
        && x.reply.stopped == (if ending.Some? then ending.value else Failed) && SaysAfter(p.said, c, x.reply.said)
  }

  lemma RanCallsAfter(done: seq<Ran>, c: Completion, env: Env)
    requires |done| <= CAP && CallsIn(c.content) != [] && c.stopReason != Some("max_tokens")
    ensures
      var calls := CallsIn(c.content);
      CallsAfter(done, c, env, RanCalls(done, calls, Room(|done|, |calls|), env.tools, env.call))
  {
    CallsCameOut(done, CallsIn(c.content), env.tools, env.call);
  }

  lemma CallsRunAfter(m: Machine, c: Completion, env: Env)
    requires m.state.pending.Some? && |m.state.pending.value.calls| <= CAP
    requires CallsIn(c.content) != [] && c.stopReason != Some("max_tokens")
    ensures CallsAfter(m.state.pending.value.calls, c, env, CallsRun(m, c, env).state.pending.value.calls)
  {
    RanCallsAfter(m.state.pending.value.calls, c, env);
  }

  lemma CallsRunSent(m: Machine, c: Completion, env: Env)
    requires m.state.pending.Some? && |m.state.pending.value.calls| + |CallsIn(c.content)| <= CAP
    ensures
      var p, q := m.state.pending.value, CallsRun(m, c, env).state.pending.value;
      && |q.messages| == |p.messages| + 2 && q.messages[..|p.messages|] == p.messages
      && q.messages[|p.messages|] == Spoke(c.content)
      && q.messages[|p.messages| + 1].Answered? && SendsBack(q.messages[|p.messages| + 1].results, c.content, q.calls)
      && q == p.(messages := q.messages, calls := q.calls, offered := p.offered + env.tools, forks := p.forks + 1)
  {
    CallsCameOut(m.state.pending.value.calls, CallsIn(c.content), env.tools, env.call);
  }

  lemma PostedMovesOn(m: Machine, c: Completion, env: Env)
    requires m.state.pending.Some? && Ending(|m.state.pending.value.calls|, c).None?
    ensures MovesOn(m, c, env, Posted(CallsRun(Heard(m, c), c, env), env.tools, env.effort))
  {
    var h := Heard(m, c);
    CallsRunAfter(h, c, env);
    CallsRunSent(h, c, env);
  }

  /** An answer ends its turn or moves it on by one request. */
  lemma ContinueGrows(m: Machine, c: Completion, env: Env)
    requires m.state.pending.Some? && |m.state.pending.value.calls| <= CAP
    ensures Grown(m, ContinueTurn(m, c, env)) && Continues(m, c, env, ContinueTurn(m, c, env))
  {
    var h := Heard(m, c);
    if c.stopReason == Some("max_tokens") {
      CloseGrows(h, MaxTokens, env);
    } else if CallsIn(c.content) == [] {
      CloseGrows(h, Done, env);
    } else {
      var r := CallsRun(h, c, env);
      CallsRunAfter(h, c, env);
      if |h.state.pending.value.calls| + |CallsIn(c.content)| > CAP {
        CloseGrows(r, CapReached, env);
      } else if env.posted {
        PostedMovesOn(m, c, env);
        PostGrows(r, env.tools, env.effort, env.posted, env);
      } else {
        PostGrows(r, env.tools, env.effort, env.posted, env);
      }
    }
  }

  // what a settled job's answer does to what has happened
  ghost predicate Recorded(m: Machine, n: Machine) {
    && m.log.accepted <= n.log.accepted && m.log.consumed <= n.log.consumed
    && m.log.started <= n.log.started && m.log.closed <= n.log.closed
    && m.log.requests <= n.log.requests && m.log.added <= n.log.added
  }

  lemma FinishRecords(m: Machine, report: Report, env: Env)
    requires m.state.pending.Some? && |m.state.pending.value.calls| <= CAP
    ensures Recorded(m, Finish(m, report, env)) && Finish(m, report, env).log.accepted == m.log.accepted
  {
    var n := Consumed(m);
    match report
    case Answer(c) => ContinueGrows(n, c, env);
    case Unreachable =>
    case InFlight =>
    case _ => CloseGrows(n, Failed, env);
  }

  lemma SettleRecords(m: Machine, report: Report, env: Env)
    requires Inv(m)
    ensures Recorded(m, Settle(m, report, env)) && Settle(m, report, env).log.accepted == m.log.accepted
  {
    if m.state.pending.Some? {
      FinishRecords(m, report, env);
    }
  }

  lemma SayRecords(m: Machine, a: Arrival, env: Env)
    ensures Recorded(m, Say(m, a, env)) && Say(m, a, env).log.accepted == m.log.accepted + [a]
  {
    if m.state.pending.None? {
      StartGrows(m.(log := m.log.(accepted := m.log.accepted + [a])), a, env);
    }
  }

  /** No command rewrites what has happened. */
  lemma StepRecords(m: Machine, c: Command, env: Env)
    requires Inv(m)
    ensures Recorded(m, Step(m, c, env))
    ensures Step(m, c, env).log.accepted ==
            m.log.accepted + if c.SayCommand? && c.arrival.Some? then [c.arrival.value] else []
  {
    match c
    case SayCommand(report, arrival) =>
      SettleRecords(m, report, env);
      if arrival.Some? {
        SayRecords(Settle(m, report, env), arrival.value, env);
      }
    case ResumeCommand(job, report) => SettleRecords(m, report, env);
    case RootCommand(report, items) => SettleRecords(m, report, env);
    case Crashed(jobs) =>
  }

  // ---- the theorems ----

  // the messages the commands brought, in order; a crashed command brought none
  function Arrived(commands: seq<(Command, Env)>): seq<Arrival> {
    if commands == [] then []
    else
      var c := commands[|commands| - 1].0;
      Arrived(commands[..|commands| - 1]) + if c.SayCommand? && c.arrival.Some? then [c.arrival.value] else []
  }

  lemma {:induction false} AcceptedAreArrived(commands: seq<(Command, Env)>)
    ensures Run(INITIAL, commands).log.accepted == Arrived(commands)
  {
    if commands != [] {
      var before, last := commands[..|commands| - 1], commands[|commands| - 1];
      AcceptedAreArrived(before);
      RunKeeps(before);
      StepRecords(Run(INITIAL, before), last.0, last.1);
    }
  }

  /**
    Messages become turns strictly in arrival order, each exactly once: turn k is the k-th message
    that arrived, the queue is the messages whose turns are still to come, and nothing waits
    while no turn is pending.
   */
  lemma ArrivalsBecomeTurnsInOrder(commands: seq<(Command, Env)>)
    ensures
      var m, arrived := Run(INITIAL, commands), Arrived(commands);
      && m.state.turn <= |arrived| && m.state.queue == arrived[m.state.turn..]
      && |m.log.closed| == m.state.turn - (if m.state.pending.Some? then 1 else 0)
      && (forall k: nat :: k < |m.log.closed| ==> TurnOf(m.log.closed[k].exchange, k, arrived))
      && (m.state.pending.Some? ==>
            m.state.pending.value.turn == m.state.turn && m.state.pending.value.arrival == arrived[m.state.turn - 1])
      && (m.state.pending.None? ==> |m.log.closed| == |arrived|)
  {
    RunKeeps(commands);
    AcceptedAreArrived(commands);
    var m, arrived := Run(INITIAL, commands), Arrived(commands);
    assert arrived[..m.state.turn] == m.log.started;
    forall k: nat | k < |m.log.closed| ensures TurnOf(m.log.closed[k].exchange, k, arrived) {
      assert TurnOf(m.log.closed[k].exchange, k, m.log.started);
    }
  }

  predicate WindowOf(window: seq<Exchange>, closed: seq<Closed>) {
    && |window| == (if |closed| < 10 then |closed| else 10)
    && forall i: nat :: i < |window| ==>
         && window[i] == closed[|closed| - |window| + i].exchange
         && window[i].turn == |closed| - |window| + i + 1
  }

  lemma LastTenInOrder(closed: seq<Closed>, started: seq<Arrival>)
    requires forall i: nat :: i < |closed| ==> TurnOf(closed[i].exchange, i, started)
    ensures WindowOf(LastTen(Exchanges(closed)), closed)
  {
    var window := LastTen(Exchanges(closed));
    forall i: nat | i < |window|
      ensures window[i] == closed[|closed| - |window| + i].exchange
      ensures window[i].turn == |closed| - |window| + i + 1
    {
      assert TurnOf(closed[|closed| - |window| + i].exchange, |closed| - |window| + i, started);
    }
  }

  /** The window holds the last ten closed turns, or all of them, numbered consecutively. */
  lemma WindowIsTheLastTen(commands: seq<(Command, Env)>)
    ensures WindowOf(Run(INITIAL, commands).state.window, Run(INITIAL, commands).log.closed)
  {
    RunKeeps(commands);
    var m := Run(INITIAL, commands);
    assert Order(m, []);
    LastTenInOrder(m.log.closed, m.log.started);
  }

  /** A job's answer is read at most once, and only if the membrane posted the job. */
  lemma AnswersAreReadOnce(commands: seq<(Command, Env)>)
    ensures
      var m := Run(INITIAL, commands);
      && (forall i, j :: 0 <= i < j < |m.log.consumed| ==> m.log.consumed[i] != m.log.consumed[j])
      && (forall job :: job in m.log.consumed ==> WasPosted(m.log.requests, job))
      && (m.state.pending.Some? ==> m.state.pending.value.job.Some? && m.state.pending.value.job.value !in m.log.consumed)
  {
    RunKeeps(commands);
  }

  /** A wake-up for a job already read changes nothing, whichever command read it. */
  lemma StaleResumeDoesNothing(commands: seq<(Command, Env)>, job: nat, report: Report, env: Env)
    requires job in Run(INITIAL, commands).log.consumed
    ensures Step(Run(INITIAL, commands), ResumeCommand(job, report), env) == Run(INITIAL, commands)
  {
    AnswersAreReadOnce(commands);
  }

  /**
    No inbox item is lost or reordered: what was ever added is, in order, what authenticated turns
    that closed without error drained, then what the pending turn drained, then the inbox.
   */
  lemma NoItemIsLost(commands: seq<(Command, Env)>)
    ensures
      var m := Run(INITIAL, commands);
      && m.log.added == Delivered(m.log.closed) + DrainedNow(m.state) + m.state.inbox
      && (forall i :: 0 <= i < |m.log.closed| ==> DrainerOk(m.log.closed[i]))
      && (DrainedNow(m.state) != [] ==> Authenticated(m.state.pending.value.arrival.principal))
  {
    RunKeeps(commands);
  }

  lemma {:induction false} SameTurnExtends(requests: seq<Request>, turn: nat, i: nat, j: nat)
    requires Extends(requests) && Ordered(requests, turn)
    requires i < j < |requests| && requests[i].turn == requests[j].turn
    ensures requests[i].messages < requests[j].messages
    decreases j
  {
    if i < j - 1 {
      SameTurnExtends(requests, turn, i, j - 1);
    }
  }

  /**
    Every request a run posts alternates between user and assistant, begins and ends with the
    user, and answers each tool call it repeats in the very next message.
   */
  lemma RequestsAreWellFormed(commands: seq<(Command, Env)>, i: nat)
    requires i < |Run(INITIAL, commands).log.requests|
    ensures WellFormed(Run(INITIAL, commands).log.requests[i].messages)
  {
    RunKeeps(commands);
  }

  /** A later request of the same turn extends an earlier one; turns post in order. */
  lemma RequestsExtend(commands: seq<(Command, Env)>, i: nat, j: nat)
    requires i < j < |Run(INITIAL, commands).log.requests|
    ensures
      var requests := Run(INITIAL, commands).log.requests;
      && requests[i].turn <= requests[j].turn && requests[i].job < requests[j].job
      && (requests[i].turn == requests[j].turn ==> requests[i].messages < requests[j].messages)
  {
    RunKeeps(commands);
    var m := Run(INITIAL, commands);
    if m.log.requests[i].turn == m.log.requests[j].turn {
      SameTurnExtends(m.log.requests, m.state.turn, i, j);
    }
  }

  /**
    A turn runs at most 20 calls and posts at most 21 requests, across all its forks; it counts
    its requests exactly, records an effort for each, and its offered list holds every tool they
    carried.
   */
  lemma TurnsAreBounded(commands: seq<(Command, Env)>, k: nat)
    requires k < |Run(INITIAL, commands).log.closed|
    ensures
      var m := Run(INITIAL, commands);
      var x := m.log.closed[k].exchange;
      && |x.calls| <= 20
      && CountTurn(m.log.requests, x.turn) == x.modelCalls == |x.efforts| <= |x.calls| + 1 <= 21
      && OfferedCovers(m.log.requests, x.turn, x.offered)
  {
    RunKeeps(commands);
    var m := Run(INITIAL, commands);
    assert ExchangeOk(m.log.closed[k].exchange) && ExchangeMatches(m.log.closed[k].exchange, m.log.requests);
  }

  /** So does the pending one, at every moment between commands. */
  lemma PendingTurnIsBounded(commands: seq<(Command, Env)>)
    requires Run(INITIAL, commands).state.pending.Some?
    ensures
      var m := Run(INITIAL, commands);
      var p := m.state.pending.value;
      && |p.calls| <= 20
      && 1 <= CountTurn(m.log.requests, p.turn) == p.modelCalls == |p.efforts| == p.forks <= |p.calls| + 1
      && OfferedCovers(m.log.requests, p.turn, p.offered)
  {
    RunKeeps(commands);
  }
}
