/**
  The membrane's turn machine: one pending turn at a time, a queue behind it, an inbox that an
  authenticated turn drains, and a relay job whose answer moves the turn on.

  What a step asks of the outside (polls, the relay's reply to a post, tool results, the clock)
  is an argument: an Env for one command, indexed by turn or by call.
 */
module Turn {
  import opened Wrappers
  import opened Json
  import opened Common

  const WINDOW := 10
  const CAP := 20

  // ---- data ----

  datatype Block = Text(text: string) | ToolUse(id: string, name: string, input: Json) | Other(json: Json)

  datatype ToolResult = ToolResult(toolUseId: string, content: Json)

  datatype Stop = Done | MaxTokens | CapReached | Failed

  // a turn's reply: how it ended and every non-blank text the model said, in order
  datatype Reply = Reply(stopped: Stop, said: seq<string>)

  datatype Message =
    | Past(principal: string, door: string, input: string)
    | Now(turn: nat, arrival: Arrival, inbox: seq<InboxItem>, recalled: seq<string>)
    | Replied(reply: Reply)
    | Spoke(content: seq<Block>)
    | Answered(results: seq<ToolResult>)

  predicate FromUser(m: Message) {
    m.Past? || m.Now? || m.Answered?
  }

  // a call that ran, whatever came of it
  datatype Ran = Ran(name: string, input: Json, result: Json)

  datatype Exchange = Exchange(
    turn: nat, arrival: Arrival, reply: Reply, offered: set<string>, calls: seq<Ran>,
    modelCalls: nat, efforts: seq<Option<string>>, forks: nat, job: Option<nat>)

  datatype Pending = Pending(
    turn: nat, arrival: Arrival, messages: seq<Message>, offered: set<string>, job: Option<nat>,
    calls: seq<Ran>, modelCalls: nat, efforts: seq<Option<string>>, forks: nat,
    drained: seq<InboxItem>, said: seq<string>)

  datatype State = State(
    turn: nat, inbox: seq<InboxItem>, window: seq<Exchange>, pending: Option<Pending>, queue: seq<Arrival>)

  // ---- what has happened, for the properties ----

  datatype Closed = Closed(exchange: Exchange, drained: seq<InboxItem>)

  datatype Request = Request(turn: nat, job: nat, messages: seq<Message>, tools: set<string>)

  datatype Log = Log(
    accepted: seq<Arrival>, started: seq<Arrival>, closed: seq<Closed>, requests: seq<Request>,
    consumed: seq<nat>, added: seq<InboxItem>)

  // The state, what has happened, and the relay's next job id, which no crash takes back.
  datatype Machine = Machine(state: State, log: Log, jobs: nat)

  const INITIAL := Machine(State(0, [], [], None, []), Log([], [], [], [], [], []), 0)

  // ---- the outside ----

  datatype StartEnv = StartEnv(
    polled: seq<InboxItem>, recalled: seq<string>, tools: set<string>, effort: Option<string>, posted: bool)

  // a tool handler's result, and whether the fork's clock had run out first
  datatype CallEnv = CallEnv(late: bool, result: Json)

  datatype Env = Env(
    start: nat -> StartEnv,              // by turn
    reference: nat -> Option<InboxItem>,      // by turn: a note on proposals that do not exist
    call: nat -> CallEnv,                // by the turn's count of calls so far
    tools: set<string>, effort: Option<string>, posted: bool)  // the continued turn's next request

  datatype Completion = Completion(content: seq<Block>, stopReason: Option<string>)

  // what the relay says of the pending job
  datatype Report = Gone | Unreachable | InFlight | JobFailed | BadResponse | Answer(completion: Completion)

  // ---- small functions ----

  function LastTen<T>(s: seq<T>): seq<T> {
    if |s| <= WINDOW then s else s[|s| - WINDOW..]
  }

  function HistoryFrom(window: seq<Exchange>): seq<Message> {
    if window == [] then []
    else
      var e := window[0];
      [Past(e.arrival.principal, e.arrival.door, e.arrival.message), Replied(e.reply)] + HistoryFrom(window[1..])
  }

  function CallsIn(content: seq<Block>): seq<Block>
    ensures forall b :: b in CallsIn(content) ==> b.ToolUse?
  {
    if content == [] then []
    else (if content[0].ToolUse? then [content[0]] else []) + CallsIn(content[1..])
  }

  // the text blocks, joined by newlines
  function TextIn(content: seq<Block>): string {
    if content == [] then ""
    else
      var rest := TextIn(content[1..]);
      if !content[0].Text? then rest
      else if exists b :: b in content[1..] && b.Text? then content[0].text + "\n" + rest
      else content[0].text
  }

  function Said(said: seq<string>, content: seq<Block>): seq<string> {
    if IsBlank(TextIn(content)) then said else said + [TextIn(content)]
  }

  function FirstCall(b: Block): seq<Block> {
    if b.ToolUse? then [b] else []
  }

  lemma CallsInNext(b: Block, rest: seq<Block>)
    ensures CallsIn([b] + rest) == FirstCall(b) + CallsIn(rest)
  {
    assert ([b] + rest)[1..] == rest;
  }

  /** A completion's calls are its tool blocks, in their order. */
  lemma {:induction false} CallsInOrder(a: seq<Block>, b: seq<Block>)
    ensures CallsIn(a + b) == CallsIn(a) + CallsIn(b)
    ensures |a| == 1 ==> CallsIn(a) == FirstCall(a[0])
  {
    if a == [] {
      assert a + b == b;
    } else {
      var rest := a[1..];
      CallsInOrder(rest, b);
      assert a == [a[0]] + rest && a + b == [a[0]] + (rest + b);
      CallsInNext(a[0], rest);
      CallsInNext(a[0], rest + b);
      Assoc(FirstCall(a[0]), CallsIn(rest), CallsIn(b));
    }
  }

  predicate Silent(content: seq<Block>) {
    forall x :: x in content ==> !x.Text?
  }

  lemma TextInNext(content: seq<Block>)
    requires content != []
    ensures TextIn(content) ==
            if !content[0].Text? then TextIn(content[1..])
            else if Silent(content[1..]) then content[0].text
            else content[0].text + "\n" + TextIn(content[1..])
    ensures Silent(content) <==> !content[0].Text? && Silent(content[1..])
  {
    assert content == [content[0]] + content[1..];
  }

  lemma SilentBoth(a: seq<Block>, b: seq<Block>)
    ensures Silent(a + b) <==> Silent(a) && Silent(b)
  {
    assert forall x :: x in a + b <==> x in a || x in b;
  }

  /** Its text is its text blocks', in their order, each on lines of its own. */
  lemma {:induction false} TextsInOrder(a: seq<Block>, b: seq<Block>)
    ensures TextIn(a + b) ==
            if Silent(a) then TextIn(b) else if Silent(b) then TextIn(a) else TextIn(a) + "\n" + TextIn(b)
    ensures |a| == 1 ==> TextIn(a) == if a[0].Text? then a[0].text else ""
  {
    if a == [] {
      assert a + b == b;
    } else {
      TextsInOrder(a[1..], b);
      assert (a + b)[1..] == a[1..] + b && (a + b)[0] == a[0];
      TextInNext(a);
      TextInNext(a + b);
      SilentBoth(a[1..], b);
      if a[0].Text? && !Silent(a[1..]) && !Silent(b) {
        LinesRegroup(a[0].text, TextIn(a[1..]), TextIn(b));
      }
    }
  }

  lemma LinesRegroup(a: string, b: string, c: string)
    ensures a + "\n" + (b + "\n" + c) == a + "\n" + b + "\n" + c
  {
  }

  // one call's result
  function ResultOf(call: Block, tools: set<string>, env: CallEnv): Json
    requires call.ToolUse?
  {
    if call.name !in tools then Obj(map["status" := Str("error"), "error" := Str("no such tool " + call.name)])
    else if env.late then Obj(map["status" := Str("error"), "error" := Str("out of time")])
    else env.result
  }

  predicate IsError(result: Json, text: string) {
    result == Obj(map["status" := Str("error"), "error" := Str(text)])
  }

  // what came of a call: no such tool, out of time, or what the tool's handler said
  predicate CallRan(call: Block, tools: set<string>, env: CallEnv, ran: Ran)
    requires call.ToolUse?
  {
    && ran.name == call.name && ran.input == call.input
    && (call.name !in tools ==> IsError(ran.result, "no such tool " + call.name))
    && (call.name in tools && env.late ==> IsError(ran.result, "out of time"))
    && (call.name in tools && !env.late ==> ran.result == env.result)
  }

  // how many of a completion's calls the turn's cap leaves room for
  function Room(done: nat, calls: nat): nat {
    if done + calls <= CAP then calls else if done >= CAP then 0 else CAP - done
  }

  function RanCalls(done: seq<Ran>, calls: seq<Block>, n: nat, tools: set<string>, env: nat -> CallEnv): (r: seq<Ran>)
    requires n <= |calls| && forall b :: b in calls ==> b.ToolUse?
    ensures |r| == |done| + n
  {
    done + seq(n, i requires 0 <= i < n =>
      Ran(calls[i].name, calls[i].input, ResultOf(calls[i], tools, env(|done| + i))))
  }

  function ResultsOf(done: nat, calls: seq<Block>, n: nat, tools: set<string>, env: nat -> CallEnv): (r: seq<ToolResult>)
    requires n <= |calls| && forall b :: b in calls ==> b.ToolUse?
    ensures |r| == n
  {
    seq(n, i requires 0 <= i < n => ToolResult(calls[i].id, ResultOf(calls[i], tools, env(done + i))))
  }

  /**
    What is recorded of the calls and what is sent back for them: as many as the turn's cap leaves
    room for, in order, each with what came of it and under its own id.
   */
  lemma CallsCameOut(done: seq<Ran>, calls: seq<Block>, tools: set<string>, env: nat -> CallEnv)
    requires forall b :: b in calls ==> b.ToolUse?
    ensures
      var n := Room(|done|, |calls|);
      var ran, results := RanCalls(done, calls, n, tools, env), ResultsOf(|done|, calls, n, tools, env);
      && n <= |calls| && (n == |calls| <==> |done| + |calls| <= 20 || calls == [])
      && (n < |calls| ==> |done| + n == 20 || (n == 0 && |done| > 20))
      && |ran| == |done| + n && |results| == n && ran[..|done|] == done
      && forall i :: 0 <= i < n ==>
           && CallRan(calls[i], tools, env(|done| + i), ran[|done| + i])
           && results[i] == ToolResult(calls[i].id, ran[|done| + i].result)
  {
  }

  /**
    run_calls: the calls in order, each with its result, until the turn's cap.
   */
  method RunCalls(calls: seq<Block>, tools: set<string>, done: seq<Ran>, env: nat -> CallEnv)
    returns (ran: seq<Ran>, results: seq<ToolResult>, capped: bool)
    requires forall b :: b in calls ==> b.ToolUse?
    ensures capped <==> |done| + |calls| > 20 && calls != []
    ensures ran == RanCalls(done, calls, Room(|done|, |calls|), tools, env)
    ensures results == ResultsOf(|done|, calls, Room(|done|, |calls|), tools, env)
  {
    ran, results, capped := done, [], false;
    var i := 0;
    while i < |calls|
      invariant i <= |calls| && (i == 0 || |done| + i <= CAP)
      invariant ran == RanCalls(done, calls, i, tools, env)
      invariant results == ResultsOf(|done|, calls, i, tools, env)
    {
      if |ran| >= CAP {
        capped := true;
        return;
      }
      var call := calls[i];
      var result: Json;
      if call.name !in tools {
        result := Obj(map["status" := Str("error"), "error" := Str("no such tool " + call.name)]);
      } else if env(|ran|).late {
        result := Obj(map["status" := Str("error"), "error" := Str("out of time")]);
      } else {
        result := env(|ran|).result;
      }
      ran := ran + [Ran(call.name, call.input, result)];
      results := results + [ToolResult(call.id, result)];
      i := i + 1;
    }
  }

  // ---- the steps between posts ----

  // a new turn, up to its first request
  function Opened(m: Machine, a: Arrival, env: StartEnv): Machine
    requires m.state.pending.None?
  {
    var s := m.state;
    var all := s.inbox + env.polled;
    var drained := if Authenticated(a.principal) then all else [];
    var kept := if Authenticated(a.principal) then [] else all;
    var recalled := if Authenticated(a.principal) then env.recalled else [];
    var turn := s.turn + 1;
    var pending := Pending(turn, a, HistoryFrom(LastTen(s.window)) + [Now(turn, a, drained, recalled)], env.tools,
                           None, [], 0, [], 1, drained, []);
    m.(state := s.(turn := turn, inbox := kept, pending := Some(pending)),
       log := m.log.(started := m.log.started + [a], added := m.log.added + env.polled))
  }

  // the relay took the request
  function Posted(m: Machine, tools: set<string>, effort: Option<string>): Machine
    requires m.state.pending.Some?
  {
    var p := m.state.pending.value;
    m.(state := m.state.(pending := Some(p.(job := Some(m.jobs), modelCalls := p.modelCalls + 1, efforts := p.efforts + [effort]))),
       log := m.log.(requests := m.log.requests + [Request(p.turn, m.jobs, p.messages, tools)]),
       jobs := m.jobs + 1)
  }

  // the turn is over; the queue has not been looked at
  function Ended(m: Machine, stopped: Stop, reference: Option<InboxItem>): Machine
    requires m.state.pending.Some?
  {
    var s, p := m.state, m.state.pending.value;
    var restored := if stopped == Failed then p.drained + s.inbox else s.inbox;
    var noted := if stopped != Failed && reference.Some? then [reference.value] else [];
    var exchange := Exchange(p.turn, p.arrival, Reply(stopped, p.said), p.offered, p.calls, p.modelCalls, p.efforts, p.forks, p.job);
    m.(state := s.(inbox := restored + noted, window := LastTen(s.window + [exchange]), pending := None),
       log := m.log.(closed := m.log.closed + [Closed(exchange, p.drained)], added := m.log.added + noted))
  }

  // ---- posting, closing and starting call each other; the queue shrinks ----

  function StartTurn(m: Machine, a: Arrival, env: Env): (r: Machine)
    requires m.state.pending.None?
    decreases |m.state.queue|, 2
  {
    var o := Opened(m, a, env.start(m.state.turn + 1));
    var e := env.start(o.state.turn);
    PostOrClose(o, e.tools, e.effort, e.posted, env)
  }

  function PostOrClose(m: Machine, tools: set<string>, effort: Option<string>, posted: bool, env: Env): (r: Machine)
    requires m.state.pending.Some?
    decreases |m.state.queue|, 1
  {
    if posted then Posted(m, tools, effort) else CloseTurn(m, Failed, env)
  }

  function CloseTurn(m: Machine, stopped: Stop, env: Env): (r: Machine)
    requires m.state.pending.Some?
    decreases |m.state.queue|, 0
  {
    var e := Ended(m, stopped, env.reference(m.state.pending.value.turn));
    if e.state.queue == [] then e
    else StartTurn(e.(state := e.state.(queue := e.state.queue[1..])), e.state.queue[0], env)
  }

  // ---- the answer arrives ----

  // what the completion adds before anything is decided
  function Heard(m: Machine, c: Completion): Machine
    requires m.state.pending.Some?
  {
    var p := m.state.pending.value;
    m.(state := m.state.(pending := Some(p.(said := Said(p.said, c.content)))))
  }

  // its calls have run
  function CallsRun(m: Machine, c: Completion, env: Env): Machine
    requires m.state.pending.Some?
  {
    var p := m.state.pending.value;
    var calls := CallsIn(c.content);
    var n := Room(|p.calls|, |calls|);
    var ran := RanCalls(p.calls, calls, n, env.tools, env.call);
    var results := ResultsOf(|p.calls|, calls, n, env.tools, env.call);
    var messages := p.messages + [Spoke(c.content)];
    var next :=
      if |p.calls| + |calls| > CAP then p.(messages := messages, calls := ran)
      else p.(messages := messages + [Answered(results)], calls := ran, forks := p.forks + 1, offered := p.offered + env.tools);
    m.(state := m.state.(pending := Some(next)))
  }

  function ContinueTurn(m: Machine, c: Completion, env: Env): (r: Machine)
    requires m.state.pending.Some?
  {
    var h := Heard(m, c);
    if c.stopReason == Some("max_tokens") then CloseTurn(h, MaxTokens, env)
    else if CallsIn(c.content) == [] then CloseTurn(h, Done, env)
    else
      var r := CallsRun(h, c, env);
      if |h.state.pending.value.calls| + |CallsIn(c.content)| > CAP then CloseTurn(r, CapReached, env)
      else PostOrClose(r, env.tools, env.effort, env.posted, env)
  }

  function Consumed(m: Machine): Machine
    requires m.state.pending.Some?
  {
    var job := m.state.pending.value.job;
    if job.None? then m else m.(log := m.log.(consumed := m.log.consumed + [job.value]))
  }

  /** What a report on the pending job does. */
  function Finish(m: Machine, report: Report, env: Env): Machine
    requires m.state.pending.Some?
  {
    match report
    case Unreachable => m
    case InFlight => m
    case Answer(completion) => ContinueTurn(Consumed(m), completion, env)
    case _ => CloseTurn(Consumed(m), Failed, env)
  }

  function Settle(m: Machine, report: Report, env: Env): Machine {
    if m.state.pending.None? then m else Finish(m, report, env)
  }

  function Resume(m: Machine, job: nat, report: Report, env: Env): Machine {
    if m.state.pending.None? || m.state.pending.value.job != Some(job) then m else Finish(m, report, env)
  }

  function Say(m: Machine, a: Arrival, env: Env): Machine {
    var n := m.(log := m.log.(accepted := m.log.accepted + [a]));
    if m.state.pending.Some? then n.(state := n.state.(queue := n.state.queue + [a]))
    else StartTurn(n, a, env)
  }

  // ---- one process, one command ----

  datatype Command =
    | SayCommand(report: Report, arrival: Option<Arrival>)  // None: a bad payload, or the door is closed
    | ResumeCommand(job: nat, report: Report)
    | RootCommand(report: Report, items: seq<InboxItem>)  // polls and one decision, which only add items
    | Crashed(jobs: nat)  // nothing is saved; the relay keeps the jobs it was given

  function Step(m: Machine, c: Command, env: Env): Machine {
    match c
    case SayCommand(report, arrival) =>
      var n := Settle(m, report, env);
      if arrival.None? then n else Say(n, arrival.value, env)
    case ResumeCommand(job, report) => Resume(m, job, report, env)
    case RootCommand(report, items) =>
      var n := Settle(m, report, env);
      n.(state := n.state.(inbox := n.state.inbox + items), log := n.log.(added := n.log.added + items))
    case Crashed(jobs) => m.(jobs := m.jobs + jobs)
  }

  function Run(m: Machine, commands: seq<(Command, Env)>): Machine {
    if commands == [] then m
    else
      var last := commands[|commands| - 1];
      Step(Run(m, commands[..|commands| - 1]), last.0, last.1)
  }
}
