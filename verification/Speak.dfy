/**
  The capability driver's loops: each row is asked, settled with repairs and continuations, and
  the rows a policy change made answerable are asked again. What the agent and the approver make of
  the turns is arbitrary, a World; which turns the driver then speaks is specified turn by turn.
 */
module Speak {
  const MAX_REPAIRS := 3
  const MAX_REASKS := 2
  const MAX_CONTINUATIONS := 3

  datatype RowDoor = RootList | RootSay | Signed | Unsigned

  datatype Row = Row(name: string, door: RowDoor)

  datatype Door = Api | Ingress | IngressUnsigned

  datatype Kind = Ask | Reask | Continue | Repair

  // an external result: an approved proposal, or a provided requirement
  datatype Event = ProposalDone(id: string, status: string) | Provided(verb: string, name: string)

  // a turn, the row it was spoken for, and the results its words deliver
  datatype Spoken = Spoken(row: nat, kind: Kind, door: Door, batch: seq<Event>)

  // What there is to see once n turns have been spoken.
  datatype World = World(
    owed: nat -> bool,               // a repair is owed
    unworded: nat -> bool,           // for nothing but a path, and the capability has no words for that
    applied: nat -> bool,            // an approval on the n-th turn put a policy in effect
    seen: nat -> seq<Event>,         // the results of the turns being settled
    answerable: (nat, nat) -> bool)  // what an earlier turn asked for, the policy now lets be answered

  function DoorOf(row: Row): Door {
    match row.door
    case Signed => Ingress
    case Unsigned => IngressUnsigned
    case _ => Api
  }

  predicate IsPublic(row: Row) {
    row.door.Signed? || row.door.Unsigned?
  }

  // ---- counting turns ----

  function Count(turns: seq<Spoken>, row: nat, kind: Kind): nat {
    if turns == [] then 0
    else
      var last := turns[|turns| - 1];
      Count(turns[..|turns| - 1], row, kind) + if last.row == row && last.kind == kind then 1 else 0
  }

  function NameOf(rows: seq<Row>, row: nat): string {
    if row < |rows| then rows[row].name else ""
  }

  // over all rows of one name, which share their budgets
  function CountNamed(turns: seq<Spoken>, rows: seq<Row>, name: string, kind: Kind): nat {
    if turns == [] then 0
    else
      var last := turns[|turns| - 1];
      CountNamed(turns[..|turns| - 1], rows, name, kind) + if NameOf(rows, last.row) == name && last.kind == kind then 1 else 0
  }

  function CountRow(turns: seq<Spoken>, row: nat): nat {
    if turns == [] then 0
    else CountRow(turns[..|turns| - 1], row) + if turns[|turns| - 1].row == row then 1 else 0
  }

  lemma CountOneMore(turns: seq<Spoken>, turn: Spoken, row: nat, kind: Kind)
    ensures Count(turns + [turn], row, kind) == Count(turns, row, kind) + if turn.row == row && turn.kind == kind then 1 else 0
  {
    assert (turns + [turn])[..|turns|] == turns;
  }

  lemma NamedOneMore(turns: seq<Spoken>, turn: Spoken, rows: seq<Row>, name: string, kind: Kind)
    ensures CountNamed(turns + [turn], rows, name, kind) ==
            CountNamed(turns, rows, name, kind) + if NameOf(rows, turn.row) == name && turn.kind == kind then 1 else 0
  {
    assert (turns + [turn])[..|turns|] == turns;
  }

  lemma {:induction false} RowWithinName(turns: seq<Spoken>, rows: seq<Row>, row: nat, kind: Kind)
    requires row < |rows|
    ensures Count(turns, row, kind) <= CountNamed(turns, rows, rows[row].name, kind)
  {
    if turns != [] {
      RowWithinName(turns[..|turns| - 1], rows, row, kind);
    }
  }

  lemma {:induction false} RowIsItsKinds(turns: seq<Spoken>, row: nat)
    ensures CountRow(turns, row) ==
            Count(turns, row, Ask) + Count(turns, row, Reask) + Count(turns, row, Continue) + Count(turns, row, Repair)
  {
    if turns != [] {
      RowIsItsKinds(turns[..|turns| - 1], row);
    }
  }

  // ---- budgets ----

  function At(counts: map<string, nat>, name: string): nat {
    if name in counts then counts[name] else 0
  }

  // the re-asks still to be had
  function ReasksLeft(rows: seq<Row>, counts: map<string, nat>): nat {
    if rows == [] then 0
    else
      var used := At(counts, rows[|rows| - 1].name);
      ReasksLeft(rows[..|rows| - 1], counts) + if used < MAX_REASKS then MAX_REASKS - used else 0
  }

  lemma {:induction false} ReaskCosts(rows: seq<Row>, counts: map<string, nat>, name: string)
    requires At(counts, name) < MAX_REASKS
    ensures ReasksLeft(rows, counts[name := At(counts, name) + 1]) <= ReasksLeft(rows, counts)
    ensures (exists i :: 0 <= i < |rows| && rows[i].name == name) ==>
      ReasksLeft(rows, counts[name := At(counts, name) + 1]) < ReasksLeft(rows, counts)
  {
    if rows != [] {
      ReaskCosts(rows[..|rows| - 1], counts, name);
      if i :| 0 <= i < |rows| && rows[i].name == name {
        if i < |rows| - 1 {
          assert rows[..|rows| - 1][i].name == name;
        }
      }
    }
  }

  // ---- the results to deliver: each once, none already delivered ----

  function Undelivered(seen: seq<Event>, delivered: set<Event>): (batch: seq<Event>)
    ensures forall e :: e in batch <==> e in seen && e !in delivered
    ensures forall i, j :: 0 <= i < j < |batch| ==> batch[i] != batch[j]
  {
    if seen == [] then []
    else
      var init := Undelivered(seen[..|seen| - 1], delivered);
      var last := seen[|seen| - 1];
      assert seen == seen[..|seen| - 1] + [last];
      if last in delivered || last in init then init else init + [last]
  }

  /** In the order they were seen, by their first appearance. */
  lemma {:induction false} UndeliveredInOrder(seen: seq<Event>, delivered: set<Event>, i: nat, j: nat)
    requires i < j < |Undelivered(seen, delivered)|
    ensures
      var batch := Undelivered(seen, delivered);
      exists k: nat :: k < |seen| && seen[k] == batch[i] && batch[j] !in seen[..k + 1]
  {
    var init := seen[..|seen| - 1];
    var batch, before := Undelivered(seen, delivered), Undelivered(init, delivered);
    if j < |before| {
      UndeliveredInOrder(init, delivered, i, j);
      var k: nat :| k < |init| && init[k] == before[i] && before[j] !in init[..k + 1];
      assert seen[..k + 1] == init[..k + 1] && seen[k] == init[k];
    } else {
      assert batch[i] in before;
      var k: nat :| k < |init| && init[k] == batch[i];
      assert seen[..k + 1] == init[..k + 1] && seen[k] == init[k];
      assert batch[j] !in init;
    }
  }

  predicate Distinct(events: seq<Event>) {
    forall i, j :: 0 <= i < j < |events| ==> events[i] != events[j]
  }

  lemma DistinctBoth(a: seq<Event>, b: seq<Event>)
    requires Distinct(a) && Distinct(b) && forall e :: e in b ==> e !in a
    ensures Distinct(a + b) && (set e | e in a + b) == (set e | e in a) + (set e | e in b)
  {
    assert forall i :: 0 <= i < |b| ==> b[i] in b;
    assert forall e :: e in a + b <==> e in a || e in b;
  }

  // what the turns' words carried, in order
  function Delivered(turns: seq<Spoken>): seq<Event> {
    if turns == [] then [] else Delivered(turns[..|turns| - 1]) + turns[|turns| - 1].batch
  }

  lemma DeliveredOneMore(turns: seq<Spoken>, turn: Spoken)
    ensures Delivered(turns + [turn]) == Delivered(turns) + turn.batch
  {
    assert (turns + [turn])[..|turns|] == turns;
  }

  // ---- which turn comes next: settling ----

  // the continuations since the turn at k
  function Continued(turns: seq<Spoken>, k: nat): nat {
    if |turns| <= k + 1 then 0
    else Continued(turns[..|turns| - 1], k) + if turns[|turns| - 1].kind == Continue then 1 else 0
  }

  predicate RepairDue(rows: seq<Row>, world: World, before: seq<Spoken>, row: nat) {
    world.owed(|before|) && !world.unworded(|before|) && CountNamed(before, rows, NameOf(rows, row), Repair) < 3
  }

  function Batch(world: World, before: seq<Spoken>): seq<Event> {
    Undelivered(world.seen(|before|), set e | e in Delivered(before))
  }

  predicate ContinueDue(world: World, before: seq<Spoken>, k: nat) {
    Batch(world, before) != [] && Continued(before, k) < 3
  }

  /**
    The turn that follows while the turn at k is being settled: a repair if one is owed and can be
    had, else a continuation if there are results to deliver and it can be had.
   */
  predicate FollowsUp(rows: seq<Row>, world: World, before: seq<Spoken>, k: nat, next: Spoken)
    requires k < |before|
  {
    var row := before[k].row;
    && row < |rows|
    && if RepairDue(rows, world, before, row) then
         next == Spoken(row, Repair, if Continued(before, k) > 0 then DoorOf(rows[row]) else Api, [])
       else
         ContinueDue(world, before, k) && next == Spoken(row, Continue, DoorOf(rows[row]), Batch(world, before))
  }

  // all that followed the turn at k was due
  ghost predicate Settling(rows: seq<Row>, world: World, turns: seq<Spoken>, k: nat, end: nat) {
    && k < end <= |turns|
    && forall n {:trigger FollowsUp(rows, world, turns[..n], k, turns[n])} ::
         k < n < end ==> FollowsUp(rows, world, turns[..n], k, turns[n])
  }

  /** The turns after the one at k, up to end, settle it: each was due, and then nothing is. */
  ghost predicate Settled(rows: seq<Row>, world: World, turns: seq<Spoken>, k: nat, end: nat) {
    && Settling(rows, world, turns, k, end)
    && !RepairDue(rows, world, turns[..end], turns[k].row) && !ContinueDue(world, turns[..end], k)
  }

  // an approval on one of these turns put a policy in effect
  ghost predicate PolicyApplied(world: World, from: nat, end: nat) {
    exists n :: from < n <= end && world.applied(n)
  }

  lemma PolicySplits(world: World, a: nat, b: nat, c: nat)
    requires a <= b <= c
    ensures PolicyApplied(world, a, c) <==> PolicyApplied(world, a, b) || PolicyApplied(world, b, c)
  {
  }

  lemma PolicyAfterOne(world: World, n: nat)
    ensures PolicyApplied(world, n, n + 1) <==> world.applied(n + 1)
  {
    if world.applied(n + 1) {
      assert n < n + 1 <= n + 1;
    }
  }

  lemma SettlingGrows(rows: seq<Row>, world: World, turns: seq<Spoken>, k: nat, next: Spoken)
    requires Settling(rows, world, turns, k, |turns|) && FollowsUp(rows, world, turns, k, next)
    ensures Settling(rows, world, turns + [next], k, |turns| + 1)
  {
    var more := turns + [next];
    forall n | k < n < |more| ensures FollowsUp(rows, world, more[..n], k, more[n]) {
      if n < |turns| {
        assert more[..n] == turns[..n];
      } else {
        assert more[..n] == turns;
      }
    }
  }

  lemma SettledStays(rows: seq<Row>, world: World, turns: seq<Spoken>, more: seq<Spoken>, k: nat, end: nat)
    requires Settled(rows, world, turns, k, end) && turns <= more
    ensures Settled(rows, world, more, k, end)
  {
    assert more[..end] == turns[..end];
    forall n | k < n < end ensures FollowsUp(rows, world, more[..n], k, more[n]) {
      assert more[..n] == turns[..n];
    }
  }

  // ---- which turn comes next: asking again ----

  // the turns since the last policy change whose words this one made answerable, in order
  function Candidates(world: World, since: seq<nat>, now: nat): seq<nat> {
    if since == [] then []
    else
      var last := since[|since| - 1];
      Candidates(world, since[..|since| - 1], now) + if world.answerable(last, now) then [last] else []
  }

  // the turns from start to end, none if they are the same
  datatype Span = Span(start: nat, end: nat)

  // Turn t's row is asked again in its own words, through its own door, and settled, if its name
  // has a re-ask left; else nothing is said.
  ghost predicate AskedAgain(rows: seq<Row>, world: World, turns: seq<Spoken>, t: nat, span: Span) {
    && t < span.start <= span.end <= |turns| && turns[t].row < |rows|
    && var row := turns[t].row;
      if CountNamed(turns[..span.start], rows, rows[row].name, Reask) < 2 then
        && span.start < span.end && turns[span.start] == Spoken(row, Reask, DoorOf(rows[row]), [])
        && Settled(rows, world, turns, span.start, span.end)
      else span.end == span.start
  }

  predicate Chained(spans: seq<Span>, at: nat, end: nat) {
    if spans == [] then end == at
    else
      && spans[0].start == at && spans[|spans| - 1].end == end
      && forall i, j :: 0 <= i && j == i + 1 < |spans| ==> spans[j].start == spans[i].end
  }

  // the turns that were spoken, of those that might have been
  function Starts(spans: seq<Span>): seq<nat> {
    if spans == [] then []
    else
      var last := spans[|spans| - 1];
      Starts(spans[..|spans| - 1]) + if last.start < last.end then [last.start] else []
  }

  // one round of asking again: the turns it looks back on, and a span for each candidate
  datatype Round = Round(at: nat, since: seq<nat>, spans: seq<Span>, end: nat)

  ghost predicate RoundSpoken(rows: seq<Row>, world: World, turns: seq<Spoken>, r: Round) {
    var candidates := Candidates(world, r.since, r.at);
    |r.spans| == |candidates| && Chained(r.spans, r.at, r.end) && SpansSpoken(rows, world, turns, candidates, r.spans)
  }

  // a span for each of the first candidates
  ghost predicate SpansSpoken(rows: seq<Row>, world: World, turns: seq<Spoken>, candidates: seq<nat>, spans: seq<Span>) {
    |spans| <= |candidates| && forall i :: 0 <= i < |spans| ==> AskedAgain(rows, world, turns, candidates[i], spans[i])
  }

  // Each round begins where the one before it ended, which changed the policy, and looks back on what
  // that one asked. Another follows if applied.
  ghost predicate RoundsLinked(
      world: World, rounds: seq<Round>, changed: bool, at: nat, since: seq<nat>, end: nat, left: seq<nat>, applied: bool) {
    if rounds == [] then end == at && left == since && (applied <==> changed)
    else
      var last := rounds[|rounds| - 1];
      && changed && rounds[0].at == at && rounds[0].since == since
      && (forall i, j :: 0 <= i && j == i + 1 < |rounds| ==>
            && rounds[j].at == rounds[i].end && rounds[j].since == Starts(rounds[i].spans)
            && PolicyApplied(world, rounds[i].at, rounds[i].end))
      && end == last.end && left == Starts(last.spans) && (applied <==> PolicyApplied(world, last.at, last.end))
  }

  ghost predicate AllSpoken(rows: seq<Row>, world: World, turns: seq<Spoken>, rounds: seq<Round>) {
    forall i :: 0 <= i < |rounds| ==> RoundSpoken(rows, world, turns, rounds[i])
  }

  /**
    The rounds after a settling that ended at turn at: one for each policy change, the first looking
    back on since and each other on what the one before it asked; none follows a round that changed
    no policy. They end at turn end, and left is what the next policy change looks back on.
   */
  ghost predicate RoundsSpoken(
      rows: seq<Row>, world: World, turns: seq<Spoken>, rounds: seq<Round>, changed: bool, at: nat, since: seq<nat>,
      end: nat, left: seq<nat>) {
    AllSpoken(rows, world, turns, rounds) && RoundsLinked(world, rounds, changed, at, since, end, left, false)
  }

  // what one row led to: its ask, the end of its settling, and the rounds after it
  datatype RowRun = RowRun(start: nat, since: seq<nat>, settled: nat, rounds: seq<Round>, end: nat, left: seq<nat>)

  ghost predicate RowSpoken(rows: seq<Row>, world: World, turns: seq<Spoken>, r: nat, run: RowRun)
    requires r < |rows|
  {
    if rows[r].door.RootList? then run.end == run.start && run.left == run.since
    else
      && run.start < |turns| && turns[run.start] == Spoken(r, Ask, DoorOf(rows[r]), [])
      && Settled(rows, world, turns, run.start, run.settled)
      && RoundsSpoken(rows, world, turns, run.rounds, PolicyApplied(world, run.start, run.settled), run.settled,
                      run.since + (if IsPublic(rows[r]) then [run.start] else []), run.end, run.left)
  }

  predicate RowsLinked(runs: seq<RowRun>, end: nat, left: seq<nat>) {
    if runs == [] then end == 0 && left == []
    else
      && runs[0].start == 0 && runs[0].since == []
      && (forall i, j :: 0 <= i && j == i + 1 < |runs| ==> runs[j].start == runs[i].end && runs[j].since == runs[i].left)
      && end == runs[|runs| - 1].end && left == runs[|runs| - 1].left
  }

  /** The turns are those of the first rows, in order, with nothing between them. */
  ghost predicate RowsSpoken(rows: seq<Row>, world: World, turns: seq<Spoken>, runs: seq<RowRun>, end: nat, left: seq<nat>) {
    && |runs| <= |rows| && RowsLinked(runs, end, left)
    && forall r :: 0 <= r < |runs| ==> RowSpoken(rows, world, turns, r, runs[r])
  }

  // ---- what was spoken stays spoken ----

  lemma AskedAgainStays(rows: seq<Row>, world: World, turns: seq<Spoken>, more: seq<Spoken>, t: nat, span: Span)
    requires AskedAgain(rows, world, turns, t, span) && turns <= more
    ensures AskedAgain(rows, world, more, t, span)
  {
    assert more[..span.start] == turns[..span.start] && more[t] == turns[t];
    if span.start < span.end {
      SettledStays(rows, world, turns, more, span.start, span.end);
    }
  }

  lemma SpansStay(
      rows: seq<Row>, world: World, turns: seq<Spoken>, more: seq<Spoken>, candidates: seq<nat>, spans: seq<Span>)
    requires SpansSpoken(rows, world, turns, candidates, spans) && turns <= more
    ensures SpansSpoken(rows, world, more, candidates, spans)
  {
    forall i | 0 <= i < |spans| ensures AskedAgain(rows, world, more, candidates[i], spans[i]) {
      AskedAgainStays(rows, world, turns, more, candidates[i], spans[i]);
    }
  }

  lemma RoundsStay(rows: seq<Row>, world: World, turns: seq<Spoken>, more: seq<Spoken>, rounds: seq<Round>)
    requires AllSpoken(rows, world, turns, rounds) && turns <= more
    ensures AllSpoken(rows, world, more, rounds)
  {
    forall i | 0 <= i < |rounds| ensures RoundSpoken(rows, world, more, rounds[i]) {
      SpansStay(rows, world, turns, more, Candidates(world, rounds[i].since, rounds[i].at), rounds[i].spans);
    }
  }

  lemma RowStays(rows: seq<Row>, world: World, turns: seq<Spoken>, more: seq<Spoken>, r: nat, run: RowRun)
    requires r < |rows| && RowSpoken(rows, world, turns, r, run) && turns <= more
    ensures RowSpoken(rows, world, more, r, run)
  {
    if !rows[r].door.RootList? {
      SettledStays(rows, world, turns, more, run.start, run.settled);
      RoundsStay(rows, world, turns, more, run.rounds);
    }
  }

  lemma RowsStay(rows: seq<Row>, world: World, turns: seq<Spoken>, more: seq<Spoken>, runs: seq<RowRun>, end: nat, left: seq<nat>)
    requires RowsSpoken(rows, world, turns, runs, end, left) && turns <= more
    ensures RowsSpoken(rows, world, more, runs, end, left)
  {
    forall r | 0 <= r < |runs| ensures RowSpoken(rows, world, more, r, runs[r]) {
      RowStays(rows, world, turns, more, r, runs[r]);
    }
  }

  // ---- one row's tally ----

  predicate TallyOk(turns: seq<Spoken>, rows: seq<Row>, i: nat)
    requires i < |rows|
  {
    && CountNamed(turns, rows, rows[i].name, Repair) <= MAX_REPAIRS
    && CountNamed(turns, rows, rows[i].name, Reask) <= MAX_REASKS
    && Count(turns, i, Continue) <= MAX_CONTINUATIONS * (Count(turns, i, Ask) + Count(turns, i, Reask))
    && (!IsPublic(rows[i]) ==> Count(turns, i, Reask) == 0)
  }

  predicate DoorOk(turn: Spoken, rows: seq<Row>) {
    && turn.row < |rows|
    && match rows[turn.row].door
       case RootList => false
       case RootSay => turn.door == Api
       case Signed => turn.door == Ingress || (turn.kind.Repair? && turn.door == Api)
       case Unsigned => turn.door == IngressUnsigned || (turn.kind.Repair? && turn.door == Api)
  }

  function Bound(row: Row): nat {
    match row.door
    case RootList => 0
    case RootSay => (1 + MAX_CONTINUATIONS) + MAX_REPAIRS
    case _ => (1 + MAX_REASKS) * (1 + MAX_CONTINUATIONS) + MAX_REPAIRS
  }

  // a row that is only listed says nothing
  function AsksOf(rows: seq<Row>, i: nat): nat {
    if i < |rows| && !rows[i].door.RootList? then 1 else 0
  }

  function TotalBound(rows: seq<Row>): nat {
    if rows == [] then 0 else TotalBound(rows[..|rows| - 1]) + Bound(rows[|rows| - 1])
  }

  ghost predicate TalliesOk(turns: seq<Spoken>, rows: seq<Row>) {
    && (forall i: nat :: i < |rows| ==> TallyOk(turns, rows, i))
    && (forall k :: 0 <= k < |turns| ==> DoorOk(turns[k], rows))
  }

  // a turn its budgets allow
  lemma TurnTallies(turns: seq<Spoken>, rows: seq<Row>, turn: Spoken)
    requires TalliesOk(turns, rows) && DoorOk(turn, rows)
    requires turn.kind.Repair? ==> CountNamed(turns, rows, rows[turn.row].name, Repair) < MAX_REPAIRS
    requires turn.kind.Reask? ==> CountNamed(turns, rows, rows[turn.row].name, Reask) < MAX_REASKS && IsPublic(rows[turn.row])
    requires turn.kind.Continue? ==>
      Count(turns, turn.row, Continue) < MAX_CONTINUATIONS * (Count(turns, turn.row, Ask) + Count(turns, turn.row, Reask))
    ensures TalliesOk(turns + [turn], rows)
  {
    forall i: nat | i < |rows| ensures TallyOk(turns + [turn], rows, i) {
      assert TallyOk(turns, rows, i);
      NamedOneMore(turns, turn, rows, rows[i].name, Repair);
      NamedOneMore(turns, turn, rows, rows[i].name, Reask);
      CountOneMore(turns, turn, i, Continue);
      CountOneMore(turns, turn, i, Reask);
      CountOneMore(turns, turn, i, Ask);
    }
  }

  class Driver {
    const rows: seq<Row>
    const world: World
    var turns: seq<Spoken>
    var repairs: map<string, nat>
    var reasks: map<string, nat>
    var delivered: set<Event>
    var sincePolicy: seq<nat>

    ghost predicate Valid()
      reads this
    {
      TalliesOk(turns, rows) && Booked() && SinceOk(sincePolicy, |turns|)
    }

    // the driver's books agree with its turns
    ghost predicate Booked()
      reads this
    {
      && (forall name :: At(repairs, name) == CountNamed(turns, rows, name, Repair))
      && (forall name :: At(reasks, name) == CountNamed(turns, rows, name, Reask))
      && delivered == (set e | e in Delivered(turns)) && Distinct(Delivered(turns))
    }

    ghost predicate SinceOk(since: seq<nat>, upto: nat)
      reads this
    {
      forall i :: 0 <= i < |since| ==> since[i] < upto <= |turns| && turns[since[i]].row < |rows| && IsPublic(rows[turns[since[i]].row])
    }

    // the counts of every kind but this, and this kind's for every other row, stay as they were
    twostate predicate OnlyRow(row: nat, kind: Kind)
      reads this
    {
      forall i: nat, k: Kind :: k != Repair && (k != kind || i != row) ==> Count(turns, i, k) == Count(old(turns), i, k)
    }

    constructor (rows: seq<Row>, world: World)
      ensures Valid() && this.rows == rows && this.world == world && turns == [] && sincePolicy == []
    {
      this.rows, this.world, turns, repairs, reasks, delivered, sincePolicy := rows, world, [], map[], map[], {}, [];
    }

    method Say(turn: Spoken)
      modifies `turns
      ensures turns == old(turns) + [turn] && Delivered(turns) == Delivered(old(turns)) + turn.batch
      ensures forall i: nat, k: Kind ::
        Count(turns, i, k) == Count(old(turns), i, k) + if i == turn.row && k == turn.kind then 1 else 0
      ensures forall name, k: Kind ::
        CountNamed(turns, rows, name, k) ==
        CountNamed(old(turns), rows, name, k) + if NameOf(rows, turn.row) == name && k == turn.kind then 1 else 0
    {
      turns := turns + [turn];
      DeliveredOneMore(old(turns), turn);
      forall i: nat, k: Kind
        ensures Count(turns, i, k) == Count(old(turns), i, k) + if i == turn.row && k == turn.kind then 1 else 0
      {
        CountOneMore(old(turns), turn, i, k);
      }
      forall name, k: Kind
        ensures CountNamed(turns, rows, name, k) ==
                CountNamed(old(turns), rows, name, k) + if NameOf(rows, turn.row) == name && k == turn.kind then 1 else 0
      {
        NamedOneMore(old(turns), turn, rows, name, k);
      }
    }

    method SayRepair(row: nat, door: Door)
      requires Valid() && row < |rows| && !rows[row].door.RootList? && At(repairs, rows[row].name) < MAX_REPAIRS
      requires door == Api || door == DoorOf(rows[row])
      modifies `turns, `repairs
      ensures Valid() && turns == old(turns) + [Spoken(row, Repair, door, [])]
      ensures At(repairs, rows[row].name) == At(old(repairs), rows[row].name) + 1
      ensures forall i: nat, k: Kind :: k != Repair ==> Count(turns, i, k) == Count(old(turns), i, k)
      ensures Delivered(turns) == Delivered(old(turns))
    {
      var name := rows[row].name;
      TurnTallies(turns, rows, Spoken(row, Repair, door, []));
      repairs := repairs[name := At(repairs, name) + 1];
      Say(Spoken(row, Repair, door, []));
      assert Delivered(old(turns)) + [] == Delivered(old(turns));
    }

    // the repair that is due
    method RepairOnce(row: nat, continuation: bool, ghost k: nat)
      requires Valid() && row < |rows| && !rows[row].door.RootList? && k < |turns| && turns[k].row == row
      requires Settling(rows, world, turns, k, |turns|) && (continuation <==> Continued(turns, k) > 0)
      requires RepairDue(rows, world, turns, row)
      modifies `turns, `repairs
      ensures Valid() && |turns| == |old(turns)| + 1 && old(turns) <= turns
      ensures At(repairs, rows[row].name) == At(old(repairs), rows[row].name) + 1
      ensures Settling(rows, world, turns, k, |turns|) && Continued(turns, k) == Continued(old(turns), k)
      ensures forall i: nat, k: Kind :: k != Repair ==> Count(turns, i, k) == Count(old(turns), i, k)
    {
      var door := if continuation then DoorOf(rows[row]) else Api;
      SettlingGrows(rows, world, turns, k, Spoken(row, Repair, door, []));
      SayRepair(row, door);
      assert turns[..|turns| - 1] == old(turns);
    }

    // Approvals, builds and provisions, with repair turns while something is owed and the row's budget lasts.
    method SettleRepairs(row: nat, continuation: bool, ghost k: nat) returns (applied: bool)
      requires Valid() && row < |rows| && !rows[row].door.RootList? && k < |turns| && turns[k].row == row
      requires Settling(rows, world, turns, k, |turns|) && (continuation <==> Continued(turns, k) > 0)
      modifies `turns, `repairs
      ensures Valid() && OnlyRow(row, Repair) && old(turns) <= turns
      ensures Settling(rows, world, turns, k, |turns|) && !RepairDue(rows, world, turns, row)
      ensures Continued(turns, k) == Continued(old(turns), k)
      ensures applied <==> PolicyApplied(world, |old(turns)| - 1, |turns|)
    {
      var name := rows[row].name;
      applied := world.applied(|turns|);
      PolicyAfterOne(world, |turns| - 1);
      while true
        invariant Valid() && OnlyRow(row, Repair) && old(turns) <= turns
        invariant Settling(rows, world, turns, k, |turns|) && Continued(turns, k) == Continued(old(turns), k)
        invariant applied <==> PolicyApplied(world, |old(turns)| - 1, |turns|)
        decreases MAX_REPAIRS - At(repairs, name)
      {
        if !world.owed(|turns|) || At(repairs, name) >= MAX_REPAIRS {
          return;
        }
        if world.unworded(|turns|) {
          return;
        }
        RepairOnce(row, continuation, k);
        PolicySplits(world, |old(turns)| - 1, |turns| - 1, |turns|);
        PolicyAfterOne(world, |turns| - 1);
        applied := applied || world.applied(|turns|);
      }
    }

    method SayContinuation(row: nat, batch: seq<Event>)
      requires Valid() && row < |rows| && !rows[row].door.RootList?
      requires Count(turns, row, Continue) < MAX_CONTINUATIONS * (Count(turns, row, Ask) + Count(turns, row, Reask))
      requires Distinct(batch) && forall e :: e in batch ==> e !in delivered
      modifies `turns, `delivered
      ensures Valid() && turns == old(turns) + [Spoken(row, Continue, DoorOf(rows[row]), batch)]
      ensures forall i: nat, k: Kind ::
        Count(turns, i, k) == Count(old(turns), i, k) + if i == row && k == Continue then 1 else 0
    {
      var turn := Spoken(row, Continue, DoorOf(rows[row]), batch);
      TurnTallies(turns, rows, turn);
      delivered := delivered + (set e | e in batch);
      Say(turn);
      DistinctBoth(Delivered(old(turns)), batch);
    }

    // The continuation that is due, if one is: the results that are new, delivered now.
    method ContinueOnce(row: nat, n: nat, ghost k: nat) returns (spoken: bool)
      requires Valid() && row < |rows| && !rows[row].door.RootList? && k < |turns| && turns[k].row == row
      requires Settling(rows, world, turns, k, |turns|) && !RepairDue(rows, world, turns, row) && n == Continued(turns, k)
      requires n < MAX_CONTINUATIONS ==>
        Count(turns, row, Continue) < MAX_CONTINUATIONS * (Count(turns, row, Ask) + Count(turns, row, Reask))
      modifies `turns, `delivered
      ensures Valid() && old(turns) <= turns && Settling(rows, world, turns, k, |turns|)
      ensures !spoken ==> turns == old(turns) && Settled(rows, world, turns, k, |turns|)
      ensures spoken ==> n < MAX_CONTINUATIONS && |turns| == |old(turns)| + 1 && Continued(turns, k) == n + 1
      ensures forall i: nat, k: Kind ::
        Count(turns, i, k) == Count(old(turns), i, k) + if spoken && i == row && k == Continue then 1 else 0
    {
      var batch := Undelivered(world.seen(|turns|), delivered);
      assert turns[..|turns|] == turns && batch == Batch(world, turns);
      spoken := batch != [] && n < MAX_CONTINUATIONS;
      if spoken {
        SettlingGrows(rows, world, turns, k, Spoken(row, Continue, DoorOf(rows[row]), batch));
        SayContinuation(row, batch);
        assert turns[..|turns| - 1] == old(turns);
      }
    }

    /**
      Settles the turn just spoken, for its row: repairs while they are due, and continuations with
      the results that are new, until nothing is due.
     */
    method Settle(row: nat) returns (applied: bool)
      requires Valid() && row < |rows| && !rows[row].door.RootList? && turns != [] && turns[|turns| - 1].row == row
      requires Count(turns, row, Continue) + MAX_CONTINUATIONS
               <= MAX_CONTINUATIONS * (Count(turns, row, Ask) + Count(turns, row, Reask))
      modifies `turns, `repairs, `delivered
      ensures Valid() && OnlyRow(row, Continue) && old(turns) <= turns
      ensures Settled(rows, world, turns, |old(turns)| - 1, |turns|)
      ensures applied <==> PolicyApplied(world, |old(turns)| - 1, |turns|)
    {
      ghost var k := |turns| - 1;
      applied := false;
      for n := 0 to MAX_CONTINUATIONS + 1
        invariant Valid() && OnlyRow(row, Continue) && old(turns) <= turns
        invariant n <= MAX_CONTINUATIONS && Count(turns, row, Continue) <= Count(old(turns), row, Continue) + n
        invariant Settling(rows, world, turns, k, |turns|) && Continued(turns, k) == n
        invariant applied <==> PolicyApplied(world, k, |turns| - 1)
      {
        ghost var before := |turns|;
        var changed := SettleRepairs(row, n > 0, k);
        PolicySplits(world, k, before - 1, |turns|);
        applied := applied || changed;
        var spoken := ContinueOnce(row, n, k);
        if !spoken {
          return;
        }
      }
      assert false;
    }

    method SayReask(row: nat)
      requires Valid() && row < |rows| && IsPublic(rows[row]) && At(reasks, rows[row].name) < MAX_REASKS
      modifies `turns, `reasks
      ensures Valid() && turns == old(turns) + [Spoken(row, Reask, DoorOf(rows[row]), [])]
      ensures reasks == old(reasks)[rows[row].name := At(old(reasks), rows[row].name) + 1]
      ensures forall i: nat, k: Kind ::
        Count(turns, i, k) == Count(old(turns), i, k) + if i == row && k == Reask then 1 else 0
    {
      var name := rows[row].name;
      TurnTallies(turns, rows, Spoken(row, Reask, DoorOf(rows[row]), []));
      reasks := reasks[name := At(reasks, name) + 1];
      Say(Spoken(row, Reask, DoorOf(rows[row]), []));
      assert Delivered(old(turns)) + [] == Delivered(old(turns));
    }

    // The row's own words again, through its own door.
    method SayAgain(row: nat)
      requires Valid() && row < |rows| && IsPublic(rows[row]) && At(reasks, rows[row].name) < MAX_REASKS
      modifies `turns, `reasks, `sincePolicy
      ensures Valid() && turns == old(turns) + [Spoken(row, Reask, DoorOf(rows[row]), [])]
      ensures sincePolicy == old(sincePolicy) + [|old(turns)|]
      ensures forall i: nat, k: Kind ::
        Count(turns, i, k) == Count(old(turns), i, k) + if i == row && k == Reask then 1 else 0
      ensures ReasksLeft(rows, reasks) < ReasksLeft(rows, old(reasks))
    {
      ReaskCosts(rows, reasks, rows[row].name);
      SayReask(row);
      sincePolicy := sincePolicy + [|turns| - 1];
    }

    // One re-ask, and its settle.
    method AskRow(row: nat) returns (applied: bool)
      requires Valid() && row < |rows| && IsPublic(rows[row]) && At(reasks, rows[row].name) < MAX_REASKS
      modifies `turns, `repairs, `reasks, `delivered, `sincePolicy
      ensures Valid() && |old(turns)| < |turns| && old(turns) <= turns
      ensures turns[|old(turns)|] == Spoken(row, Reask, DoorOf(rows[row]), [])
      ensures Settled(rows, world, turns, |old(turns)|, |turns|)
      ensures applied <==> PolicyApplied(world, |old(turns)|, |turns|)
      ensures sincePolicy == old(sincePolicy) + [|old(turns)|]
      ensures forall i: nat :: Count(turns, i, Ask) == Count(old(turns), i, Ask)
      ensures ReasksLeft(rows, reasks) < ReasksLeft(rows, old(reasks))
    {
      assert TallyOk(turns, rows, row);
      SayAgain(row);
      applied := Settle(row);
    }

    // what this policy change made answerable of what came after the one before, in order
    method Answerable() returns (candidates: seq<nat>)
      requires SinceOk(sincePolicy, |turns|)
      ensures candidates == Candidates(world, sincePolicy, |turns|) && SinceOk(candidates, |turns|)
    {
      candidates := [];
      for i := 0 to |sincePolicy|
        invariant candidates == Candidates(world, sincePolicy[..i], |turns|)
      {
        assert sincePolicy[..i + 1][..i] == sincePolicy[..i];
        if world.answerable(sincePolicy[i], |turns|) {
          candidates := candidates + [sincePolicy[i]];
        }
      }
      assert sincePolicy[..|sincePolicy|] == sincePolicy;
      CandidatesAreSince(world, sincePolicy, |turns|);
      forall i | 0 <= i < |candidates|
        ensures candidates[i] < |turns| && turns[candidates[i]].row < |rows| && IsPublic(rows[turns[candidates[i]].row])
      {
        assert candidates[i] in sincePolicy;
      }
    }

    // One candidate, asked again if its name has a re-ask left.
    method AskCandidate(t: nat) returns (applied: bool)
      requires Valid() && t < |turns| && turns[t].row < |rows| && IsPublic(rows[turns[t].row])
      modifies `turns, `repairs, `reasks, `delivered, `sincePolicy
      ensures Valid() && old(turns) <= turns && AskedAgain(rows, world, turns, t, Span(|old(turns)|, |turns|))
      ensures applied <==> PolicyApplied(world, |old(turns)|, |turns|)
      ensures sincePolicy == old(sincePolicy) + if |old(turns)| < |turns| then [|old(turns)|] else []
      ensures forall i: nat :: Count(turns, i, Ask) == Count(old(turns), i, Ask)
      ensures ReasksLeft(rows, reasks) <= ReasksLeft(rows, old(reasks))
      ensures applied ==> ReasksLeft(rows, reasks) < ReasksLeft(rows, old(reasks))
    {
      var row := turns[t].row;
      applied := false;
      assert turns[..|turns|] == turns;
      if At(reasks, rows[row].name) < MAX_REASKS {
        applied := AskRow(row);
        assert turns[..|old(turns)|] == old(turns) && turns[t] == old(turns)[t];
      }
    }

    // Asks the rows a policy change made answerable again, each once, in their order.
    method AskRound() returns (applied: bool, ghost spans: seq<Span>)
      requires Valid()
      modifies `turns, `repairs, `reasks, `delivered, `sincePolicy
      ensures Valid() && old(turns) <= turns
      ensures RoundSpoken(rows, world, turns, Round(|old(turns)|, old(sincePolicy), spans, |turns|))
      ensures sincePolicy == Starts(spans) && (applied <==> PolicyApplied(world, |old(turns)|, |turns|))
      ensures forall i: nat :: Count(turns, i, Ask) == Count(old(turns), i, Ask)
      ensures ReasksLeft(rows, reasks) <= ReasksLeft(rows, old(reasks))
      ensures applied ==> ReasksLeft(rows, reasks) < ReasksLeft(rows, old(reasks))
    {
      var candidates := Answerable();
      sincePolicy := [];
      applied, spans := AskCandidates(candidates);
    }

    method AskCandidates(candidates: seq<nat>) returns (applied: bool, ghost spans: seq<Span>)
      requires Valid() && SinceOk(candidates, |turns|) && sincePolicy == []
      modifies `turns, `repairs, `reasks, `delivered, `sincePolicy
      ensures Valid() && old(turns) <= turns && |spans| == |candidates|
      ensures SpansSpoken(rows, world, turns, candidates, spans) && Chained(spans, |old(turns)|, |turns|)
      ensures sincePolicy == Starts(spans) && (applied <==> PolicyApplied(world, |old(turns)|, |turns|))
      ensures forall i: nat :: Count(turns, i, Ask) == Count(old(turns), i, Ask)
      ensures ReasksLeft(rows, reasks) <= ReasksLeft(rows, old(reasks))
      ensures applied ==> ReasksLeft(rows, reasks) < ReasksLeft(rows, old(reasks))
    {
      applied, spans := false, [];
      for c := 0 to |candidates|
        invariant Valid() && old(turns) <= turns
        invariant |spans| == c && Chained(spans, |old(turns)|, |turns|) && sincePolicy == Starts(spans)
        invariant SpansSpoken(rows, world, turns, candidates, spans)
        invariant applied <==> PolicyApplied(world, |old(turns)|, |turns|)
        invariant forall i: nat :: Count(turns, i, Ask) == Count(old(turns), i, Ask)
        invariant ReasksLeft(rows, reasks) <= ReasksLeft(rows, old(reasks))
        invariant applied ==> ReasksLeft(rows, reasks) < ReasksLeft(rows, old(reasks))
      {
        ghost var before := turns;
        assert turns[candidates[c]] == old(turns)[candidates[c]];
        var also := AskCandidate(candidates[c]);
        PolicySplits(world, |old(turns)|, |before|, |turns|);
        applied := applied || also;
        ghost var span := Span(|before|, |turns|);
        NextSpan(rows, world, before, turns, candidates, spans, |old(turns)|, span);
        spans := spans + [span];
      }
    }

    /**
      Asks again while a settling has put a policy in effect: a round for each such change, over the
      rows that change made answerable, until a round changes no policy.
     */
    method AskAgain(changed: bool) returns (ghost rounds: seq<Round>)
      requires Valid()
      modifies `turns, `repairs, `reasks, `delivered, `sincePolicy
      ensures Valid() && old(turns) <= turns
      ensures RoundsSpoken(rows, world, turns, rounds, changed, |old(turns)|, old(sincePolicy), |turns|, sincePolicy)
      ensures forall i: nat :: Count(turns, i, Ask) == Count(old(turns), i, Ask)
    {
      var applied := changed;
      rounds := [];
      while applied
        invariant Valid() && old(turns) <= turns
        invariant forall i: nat :: Count(turns, i, Ask) == Count(old(turns), i, Ask)
        invariant RoundsLinked(world, rounds, changed, |old(turns)|, old(sincePolicy), |turns|, sincePolicy, applied)
        invariant AllSpoken(rows, world, turns, rounds)
        decreases ReasksLeft(rows, reasks), applied
      {
        ghost var before, since := turns, sincePolicy;
        ghost var spans;
        applied, spans := AskRound();
        ghost var next := Round(|before|, since, spans, |turns|);
        RoundsStay(rows, world, before, turns, rounds);
        RoundLinks(world, rounds, changed, |old(turns)|, old(sincePolicy), next, applied);
        rounds := rounds + [next];
      }
    }

    /** The rows in order. Each is asked once, settled, and followed by the re-asks it causes. */
    method SpeakRows() returns (ghost runs: seq<RowRun>)
      requires Valid() && turns == [] && sincePolicy == []
      modifies this
      ensures Valid() && |runs| == |rows| && RowsSpoken(rows, world, turns, runs, |turns|, sincePolicy)
      ensures forall i: nat :: Count(turns, i, Ask) == AsksOf(rows, i)
    {
      runs := [];
      for r := 0 to |rows|
        invariant Valid() && |runs| == r && RowsSpoken(rows, world, turns, runs, |turns|, sincePolicy)
        invariant forall i: nat :: Count(turns, i, Ask) == if i < r then AsksOf(rows, i) else 0
      {
        ghost var before := turns;
        ghost var run := SpeakRow(r);
        RowsStay(rows, world, before, turns, runs, |before|, run.since);
        RowLinks(runs, run);
        runs := runs + [run];
      }
    }

    method SpeakRow(r: nat) returns (ghost run: RowRun)
      requires Valid() && r < |rows|
      modifies this
      ensures Valid() && old(turns) <= turns && RowSpoken(rows, world, turns, r, run)
      ensures run.start == |old(turns)| && run.since == old(sincePolicy) && run.end == |turns| && run.left == sincePolicy
      ensures forall i: nat :: Count(turns, i, Ask) == Count(old(turns), i, Ask) + if i == r then AsksOf(rows, r) else 0
    {
      ghost var start, since := |turns|, sincePolicy;
      run := RowRun(start, since, start, [], start, since);
      if !rows[r].door.RootList? {
        AskFirst(r);
        var applied := Settle(r);
        ghost var settled, asked := |turns|, turns;
        ghost var rounds := AskAgain(applied);
        SettledStays(rows, world, asked, turns, start, settled);
        run := RowRun(start, since, settled, rounds, |turns|, sincePolicy);
      }
    }

    method AskFirst(r: nat)
      requires Valid() && r < |rows| && !rows[r].door.RootList?
      modifies `turns, `sincePolicy
      ensures Valid() && turns == old(turns) + [Spoken(r, Ask, DoorOf(rows[r]), [])]
      ensures sincePolicy == old(sincePolicy) + (if IsPublic(rows[r]) then [|old(turns)|] else [])
      ensures forall i: nat, k: Kind :: Count(turns, i, k) == Count(old(turns), i, k) + if i == r && k == Ask then 1 else 0
      ensures Count(turns, r, Continue) + MAX_CONTINUATIONS
              <= MAX_CONTINUATIONS * (Count(turns, r, Ask) + Count(turns, r, Reask))
    {
      assert TallyOk(turns, rows, r);
      TurnTallies(turns, rows, Spoken(r, Ask, DoorOf(rows[r]), []));
      if IsPublic(rows[r]) {
        sincePolicy := sincePolicy + [|turns|];
      }
      Say(Spoken(r, Ask, DoorOf(rows[r]), []));
      assert Delivered(old(turns)) + [] == Delivered(old(turns));
    }
  }

  lemma RoundLinks(
      world: World, rounds: seq<Round>, changed: bool, at: nat, since: seq<nat>, next: Round, applied: bool)
    requires RoundsLinked(world, rounds, changed, at, since, next.at, next.since, true)
    requires applied <==> PolicyApplied(world, next.at, next.end)
    ensures RoundsLinked(world, rounds + [next], changed, at, since, next.end, Starts(next.spans), applied)
  {
  }

  lemma RowLinks(runs: seq<RowRun>, next: RowRun)
    requires RowsLinked(runs, next.start, next.since)
    ensures RowsLinked(runs + [next], next.end, next.left)
  {
  }

  lemma {:induction false} CandidatesAreSince(world: World, since: seq<nat>, now: nat)
    ensures forall t :: t in Candidates(world, since, now) ==> t in since
  {
    if since != [] {
      CandidatesAreSince(world, since[..|since| - 1], now);
    }
  }

  lemma NextSpan(
      rows: seq<Row>, world: World, turns: seq<Spoken>, more: seq<Spoken>, candidates: seq<nat>, spans: seq<Span>, at: nat,
      span: Span)
    requires SpansSpoken(rows, world, turns, candidates, spans) && turns <= more && |spans| < |candidates|
    requires Chained(spans, at, span.start) && AskedAgain(rows, world, more, candidates[|spans|], span)
    ensures SpansSpoken(rows, world, more, candidates, spans + [span]) && Chained(spans + [span], at, span.end)
    ensures Starts(spans + [span]) == Starts(spans) + if span.start < span.end then [span.start] else []
  {
    SpansStay(rows, world, turns, more, candidates, spans);
    SpanLinks(spans, at, span);
  }

  lemma SpanLinks(spans: seq<Span>, at: nat, span: Span)
    requires Chained(spans, at, span.start)
    ensures Chained(spans + [span], at, span.end)
    ensures Starts(spans + [span]) == Starts(spans) + if span.start < span.end then [span.start] else []
  {
    assert (spans + [span])[..|spans|] == spans;
  }

  // ---- the theorem ----

  lemma CountsBoundRow(turns: seq<Spoken>, rows: seq<Row>, i: nat)
    requires TalliesOk(turns, rows) && i < |rows| && Count(turns, i, Ask) <= 1
    ensures CountRow(turns, i) <= Bound(rows[i])
  {
    assert TallyOk(turns, rows, i);
    RowIsItsKinds(turns, i);
    RowWithinName(turns, rows, i, Repair);
    RowWithinName(turns, rows, i, Reask);
    if rows[i].door.RootList? {
      NoTurnsOf(turns, rows, i);
    }
  }

  lemma {:induction false} NoTurnsOf(turns: seq<Spoken>, rows: seq<Row>, i: nat)
    requires i < |rows| && rows[i].door.RootList?
    requires forall k :: 0 <= k < |turns| ==> DoorOk(turns[k], rows)
    ensures CountRow(turns, i) == 0
  {
    if turns != [] {
      assert DoorOk(turns[|turns| - 1], rows);
      NoTurnsOf(turns[..|turns| - 1], rows, i);
    }
  }

  function SumOver(turns: seq<Spoken>, n: nat): nat {
    if n == 0 then 0 else SumOver(turns, n - 1) + CountRow(turns, n - 1)
  }

  lemma {:induction false} SumOverGrows(turns: seq<Spoken>, turn: Spoken, n: nat)
    ensures SumOver(turns + [turn], n) == SumOver(turns, n) + if turn.row < n then 1 else 0
  {
    assert (turns + [turn])[..|turns|] == turns;
    if n > 0 {
      SumOverGrows(turns, turn, n - 1);
    }
  }

  lemma {:induction false} SumOverNone(n: nat)
    ensures SumOver([], n) == 0
  {
    if n > 0 {
      SumOverNone(n - 1);
    }
  }

  /** Every turn belongs to a row, so the rows' counts add up to all of them. */
  lemma {:induction false} RowsAddUp(turns: seq<Spoken>, n: nat)
    requires forall k :: 0 <= k < |turns| ==> turns[k].row < n
    ensures SumOver(turns, n) == |turns|
  {
    if turns == [] {
      SumOverNone(n);
    } else {
      var init, last := turns[..|turns| - 1], turns[|turns| - 1];
      RowsAddUp(init, n);
      SumOverGrows(init, last, n);
      assert init + [last] == turns;
    }
  }

  lemma {:induction false} SumWithin(turns: seq<Spoken>, rows: seq<Row>, n: nat)
    requires n <= |rows| && forall i: nat :: i < |rows| ==> CountRow(turns, i) <= Bound(rows[i])
    ensures SumOver(turns, n) <= TotalBound(rows[..n])
  {
    if n > 0 {
      SumWithin(turns, rows, n - 1);
      assert rows[..n][..n - 1] == rows[..n - 1];
    }
  }

  /**
    Whatever the agent and the approver do, the driver stops, and the turns it spoke are just those
    that were due, in their order: each row's ask, its repairs and its continuations with what they
    deliver, and the rounds of re-asks after each policy change. A public row takes at most 15 turns,
    a `root say` row at most 7 and a `root list` row none, and no external result is delivered twice.
   */
  method Speak(rows: seq<Row>, world: World) returns (turns: seq<Spoken>)
    ensures exists runs, left :: |runs| == |rows| && RowsSpoken(rows, world, turns, runs, |turns|, left)
    ensures forall i: nat :: i < |rows| ==>
      CountRow(turns, i) <= (if IsPublic(rows[i]) then 15 else if rows[i].door.RootSay? then 7 else 0)
    ensures |turns| <= TotalBound(rows)
    ensures forall i: nat :: Count(turns, i, Ask) == AsksOf(rows, i)
    ensures forall k :: 0 <= k < |turns| ==> DoorOk(turns[k], rows)
    ensures Distinct(Delivered(turns))
  {
    var driver := new Driver(rows, world);
    ghost var runs := driver.SpeakRows();
    turns := driver.turns;
    forall i: nat | i < |rows| ensures CountRow(turns, i) <= Bound(rows[i]) {
      CountsBoundRow(turns, rows, i);
    }
    forall k | 0 <= k < |turns| ensures turns[k].row < |rows| {
      assert DoorOk(turns[k], rows);
    }
    RowsAddUp(turns, |rows|);
    SumWithin(turns, rows, |rows|);
    assert rows[..|rows|] == rows;
  }
}
