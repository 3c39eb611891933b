/**
  A relay job: one upstream call with retries, then at most one delivery. The process may
  die at any await and be restarted; what survives is the stored row. Database writes succeed.
 */
module Relay {
  import opened Wrappers

  datatype Status = Queued | InProgress | Completed | Failed

  datatype DeliveryStatus = Pending | Delivered | Undelivered

  function Power2(n: nat): nat {
    if n == 0 then 1 else 2 * Power2(n - 1)
  }

  datatype RetryPolicy = RetryPolicy(attempts: nat, initialDelayMs: nat, maxDelayMs: nat) {
    // milliseconds between attempt and attempt + 1, counted from 0
    function Delay(attempt: nat): nat {
      var backoff := initialDelayMs * Power2(attempt);
      if backoff <= maxDelayMs then backoff else maxDelayMs
    }
  }

  /**
    The first wait is the initial delay, each later one doubles the one before it until the cap, and
    no wait exceeds the cap.
   */
  lemma DelayDoubles(policy: RetryPolicy, attempt: nat)
    ensures policy.Delay(0) == if policy.initialDelayMs <= policy.maxDelayMs then policy.initialDelayMs else policy.maxDelayMs
    ensures policy.Delay(attempt) <= policy.maxDelayMs
    ensures policy.Delay(attempt + 1) ==
            (if 2 * policy.Delay(attempt) <= policy.maxDelayMs then 2 * policy.Delay(attempt) else policy.maxDelayMs)
  {
    var backoff := policy.initialDelayMs * Power2(attempt);
    assert policy.initialDelayMs * Power2(attempt + 1) == 2 * backoff;
  }

  // the waits that follow attempts one after another, counted from first
  predicate Due(policy: RetryPolicy, first: nat, slept: seq<nat>) {
    forall i :: 0 <= i < |slept| ==> slept[i] == policy.Delay(first + i)
  }

  // How one upstream attempt ends.
  datatype Attempt =
    | Died                    // the process did, while it was in flight
    | Raised                  // an exception nobody foresaw
    | Final(error: string)
    | Transient(error: string)
    | Upstream(code: int)

  // How one delivery fork ends.
  datatype Fork =
    | DiedAfter(admitted: bool)
    | ForkRaised(error: string)
    | Forked(computer: string)
    | ForkDeferred(deferred: string)

  datatype Ephemeral = RunDied | RunRaised(error: string) | RunDone

  predicate Retried(code: int) {
    code in {408, 409, 429} || code >= 500
  }

  // a request timeout, a conflict, too many requests, or the server's fault
  predicate Temporary(code: int) {
    code == 408 || code == 409 || code == 429 || code >= 500
  }

  /** An answer is retried exactly for these codes. */
  lemma RetriedCodes(code: int)
    ensures Retried(code) <==> Temporary(code)
  {
  }

  predicate Settled(status: Status) {
    status == Completed || status == Failed
  }

  // The stored row.
  datatype Row = Row(
    status: Status, headers: Option<map<string, string>>, attempts: nat, error: Option<string>,
    responseCode: Option<int>, delivery: Option<DeliveryStatus>, deliveryAttempts: nat,
    computer: Option<string>, deferred: Option<string>, deliveryError: Option<string>)

  // ---- what a history of stored rows must be ----

  predicate RowOk(policy: RetryPolicy, row: Row) {
    && row.attempts <= policy.attempts
    && OutcomeOk(row)
    && (row.headers.None? <==> Settled(row.status))
    && (row.status == Queued ==> row.attempts == 0)
    && (row.delivery == Some(Delivered) ==> Settled(row.status) && row.computer.Some? != row.deferred.Some?)
    && (row.delivery == Some(Undelivered) ==> Settled(row.status))
    && (row.delivery != Some(Delivered) ==> row.computer.None? && row.deferred.None?)
  }

  // completed only on an answer that is final, failed only with a reason
  predicate OutcomeOk(row: Row) {
    && (row.status == Completed ==> row.error.None? && row.responseCode.Some? && !Temporary(row.responseCode.value))
    && (row.status == Failed ==> row.error.Some?)
  }

  // an attempt that ended so is followed by another, while there are attempts left
  predicate Followed(outcome: Attempt) {
    outcome.Transient? || (outcome.Upstream? && Temporary(outcome.code))
  }

  predicate AllFollowed(tries: seq<Attempt>) {
    forall i :: 0 <= i < |tries| - 1 ==> Followed(tries[i])
  }

  // What one process's attempts say of the row it settled: complete with the last answer, or failed
  // because the last one failed for good or no attempt was left.
  predicate Explains(policy: RetryPolicy, tries: seq<Attempt>, row: Row) {
    && (row.status == Completed ==>
          && tries != [] && tries[|tries| - 1].Upstream? && !Temporary(tries[|tries| - 1].code)
          && row.responseCode == Some(tries[|tries| - 1].code))
    && (row.status == Failed ==>
          || (row.attempts == policy.attempts && (tries == [] || Followed(tries[|tries| - 1])))
          || (tries != [] && (tries[|tries| - 1].Final? || tries[|tries| - 1].Raised?)))
  }

  // only what the upstream call decides differs
  predicate SameButOutcome(r: Row, s: Row) {
    s == r.(status := s.status, error := s.error, responseCode := s.responseCode)
  }

  predicate RowStep(r: Row, s: Row) {
    && r.attempts <= s.attempts
    && (Settled(r.status) ==> s.status == r.status && s.headers == r.headers && s.attempts == r.attempts
                               && s.responseCode == r.responseCode && s.error == r.error)
    && (r.status == InProgress ==> s.status != Queued)
    && (r.delivery.None? <==> s.delivery.None?)
    && (r.delivery.Some? && r.delivery != Some(Pending) ==> s.delivery == r.delivery)
  }

  ghost predicate HistoryOk(policy: RetryPolicy, history: seq<Row>) {
    && history != []
    && (forall i :: 0 <= i < |history| ==> RowOk(policy, history[i]))
    && (forall i :: 0 <= i < |history| - 1 ==> RowStep(history[i], history[i + 1]))
  }

  /** Once a job is settled its result never changes and its headers never come back. */
  lemma {:induction false} SettledStays(policy: RetryPolicy, history: seq<Row>, i: nat, j: nat)
    requires HistoryOk(policy, history) && i <= j < |history| && Settled(history[i].status)
    ensures history[j].status == history[i].status && history[j].headers.None?
    ensures history[j].responseCode == history[i].responseCode && history[j].attempts == history[i].attempts
    decreases j - i
  {
    if i < j {
      assert RowStep(history[i], history[i + 1]);
      SettledStays(policy, history, i + 1, j);
    } else {
      assert RowOk(policy, history[i]);
    }
  }

  /** A delivery status leaves pending at most once, and is then final. */
  lemma {:induction false} DeliveryIsFinal(policy: RetryPolicy, history: seq<Row>, i: nat, j: nat)
    requires HistoryOk(policy, history) && i <= j < |history|
    requires history[i].delivery.Some? && history[i].delivery != Some(Pending)
    ensures history[j].delivery == history[i].delivery
    decreases j - i
  {
    if i < j {
      assert RowStep(history[i], history[i + 1]);
      DeliveryIsFinal(policy, history, i + 1, j);
    }
  }

  lemma HistoryGrows(policy: RetryPolicy, history: seq<Row>, row: Row)
    requires HistoryOk(policy, history) && RowOk(policy, row) && RowStep(history[|history| - 1], row)
    ensures HistoryOk(policy, history + [row])
  {
    var more := history + [row];
    forall i | 0 <= i < |more| - 1 ensures RowStep(more[i], more[i + 1]) {
      if i < |history| - 1 {
        assert RowStep(history[i], history[i + 1]);
      }
    }
  }

  // ---- the job ----

  class RelayJob {
    const policy: RetryPolicy
    const deliver: bool

    // the fields of the job in memory
    var row: Row

    // the row in the database, and every row it ever held
    var stored: Row
    ghost var history: seq<Row>
    // what has happened outside
    ghost var calls: nat
    ghost var forks: nat
    ghost var waits: seq<nat>

    // at every await, whatever the fields in memory
    ghost predicate Durable()
      reads this
    {
      && HistoryOk(policy, history) && stored == history[|history| - 1]
      && (stored.delivery.Some? <==> deliver)
      && calls <= stored.attempts
      && forks <= 1
      && (forks == 1 ==> Settled(stored.status))
      && (stored.delivery == Some(Delivered) ==> forks == 1)
      && (forall i :: 0 <= i < |waits| ==> waits[i] <= policy.maxDelayMs)
    }

    // the fields in memory are what is stored
    ghost predicate Fresh()
      reads this
    {
      Durable() && row == stored
    }

    constructor Submit(policy: RetryPolicy, headers: map<string, string>, deliver: bool)
      ensures Fresh() && this.policy == policy && this.deliver == deliver
      ensures calls == 0 && forks == 0 && waits == [] && |history| == 1
      ensures stored.status == Queued && stored.headers == Some(headers)
    {
      this.policy := policy;
      this.deliver := deliver;
      var first := Row(Queued, Some(headers), 0, None, None, if deliver then Some(Pending) else None, 0, None, None, None);
      row, stored := first, first;
      history := [first];
      calls, forks, waits := 0, 0, [];
    }

    method Save()
      requires Durable() && RowOk(policy, row) && RowStep(stored, row)
      requires row.delivery == Some(Delivered) ==> forks == 1
      modifies this`stored, this`history
      ensures Fresh() && history == old(history) + [row]
    {
      HistoryGrows(policy, history, row);
      stored := row;
      history := history + [row];
    }

    method Sleep(ms: nat) returns (died: bool)
      requires Durable() && ms <= policy.maxDelayMs
      modifies this`waits
      ensures Durable() && waits == old(waits) + [ms]
    {
      waits := waits + [ms];
      died := *;
    }

    // What an attempt that came back makes of the job, and whether another follows.
    method Conclude(outcome: Attempt, more: bool) returns (again: bool)
      requires !outcome.Died? && !outcome.Raised? && row.status == InProgress
      modifies this`row
      ensures SameButOutcome(old(row), row)
      ensures again <==> more && (outcome.Transient? || (outcome.Upstream? && Temporary(outcome.code)))
      ensures row.status == if again then InProgress
                            else if outcome.Upstream? && !Temporary(outcome.code) then Completed else Failed
      ensures OutcomeOk(row)
      ensures row.responseCode == if outcome.Upstream? then Some(outcome.code) else old(row.responseCode)
      ensures outcome.Final? || outcome.Transient? ==> row.error == Some(outcome.error)
    {
      again := false;
      match outcome
      case Final(error) =>
        row := row.(status := Failed, error := Some(error));
      case Transient(error) =>
        row := row.(error := Some(error));
        again := more;
        if !more {
          row := row.(status := Failed);
        }
      case Upstream(code) =>
        row := row.(responseCode := Some(code));
        if Retried(code) {
          row := row.(error := Some("HTTP"));
          again := more;
          if !more {
            row := row.(status := Failed);
          }
        } else {
          row := row.(status := Completed, error := None);
        }
    }

    // one attempt: it is counted before it is made
    method TryOnce(attempt: nat) returns (died: bool, raised: bool, again: bool, ghost outcome: Attempt)
      requires Durable() && !Settled(stored.status) && !Settled(row.status) && forks == 0
      requires row.attempts == attempt < policy.attempts && row.status == stored.status && SameButOutcome(stored, row)
      modifies this`row, this`stored, this`history, this`calls
      ensures Durable() && !Settled(stored.status) && old(history) <= history && calls == old(calls) + 1
      ensures row.attempts == attempt + 1 && SameButOutcome(stored, row)
      ensures (died <==> outcome.Died?) && (raised <==> outcome.Raised?)
      ensures !died && !raised ==>
        && (again <==> Followed(outcome) && attempt + 1 < policy.attempts)
        && (again ==> row.status == stored.status)
        && (!again ==> Settled(row.status) && OutcomeOk(row) && Explains(policy, [outcome], row))
    {
      died, raised, again := false, false, false;
      row := row.(attempts := attempt + 1, status := InProgress);
      Save();
      calls := calls + 1;
      var came: Attempt := *;
      outcome := came;
      match came
      case Died => died := true;
      case Raised => raised := true;
      case Final(_) => again := Conclude(came, attempt + 1 < policy.attempts);
      case Transient(_) => again := Conclude(came, attempt + 1 < policy.attempts);
      case Upstream(_) => again := Conclude(came, attempt + 1 < policy.attempts);
    }

    /**
      The upstream call with its retries. It ends with the status settled in memory, with an
      unforeseen exception, or with the process dead. Every attempt but its last was one to follow,
      after the wait that is due; it gives up only on a final error or with no attempt left.
     */
    method Call() returns (died: bool, raised: bool, ghost tries: seq<Attempt>, ghost slept: seq<nat>)
      requires Fresh() && !Settled(row.status) && forks == 0
      modifies this`row, this`stored, this`history, this`calls, this`waits
      ensures Durable() && !Settled(stored.status) && old(history) <= history
      ensures died || raised || (Settled(row.status) && OutcomeOk(row))
      ensures !died ==> && row.attempts == stored.attempts && row.headers == stored.headers
                        && row.delivery == stored.delivery
                        && row.computer == stored.computer && row.deferred == stored.deferred
      ensures AllFollowed(tries) && calls == old(calls) + |tries|
      ensures !died ==> row.attempts == old(row.attempts) + |tries|
      ensures !died && !raised ==> Explains(policy, tries, row)
      ensures raised ==> !died && tries != [] && tries[|tries| - 1].Raised?
      ensures waits == old(waits) + slept && Due(policy, old(row.attempts), slept)
      ensures !died ==> |slept| == if tries == [] then 0 else |tries| - 1
    {
      died, raised, tries, slept := false, false, [], [];
      var attempt := row.attempts;
      while attempt < policy.attempts
        invariant attempt <= policy.attempts && row.attempts == attempt == old(row.attempts) + |tries|
        invariant old(history) <= history && forks == 0
        invariant Durable() && !Settled(stored.status) && !Settled(row.status)
        invariant row.status == stored.status && SameButOutcome(stored, row)
        invariant calls == old(calls) + |tries| && forall i :: 0 <= i < |tries| ==> Followed(tries[i])
        invariant waits == old(waits) + slept && Due(policy, old(row.attempts), slept) && |slept| == |tries|
        invariant !died && !raised && (tries != [] ==> attempt < policy.attempts)
      {
        ghost var outcome;
        var again;
        died, raised, again, outcome := TryOnce(attempt);
        tries := tries + [outcome];
        if died || raised {
          return;
        }
        if !again {
          return;
        }
        DelayDoubles(policy, attempt);
        slept := slept + [policy.Delay(attempt)];
        died := Sleep(policy.Delay(attempt));
        if died {
          return;
        }
        attempt := attempt + 1;
      }
      row := row.(status := Failed, error := if row.error.Some? then row.error else Some("attempts exhausted"));
    }

    // What a process that was not killed leaves stored: nothing for a restart to do.
    ghost predicate Finished()
      reads this
    {
      && Durable() && Settled(stored.status) && stored.delivery != Some(Pending)
      && (forks == 1 ==> stored.delivery == Some(Delivered))
    }

    /**
      Unless the process dies in it, the job ends settled and its delivery decided; and what
      settled it are this process's attempts.
     */
    method Run() returns (died: bool, ghost tries: seq<Attempt>)
      requires Fresh() && !Settled(row.status) && forks == 0
      modifies this`row, this`stored, this`history, this`calls, this`forks, this`waits
      ensures Durable() && old(history) <= history
      ensures !died ==> Finished()
      ensures AllFollowed(tries) && calls == old(calls) + |tries|
      ensures Settled(stored.status) ==> Explains(policy, tries, stored) && stored.attempts == old(row.attempts) + |tries|
    {
      var raised;
      ghost var slept;
      died, raised, tries, slept := Call();
      if died {
        return;
      }
      if raised {
        row := row.(status := Failed, error := Some("unexpected"));
      }
      assert RowOk(policy, stored) && row.delivery != Some(Delivered) && row.delivery != Some(Undelivered);
      assert row.delivery.Some? ==> row.delivery.value == Pending;
      assert row.delivery.Some? ==> row.delivery == Some(Pending);
      row := row.(headers := None);
      died := *;
      if died {
        return;
      }
      ghost var before := history;
      Save();
      assert history[|before|] == row;
      died := *;
      if !died && deliver {
        ghost var forkTries;
        died, forkTries := Deliver();
      }
      SettledStays(policy, history, |before|, |history| - 1);
    }

    // how a delivery that was admitted is recorded
    predicate Recorded(fork: Fork, r: Row) {
      match fork
      case Forked(computer) => r.computer == Some(computer) && r.deferred.None?
      case ForkDeferred(deferred) => r.deferred == Some(deferred) && r.computer.None?
      case _ => false
    }

    /**
      Fork the target label until one fork is admitted or the attempts are spent. Once one is, no
      other follows, and it is what is recorded.
     */
    method Deliver() returns (died: bool, ghost tries: seq<Fork>)
      requires Fresh() && Settled(row.status) && row.delivery == Some(Pending) && forks == 0 && deliver
      modifies this`row, this`stored, this`history, this`forks, this`waits
      ensures Durable() && old(history) <= history
      ensures !died ==> Finished()
      ensures !died && forks == 0 ==>
        stored.deliveryError == Some("account not found") || |tries| == stored.deliveryAttempts == policy.attempts || policy.attempts == 0
      ensures AllRaised(tries) && (!died && forks == 1 ==> tries != [] && Recorded(tries[|tries| - 1], stored))
    {
      tries := [];
      died := *;
      if died {
        return;
      }
      var account: bool := *;
      if !account {
        row := row.(delivery := Some(Undelivered), deliveryError := Some("account not found"));
        Save();
        return;
      }
      var admitted;
      ghost var slept;
      died, admitted, tries, slept := TryForks();
      if died {
        return;
      }
      if !admitted {
        row := row.(delivery := Some(Undelivered));
        Save();
        return;
      }
      if row.deferred.Some? {
        return;
      }
      var run: Ephemeral := *;
      if run.RunDied? {
        died := true;
      } else if run.RunRaised? {
        row := row.(deliveryError := Some(run.error));
        Save();
      }
    }

    // all but the last, which may have been admitted
    ghost predicate AllRaised(tries: seq<Fork>) {
      forall i :: 0 <= i < |tries| - 1 ==> tries[i].ForkRaised?
    }

    // As many tries as the policy allows, each but the last one that raised and was followed by the wait due.
    method TryForks() returns (died: bool, admitted: bool, ghost tries: seq<Fork>, ghost slept: seq<nat>)
      requires Fresh() && Settled(row.status) && row.delivery == Some(Pending) && forks == 0
      modifies this`row, this`stored, this`history, this`forks, this`waits
      ensures Durable() && old(history) <= history && AllRaised(tries)
      ensures !died ==> Fresh() && Settled(row.status) && row.delivery == Some(if admitted then Delivered else Pending)
      ensures !died ==> forks == if admitted then 1 else 0
      ensures !died && admitted ==> tries != [] && Recorded(tries[|tries| - 1], row)
      ensures !died && !admitted ==> |tries| == policy.attempts && (tries != [] ==> row.deliveryAttempts == policy.attempts)
      ensures waits == old(waits) + slept && Due(policy, 0, slept)
      ensures !died ==> |slept| == if tries == [] then 0 else |tries| - 1
    {
      died, admitted, tries, slept := false, false, [], [];
      var attempt := 0;
      while attempt < policy.attempts && !admitted
        invariant Fresh() && Settled(row.status) && old(history) <= history
        invariant row.delivery == Some(if admitted then Delivered else Pending)
        invariant forks == if admitted then 1 else 0
        invariant attempt == |tries| <= policy.attempts && (attempt > 0 && !admitted ==> row.deliveryAttempts == attempt)
        invariant AllRaised(tries) && (tries != [] && !admitted ==> tries[|tries| - 1].ForkRaised?)
        invariant admitted ==> tries != [] && Recorded(tries[|tries| - 1], row)
        invariant waits == old(waits) + slept && Due(policy, 0, slept)
        invariant |slept| == if admitted || attempt == policy.attempts then (if attempt == 0 then 0 else attempt - 1) else attempt
        decreases policy.attempts - attempt, !admitted
      {
        ghost var fork, slept';
        died, admitted, fork, slept' := TryFork(attempt);
        tries, slept := tries + [fork], slept + slept';
        if died {
          return;
        }
        attempt := attempt + 1;
      }
    }

    // one attempt at the fork; the process may die in it with the fork admitted or not
    method TryFork(attempt: nat) returns (died: bool, admitted: bool, ghost fork: Fork, ghost slept: seq<nat>)
      requires Fresh() && Settled(row.status) && row.delivery == Some(Pending) && forks == 0
      modifies this`row, this`stored, this`history, this`forks, this`waits
      ensures Durable() && old(history) <= history
      ensures !died ==> Fresh() && Settled(row.status) && row.delivery == Some(if admitted then Delivered else Pending)
      ensures !died ==> forks == (if admitted then 1 else 0) && row.deliveryAttempts == attempt + 1
      ensures !died ==> if admitted then Recorded(fork, row) else fork.ForkRaised?
      ensures waits == old(waits) + slept
      ensures slept == if fork.ForkRaised? && attempt + 1 < policy.attempts then [policy.Delay(attempt)] else []
    {
      died, admitted, slept := false, false, [];
      row := row.(deliveryAttempts := attempt + 1);
      var outcome: Fork := *;
      fork := outcome;
      match outcome
      case DiedAfter(was) =>
        forks := if was then 1 else 0;
        died := true;
      case ForkRaised(error) =>
        row := row.(deliveryError := Some(error));
        Save();
        if attempt + 1 < policy.attempts {
          DelayDoubles(policy, attempt);
          slept := [policy.Delay(attempt)];
          died := Sleep(policy.Delay(attempt));
        }
      case ForkDeferred(deferred) =>
        forks := 1;
        row := row.(deferred := Some(deferred), computer := None, delivery := Some(Delivered), deliveryError := None);
        Save();
        admitted := true;
      case Forked(computer) =>
        forks := 1;
        row := row.(computer := Some(computer), deferred := None, delivery := Some(Delivered), deliveryError := None);
        Save();
        admitted := true;
    }

    /** Startup: a job left unsettled ends settled, unless this process dies in it too. */
    method Resume(loaded: Row) returns (died: bool, ghost tries: seq<Attempt>)
      requires Durable() && loaded == stored
      modifies this`row, this`stored, this`history, this`calls, this`forks, this`waits
      ensures Durable() && old(history) <= history
      ensures Settled(loaded.status) ==> stored == loaded && history == old(history) && calls == old(calls) && forks == old(forks)
      ensures !Settled(loaded.status) && !died ==> Finished()
      ensures AllFollowed(tries) && calls == old(calls) + |tries|
      ensures !Settled(loaded.status) && Settled(stored.status) ==> Explains(policy, tries, stored)
    {
      row := loaded;
      died, tries := false, [];
      if row.status == Queued || row.status == InProgress {
        died, tries := Run();
      }
    }
  }

  /**
    A job through any number of deaths and restarts, each at any await. It starts at most
    `attempts` upstream calls, admits at most one delivery fork, never waits longer than the cap,
    and its stored rows hold credentials exactly until it is settled. In each process every call
    but its last was one to retry, and the job settles as the calls of one process have it:
    complete with its last answer, or failed for good or with no attempt left. Once one process has
    survived the job is settled, and if that process settled it, its delivery is decided too.
   */
  method Life(policy: RetryPolicy, headers: map<string, string>, deliver: bool, restarts: nat)
    returns (last: Row, survived: bool, decided: bool,
             ghost history: seq<Row>, ghost calls: nat, ghost forks: nat, ghost waits: seq<nat>, ghost lives: seq<seq<Attempt>>)
    ensures HistoryOk(policy, history) && last == history[|history| - 1]
    ensures history[0].status == Queued && history[0].headers == Some(headers)
    ensures calls <= last.attempts <= policy.attempts
    ensures forks <= 1 && (last.delivery == Some(Delivered) ==> forks == 1)
    ensures forall i :: 0 <= i < |waits| ==> waits[i] <= policy.maxDelayMs
    ensures last.headers.None? <==> Settled(last.status)
    ensures survived ==> Settled(last.status) && OutcomeOk(last)
    ensures decided ==> survived && last.delivery != Some(Pending) && (last.delivery == Some(Delivered) <==> forks == 1)
    ensures restarts == 0 ==> decided == survived
    ensures |lives| == restarts + 1 && forall i :: 0 <= i < |lives| ==> AllFollowed(lives[i])
    ensures Settled(last.status) ==> exists i :: 0 <= i < |lives| && Explains(policy, lives[i], last)
  {
    var job := new RelayJob.Submit(policy, headers, deliver);
    ghost var first := job.history[0];
    ghost var tries;
    var died;
    died, tries := job.Run();
    lives := [tries];
    assert lives[0] == tries;
    survived, decided := !died, !died;
    for i := 0 to restarts
      invariant job.Durable() && job.policy == policy && job.history[0] == first
      invariant survived ==> Settled(job.stored.status)
      invariant decided ==> survived && job.Finished()
      invariant i == 0 ==> decided == survived
      invariant |lives| == i + 1 && forall k :: 0 <= k < |lives| ==> AllFollowed(lives[k])
      invariant Settled(job.stored.status) ==> exists k :: 0 <= k < |lives| && Explains(policy, lives[k], job.stored)
    {
      var loaded := job.stored;
      ghost var before := lives;
      died, tries := job.Resume(loaded);
      lives := lives + [tries];
      assert Settled(loaded.status) || !died ==> Settled(job.stored.status);
      if Settled(loaded.status) {
        ghost var k :| 0 <= k < |before| && Explains(policy, before[k], loaded);
        assert lives[k] == before[k];
      } else {
        assert lives[|before|] == tries;
      }
      decided := decided || (!died && !Settled(loaded.status));
      survived := survived || !died;
    }
    last := job.stored;
    history, calls, forks, waits := job.history, job.calls, job.forks, job.waits;
    assert RowOk(policy, last);
  }
}
