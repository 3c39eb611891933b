/** One process a command: load the document, act, save. Saving in between changes no run. */
module Saving {
  import opened Wrappers
  import opened Json
  import opened Common
  import opened Declarations
  import opened RoundTrips
  import opened StateDoc
  import opened Proposals
  import opened ProposalRuns

  // what the state holds beside the tables the commands change
  datatype Rest = Rest(
    turn: int, trials: map<string, Trial>, window: seq<Exchange>, pending: Option<Pending>, queue: seq<Arrival>,
    principals: set<string>, nextTrial: int)

  function StateOf(b: Book, r: Rest): State {
    State(r.turn, b.catalog, b.proposals, r.trials, b.inbox, r.window, r.pending, r.queue, r.principals, b.policy,
          b.selfDescription, b.previousPolicy, b.previousPrompt, b.appliedPolicy, b.appliedPrompt, b.nextProposal, r.nextTrial)
  }

  // the counter starts at 1 and only grows
  function BookOf(s: State): Book {
    Book(s.catalog, s.proposals, s.inbox, s.policy, s.selfDescription, s.previousPolicy, s.previousPrompt, s.appliedPolicy,
         s.appliedPrompt, if s.nextProposal < 0 then 0 else s.nextProposal)
  }

  // One process, which may leave anything at all in the rest of the state.
  ghost function Process(doc: Json, c: Command, rest: Rest, w: Wording): Result<Json, Refusal> {
    var s :- FromDoc(doc);
    Ok(ToDoc(StateOf(Step(BookOf(s), c, w), rest)))
  }

  ghost function Processes(doc: Json, steps: seq<(Command, Rest)>, w: Wording): Result<Json, Refusal> {
    if steps == [] then Ok(doc)
    else
      var saved :- Processes(doc, steps[..|steps| - 1], w);
      Process(saved, steps[|steps| - 1].0, steps[|steps| - 1].1, w)
  }

  function CommandsOf(steps: seq<(Command, Rest)>): seq<Command> {
    seq(|steps|, i requires 0 <= i < |steps| => steps[i].0)
  }

  function RestAfter(rest: Rest, steps: seq<(Command, Rest)>): Rest {
    if steps == [] then rest else steps[|steps| - 1].1
  }

  ghost predicate StepOk(step: (Command, Rest)) {
    HostOk(step.0) && TrialsDeclared(step.1.trials)
  }

  // the document of the state that the commands alone leave
  ghost function Saved(policy: Policy, commands: seq<Command>, rest: Rest, w: Wording): Json {
    ToDoc(StateOf(Run(Hatched(policy), commands, w), rest))
  }

  predicate HostsOk(commands: seq<Command>) {
    forall i :: 0 <= i < |commands| ==> HostOk(commands[i])
  }

  // a process that loads what a run left saves what the run with one more command leaves
  lemma ProcessIsStep(policy: Policy, commands: seq<Command>, rest: Rest, c: Command, next: Rest, w: Wording)
    requires PolicyOk(policy) && TrialsDeclared(rest.trials) && HostsOk(commands)
    ensures Process(Saved(policy, commands, rest, w), c, next, w) == Ok(Saved(policy, commands + [c], next, w))
  {
    var b := Run(Hatched(policy), commands, w);
    var s := StateOf(b, rest);
    ReachableStatesReadBack(policy, commands, w, s);
    assert BookOf(s) == b;
    assert (commands + [c])[..|commands|] == commands;
  }

  lemma StepsBefore(rest: Rest, steps: seq<(Command, Rest)>)
    requires steps != [] && TrialsDeclared(rest.trials) && forall i :: 0 <= i < |steps| ==> StepOk(steps[i])
    ensures
      var before := steps[..|steps| - 1];
      && HostsOk(CommandsOf(before)) && TrialsDeclared(RestAfter(rest, before).trials)
      && CommandsOf(steps) == CommandsOf(before) + [steps[|steps| - 1].0]
  {
    var before := steps[..|steps| - 1];
    forall i | 0 <= i < |before| ensures HostOk(CommandsOf(before)[i]) {
      assert StepOk(steps[i]);
    }
    assert before != [] ==> StepOk(steps[|before| - 1]);
  }

  /**
    However many processes act on the saved document, the last one leaves what the commands, run
    without a save or a load between them, leave: none is lost, none is refused, and nothing the
    next process reads differs from what the last one had.
   */
  lemma {:induction false} SavingChangesNoRun(policy: Policy, rest: Rest, steps: seq<(Command, Rest)>, w: Wording)
    requires PolicyOk(policy) && TrialsDeclared(rest.trials) && forall i :: 0 <= i < |steps| ==> StepOk(steps[i])
    ensures Processes(Saved(policy, [], rest, w), steps, w) == Ok(Saved(policy, CommandsOf(steps), RestAfter(rest, steps), w))
  {
    if steps == [] {
      assert CommandsOf(steps) == [];
    } else {
      var before, last := steps[..|steps| - 1], steps[|steps| - 1];
      SavingChangesNoRun(policy, rest, before, w);
      StepsBefore(rest, steps);
      ProcessIsStep(policy, CommandsOf(before), RestAfter(rest, before), last.0, last.1, w);
    }
  }
}
