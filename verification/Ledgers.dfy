/**
  What each command does to the catalog, the proposals and the policy, and the tables changed in
  place. A Ledger is valid when a run of commands from its hatched policy led to it, so every
  theorem about runs is one about it.
 */
module Ledgers {
  import opened Wrappers
  import opened Json
  import opened Common
  import opened Declarations
  import opened StateDoc
  import opened Proposals
  import opened ProposalRuns

  // ---- what a command leaves alone ----

  predicate SameElsewhere(b: Book, n: Book, id: string) {
    n.proposals.Keys == b.proposals.Keys && forall q :: q in b.proposals && q != id ==> n.proposals[q] == b.proposals[q]
  }

  predicate SameEntriesBut(b: Book, n: Book, name: string) {
    && b.catalog.Keys <= n.catalog.Keys <= b.catalog.Keys + {name}
    && forall other :: other in b.catalog && other != name ==> n.catalog[other] == b.catalog[other]
  }

  predicate SamePolicy(b: Book, n: Book) {
    n.policy == b.policy && n.previousPolicy == b.previousPolicy && n.appliedPolicy == b.appliedPolicy
  }

  predicate SamePrompt(b: Book, n: Book) {
    n.selfDescription == b.selfDescription && n.previousPrompt == b.previousPrompt && n.appliedPrompt == b.appliedPrompt
  }

  // ---- telling ----

  /** The same words are told once. */
  lemma ToldOnce(b: Book, id: string, kind: string, text: string)
    requires id in b.proposals
    ensures
      var n := Tell(b, id, kind, text);
      && Tell(n, id, kind, text) == n && n.proposals[id] == b.proposals[id].(log := Some(text))
      && SameElsewhere(b, n, id) && n.catalog == b.catalog && SamePolicy(b, n) && SamePrompt(b, n)
      && n.inbox == b.inbox + (if b.proposals[id].log == Some(text) then []
                               else [InboxItem(kind, "proposal " + id + " (" + b.proposals[id].title + ") " + text)])
  {
    assert b.proposals[id := b.proposals[id]] == b.proposals;
  }

  // ---- approval ----

  // the proposal at id supersedes the one at q, and the two are for the same thing
  predicate TakesOver(b: Book, id: string, q: string)
    requires id in b.proposals && q in b.proposals
  {
    var p, target := b.proposals[id], b.proposals[q];
    && p.supersedes == Some(q) && target.kind == p.kind
    && (p.kind == "verb" ==> p.verb.Some? && target.verb.Some? && target.verb.value.name == p.verb.value.name)
  }

  // the proposal at id becomes p, the one it takes over from is superseded, and no other changes
  ghost predicate Supersedes(b: Book, id: string, p: Proposal, n: Book) {
    && id in b.proposals && n.proposals.Keys == b.proposals.Keys && n.proposals[id] == p
    && forall q :: q in b.proposals && q != id ==>
         n.proposals[q] == if TakesOver(b, id, q) then b.proposals[q].(status := "superseded") else b.proposals[q]
  }

  // a build has begun: its entry is the proposal's, and it alone is live under the name
  ghost predicate Began(b: Book, id: string, verb: Verb, recipeId: string, status: string, n: Book) {
    && id in b.proposals && SamePolicy(b, n) && SamePrompt(b, n) && n.inbox == b.inbox
    && Supersedes(b, id, b.proposals[id].(recipeId := Some(recipeId), status := status), n)
    && SameEntriesBut(b, n, verb.name) && verb.name in n.catalog
    && n.catalog[verb.name] == CatalogEntry(verb, status, Some(recipeId), id, []) && EntrySafe(n.catalog[verb.name])
    && forall q :: q in b.proposals && q != id && b.proposals[q].verb.Some? && b.proposals[q].verb.value.name == verb.name ==>
         n.proposals[q].status !in LIVE
  }

  // A build was refused: the proposal has failed and says why, and a verb that works under the name
  // still does; a free name shows the failure.
  ghost predicate BuildFailed(b: Book, id: string, verb: Verb, detail: string, n: Book) {
    && id in b.proposals && SamePolicy(b, n) && SamePrompt(b, n) && SameElsewhere(b, n, id)
    && n.proposals[id] == b.proposals[id].(status := "failed", log := Some("failed: " + detail))
    && b.inbox <= n.inbox && |n.inbox| == |b.inbox| + 1
    && n.catalog == if verb.name in b.catalog && b.catalog[verb.name].status != "disabled" then b.catalog
                    else b.catalog[verb.name := CatalogEntry(verb, "failed", None, id, [])]
  }

  // a policy or a prompt is in effect, and the one before it is kept
  ghost predicate TookEffect(b: Book, id: string, p: Proposal, n: Book) {
    && n.catalog == b.catalog && n.inbox == b.inbox
    && (p.policy.Some? ==>
          && n.policy == p.policy.value && PolicySafe(n.policy) && HooksFit(n.policy, n.catalog)
          && n.previousPolicy == Some(b.policy) && n.appliedPolicy == Some(id) && SamePrompt(b, n)
          && Supersedes(b, id, p.(status := "applied"), n))
    && (p.prompt.Some? ==>
          && n.selfDescription == p.prompt.value && n.previousPrompt == Some(b.selfDescription)
          && n.appliedPrompt == Some(id) && SamePolicy(b, n)
          && Supersedes(b, id, p.(status := "applied"), n))
  }

  // what follows a change of the proposal at id that leaves what it is for
  lemma SupersedingIsExact(b: Book, n: Book, id: string, p: Proposal)
    requires Inv(b) && id in b.proposals && n.proposals == b.proposals[id := p]
    requires p == b.proposals[id].(status := p.status, recipeId := p.recipeId, log := p.log)
    ensures Supersedes(b, id, p, Superseding(n, id))
  {
    assert Filed(b, id);
    var m := Superseding(n, id);
    forall q | q in b.proposals && q != id
      ensures m.proposals[q] == if TakesOver(b, id, q) then b.proposals[q].(status := "superseded") else b.proposals[q]
    {
      assert n.proposals[q] == b.proposals[q];
    }
  }

  lemma BuildBegins(b: Book, id: string, verb: Verb, recipeId: string, status: string)
    requires Inv(b) && id in b.proposals && b.proposals[id].status == "pending" && b.proposals[id].verb == Some(verb)
    requires RefuseVerb(b.proposals[id], verb, b).None? && status in LIVE
    ensures Began(b, id, verb, recipeId, status, BuildStarted(b, id, verb, recipeId, status))
  {
    var p := b.proposals[id].(recipeId := Some(recipeId), status := status);
    StartedEntries(b, id, verb, recipeId, status, verb.name);
    SupersedingIsExact(b, b.(proposals := b.proposals[id := p]), id, p);
    forall q | q in b.proposals && q != id && b.proposals[q].verb.Some? && b.proposals[q].verb.value.name == verb.name
      ensures BuildStarted(b, id, verb, recipeId, status).proposals[q].status !in LIVE
    {
      StartedProposals(b, id, verb, recipeId, status, q);
    }
  }

  lemma BuildFails(b: Book, id: string, verb: Verb, detail: string)
    requires id in b.proposals
    ensures BuildFailed(b, id, verb, detail, BuildRefused(b, id, verb, detail))
  {
    assert |"failed: " + detail| != |detail|;
  }

  lemma PolicyTakesEffect(b: Book, id: string, policy: Policy)
    requires Inv(b) && id in b.proposals && b.proposals[id].policy == Some(policy)
    requires RefusePolicy(policy, b.catalog).None?
    ensures TookEffect(b, id, b.proposals[id], PolicyApplied(b, id, policy))
  {
    assert Filed(b, id);
    RefusePolicyExact(policy, b.catalog);
    var applied := b.(previousPolicy := Some(b.policy), policy := policy, appliedPolicy := Some(id));
    SupersedingIsExact(b, WithStatus(applied, id, "applied"), id, b.proposals[id].(status := "applied"));
  }

  lemma PromptTakesEffect(b: Book, id: string, prompt: string)
    requires Inv(b) && id in b.proposals && b.proposals[id].prompt == Some(prompt)
    ensures TookEffect(b, id, b.proposals[id], PromptApplied(b, id, prompt))
  {
    assert Filed(b, id);
    var applied := b.(previousPrompt := Some(b.selfDescription), selfDescription := prompt, appliedPrompt := Some(id));
    SupersedingIsExact(b, WithStatus(applied, id, "applied"), id, b.proposals[id].(status := "applied"));
  }

  // a refusal is told, and leaves all else, the proposal's status included, as it was
  ghost predicate TurnedDown(b: Book, id: string, n: Book) {
    && id in b.proposals && n.catalog == b.catalog && SamePolicy(b, n) && SamePrompt(b, n) && SameElsewhere(b, n, id)
    && n.proposals[id] == b.proposals[id].(log := n.proposals[id].log) && b.inbox <= n.inbox
  }

  ghost predicate Answers(b: Book, id: string, submitted: Submitted, answer: Answer, n: Book) {
    match answer
    case NoProposal => id !in b.proposals && n == b
    case NotPending(status) => id in b.proposals && b.proposals[id].status == status && status != "pending" && n == b
    case Refused(reason) => TurnedDown(b, id, n) && RefuseApproval(b.proposals[id], b) == Some(reason)
    case BuildRejected =>
      id in b.proposals && b.proposals[id].verb.Some? && submitted.Rejected?
      && BuildFailed(b, id, b.proposals[id].verb.value, submitted.detail, n)
    case Building(status) =>
      id in b.proposals && b.proposals[id].verb.Some? && submitted.Accepted?
      && status == (if submitted.ready then "ready" else "building")
      && Began(b, id, b.proposals[id].verb.value, submitted.recipeId, status, n)
    case InEffect => id in b.proposals && b.proposals[id].verb.None? && TookEffect(b, id, b.proposals[id], n)
  }

  /**
    What an approval's answer means. Only a pending proposal that no rule refuses changes
    anything but the log: its build begins or fails, or it takes effect.
   */
  lemma ApprovalDoes(b: Book, id: string, submitted: Submitted, words: Reason -> string)
    requires Inv(b)
    ensures
      var r := Approve(b, id, submitted, words);
      && Answers(b, id, submitted, r.1, r.0)
      && (r.1.BuildRejected? || r.1.Building? || r.1.InEffect? <==>
            id in b.proposals && b.proposals[id].status == "pending" && RefuseApproval(b.proposals[id], b).None?)
  {
    if id in b.proposals && b.proposals[id].status == "pending" {
      var p := b.proposals[id];
      var reason := RefuseApproval(p, b);
      assert Filed(b, id);
      if reason.Some? {
        ToldOnce(b, id, "refusal", "refused: " + words(reason.value));
      } else if p.verb.Some? {
        if submitted.Rejected? {
          BuildFails(b, id, p.verb.value, submitted.detail);
        } else {
          BuildBegins(b, id, p.verb.value, submitted.recipeId, if submitted.ready then "ready" else "building");
        }
      } else if p.policy.Some? {
        PolicyTakesEffect(b, id, p.policy.value);
      } else if p.prompt.Some? {
        PromptTakesEffect(b, id, p.prompt.value);
      }
    }
  }

  // ---- rejecting, providing, disabling, reverting ----

  /** A rejection is final: no approval and no second rejection does anything after it. */
  lemma RejectionIsFinal(b: Book, id: string, reason: string, again: string, submitted: Submitted, words: Reason -> string)
    ensures
      var n := Reject(b, id, reason);
      if id in b.proposals && b.proposals[id].status in {"pending", "blocked"} then
        && n.proposals[id] == b.proposals[id].(status := "rejected") && SameElsewhere(b, n, id)
        && n.catalog == b.catalog && SamePolicy(b, n) && SamePrompt(b, n)
        && n.inbox == b.inbox + [InboxItem("rejection",
                                           "proposal " + id + " (" + b.proposals[id].title + ") was rejected: " + reason)]
        && Reject(n, id, again) == n && Approve(n, id, submitted, words) == (n, NotPending("rejected"))
      else n == b
  {
  }

  predicate Distinct(names: seq<string>) {
    forall i, j :: 0 <= i < j < |names| ==> names[i] != names[j]
  }

  predicate Requires(verb: Verb, name: string) {
    exists r :: r in verb.requirements && r.name == name
  }

  predicate ProvidedOk(e: CatalogEntry) {
    Distinct(e.provided) && forall i :: 0 <= i < |e.provided| ==> Requires(e.verb, e.provided[i])
  }

  predicate AllProvidedOk(b: Book) {
    forall name :: name in b.catalog ==> ProvidedOk(b.catalog[name])
  }

  lemma ProvideOnce(e: CatalogEntry, name: string)
    requires ProvidedOk(e) && Requires(e.verb, name) && name !in e.provided
    ensures ProvidedOk(e.(provided := e.provided + [name]))
  {
  }

  /** A name that a verb requires is recorded and told once; any other changes nothing. */
  lemma ProvidesOnce(b: Book, verb: string, name: string, words: (string, string) -> string)
    ensures
      var n := Provide(b, verb, name, words);
      && Provide(n, verb, name, words) == n
      && n.proposals == b.proposals && SamePolicy(b, n) && SamePrompt(b, n) && n.nextProposal == b.nextProposal
      && (if verb in b.catalog && Requires(b.catalog[verb].verb, name) && name !in b.catalog[verb].provided then
            && verb in n.catalog && SameEntriesBut(b, n, verb)
            && n.catalog[verb] == b.catalog[verb].(provided := b.catalog[verb].provided + [name])
            && n.inbox == b.inbox + [InboxItem("provide", words(verb, name))]
          else n == b)
  {
  }

  lemma ProvideOk(b: Book, verb: string, name: string, words: (string, string) -> string)
    requires AllProvidedOk(b)
    ensures AllProvidedOk(Provide(b, verb, name, words))
  {
    var n := Provide(b, verb, name, words);
    if n != b {
      assert ProvidedOk(b.catalog[verb]) && Requires(b.catalog[verb].verb, name);
      ProvideOnce(b.catalog[verb], name);
      forall other | other in n.catalog ensures ProvidedOk(n.catalog[other]) {
        if other != verb {
          assert ProvidedOk(b.catalog[other]);
        }
      }
    }
  }

  // each entry is an earlier one with another status, or a new one with nothing provided
  predicate EntriesFrom(b: Book, n: Book) {
    forall name :: name in n.catalog ==>
      n.catalog[name].provided == []
      || (name in b.catalog && n.catalog[name] == b.catalog[name].(status := n.catalog[name].status))
  }

  lemma EntriesFromOk(b: Book, n: Book)
    requires AllProvidedOk(b) && EntriesFrom(b, n)
    ensures AllProvidedOk(n)
  {
    forall name | name in n.catalog ensures ProvidedOk(n.catalog[name]) {
      if n.catalog[name].provided != [] {
        assert ProvidedOk(b.catalog[name]);
      }
    }
  }

  lemma ApproveEntries(b: Book, id: string, submitted: Submitted, words: Reason -> string)
    ensures EntriesFrom(b, Approve(b, id, submitted, words).0)
  {
    if id in b.proposals && b.proposals[id].status == "pending" && RefuseApproval(b.proposals[id], b).None? {
      var p := b.proposals[id];
      if p.verb.Some? {
        if submitted.Rejected? {
          BuildFails(b, id, p.verb.value, submitted.detail);
        }
      } else if p.policy.Some? {
        assert PolicyApplied(b, id, p.policy.value).catalog == b.catalog;
      } else if p.prompt.Some? {
        assert PromptApplied(b, id, p.prompt.value).catalog == b.catalog;
      }
    }
  }

  lemma ProposeEntries(b: Book, doc: Json)
    ensures Propose(b, doc).0.catalog == b.catalog
  {
    BornPending(b, doc);
  }

  lemma StepProvides(b: Book, c: Command, w: Wording)
    requires AllProvidedOk(b)
    ensures AllProvidedOk(Step(b, c, w))
  {
    match c
    case DoPropose(doc) => ProposeEntries(b, doc);
    case DoApprove(id, submitted) =>
      ApproveEntries(b, id, submitted, w.refusal);
      EntriesFromOk(b, Step(b, c, w));
    case DoProvide(verb, name) => ProvideOk(b, verb, name, w.provide);
    case DoPoll(names, builds) =>
      forall name ensures name in PollBuilds(b, names, builds).catalog ==>
          name in b.catalog && PollBuilds(b, names, builds).catalog[name] == Polled(b, names, builds, name)
      {
        PolledEntries(b, names, builds, name);
      }
      EntriesFromOk(b, Step(b, c, w));
    case _ => EntriesFromOk(b, Step(b, c, w));
  }

  /** What root provided for a verb is listed once each, and only what the verb requires. */
  lemma {:induction false} ProvidedOnceAndRequired(policy: Policy, commands: seq<Command>, w: Wording)
    ensures AllProvidedOk(Run(Hatched(policy), commands, w))
  {
    if commands != [] {
      ProvidedOnceAndRequired(policy, commands[..|commands| - 1], w);
      StepProvides(Run(Hatched(policy), commands[..|commands| - 1], w), commands[|commands| - 1], w);
    }
  }

  /** A verb and its proposal are disabled together, once, and nothing else changes. */
  lemma DisabledTogether(b: Book, verb: string)
    requires Inv(b)
    ensures
      var n := Disable(b, verb);
      if verb in b.catalog then
        var id := b.catalog[verb].proposalId;
        && verb in n.catalog && n.catalog[verb] == b.catalog[verb].(status := "disabled") && SameEntriesBut(b, n, verb)
        && id in n.proposals && n.proposals[id].status == "disabled" && SameElsewhere(b, n, id)
        && SamePolicy(b, n) && SamePrompt(b, n) && n.inbox == b.inbox
      else n == b
  {
    if verb in b.catalog {
      assert EntryAgrees(b, verb);
    }
  }

  lemma DisabledTwice(b: Book, verb: string)
    ensures Disable(Disable(b, verb), verb) == Disable(b, verb)
  {
    var n := Disable(b, verb);
    if verb in b.catalog {
      var id := b.catalog[verb].proposalId;
      assert n.catalog[verb := n.catalog[verb]] == n.catalog;
      if id in b.proposals {
        assert n.proposals[id := n.proposals[id]] == n.proposals;
      }
    }
  }

  /** The name of a disabled verb is free: no proposal is refused for it. */
  lemma DisabledNameIsFree(b: Book, p: Proposal, verb: Verb)
    requires p.verb == Some(verb)
    ensures
      var reason := RefuseApproval(p, Disable(b, verb.name));
      reason.None? || !reason.value.AlreadyExists?
  {
    if p.kind == "policy" && p.policy.Some? {
      var n := Disable(b, verb.name);
      HookReasons(p.policy.value.hooks, n.catalog);
    }
  }

  lemma {:induction false} HookReasons(hooks: seq<string>, catalog: map<string, CatalogEntry>)
    ensures
      var reason := RefuseHooks(hooks, catalog);
      reason.None? || !reason.value.AlreadyExists?
  {
    if hooks != [] {
      HookReasons(hooks[1..], catalog);
    }
  }

  /**
    What is in effect goes back to what it replaced, once, under the one id it was applied by;
    any other revert changes nothing.
   */
  lemma RevertIsOnce(b: Book, id: string)
    ensures
      var n := Revert(b, id);
      && Revert(n, id) == n && n.catalog == b.catalog && n.inbox == b.inbox && n.nextProposal == b.nextProposal
      && (if id in b.proposals && b.proposals[id].kind == "policy" && b.appliedPolicy == Some(id) && b.previousPolicy.Some? then
            && Some(n.policy) == b.previousPolicy && n.appliedPolicy.None? && n.previousPolicy.None? && SamePrompt(b, n)
            && SameElsewhere(b, n, id) && n.proposals[id] == b.proposals[id].(status := "reverted")
          else if id in b.proposals && b.proposals[id].kind == "prompt" && b.appliedPrompt == Some(id) && b.previousPrompt.Some? then
            && Some(n.selfDescription) == b.previousPrompt && n.appliedPrompt.None? && n.previousPrompt.None? && SamePolicy(b, n)
            && SameElsewhere(b, n, id) && n.proposals[id] == b.proposals[id].(status := "reverted")
          else n == b)
  {
  }

  // ---- polls ----

  // the end of a build's log, all of it if it is short
  predicate IsTail(tail: string, log: string) {
    if |log| <= 2000 then tail == log else |tail| == 2000 && tail == log[|log| - 2000..]
  }

  /** A build that is done settles its verb and its proposal together; one that failed leaves the end of its log. */
  lemma PollTells(b: Book, name: string, build: Build)
    requires Inv(b) && name in b.catalog
    ensures
      var n, e := PollOne(b, name, build), b.catalog[name];
      if e.status != "building" || e.recipeId.None? || build.status !in {"ready", "failed"} then n == b
      else
        && e.proposalId in b.proposals && SameElsewhere(b, n, e.proposalId) && SameEntriesBut(b, n, name)
        && name in n.catalog && n.catalog[name] == e.(status := build.status)
        && n.proposals[e.proposalId].status == build.status
        && (build.status == "failed" ==> n.proposals[e.proposalId].log.Some? && IsTail(n.proposals[e.proposalId].log.value, build.log))
        && (build.status == "ready" ==> n.proposals[e.proposalId].log == b.proposals[e.proposalId].log)
        && SamePolicy(b, n) && SamePrompt(b, n)
  {
    assert EntryAgrees(b, name);
  }

  // what the model is told of a build that is done
  function BuildEnd(name: string, id: string, build: Build): string {
    if build.status == "ready" then "verb " + name + " is ready"
    else
      "verb " + name + " failed to build (proposal " + id + "):\n"
      + if |build.log| <= 2000 then build.log else build.log[|build.log| - 2000..]
  }

  /** The model is told of a build once it is done, and then never again. */
  lemma PollSaysOnce(b: Book, name: string, build: Build, later: Build)
    requires name in b.catalog
    ensures
      var n, e := PollOne(b, name, build), b.catalog[name];
      if e.status != "building" || e.recipeId.None? || build.status !in {"ready", "failed"} then n.inbox == b.inbox
      else n.inbox == b.inbox + [InboxItem("build", BuildEnd(name, e.proposalId, build))] && PollOne(n, name, later) == n
  {
  }

  // the entry after the polls: settled by its build's status if it was building and is in the list
  function Polled(b: Book, names: seq<string>, builds: string -> Build, name: string): CatalogEntry
    requires name in b.catalog
  {
    if name in names && b.catalog[name].status == "building" && b.catalog[name].recipeId.Some?
       && builds(name).status in {"ready", "failed"} then
      b.catalog[name].(status := builds(name).status)
    else b.catalog[name]
  }

  /** A poll settles exactly the builds in its list that are done, whatever the list repeats. */
  lemma {:induction false} PolledEntries(b: Book, names: seq<string>, builds: string -> Build, name: string)
    ensures
      var n := PollBuilds(b, names, builds);
      n.catalog.Keys == b.catalog.Keys && (name in b.catalog ==> n.catalog[name] == Polled(b, names, builds, name))
  {
    if names != [] {
      var init, last := names[..|names| - 1], names[|names| - 1];
      PolledEntries(b, init, builds, name);
      PolledEntries(b, init, builds, last);
      assert name in names <==> name in init || name == last;
    }
  }

  /** The next command of a run. */
  lemma RunsOn(policy: Policy, history: seq<Command>, c: Command, w: Wording)
    ensures Run(Hatched(policy), history + [c], w) == Step(Run(Hatched(policy), history, w), c, w)
    ensures Inv(Run(Hatched(policy), history, w))
  {
    RunKeeps(policy, history, w);
    assert (history + [c])[..|history|] == history;
  }

  // ---- the tables, changed in place ----

  class Ledger {
    var catalog: map<string, CatalogEntry>
    var proposals: map<string, Proposal>
    var inbox: seq<InboxItem>
    var policy: Policy
    var selfDescription: string
    var previousPolicy: Option<Policy>
    var previousPrompt: Option<string>
    var appliedPolicy: Option<string>
    var appliedPrompt: Option<string>
    var nextProposal: nat
    const words: Wording
    ghost const hatched: Policy
    ghost var history: seq<Command>

    function View(): Book
      reads this
    {
      Book(catalog, proposals, inbox, policy, selfDescription, previousPolicy, previousPrompt, appliedPolicy, appliedPrompt,
           nextProposal)
    }

    ghost predicate Valid()
      reads this
    {
      View() == Run(Hatched(hatched), history, words)
    }

    constructor (policy: Policy, words: Wording)
      ensures Valid() && history == [] && hatched == policy && this.words == words
    {
      catalog, proposals, inbox, selfDescription := map[], map[], [], "";
      previousPolicy, previousPrompt, appliedPolicy, appliedPrompt, nextProposal := None, None, None, None, 1;
      this.policy, this.words, hatched, history := policy, words, policy, [];
    }

    /** A document that is accepted adds one pending proposal under an id never used, and that is all. */
    method ProposeDoc(doc: Json) returns (r: Result<Proposal, Refusal>)
      requires Valid()
      modifies this
      ensures Valid() && history == old(history) + [DoPropose(doc)]
      ensures r.Err? ==> View() == old(View())
      ensures r.Ok? ==>
        && r.value.id !in old(proposals) && r.value.status == "pending" && r.value.recipeId.None? && r.value.log.None?
        && View() == old(View()).(proposals := old(proposals)[r.value.id := r.value], nextProposal := old(nextProposal) + 1)
    {
      RunsOn(hatched, history, DoPropose(doc), words);
      BornPending(View(), doc);
      NextIdIsNew(View());
      r := Enter(ParseProposal(doc, PidOf(nextProposal)));
      history := history + [DoPropose(doc)];
    }

    method Enter(parsed: Result<Proposal, Refusal>) returns (r: Result<Proposal, Refusal>)
      modifies this
      ensures history == old(history) && (View(), r) == ProposeParsed(old(View()), parsed)
    {
      if parsed.Err? {
        return parsed;
      }
      var p := parsed.value;
      p := p.(status := "pending");
      p := p.(recipeId := None);
      p := p.(log := None);
      if p.supersedes.Some? && SupersedeTarget(View(), p).None? {
        return Err(BadSupersedes);
      }
      nextProposal := nextProposal + 1;
      proposals := proposals[p.id := p];
      return Ok(p);
    }

    method TellTheModel(id: string, kind: string, text: string)
      requires id in proposals
      modifies this
      ensures history == old(history) && View() == Tell(old(View()), id, kind, text)
    {
      var p := proposals[id];
      if p.log != Some(text) {
        inbox := inbox + [InboxItem(kind, "proposal " + id + " (" + p.title + ") " + text)];
        proposals := proposals[id := p.(log := Some(text))];
      }
    }

    method MarkTarget(id: string)
      requires id in proposals
      modifies this
      ensures history == old(history) && View() == Superseding(old(View()), id)
    {
      var target := SupersedeTarget(View(), proposals[id]);
      if target.Some? {
        proposals := proposals[target.value := proposals[target.value].(status := "superseded")];
      }
    }

    method Build(id: string, verb: Verb, submitted: Submitted) returns (answer: Answer)
      requires id in proposals
      modifies this
      ensures history == old(history)
      ensures submitted.Rejected? ==> answer == BuildRejected && View() == BuildRefused(old(View()), id, verb, submitted.detail)
      ensures submitted.Accepted? ==>
        answer == Building(if submitted.ready then "ready" else "building")
        && View() == BuildStarted(old(View()), id, verb, submitted.recipeId, answer.status)
    {
      match submitted
      case Rejected(detail) =>
        proposals := proposals[id := proposals[id].(status := "failed", log := Some(detail))];
        if verb.name !in catalog || catalog[verb.name].status == "disabled" {
          catalog := catalog[verb.name := CatalogEntry(verb, "failed", None, id, [])];
        }
        TellTheModel(id, "build", "failed: " + detail);
        answer := BuildRejected;
      case Accepted(recipeId, ready) =>
        var status := if ready then "ready" else "building";
        proposals := proposals[id := proposals[id].(recipeId := Some(recipeId), status := status)];
        MarkTarget(id);
        catalog := catalog[verb.name := CatalogEntry(verb, status, Some(recipeId), id, [])];
        answer := Building(status);
    }

    /** The answer says what the approval did. */
    method ApproveProposal(id: string, submitted: Submitted) returns (answer: Answer)
      requires Valid()
      modifies this
      ensures Valid() && history == old(history) + [DoApprove(id, submitted)]
      ensures Answers(old(View()), id, submitted, answer, View())
    {
      RunsOn(hatched, history, DoApprove(id, submitted), words);
      ApprovalDoes(View(), id, submitted, words.refusal);
      answer := Judge(id, submitted);
      history := history + [DoApprove(id, submitted)];
    }

    method Judge(id: string, submitted: Submitted) returns (answer: Answer)
      modifies this
      ensures history == old(history) && (View(), answer) == Approve(old(View()), id, submitted, words.refusal)
    {
      if id !in proposals {
        return NoProposal;
      }
      var p := proposals[id];
      if p.status != "pending" {
        return NotPending(p.status);
      }
      var reason := RefuseApproval(p, View());
      if reason.Some? {
        TellTheModel(id, "refusal", "refused: " + words.refusal(reason.value));
        return Refused(reason.value);
      }
      if p.verb.Some? {
        answer := Build(id, p.verb.value, submitted);
        return;
      }
      answer := Apply(id, p);
    }

    method Apply(id: string, p: Proposal) returns (answer: Answer)
      requires id in proposals && proposals[id] == p
      modifies this
      ensures history == old(history) && answer == InEffect
      ensures View() == if p.policy.Some? then PolicyApplied(old(View()), id, p.policy.value)
                        else if p.prompt.Some? then PromptApplied(old(View()), id, p.prompt.value) else old(View())
    {
      if p.policy.Some? {
        previousPolicy := Some(policy);
        policy := p.policy.value;
        appliedPolicy := Some(id);
      } else if p.prompt.Some? {
        previousPrompt := Some(selfDescription);
        selfDescription := p.prompt.value;
        appliedPrompt := Some(id);
      } else {
        return InEffect;
      }
      proposals := proposals[id := p.(status := "applied")];
      MarkTarget(id);
      return InEffect;
    }

    /** A proposal that waits is rejected for good; any other is left alone. */
    method RejectProposal(id: string, reason: string)
      requires Valid()
      modifies this
      ensures Valid() && history == old(history) + [DoReject(id, reason)]
      ensures catalog == old(catalog) && policy == old(policy) && selfDescription == old(selfDescription)
      ensures id !in old(proposals) || old(proposals)[id].status !in {"pending", "blocked"} ==> View() == old(View())
      ensures id in proposals ==> proposals[id].status !in {"pending", "blocked"}
    {
      RunsOn(hatched, history, DoReject(id, reason), words);
      if id in proposals && (proposals[id].status == "pending" || proposals[id].status == "blocked") {
        var text := "proposal " + id + " (" + proposals[id].title + ") was rejected: " + reason;
        proposals := proposals[id := proposals[id].(status := "rejected")];
        inbox := inbox + [InboxItem("rejection", text)];
      }
      history := history + [DoReject(id, reason)];
    }

    /** A name is added to what a verb was provided with only if the verb requires it, and once. */
    method ProvideName(verb: string, name: string)
      requires Valid()
      modifies this
      ensures Valid() && history == old(history) + [DoProvide(verb, name)] && AllProvidedOk(View())
      ensures proposals == old(proposals) && policy == old(policy) && catalog.Keys == old(catalog).Keys
      ensures verb in catalog && Requires(catalog[verb].verb, name) ==> name in catalog[verb].provided
      ensures verb !in old(catalog) || !Requires(old(catalog)[verb].verb, name) || name in old(catalog)[verb].provided ==>
        View() == old(View())
    {
      RunsOn(hatched, history, DoProvide(verb, name), words);
      ProvidedOnceAndRequired(hatched, history + [DoProvide(verb, name)], words);
      Record(verb, name);
      history := history + [DoProvide(verb, name)];
    }

    method Record(verb: string, name: string)
      modifies this
      ensures history == old(history) && View() == Provide(old(View()), verb, name, words.provide)
    {
      if verb in catalog {
        var e := catalog[verb];
        if (exists r :: r in e.verb.requirements && r.name == name) && name !in e.provided {
          catalog := catalog[verb := e.(provided := e.provided + [name])];
          inbox := inbox + [InboxItem("provide", words.provide(verb, name))];
        }
      }
    }

    /** A verb of the catalog is disabled, and its proposal with it. */
    method DisableVerb(verb: string)
      requires Valid()
      modifies this
      ensures Valid() && history == old(history) + [DoDisable(verb)]
      ensures verb !in old(catalog) ==> View() == old(View())
      ensures verb in old(catalog) ==>
        && verb in catalog && catalog[verb] == old(catalog)[verb].(status := "disabled")
        && SameEntriesBut(old(View()), View(), verb) && SameElsewhere(old(View()), View(), catalog[verb].proposalId)
        && catalog[verb].proposalId in proposals && proposals[catalog[verb].proposalId].status == "disabled"
    {
      RunsOn(hatched, history, DoDisable(verb), words);
      DisabledTogether(View(), verb);
      SwitchOff(verb);
      history := history + [DoDisable(verb)];
    }

    method SwitchOff(verb: string)
      modifies this
      ensures history == old(history) && View() == Disable(old(View()), verb)
    {
      if verb in catalog {
        var e := catalog[verb];
        catalog := catalog[verb := e.(status := "disabled")];
        if e.proposalId in proposals {
          proposals := proposals[e.proposalId := proposals[e.proposalId].(status := "disabled")];
        }
      }
    }

    /** What is in effect goes back to what it replaced, and cannot go back again. */
    method RevertProposal(id: string)
      requires Valid()
      modifies this
      ensures Valid() && history == old(history) + [DoRevert(id)]
      ensures catalog == old(catalog) && inbox == old(inbox) && !RevertsPolicy(View(), id) && !RevertsPrompt(View(), id)
      ensures RevertsPolicy(old(View()), id) ==> Some(policy) == old(previousPolicy) && selfDescription == old(selfDescription)
      ensures RevertsPrompt(old(View()), id) ==> Some(selfDescription) == old(previousPrompt) && policy == old(policy)
      ensures !RevertsPolicy(old(View()), id) && !RevertsPrompt(old(View()), id) ==> View() == old(View())
    {
      RunsOn(hatched, history, DoRevert(id), words);
      RevertIsOnce(View(), id);
      GoBack(id);
      history := history + [DoRevert(id)];
    }

    method GoBack(id: string)
      modifies this
      ensures history == old(history) && View() == Revert(old(View()), id)
    {
      if RevertsPolicy(View(), id) {
        policy := previousPolicy.value;
        appliedPolicy := None;
        previousPolicy := None;
      } else if RevertsPrompt(View(), id) {
        selfDescription := previousPrompt.value;
        appliedPrompt := None;
        previousPrompt := None;
      } else {
        return;
      }
      proposals := proposals[id := proposals[id].(status := "reverted")];
    }

    /** One poll of every build in the list: those that are done are settled, and no other entry moves. */
    method Poll(names: seq<string>, builds: string -> Build)
      requires Valid()
      modifies this
      ensures Valid() && history == old(history) + [DoPoll(names, builds)]
      ensures policy == old(policy) && catalog.Keys == old(catalog).Keys
      ensures forall name :: name in catalog ==> catalog[name] == Polled(old(View()), names, builds, name)
    {
      RunsOn(hatched, history, DoPoll(names, builds), words);
      forall name
        ensures PollBuilds(View(), names, builds).catalog.Keys == catalog.Keys
        ensures name in catalog ==> PollBuilds(View(), names, builds).catalog[name] == Polled(View(), names, builds, name)
      {
        PolledEntries(View(), names, builds, name);
      }
      PollStands(View(), names, builds);
      var i := 0;
      while i < |names|
        invariant i <= |names| && history == old(history)
        invariant View() == PollBuilds(old(View()), names[..i], builds)
      {
        assert names[..i + 1][..i] == names[..i];
        PollBuild(names[i], builds(names[i]));
        i := i + 1;
      }
      assert names[..i] == names;
      history := history + [DoPoll(names, builds)];
    }

    method PollBuild(name: string, build: Build)
      modifies this
      ensures history == old(history) && View() == PollOne(old(View()), name, build)
    {
      if name in catalog && catalog[name].status == "building" && catalog[name].recipeId.Some? {
        var e := catalog[name];
        if build.status == "ready" {
          catalog := catalog[name := e.(status := "ready")];
          if e.proposalId in proposals {
            proposals := proposals[e.proposalId := proposals[e.proposalId].(status := "ready")];
          }
          inbox := inbox + [InboxItem("build", "verb " + name + " is ready")];
        } else if build.status == "failed" {
          catalog := catalog[name := e.(status := "failed")];
          var tail := LogTail(build.log);
          if e.proposalId in proposals {
            proposals := proposals[e.proposalId := proposals[e.proposalId].(status := "failed")];
            proposals := proposals[e.proposalId := proposals[e.proposalId].(log := Some(tail))];
          }
          inbox := inbox + [InboxItem("build", "verb " + name + " failed to build (proposal " + e.proposalId + "):\n" + tail)];
        }
      }
    }
  }
}
