/**
  Proposals and the catalog: propose, approve, reject, provide, disable, revert and build polls.
  How a refusal is worded, and what the host answers to a build, are arguments.
 */
module Proposals {
  import opened Wrappers
  import opened Json
  import opened Common
  import opened Declarations
  import opened StateDoc

  const LOG_TAIL := 2000

  datatype Book = Book(
    catalog: map<string, CatalogEntry>, proposals: map<string, Proposal>, inbox: seq<InboxItem>,
    policy: Policy, selfDescription: string, previousPolicy: Option<Policy>, previousPrompt: Option<string>,
    appliedPolicy: Option<string>, appliedPrompt: Option<string>, nextProposal: nat)

  function Hatched(policy: Policy): Book {
    Book(map[], map[], [], policy, "", None, None, None, None, 1)
  }

  // ---- ids ----

  function PidOf(n: nat): string {
    "p-" + Decimal(n)
  }

  lemma PidInjective(a: nat, b: nat)
    requires PidOf(a) == PidOf(b)
    ensures a == b
  {
    assert PidOf(a)[2..] == Decimal(a) && PidOf(b)[2..] == Decimal(b);
    DecimalInjective(a, b);
  }

  // ---- what no approval may do ----

  datatype Reason =
    | EffectNotApproved(effect: string) | ReservedAsserts(asserts: string)
    | AlreadyExists(verb: string, proposalId: string) | BreaksLiveHook(verb: string)
    | OpenWithoutHook | NotInCatalog(hook: string, catalog: set<string>) | AssertsNothing(hook: string)
    | HookParameters(hook: string) | AnonymousProposes

  function GrantOf(policy: Policy, principal: string): Grant {
    if principal in policy.principals then policy.principals[principal] else Grant(Only([]), false)
  }

  predicate Allows(grant: Grant, verb: string) {
    grant.invoke.Everything? || verb in grant.invoke.verbs
  }

  predicate MayInvoke(principal: string, verb: Verb, policy: Policy) {
    if principal == ROOT then true
    else if principal in policy.principals then Allows(GrantOf(policy, principal), verb.name)
    else principal in verb.allow
  }

  predicate MayPropose(principal: string, policy: Policy) {
    if principal == ROOT then true
    else if principal == ANONYMOUS then false
    else GrantOf(policy, principal).propose
  }

  predicate OneParameter(verb: Verb) {
    Properties(verb.params).Obj? && |Properties(verb.params).fields| == 1
  }

  function RefuseHooks(hooks: seq<string>, catalog: map<string, CatalogEntry>): Option<Reason> {
    if hooks == [] then None
    else if hooks[0] !in catalog then Some(NotInCatalog(hooks[0], catalog.Keys))
    else if catalog[hooks[0]].verb.asserts.None? then Some(AssertsNothing(hooks[0]))
    else if !OneParameter(catalog[hooks[0]].verb) then Some(HookParameters(hooks[0]))
    else RefuseHooks(hooks[1..], catalog)
  }

  function RefusePolicy(policy: Policy, catalog: map<string, CatalogEntry>): Option<Reason> {
    if policy.door == "open" && policy.hooks == [] then Some(OpenWithoutHook)
    else
      var hooks := RefuseHooks(policy.hooks, catalog);
      if hooks.Some? then hooks
      else if GrantOf(policy, ANONYMOUS).propose then Some(AnonymousProposes)
      else None
  }

  function RefuseVerb(p: Proposal, verb: Verb, b: Book): Option<Reason> {
    if verb.effect !in EMBRYO_EFFECTS then Some(EffectNotApproved(verb.effect))
    else if verb.asserts.Some? && verb.asserts.value in RESERVED_NAMESPACES then Some(ReservedAsserts(verb.asserts.value))
    else if verb.name in b.catalog && b.catalog[verb.name].status != "disabled"
            && p.supersedes != Some(b.catalog[verb.name].proposalId) then
      Some(AlreadyExists(verb.name, b.catalog[verb.name].proposalId))
    else if verb.name in b.policy.hooks && (!OneParameter(verb) || verb.asserts.None?) then Some(BreaksLiveHook(verb.name))
    else None
  }

  function RefuseApproval(p: Proposal, b: Book): Option<Reason> {
    if p.kind == "verb" && p.verb.Some? then RefuseVerb(p, p.verb.value, b)
    else if p.kind == "policy" && p.policy.Some? then RefusePolicy(p.policy.value, b.catalog)
    else None
  }

  // ---- the commands ----

  // The proposal that p.supersedes names, when p could stand in for it.
  function SupersedeTarget(b: Book, p: Proposal): Option<string> {
    if p.supersedes.None? || p.supersedes.value !in b.proposals then None
    else
      var target := b.proposals[p.supersedes.value];
      if target.kind != p.kind then None
      else if p.kind == "verb" && (p.verb.None? || target.verb.None? || target.verb.value.name != p.verb.value.name) then None
      else p.supersedes
  }

  // Whatever status the document claims, the proposal starts out pending.
  function ProposeParsed(b: Book, parsed: Result<Proposal, Refusal>): (Book, Result<Proposal, Refusal>) {
    if parsed.Err? then (b, parsed)
    else
      var p := parsed.value.(status := "pending", recipeId := None, log := None);
      if p.supersedes.Some? && SupersedeTarget(b, p).None? then (b, Err(BadSupersedes))
      else (b.(proposals := b.proposals[p.id := p], nextProposal := b.nextProposal + 1), Ok(p))
  }

  function Propose(b: Book, doc: Json): (Book, Result<Proposal, Refusal>) {
    ProposeParsed(b, ParseProposal(doc, PidOf(b.nextProposal)))
  }

  function Tell(b: Book, id: string, kind: string, text: string): Book
    requires id in b.proposals
  {
    var p := b.proposals[id];
    if p.log == Some(text) then b
    else
      b.(inbox := b.inbox + [InboxItem(kind, "proposal " + id + " (" + p.title + ") " + text)],
         proposals := b.proposals[id := p.(log := Some(text))])
  }

  function WithStatus(b: Book, id: string, status: string): Book {
    if id !in b.proposals then b
    else b.(proposals := b.proposals[id := b.proposals[id].(status := status)])
  }

  function Superseding(b: Book, id: string): Book
    requires id in b.proposals
  {
    var target := SupersedeTarget(b, b.proposals[id]);
    if target.Some? then WithStatus(b, target.value, "superseded") else b
  }

  // what the host made of the Dockerfile
  datatype Submitted = Rejected(detail: string) | Accepted(recipeId: string, ready: bool)

  datatype Answer =
    | NoProposal | NotPending(status: string) | Refused(reason: Reason) | BuildRejected
    | Building(status: string) | InEffect

  function BuildRefused(b: Book, id: string, verb: Verb, detail: string): Book
    requires id in b.proposals
  {
    var failed := b.(proposals := b.proposals[id := b.proposals[id].(status := "failed", log := Some(detail))]);
    var entered :=
      if verb.name !in b.catalog || b.catalog[verb.name].status == "disabled" then
        failed.(catalog := b.catalog[verb.name := CatalogEntry(verb, "failed", None, id, [])])
      else failed;
    Tell(entered, id, "build", "failed: " + detail)
  }

  function BuildStarted(b: Book, id: string, verb: Verb, recipeId: string, status: string): Book
    requires id in b.proposals
  {
    var started := b.(proposals := b.proposals[id := b.proposals[id].(recipeId := Some(recipeId), status := status)]);
    var superseded := Superseding(started, id);
    superseded.(catalog := b.catalog[verb.name := CatalogEntry(verb, status, Some(recipeId), id, [])])
  }

  function PolicyApplied(b: Book, id: string, policy: Policy): Book
    requires id in b.proposals
  {
    var applied := b.(previousPolicy := Some(b.policy), policy := policy, appliedPolicy := Some(id));
    Superseding(WithStatus(applied, id, "applied"), id)
  }

  function PromptApplied(b: Book, id: string, prompt: string): Book
    requires id in b.proposals
  {
    var applied := b.(previousPrompt := Some(b.selfDescription), selfDescription := prompt, appliedPrompt := Some(id));
    Superseding(WithStatus(applied, id, "applied"), id)
  }

  function Approve(b: Book, id: string, submitted: Submitted, words: Reason -> string): (Book, Answer) {
    if id !in b.proposals then (b, NoProposal)
    else
      var p := b.proposals[id];
      if p.status != "pending" then (b, NotPending(p.status))
      else
        var reason := RefuseApproval(p, b);
        if reason.Some? then (Tell(b, id, "refusal", "refused: " + words(reason.value)), Refused(reason.value))
        else if p.verb.Some? then
          (match submitted
           case Rejected(detail) => (BuildRefused(b, id, p.verb.value, detail), BuildRejected)
           case Accepted(recipeId, ready) =>
             var status := if ready then "ready" else "building";
             (BuildStarted(b, id, p.verb.value, recipeId, status), Building(status)))
        else if p.policy.Some? then (PolicyApplied(b, id, p.policy.value), InEffect)
        else if p.prompt.Some? then (PromptApplied(b, id, p.prompt.value), InEffect)
        else (b, InEffect)
  }

  function Reject(b: Book, id: string, reason: string): Book {
    if id !in b.proposals || (b.proposals[id].status != "pending" && b.proposals[id].status != "blocked") then b
    else
      var text := "proposal " + id + " (" + b.proposals[id].title + ") was rejected: " + reason;
      WithStatus(b, id, "rejected").(inbox := b.inbox + [InboxItem("rejection", text)])
  }

  // how root is told what a verb still requires
  function Provide(b: Book, verb: string, name: string, words: (string, string) -> string): Book {
    if verb !in b.catalog then b
    else
      var e := b.catalog[verb];
      if (forall r :: r in e.verb.requirements ==> r.name != name) || name in e.provided then b
      else
        b.(catalog := b.catalog[verb := e.(provided := e.provided + [name])],
           inbox := b.inbox + [InboxItem("provide", words(verb, name))])
  }

  function Disable(b: Book, verb: string): Book {
    if verb !in b.catalog then b
    else
      var e := b.catalog[verb];
      WithStatus(b, e.proposalId, "disabled").(catalog := b.catalog[verb := e.(status := "disabled")])
  }

  predicate RevertsPolicy(b: Book, id: string) {
    id in b.proposals && b.proposals[id].kind == "policy" && b.appliedPolicy == Some(id) && b.previousPolicy.Some?
  }

  predicate RevertsPrompt(b: Book, id: string) {
    id in b.proposals && b.proposals[id].kind == "prompt" && b.appliedPrompt == Some(id) && b.previousPrompt.Some?
  }

  function Revert(b: Book, id: string): Book {
    if RevertsPolicy(b, id) then
      WithStatus(b.(policy := b.previousPolicy.value, appliedPolicy := None, previousPolicy := None), id, "reverted")
    else if RevertsPrompt(b, id) then
      WithStatus(b.(selfDescription := b.previousPrompt.value, appliedPrompt := None, previousPrompt := None), id, "reverted")
    else b
  }

  // ---- builds ----

  datatype Build = Build(status: string, log: string)

  function LogTail(text: string): string {
    if |text| <= LOG_TAIL then text else text[|text| - LOG_TAIL..]
  }

  predicate IsBuilding(b: Book, name: string) {
    name in b.catalog && b.catalog[name].status == "building" && b.catalog[name].recipeId.Some?
  }

  function PollOne(b: Book, name: string, build: Build): Book {
    if !IsBuilding(b, name) then b
    else
      var e := b.catalog[name];
      if build.status == "ready" then
        WithStatus(b, e.proposalId, "ready").(
          catalog := b.catalog[name := e.(status := "ready")],
          inbox := b.inbox + [InboxItem("build", "verb " + name + " is ready")])
      else if build.status == "failed" then
        var tail := LogTail(build.log);
        var failed := WithStatus(b, e.proposalId, "failed");
        var logged :=
          if e.proposalId in failed.proposals then
            failed.(proposals := failed.proposals[e.proposalId := failed.proposals[e.proposalId].(log := Some(tail))])
          else failed;
        logged.(
          catalog := b.catalog[name := e.(status := "failed")],
          inbox := b.inbox + [InboxItem("build", "verb " + name + " failed to build (proposal " + e.proposalId + "):\n" + tail)])
      else b
  }

  // the catalog's names in its order
  function PollBuilds(b: Book, names: seq<string>, builds: string -> Build): Book {
    if names == [] then b
    else PollOne(PollBuilds(b, names[..|names| - 1], builds), names[|names| - 1], builds(names[|names| - 1]))
  }

  // ---- runs ----

  datatype Command =
    | DoPropose(doc: Json)
    | DoApprove(id: string, submitted: Submitted)
    | DoReject(id: string, reason: string)
    | DoProvide(verb: string, name: string)
    | DoDisable(verb: string)
    | DoRevert(id: string)
    | DoPoll(names: seq<string>, builds: string -> Build)

  datatype Wording = Wording(refusal: Reason -> string, provide: (string, string) -> string)

  function Step(b: Book, c: Command, w: Wording): Book {
    match c
    case DoPropose(doc) => Propose(b, doc).0
    case DoApprove(id, submitted) => Approve(b, id, submitted, w.refusal).0
    case DoReject(id, reason) => Reject(b, id, reason)
    case DoProvide(verb, name) => Provide(b, verb, name, w.provide)
    case DoDisable(verb) => Disable(b, verb)
    case DoRevert(id) => Revert(b, id)
    case DoPoll(names, builds) => PollBuilds(b, names, builds)
  }

  function Run(b: Book, commands: seq<Command>, w: Wording): Book {
    if commands == [] then b else Step(Run(b, commands[..|commands| - 1], w), commands[|commands| - 1], w)
  }
}
