/** What holds of the catalog, the proposals and the policy over every run of commands. */
module ProposalRuns {
  import opened Wrappers
  import opened Json
  import opened Common
  import opened Declarations
  import opened RoundTrips
  import opened StateDoc
  import opened Proposals

  const LIVE: set<string> := {"building", "ready"}
  const ENTRY_STATUSES: set<string> := {"building", "ready", "failed", "disabled"}

  // ---- the invariant ----

  predicate EntryAgrees(b: Book, name: string)
    requires name in b.catalog
  {
    var e := b.catalog[name];
    && e.verb.name == name && e.status in ENTRY_STATUSES
    && e.proposalId in b.proposals
    && var p := b.proposals[e.proposalId];
      p.kind == "verb" && p.verb == Some(e.verb) && p.status == e.status && p.recipeId == e.recipeId
  }

  predicate EntrySafe(e: CatalogEntry) {
    && e.verb.effect in EMBRYO_EFFECTS
    && (e.verb.asserts.Some? ==> e.verb.asserts.value !in RESERVED_NAMESPACES)
  }

  // a proposal whose build is running or done is the catalog's
  predicate Backed(b: Book, id: string)
    requires id in b.proposals
  {
    var p := b.proposals[id];
    p.verb.Some? && p.status in LIVE ==>
      p.verb.value.name in b.catalog && b.catalog[p.verb.value.name].proposalId == id
  }

  // the one body a proposal carries is its kind's
  predicate Shaped(p: Proposal) {
    && (p.verb.Some? <==> p.kind == "verb") && (p.policy.Some? <==> p.kind == "policy")
    && (p.prompt.Some? <==> p.kind == "prompt")
  }

  predicate Filed(b: Book, id: string)
    requires id in b.proposals
  {
    var p := b.proposals[id];
    && Shaped(p) && p.id == id && (exists i: nat :: i < b.nextProposal && id == PidOf(i))
    && p.supersedes != Some(id) && (p.status == "pending" ==> p.recipeId.None?)
  }

  predicate HooksKnown(policy: Policy, catalog: map<string, CatalogEntry>) {
    forall h :: h in policy.hooks ==> h in catalog
  }

  // the door needs a hook, and anonymous may not propose
  predicate PolicySafe(policy: Policy) {
    && !(policy.door == "open" && policy.hooks == [])
    && !("anonymous" in policy.principals && policy.principals["anonymous"].propose)
  }

  // What the commands keep of the two tables, whatever the policy is.
  ghost predicate Inv(b: Book) {
    && (forall name :: name in b.catalog ==> EntryAgrees(b, name) && EntrySafe(b.catalog[name]))
    && (forall id :: id in b.proposals ==> Backed(b, id) && Filed(b, id))
  }

  // A policy that is not the hatched one was approved.
  predicate PolicyStands(policy: Policy, catalog: map<string, CatalogEntry>, hatched: Policy) {
    policy == hatched || (PolicySafe(policy) && HooksKnown(policy, catalog))
  }

  predicate Stands(b: Book, hatched: Policy) {
    && PolicyStands(b.policy, b.catalog, hatched)
    && (b.previousPolicy.Some? ==> PolicyStands(b.previousPolicy.value, b.catalog, hatched))
  }

  // the host names its recipes
  predicate HostOk(c: Command) {
    c.DoApprove? && c.submitted.Accepted? ==> TextOk(c.submitted.recipeId)
  }

  predicate SeedPolicy(policy: Policy) {
    PolicySafe(policy) && policy.hooks == []
  }

  // ---- one proposal changes ----

  // the proposal at id becomes p, and nothing a catalog entry or another proposal relies on changes
  lemma ProposalChanged(b: Book, id: string, p: Proposal)
    requires Inv(b) && id in b.proposals
    requires p.verb == b.proposals[id].verb && p.kind == b.proposals[id].kind
    requires p.policy == b.proposals[id].policy && p.prompt == b.proposals[id].prompt
    requires p.id == id && p.supersedes == b.proposals[id].supersedes
    requires p.status == "pending" ==> p.recipeId.None?
    requires p.status in LIVE ==> b.proposals[id].status in LIVE
    requires (p.status == b.proposals[id].status && p.recipeId == b.proposals[id].recipeId)
             || forall name :: name in b.catalog ==> b.catalog[name].proposalId != id
    ensures Inv(b.(proposals := b.proposals[id := p]))
  {
    var n := b.(proposals := b.proposals[id := p]);
    forall name | name in n.catalog ensures EntryAgrees(n, name) && EntrySafe(n.catalog[name]) {
      assert EntryAgrees(b, name) && EntrySafe(b.catalog[name]);
    }
    forall q | q in n.proposals ensures Backed(n, q) && Filed(n, q) {
      assert Backed(b, q) && Filed(b, q);
    }
  }

  lemma InboxChanged(b: Book, inbox: seq<InboxItem>)
    requires Inv(b)
    ensures Inv(b.(inbox := inbox))
  {
    var n := b.(inbox := inbox);
    forall name | name in n.catalog ensures EntryAgrees(n, name) && EntrySafe(n.catalog[name]) {
      assert EntryAgrees(b, name);
    }
    forall q | q in n.proposals ensures Backed(n, q) && Filed(n, q) {
      assert Backed(b, q) && Filed(b, q);
    }
  }

  lemma NotInCatalogUnless(b: Book, id: string)
    requires Inv(b) && id in b.proposals && b.proposals[id].status !in ENTRY_STATUSES
    ensures forall name :: name in b.catalog ==> b.catalog[name].proposalId != id
  {
    forall name | name in b.catalog ensures b.catalog[name].proposalId != id {
      assert EntryAgrees(b, name);
    }
  }

  lemma NextIdIsNew(b: Book)
    requires Inv(b)
    ensures PidOf(b.nextProposal) !in b.proposals
  {
    var id := PidOf(b.nextProposal);
    if id in b.proposals {
      assert Filed(b, id);
      var i: nat :| i < b.nextProposal && id == PidOf(i);
      PidInjective(i, b.nextProposal);
    }
  }

  lemma ProposalAdded(b: Book, p: Proposal)
    requires Inv(b) && p.id == PidOf(b.nextProposal) && Shaped(p)
    requires p.status == "pending" && p.recipeId.None? && p.supersedes != Some(p.id)
    ensures Inv(b.(proposals := b.proposals[p.id := p], nextProposal := b.nextProposal + 1))
  {
    NextIdIsNew(b);
    var n := b.(proposals := b.proposals[p.id := p], nextProposal := b.nextProposal + 1);
    forall name | name in n.catalog ensures EntryAgrees(n, name) && EntrySafe(n.catalog[name]) {
      assert EntryAgrees(b, name);
    }
    forall q | q in n.proposals ensures Backed(n, q) && Filed(n, q) {
      if q != p.id {
        assert Backed(b, q) && Filed(b, q);
      } else {
        assert b.nextProposal < n.nextProposal && p.id == PidOf(b.nextProposal);
      }
    }
  }

  // the proposal named is there, and is for the same thing
  predicate CouldSupersede(b: Book, p: Proposal) {
    p.supersedes.Some? ==>
      && p.supersedes.value in b.proposals
      && var target := b.proposals[p.supersedes.value];
        target.kind == p.kind
        && (p.kind == "verb" ==> p.verb.Some? && target.verb.Some? && target.verb.value.name == p.verb.value.name)
  }

  /**
    Whatever a document says of itself, the proposal it becomes waits for approval with nothing
    built. It is refused exactly when it does not parse, or names a proposal to supersede that does
    not exist or is for something else.
   */
  lemma BornPending(b: Book, doc: Json)
    ensures
      var r, parsed := Propose(b, doc), ParseProposal(doc, PidOf(b.nextProposal));
      && (r.1.Err? <==> parsed.Err? || !CouldSupersede(b, parsed.value))
      && if r.1.Err? then r.0 == b
         else
           var p := r.1.value;
           && ProposalOk(p) && Shaped(p) && p.id == PidOf(b.nextProposal) && CouldSupersede(b, p)
           && p == parsed.value.(status := "pending", recipeId := None, log := None)
           && r.0 == b.(proposals := b.proposals[p.id := p], nextProposal := b.nextProposal + 1)
  {
    if ParseProposal(doc, PidOf(b.nextProposal)).Ok? {
      ParsedProposalOk(doc, PidOf(b.nextProposal));
    }
  }

  lemma ProposeKeeps(b: Book, doc: Json)
    requires Inv(b)
    ensures Inv(Propose(b, doc).0)
  {
    BornPending(b, doc);
    if Propose(b, doc).1.Ok? {
      NextIdIsNew(b);
      ProposalAdded(b, Propose(b, doc).1.value);
    }
  }

  lemma TellKeeps(b: Book, id: string, kind: string, text: string)
    requires Inv(b) && id in b.proposals
    ensures Inv(Tell(b, id, kind, text))
  {
    var p := b.proposals[id];
    if p.log != Some(text) {
      assert Filed(b, id);
      ProposalChanged(b, id, p.(log := Some(text)));
      InboxChanged(b.(proposals := b.proposals[id := p.(log := Some(text))]), Tell(b, id, kind, text).inbox);
    }
  }

  lemma RejectKeeps(b: Book, id: string, reason: string)
    requires Inv(b)
    ensures Inv(Reject(b, id, reason))
  {
    if Reject(b, id, reason) != b {
      assert Filed(b, id);
      NotInCatalogUnless(b, id);
      ProposalChanged(b, id, b.proposals[id].(status := "rejected"));
      InboxChanged(WithStatus(b, id, "rejected"), Reject(b, id, reason).inbox);
    }
  }

  // a proposal of another kind changes status
  lemma StatusOfOtherKind(b: Book, id: string, status: string)
    requires Inv(b) && id in b.proposals && b.proposals[id].verb.None?
    requires status !in LIVE && status != "pending"
    ensures Inv(WithStatus(b, id, status))
  {
    assert Filed(b, id);
    forall name | name in b.catalog ensures b.catalog[name].proposalId != id {
      assert EntryAgrees(b, name);
    }
    ProposalChanged(b, id, b.proposals[id].(status := status));
  }

  // ---- policies and prompts ----

  lemma PoliciesChanged(b: Book, n: Book)
    requires Inv(b) && n.catalog == b.catalog && n.proposals == b.proposals && n.nextProposal == b.nextProposal
    ensures Inv(n)
  {
    forall name | name in n.catalog ensures EntryAgrees(n, name) && EntrySafe(n.catalog[name]) {
      assert EntryAgrees(b, name);
    }
    forall q | q in n.proposals ensures Backed(n, q) && Filed(n, q) {
      assert Backed(b, q) && Filed(b, q);
    }
  }

  // its schema declares exactly one parameter
  predicate TakesOne(verb: Verb) {
    "properties" in verb.params && verb.params["properties"].Obj? && |verb.params["properties"].fields| == 1
  }

  predicate HookFits(catalog: map<string, CatalogEntry>, hook: string) {
    hook in catalog && catalog[hook].verb.asserts.Some? && TakesOne(catalog[hook].verb)
  }

  /** Every hook the policy names asserts a namespace and takes one parameter. */
  predicate HooksFit(policy: Policy, catalog: map<string, CatalogEntry>) {
    forall i :: 0 <= i < |policy.hooks| ==> HookFits(catalog, policy.hooks[i])
  }

  lemma {:induction false} RefuseHooksExact(hooks: seq<string>, catalog: map<string, CatalogEntry>)
    ensures RefuseHooks(hooks, catalog).None? <==> forall i :: 0 <= i < |hooks| ==> HookFits(catalog, hooks[i])
  {
    if hooks != [] {
      RefuseHooksExact(hooks[1..], catalog);
      if forall i :: 0 <= i < |hooks| ==> HookFits(catalog, hooks[i]) {
        assert HookFits(catalog, hooks[0]);
        assert forall i :: 0 <= i < |hooks[1..]| ==> hooks[1..][i] == hooks[i + 1];
      }
      if RefuseHooks(hooks, catalog).None? {
        forall i | 0 <= i < |hooks| ensures HookFits(catalog, hooks[i]) {
          if i > 0 {
            assert hooks[i] == hooks[1..][i - 1];
          }
        }
      }
    }
  }

  // the verb's name is free, disabled, or the proposal's to take over
  predicate NameFree(p: Proposal, name: string, catalog: map<string, CatalogEntry>) {
    name in catalog ==> catalog[name].status == "disabled" || p.supersedes == Some(catalog[name].proposalId)
  }

  /**
    A verb may be approved exactly when it is local or read, asserts no reserved namespace, takes
    nobody's name, and, as a live hook, asserts a namespace and takes one parameter. What is given
    as the reason is so.
   */
  lemma RefuseVerbExact(p: Proposal, verb: Verb, b: Book)
    ensures RefuseVerb(p, verb, b).None? <==>
      && (verb.effect == "local" || verb.effect == "read")
      && (verb.asserts.Some? ==> verb.asserts.value != "root" && verb.asserts.value != "system")
      && NameFree(p, verb.name, b.catalog)
      && (verb.name in b.policy.hooks ==> verb.asserts.Some? && TakesOne(verb))
    ensures
      var r := RefuseVerb(p, verb, b);
      r.Some? ==>
        match r.value
        case EffectNotApproved(effect) => effect == verb.effect && effect != "local" && effect != "read"
        case ReservedAsserts(asserts) => verb.asserts == Some(asserts) && (asserts == "root" || asserts == "system")
        case AlreadyExists(name, id) =>
          name == verb.name && name in b.catalog && b.catalog[name].proposalId == id && !NameFree(p, name, b.catalog)
        case BreaksLiveHook(name) => name == verb.name && name in b.policy.hooks && (verb.asserts.None? || !TakesOne(verb))
        case _ => false
  {
    assert OneParameter(verb) <==> TakesOne(verb);
  }

  /** An approval is refused exactly for its kind's reasons; a prompt never is. */
  lemma RefuseApprovalExact(p: Proposal, b: Book)
    requires Shaped(p)
    ensures p.verb.Some? ==> RefuseApproval(p, b) == RefuseVerb(p, p.verb.value, b)
    ensures p.policy.Some? ==> RefuseApproval(p, b) == RefusePolicy(p.policy.value, b.catalog)
    ensures p.verb.None? && p.policy.None? ==> RefuseApproval(p, b).None?
  {
  }

  /** A policy is refused exactly when its door, its hooks or its grant to anonymous is wrong. */
  lemma RefusePolicyExact(policy: Policy, catalog: map<string, CatalogEntry>)
    ensures RefusePolicy(policy, catalog).None? <==> PolicySafe(policy) && HooksFit(policy, catalog)
  {
    RefuseHooksExact(policy.hooks, catalog);
  }

  lemma SupersedingKeeps(b: Book, id: string)
    requires Inv(b) && id in b.proposals && b.proposals[id].verb.None?
    ensures Inv(Superseding(b, id))
  {
    var target := SupersedeTarget(b, b.proposals[id]);
    if target.Some? {
      assert Filed(b, id) && Filed(b, target.value);
      StatusOfOtherKind(b, target.value, "superseded");
    }
  }

  lemma FittingHooksAreKnown(policy: Policy, catalog: map<string, CatalogEntry>)
    requires HooksFit(policy, catalog)
    ensures HooksKnown(policy, catalog)
  {
    forall h | h in policy.hooks ensures h in catalog {
      var i :| 0 <= i < |policy.hooks| && policy.hooks[i] == h;
      assert HookFits(catalog, policy.hooks[i]);
    }
  }

  lemma PolicyOfProposal(b: Book, id: string)
    requires Inv(b) && id in b.proposals && b.proposals[id].policy.Some?
    ensures b.proposals[id].verb.None?
  {
    assert Filed(b, id);
  }

  lemma PolicyAppliedKeeps(b: Book, id: string, policy: Policy)
    requires Inv(b) && id in b.proposals && b.proposals[id].policy == Some(policy)
    ensures Inv(PolicyApplied(b, id, policy))
  {
    PolicyOfProposal(b, id);
    var applied := b.(previousPolicy := Some(b.policy), policy := policy, appliedPolicy := Some(id));
    PoliciesChanged(b, applied);
    StatusOfOtherKind(applied, id, "applied");
    SupersedingKeeps(WithStatus(applied, id, "applied"), id);
  }

  lemma PromptAppliedKeeps(b: Book, id: string, prompt: string)
    requires Inv(b) && id in b.proposals && b.proposals[id].prompt == Some(prompt)
    ensures Inv(PromptApplied(b, id, prompt))
  {
    assert Filed(b, id);
    var applied := b.(previousPrompt := Some(b.selfDescription), selfDescription := prompt, appliedPrompt := Some(id));
    PoliciesChanged(b, applied);
    StatusOfOtherKind(applied, id, "applied");
    SupersedingKeeps(WithStatus(applied, id, "applied"), id);
  }

  lemma RevertKeeps(b: Book, id: string)
    requires Inv(b)
    ensures Inv(Revert(b, id))
  {
    if RevertsPolicy(b, id) {
      assert Filed(b, id);
      var n := b.(policy := b.previousPolicy.value, appliedPolicy := None, previousPolicy := None);
      PoliciesChanged(b, n);
      StatusOfOtherKind(n, id, "reverted");
    } else if RevertsPrompt(b, id) {
      assert Filed(b, id);
      var n := b.(selfDescription := b.previousPrompt.value, appliedPrompt := None, previousPrompt := None);
      PoliciesChanged(b, n);
      StatusOfOtherKind(n, id, "reverted");
    }
  }

  // ---- a catalog entry and its proposal move together ----

  // entries of other names lean on other proposals
  lemma EntriesApart(b: Book, name: string, other: string)
    requires Inv(b) && name in b.catalog && other in b.catalog && name != other
    ensures b.catalog[name].proposalId != b.catalog[other].proposalId
  {
    assert EntryAgrees(b, name) && EntryAgrees(b, other);
  }

  lemma EntryMoved(b: Book, name: string, status: string, log: Option<string>)
    requires Inv(b) && name in b.catalog && status in ENTRY_STATUSES
    ensures
      var e := b.catalog[name];
      && e.proposalId in b.proposals
      && Inv(b.(catalog := b.catalog[name := e.(status := status)],
                proposals := b.proposals[e.proposalId := b.proposals[e.proposalId].(status := status, log := log)]))
  {
    assert EntryAgrees(b, name);
    var e := b.catalog[name];
    var n := b.(catalog := b.catalog[name := e.(status := status)],
                proposals := b.proposals[e.proposalId := b.proposals[e.proposalId].(status := status, log := log)]);
    assert EntrySafe(e);
    forall other | other in n.catalog ensures EntryAgrees(n, other) && EntrySafe(n.catalog[other]) {
      if other != name {
        EntriesApart(b, name, other);
        assert EntryAgrees(b, other) && EntrySafe(b.catalog[other]);
      }
    }
    forall q | q in n.proposals ensures Backed(n, q) && Filed(n, q) {
      assert Backed(b, q) && Filed(b, q);
    }
  }

  lemma DisableKeeps(b: Book, verb: string)
    requires Inv(b)
    ensures Inv(Disable(b, verb))
  {
    if verb in b.catalog {
      assert EntryAgrees(b, verb);
      EntryMoved(b, verb, "disabled", b.proposals[b.catalog[verb].proposalId].log);
    }
  }

  lemma PollOneKeeps(b: Book, name: string, build: Build)
    requires Inv(b)
    ensures Inv(PollOne(b, name, build))
  {
    if IsBuilding(b, name) {
      assert EntryAgrees(b, name);
      var e := b.catalog[name];
      var p := b.proposals[e.proposalId];
      if build.status == "ready" {
        EntryMoved(b, name, "ready", p.log);
        InboxChanged(PollOne(b, name, build).(inbox := b.inbox), PollOne(b, name, build).inbox);
      } else if build.status == "failed" {
        var tail := LogTail(build.log);
        EntryMoved(b, name, "failed", Some(tail));
        var n := PollOne(b, name, build);
        assert n.proposals == b.proposals[e.proposalId := p.(status := "failed", log := Some(tail))];
        InboxChanged(n.(inbox := b.inbox), n.inbox);
      }
    }
  }

  lemma {:induction false} PollKeeps(b: Book, names: seq<string>, builds: string -> Build)
    requires Inv(b)
    ensures Inv(PollBuilds(b, names, builds))
  {
    if names != [] {
      PollKeeps(b, names[..|names| - 1], builds);
      PollOneKeeps(PollBuilds(b, names[..|names| - 1], builds), names[|names| - 1], builds(names[|names| - 1]));
    }
  }

  lemma ProvideKeeps(b: Book, verb: string, name: string, words: (string, string) -> string)
    requires Inv(b)
    ensures Inv(Provide(b, verb, name, words))
  {
    var n := Provide(b, verb, name, words);
    if n != b {
      assert EntryAgrees(b, verb) && EntrySafe(b.catalog[verb]);
      forall other | other in n.catalog ensures EntryAgrees(n, other) && EntrySafe(n.catalog[other]) {
        assert EntryAgrees(b, other) && EntrySafe(b.catalog[other]);
      }
      forall q | q in n.proposals ensures Backed(n, q) && Filed(n, q) {
        assert Backed(b, q) && Filed(b, q);
      }
    }
  }

  // ---- builds ----

  lemma RefusedNotOffer(b: Book, id: string, verb: Verb)
    requires Inv(b) && id in b.proposals && b.proposals[id].verb == Some(verb)
    requires RefuseVerb(b.proposals[id], verb, b).None?
    ensures EntrySafe(CatalogEntry(verb, "ready", None, id, []))
    ensures verb.name in b.catalog && b.catalog[verb.name].status != "disabled" ==>
      b.proposals[id].supersedes == Some(b.catalog[verb.name].proposalId)
  {
  }

  // an entry takes a name that was free or disabled
  lemma EntryEntered(b: Book, e: CatalogEntry)
    requires Inv(b) && EntrySafe(e) && EntryAgrees(b.(catalog := b.catalog[e.verb.name := e]), e.verb.name)
    requires e.verb.name !in b.catalog || b.catalog[e.verb.name].status == "disabled"
    requires e.status !in LIVE
    ensures Inv(b.(catalog := b.catalog[e.verb.name := e]))
  {
    var name, n := e.verb.name, b.(catalog := b.catalog[e.verb.name := e]);
    if name in b.catalog {
      assert EntryAgrees(b, name);
    }
    forall other | other in n.catalog ensures EntryAgrees(n, other) && EntrySafe(n.catalog[other]) {
      if other != name {
        assert EntryAgrees(b, other) && EntrySafe(b.catalog[other]);
      }
    }
    forall q | q in n.proposals ensures Backed(n, q) && Filed(n, q) {
      assert Backed(b, q) && Filed(b, q);
    }
  }

  lemma FailedAlone(b: Book, id: string, log: Option<string>)
    requires Inv(b) && id in b.proposals && b.proposals[id].status == "pending"
    ensures Inv(b.(proposals := b.proposals[id := b.proposals[id].(status := "failed", log := log)]))
  {
    assert Filed(b, id);
    NotInCatalogUnless(b, id);
    ProposalChanged(b, id, b.proposals[id].(status := "failed", log := log));
  }

  // a failed proposal the catalog does not hold, with or without a failed entry of its own
  lemma FailedEntered(b: Book, id: string, verb: Verb, detail: string, enter: bool)
    requires Inv(b) && id in b.proposals && b.proposals[id].status == "pending" && b.proposals[id].verb == Some(verb)
    requires RefuseVerb(b.proposals[id], verb, b).None?
    requires enter ==> verb.name !in b.catalog || b.catalog[verb.name].status == "disabled"
    ensures
      var failed := b.(proposals := b.proposals[id := b.proposals[id].(status := "failed", log := Some(detail))]);
      Inv(if enter then failed.(catalog := b.catalog[verb.name := CatalogEntry(verb, "failed", None, id, [])]) else failed)
  {
    RefusedNotOffer(b, id, verb);
    FailedAlone(b, id, Some(detail));
    assert Filed(b, id);
    if enter {
      var failed := b.(proposals := b.proposals[id := b.proposals[id].(status := "failed", log := Some(detail))]);
      EntryEntered(failed, CatalogEntry(verb, "failed", None, id, []));
    }
  }

  lemma BuildRefusedKeeps(b: Book, id: string, verb: Verb, detail: string)
    requires Inv(b) && id in b.proposals && b.proposals[id].status == "pending" && b.proposals[id].verb == Some(verb)
    requires RefuseVerb(b.proposals[id], verb, b).None?
    ensures Inv(BuildRefused(b, id, verb, detail))
  {
    var enter := verb.name !in b.catalog || b.catalog[verb.name].status == "disabled";
    FailedEntered(b, id, verb, detail, enter);
    var failed := b.(proposals := b.proposals[id := b.proposals[id].(status := "failed", log := Some(detail))]);
    var entered :=
      if enter then failed.(catalog := b.catalog[verb.name := CatalogEntry(verb, "failed", None, id, [])]) else failed;
    TellKeeps(entered, id, "build", "failed: " + detail);
  }

  // what starting a build leaves of each other proposal
  lemma StartedProposals(b: Book, id: string, verb: Verb, recipeId: string, status: string, q: string)
    requires Inv(b) && id in b.proposals && b.proposals[id].status == "pending" && b.proposals[id].verb == Some(verb)
    requires RefuseVerb(b.proposals[id], verb, b).None? && q in b.proposals && q != id
    ensures
      var n := BuildStarted(b, id, verb, recipeId, status);
      && q in n.proposals
      && (n.proposals[q] == b.proposals[q]
          || (n.proposals[q] == b.proposals[q].(status := "superseded")
              && b.proposals[q].verb.Some? && b.proposals[q].verb.value.name == verb.name))
      && (b.proposals[q].verb.Some? && b.proposals[q].verb.value.name == verb.name ==> n.proposals[q].status !in LIVE)
  {
    assert Filed(b, id) && Filed(b, q) && Backed(b, q);
    RefusedNotOffer(b, id, verb);
    if verb.name in b.catalog {
      assert EntryAgrees(b, verb.name);
    }
  }

  lemma StartedSelf(b: Book, id: string, verb: Verb, recipeId: string, status: string)
    requires Inv(b) && id in b.proposals && b.proposals[id].verb == Some(verb)
    ensures
      var n := BuildStarted(b, id, verb, recipeId, status);
      && n.proposals.Keys == b.proposals.Keys
      && n.proposals[id] == b.proposals[id].(recipeId := Some(recipeId), status := status)
  {
    assert Filed(b, id);
  }

  lemma StartedEntries(b: Book, id: string, verb: Verb, recipeId: string, status: string, name: string)
    requires Inv(b) && id in b.proposals && b.proposals[id].status == "pending" && b.proposals[id].verb == Some(verb)
    requires RefuseVerb(b.proposals[id], verb, b).None? && status in LIVE
    requires name in BuildStarted(b, id, verb, recipeId, status).catalog
    ensures
      var n := BuildStarted(b, id, verb, recipeId, status);
      EntryAgrees(n, name) && EntrySafe(n.catalog[name])
  {
    StartedSelf(b, id, verb, recipeId, status);
    RefusedNotOffer(b, id, verb);
    NotInCatalogUnless(b, id);
    assert Filed(b, id);
    if name != verb.name {
      assert EntryAgrees(b, name) && EntrySafe(b.catalog[name]);
      StartedProposals(b, id, verb, recipeId, status, b.catalog[name].proposalId);
    }
  }

  lemma BuildStartedKeeps(b: Book, id: string, verb: Verb, recipeId: string, status: string)
    requires Inv(b) && id in b.proposals && b.proposals[id].status == "pending" && b.proposals[id].verb == Some(verb)
    requires RefuseVerb(b.proposals[id], verb, b).None? && status in LIVE
    ensures Inv(BuildStarted(b, id, verb, recipeId, status))
  {
    var n := BuildStarted(b, id, verb, recipeId, status);
    StartedSelf(b, id, verb, recipeId, status);
    forall name | name in n.catalog ensures EntryAgrees(n, name) && EntrySafe(n.catalog[name]) {
      StartedEntries(b, id, verb, recipeId, status, name);
    }
    assert Filed(b, id);
    forall q | q in n.proposals ensures Backed(n, q) && Filed(n, q) {
      if q != id {
        assert Backed(b, q) && Filed(b, q);
        StartedProposals(b, id, verb, recipeId, status, q);
      }
    }
  }

  lemma ApproveKeeps(b: Book, id: string, submitted: Submitted, words: Reason -> string)
    requires Inv(b)
    ensures Inv(Approve(b, id, submitted, words).0)
  {
    if id in b.proposals && b.proposals[id].status == "pending" {
      var p := b.proposals[id];
      assert Filed(b, id);
      var reason := RefuseApproval(p, b);
      if reason.Some? {
        TellKeeps(b, id, "refusal", "refused: " + words(reason.value));
      } else if p.verb.Some? {
        if submitted.Rejected? {
          BuildRefusedKeeps(b, id, p.verb.value, submitted.detail);
        } else {
          BuildStartedKeeps(b, id, p.verb.value, submitted.recipeId, if submitted.ready then "ready" else "building");
        }
      } else if p.policy.Some? {
        PolicyAppliedKeeps(b, id, p.policy.value);
      } else if p.prompt.Some? {
        PromptAppliedKeeps(b, id, p.prompt.value);
      }
    }
  }

  lemma StepKeeps(b: Book, c: Command, w: Wording)
    requires Inv(b)
    ensures Inv(Step(b, c, w))
  {
    match c
    case DoPropose(doc) => ProposeKeeps(b, doc);
    case DoApprove(id, submitted) => ApproveKeeps(b, id, submitted, w.refusal);
    case DoReject(id, reason) => RejectKeeps(b, id, reason);
    case DoProvide(verb, name) => ProvideKeeps(b, verb, name, w.provide);
    case DoDisable(verb) => DisableKeeps(b, verb);
    case DoRevert(id) => RevertKeeps(b, id);
    case DoPoll(names, builds) => PollKeeps(b, names, builds);
  }

  lemma {:induction false} RunKeeps(policy: Policy, commands: seq<Command>, w: Wording)
    ensures Inv(Run(Hatched(policy), commands, w))
  {
    if commands != [] {
      RunKeeps(policy, commands[..|commands| - 1], w);
      StepKeeps(Run(Hatched(policy), commands[..|commands| - 1], w), commands[|commands| - 1], w);
    }
  }

  // ---- the theorems ----

  predicate KeysGrow(b: Book, n: Book) {
    forall name :: name in b.catalog ==> name in n.catalog
  }

  lemma {:induction false} PollStands(b: Book, names: seq<string>, builds: string -> Build)
    ensures
      var n := PollBuilds(b, names, builds);
      KeysGrow(b, n) && n.policy == b.policy && n.previousPolicy == b.previousPolicy
  {
    if names != [] {
      PollStands(b, names[..|names| - 1], builds);
    }
  }

  // what approval does to the policies: nothing, or a policy it did not refuse
  lemma ApproveStands(b: Book, id: string, submitted: Submitted, words: Reason -> string)
    ensures
      var n := Approve(b, id, submitted, words).0;
      && KeysGrow(b, n)
      && ((n.policy == b.policy && n.previousPolicy == b.previousPolicy)
          || (RefusePolicy(n.policy, b.catalog).None? && n.previousPolicy == Some(b.policy))
          || (id in b.proposals && !Shaped(b.proposals[id])))
  {
    if id in b.proposals && b.proposals[id].status == "pending" && RefuseApproval(b.proposals[id], b).None? {
      var p := b.proposals[id];
      if p.verb.None? && p.policy.Some? {
        assert PolicyApplied(b, id, p.policy.value).policy == p.policy.value;
      }
    }
  }

  lemma StepStands(b: Book, c: Command, w: Wording, hatched: Policy)
    requires Inv(b) && Stands(b, hatched)
    ensures Stands(Step(b, c, w), hatched)
  {
    match c
    case DoApprove(id, submitted) =>
      ApproveStands(b, id, submitted, w.refusal);
      assert id in b.proposals ==> Filed(b, id);
      var n := Approve(b, id, submitted, w.refusal).0;
      if n.policy != b.policy || n.previousPolicy != b.previousPolicy {
        RefusePolicyExact(n.policy, b.catalog);
        FittingHooksAreKnown(n.policy, b.catalog);
      }
    case DoPoll(names, builds) => PollStands(b, names, builds);
    case DoPropose(doc) => ProposeKeepsHooks(b, ParseProposal(doc, PidOf(b.nextProposal)));
    case _ =>
  }

  lemma {:induction false} RunStands(policy: Policy, commands: seq<Command>, w: Wording)
    ensures Stands(Run(Hatched(policy), commands, w), policy)
  {
    if commands != [] {
      var before := commands[..|commands| - 1];
      RunStands(policy, before, w);
      RunKeeps(policy, before, w);
      StepStands(Run(Hatched(policy), before, w), commands[|commands| - 1], w, policy);
    }
  }

  /**
    In every reachable state each catalog entry agrees with its proposal on verb, status and
    recipe, and every catalog verb is local or read and asserts no reserved namespace.
   */
  lemma CatalogAgreesWithProposals(policy: Policy, commands: seq<Command>, w: Wording)
    ensures
      var b := Run(Hatched(policy), commands, w);
      forall name :: name in b.catalog ==> EntryAgrees(b, name) && EntrySafe(b.catalog[name])
  {
    RunKeeps(policy, commands, w);
  }

  /**
    In every reachable state a live policy other than the hatched one names only hooks of the
    catalog, does not open the door without one, and does not let anonymous propose. With a
    hatched policy that names no hook and is safe itself, so does every live one, and the door is
    open exactly when the policy says so.
   */
  lemma LivePolicyStands(policy: Policy, commands: seq<Command>, w: Wording)
    ensures
      var b := Run(Hatched(policy), commands, w);
      && PolicyStands(b.policy, b.catalog, policy)
      && (SeedPolicy(policy) ==>
            HooksKnown(b.policy, b.catalog) && PolicySafe(b.policy) && (b.policy.door == "open" <==> b.policy.door == "open" && b.policy.hooks != []))
  {
    RunStands(policy, commands, w);
  }

  /** At most one proposal per verb name is building or ready, and it is the catalog's. */
  lemma OneLiveProposalPerVerb(policy: Policy, commands: seq<Command>, w: Wording, p: string, q: string)
    requires
      var b := Run(Hatched(policy), commands, w);
      && p in b.proposals && b.proposals[p].verb.Some? && b.proposals[p].status in LIVE
      && q in b.proposals && b.proposals[q].verb.Some? && b.proposals[q].status in LIVE
      && b.proposals[p].verb.value.name == b.proposals[q].verb.value.name
    ensures p == q
    ensures
      var b := Run(Hatched(policy), commands, w);
      var name := b.proposals[p].verb.value.name;
      name in b.catalog && b.catalog[name].proposalId == p
  {
    RunKeeps(policy, commands, w);
    var b := Run(Hatched(policy), commands, w);
    assert Backed(b, p) && Backed(b, q);
  }

  // the guard of a revert: would the hooks it brings back be approved now?
  predicate RevertGuarded(b: Book, c: Command) {
    c.DoRevert? && RevertsPolicy(b, c.id) ==> RefuseHooks(b.previousPolicy.value.hooks, b.catalog).None?
  }

  /**
    A revert leaves fitting hooks exactly when the hook check of approval would pass on the policy
    it restores; for a policy whose door and grant to anonymous are in order, exactly when
    approval would accept it.
   */
  lemma RevertKeepsHooksExactly(b: Book, id: string)
    requires RevertsPolicy(b, id)
    ensures HooksFit(Revert(b, id).policy, Revert(b, id).catalog) <==>
            RefuseHooks(b.previousPolicy.value.hooks, b.catalog).None?
    ensures PolicySafe(b.previousPolicy.value) ==>
      (HooksFit(Revert(b, id).policy, Revert(b, id).catalog) <==> RefusePolicy(b.previousPolicy.value, b.catalog).None?)
  {
    RefuseHooksExact(b.previousPolicy.value.hooks, b.catalog);
    RefusePolicyExact(b.previousPolicy.value, b.catalog);
  }

  lemma EntryKeepsHooks(b: Book, n: Book, verb: Verb)
    requires HooksFit(b.policy, b.catalog) && n.policy == b.policy
    requires verb.name in n.catalog && n.catalog[verb.name].verb == verb
    requires forall name :: name in b.catalog && name != verb.name ==> name in n.catalog && n.catalog[name].verb == b.catalog[name].verb
    requires verb.name in b.policy.hooks ==> OneParameter(verb) && verb.asserts.Some?
    ensures HooksFit(n.policy, n.catalog)
  {
    forall i | 0 <= i < |n.policy.hooks| ensures HookFits(n.catalog, n.policy.hooks[i]) {
      assert HookFits(b.catalog, b.policy.hooks[i]);
      assert n.policy.hooks[i] in b.policy.hooks;
    }
  }

  predicate SameVerbs(b: Book, n: Book) {
    n.policy == b.policy && forall name :: name in b.catalog ==> name in n.catalog && n.catalog[name].verb == b.catalog[name].verb
  }

  lemma SameVerbsKeepHooks(b: Book, n: Book)
    requires HooksFit(b.policy, b.catalog) && SameVerbs(b, n)
    ensures HooksFit(n.policy, n.catalog)
  {
    forall i | 0 <= i < |n.policy.hooks| ensures HookFits(n.catalog, n.policy.hooks[i]) {
      assert HookFits(b.catalog, b.policy.hooks[i]);
    }
  }

  lemma {:induction false} PollSameVerbs(b: Book, names: seq<string>, builds: string -> Build)
    ensures SameVerbs(b, PollBuilds(b, names, builds))
  {
    if names != [] {
      PollSameVerbs(b, names[..|names| - 1], builds);
    }
  }

  // p with another status, recipe and log
  predicate Moved(p: Proposal, q: Proposal) {
    q == p.(status := q.status, recipeId := q.recipeId, log := q.log)
    && (q.status == p.status || q.status in PROPOSAL_STATUSES)
    && (q.recipeId == p.recipeId || (q.recipeId.Some? && TextOk(q.recipeId.value)))
  }

  predicate OnlyMoves(b: Book, n: Book) {
    n.proposals.Keys == b.proposals.Keys && forall id :: id in b.proposals ==> Moved(b.proposals[id], n.proposals[id])
  }

  lemma SupersedingMoves(b: Book, id: string)
    requires id in b.proposals
    ensures
      var n := Superseding(b, id);
      OnlyMoves(b, n) && n == b.(proposals := n.proposals)
  {
  }

  lemma BuiltKeepsHooks(b: Book, id: string, verb: Verb, submitted: Submitted, status: string)
    requires id in b.proposals && HooksFit(b.policy, b.catalog) && RefuseVerb(b.proposals[id], verb, b).None?
    ensures
      var n := if submitted.Rejected? then BuildRefused(b, id, verb, submitted.detail)
               else BuildStarted(b, id, verb, submitted.recipeId, status);
      HooksFit(n.policy, n.catalog)
  {
    var n := if submitted.Rejected? then BuildRefused(b, id, verb, submitted.detail)
             else BuildStarted(b, id, verb, submitted.recipeId, status);
    assert n.policy == b.policy;
    if n.catalog == b.catalog {
      SameVerbsKeepHooks(b, n);
    } else {
      EntryKeepsHooks(b, n, verb);
    }
  }

  lemma PolicyAppliedFits(b: Book, id: string, policy: Policy)
    requires id in b.proposals && RefusePolicy(policy, b.catalog).None?
    ensures
      var n := PolicyApplied(b, id, policy);
      HooksFit(n.policy, n.catalog)
  {
    RefusePolicyExact(policy, b.catalog);
  }

  lemma ApproveKeepsHooks(b: Book, id: string, submitted: Submitted, words: Reason -> string)
    requires Inv(b) && HooksFit(b.policy, b.catalog)
    ensures HooksFit(Approve(b, id, submitted, words).0.policy, Approve(b, id, submitted, words).0.catalog)
  {
    if id in b.proposals && b.proposals[id].status == "pending" {
      var p := b.proposals[id];
      assert Filed(b, id);
      var reason := RefuseApproval(p, b);
      if reason.Some? {
        SameVerbsKeepHooks(b, Tell(b, id, "refusal", "refused: " + words(reason.value)));
      } else if p.verb.Some? {
        BuiltKeepsHooks(b, id, p.verb.value, submitted,
                        if submitted.Accepted? && submitted.ready then "ready" else "building");
      } else if p.policy.Some? {
        PolicyAppliedFits(b, id, p.policy.value);
      } else if p.prompt.Some? {
        SameVerbsKeepHooks(b, PromptApplied(b, id, p.prompt.value));
      }
    }
  }

  lemma QuietKeepsHooks(b: Book, c: Command, w: Wording)
    requires HooksFit(b.policy, b.catalog) && (c.DoReject? || c.DoProvide? || c.DoDisable?)
    ensures HooksFit(Step(b, c, w).policy, Step(b, c, w).catalog)
  {
    SameVerbsKeepHooks(b, Step(b, c, w));
  }

  lemma ProposeKeepsHooks(b: Book, parsed: Result<Proposal, Refusal>)
    ensures ProposeParsed(b, parsed).0.policy == b.policy && ProposeParsed(b, parsed).0.catalog == b.catalog
  {
  }

  lemma StepKeepsHooks(b: Book, c: Command, w: Wording)
    requires Inv(b) && HooksFit(b.policy, b.catalog) && RevertGuarded(b, c)
    ensures HooksFit(Step(b, c, w).policy, Step(b, c, w).catalog)
  {
    match c
    case DoPropose(doc) => ProposeKeepsHooks(b, ParseProposal(doc, PidOf(b.nextProposal)));
    case DoApprove(id, submitted) => ApproveKeepsHooks(b, id, submitted, w.refusal);
    case DoRevert(id) =>
      if RevertsPolicy(b, id) {
        RevertKeepsHooksExactly(b, id);
      }
    case DoPoll(names, builds) =>
      PollSameVerbs(b, names, builds);
      SameVerbsKeepHooks(b, PollBuilds(b, names, builds));
    case _ => QuietKeepsHooks(b, c, w);
  }

  ghost predicate Guarded(policy: Policy, commands: seq<Command>, w: Wording) {
    forall i {:trigger commands[i]} :: 0 <= i < |commands| ==> RevertGuarded(Run(Hatched(policy), commands[..i], w), commands[i])
  }

  /** On runs whose reverts are guarded, and so on runs without reverts, every live hook fits. */
  lemma {:induction false} GuardedRunsKeepHooks(policy: Policy, commands: seq<Command>, w: Wording)
    requires policy.hooks == [] && Guarded(policy, commands, w)
    ensures
      var b := Run(Hatched(policy), commands, w);
      HooksFit(b.policy, b.catalog)
  {
    if commands != [] {
      var before := commands[..|commands| - 1];
      forall i | 0 <= i < |before| ensures RevertGuarded(Run(Hatched(policy), before[..i], w), before[i]) {
        assert before[..i] == commands[..i] && before[i] == commands[i];
      }
      GuardedRunsKeepHooks(policy, before, w);
      RunKeeps(policy, before, w);
      assert commands[|commands| - 1] == commands[|before|];
      StepKeepsHooks(Run(Hatched(policy), before, w), commands[|before|], w);
    }
  }

  /** Approving a policy and reverting it restores the one it replaced, and touches no verb. */
  lemma RevertUndoesApproval(b: Book, id: string, submitted: Submitted, words: Reason -> string)
    requires Inv(b) && id in b.proposals && b.proposals[id].kind == "policy"
    requires Approve(b, id, submitted, words).1 == InEffect
    ensures
      var n := Revert(Approve(b, id, submitted, words).0, id);
      && n.policy == b.policy && n.catalog == b.catalog && n.selfDescription == b.selfDescription && n.inbox == b.inbox
      && n.proposals[id].status == "reverted"
  {
    assert Filed(b, id);
  }

  /** The same of a self-description. */
  lemma RevertUndoesPrompt(b: Book, id: string, submitted: Submitted, words: Reason -> string)
    requires Inv(b) && id in b.proposals && b.proposals[id].kind == "prompt"
    requires Approve(b, id, submitted, words).1 == InEffect
    ensures
      var n := Revert(Approve(b, id, submitted, words).0, id);
      && n.selfDescription == b.selfDescription && n.catalog == b.catalog && n.policy == b.policy && n.inbox == b.inbox
      && n.proposals[id].status == "reverted"
  {
    assert Filed(b, id);
  }

  // ---- every reachable state prints and reads back ----

  ghost predicate Printable(b: Book) {
    && (forall id :: id in b.proposals ==> ProposalOk(b.proposals[id]))
    && PolicyOk(b.policy) && (b.previousPolicy.Some? ==> PolicyOk(b.previousPolicy.value))
  }

  lemma MovedOk(p: Proposal, q: Proposal)
    requires ProposalOk(p) && Moved(p, q)
    ensures ProposalOk(q)
  {
  }

  lemma OnlyMovesPrints(b: Book, n: Book)
    requires Printable(b) && OnlyMoves(b, n)
    requires PolicyOk(n.policy) && (n.previousPolicy.Some? ==> PolicyOk(n.previousPolicy.value))
    ensures Printable(n)
  {
    forall id | id in n.proposals ensures ProposalOk(n.proposals[id]) {
      assert Moved(b.proposals[id], n.proposals[id]);
      MovedOk(b.proposals[id], n.proposals[id]);
    }
  }

  lemma PollOneMoves(b: Book, name: string, build: Build)
    ensures
      var n := PollOne(b, name, build);
      OnlyMoves(b, n) && n.policy == b.policy && n.previousPolicy == b.previousPolicy
  {
  }

  lemma MovesCompose(b: Book, m: Book, n: Book)
    requires OnlyMoves(b, m) && OnlyMoves(m, n)
    ensures OnlyMoves(b, n)
  {
    forall id | id in b.proposals ensures Moved(b.proposals[id], n.proposals[id]) {
      assert Moved(b.proposals[id], m.proposals[id]) && Moved(m.proposals[id], n.proposals[id]);
    }
  }

  lemma {:induction false} PollOnlyMoves(b: Book, names: seq<string>, builds: string -> Build)
    ensures
      var n := PollBuilds(b, names, builds);
      OnlyMoves(b, n) && n.policy == b.policy && n.previousPolicy == b.previousPolicy
  {
    if names != [] {
      var init, last := names[..|names| - 1], names[|names| - 1];
      PollOnlyMoves(b, init, builds);
      PollOneMoves(PollBuilds(b, init, builds), last, builds(last));
      MovesCompose(b, PollBuilds(b, init, builds), PollBuilds(b, names, builds));
    }
  }

  lemma BuiltOnlyMoves(b: Book, id: string, verb: Verb, submitted: Submitted, status: string)
    requires id in b.proposals && (submitted.Accepted? ==> TextOk(submitted.recipeId)) && status in LIVE
    ensures
      var n := if submitted.Rejected? then BuildRefused(b, id, verb, submitted.detail)
               else BuildStarted(b, id, verb, submitted.recipeId, status);
      OnlyMoves(b, n) && n.policy == b.policy && n.previousPolicy == b.previousPolicy
  {
    if submitted.Accepted? {
      var started := b.(proposals := b.proposals[id := b.proposals[id].(recipeId := Some(submitted.recipeId), status := status)]);
      SupersedingMoves(started, id);
      var n := BuildStarted(b, id, verb, submitted.recipeId, status);
      forall q | q in b.proposals ensures Moved(b.proposals[q], n.proposals[q]) {
        assert Moved(started.proposals[q], n.proposals[q]);
      }
    }
  }

  lemma AppliedOnlyMoves(b: Book, n: Book, id: string)
    requires id in b.proposals && n.proposals == b.proposals
    ensures OnlyMoves(b, Superseding(WithStatus(n, id, "applied"), id))
  {
    var applied := WithStatus(n, id, "applied");
    SupersedingMoves(applied, id);
    var m := Superseding(applied, id);
    forall q | q in b.proposals ensures Moved(b.proposals[q], m.proposals[q]) {
      assert Moved(applied.proposals[q], m.proposals[q]);
    }
  }

  lemma ApproveOnlyMoves(b: Book, id: string, submitted: Submitted, words: Reason -> string)
    requires submitted.Accepted? ==> TextOk(submitted.recipeId)
    ensures
      var n := Approve(b, id, submitted, words).0;
      && OnlyMoves(b, n)
      && (n.policy == b.policy || (id in b.proposals && b.proposals[id].policy == Some(n.policy)))
      && (n.previousPolicy == b.previousPolicy || n.previousPolicy == Some(b.policy))
  {
    if id in b.proposals && b.proposals[id].status == "pending" && RefuseApproval(b.proposals[id], b).None? {
      var p := b.proposals[id];
      if p.verb.Some? {
        BuiltOnlyMoves(b, id, p.verb.value, submitted,
                       if submitted.Accepted? && submitted.ready then "ready" else "building");
      } else if p.policy.Some? {
        AppliedOnlyMoves(b, b.(previousPolicy := Some(b.policy), policy := p.policy.value, appliedPolicy := Some(id)), id);
      } else if p.prompt.Some? {
        AppliedOnlyMoves(
          b, b.(previousPrompt := Some(b.selfDescription), selfDescription := p.prompt.value, appliedPrompt := Some(id)), id);
      }
    }
  }

  lemma ProposePrints(b: Book, doc: Json)
    requires Printable(b)
    ensures Printable(Propose(b, doc).0)
  {
    BornPending(b, doc);
  }

  lemma ApprovePrints(b: Book, id: string, submitted: Submitted, words: Reason -> string)
    requires Printable(b) && (submitted.Accepted? ==> TextOk(submitted.recipeId))
    ensures Printable(Approve(b, id, submitted, words).0)
  {
    var n := Approve(b, id, submitted, words).0;
    ApproveOnlyMoves(b, id, submitted, words);
    if n.policy != b.policy {
      assert ProposalOk(b.proposals[id]);
      PolicyOfPrintable(b.proposals[id]);
    }
    OnlyMovesPrints(b, n);
  }

  lemma PolicyOfPrintable(p: Proposal)
    requires ProposalOk(p) && p.policy.Some?
    ensures PolicyOk(p.policy.value)
  {
  }

  lemma QuietMoves(b: Book, c: Command, w: Wording)
    requires c.DoReject? || c.DoProvide? || c.DoDisable? || c.DoRevert?
    ensures
      var n := Step(b, c, w);
      && OnlyMoves(b, n)
      && (n.policy == b.policy || Some(n.policy) == b.previousPolicy)
      && (n.previousPolicy == b.previousPolicy || n.previousPolicy.None?)
  {
  }

  lemma StepPrints(b: Book, c: Command, w: Wording)
    requires Printable(b) && HostOk(c)
    ensures Printable(Step(b, c, w))
  {
    match c
    case DoPropose(doc) => ProposePrints(b, doc);
    case DoApprove(id, submitted) => ApprovePrints(b, id, submitted, w.refusal);
    case DoPoll(names, builds) =>
      PollOnlyMoves(b, names, builds);
      OnlyMovesPrints(b, PollBuilds(b, names, builds));
    case _ =>
      QuietMoves(b, c, w);
      OnlyMovesPrints(b, Step(b, c, w));
  }

  lemma {:induction false} RunPrints(policy: Policy, commands: seq<Command>, w: Wording)
    requires PolicyOk(policy) && forall i :: 0 <= i < |commands| ==> HostOk(commands[i])
    ensures Printable(Run(Hatched(policy), commands, w))
  {
    if commands != [] {
      RunPrints(policy, commands[..|commands| - 1], w);
      StepPrints(Run(Hatched(policy), commands[..|commands| - 1], w), commands[|commands| - 1], w);
    }
  }

  lemma VerbOfProposal(p: Proposal)
    requires ProposalOk(p) && p.verb.Some?
    ensures VerbOk(p.verb.value)
  {
  }

  /**
    Whatever the commands did, the state they leave (with trials of verbs that parsed, and any
    turn, inbox, window and queue) is saved and read back as it is.
   */
  lemma ReachableStatesReadBack(policy: Policy, commands: seq<Command>, w: Wording, s: State)
    requires PolicyOk(policy) && forall i :: 0 <= i < |commands| ==> HostOk(commands[i])
    requires
      var b := Run(Hatched(policy), commands, w);
      s.catalog == b.catalog && s.proposals == b.proposals && s.policy == b.policy && s.previousPolicy == b.previousPolicy
    requires TrialsDeclared(s.trials)
    ensures FromDoc(ToDoc(s)) == Ok(s)
  {
    RunPrints(policy, commands, w);
    RunKeeps(policy, commands, w);
    var b := Run(Hatched(policy), commands, w);
    forall name | name in s.catalog ensures VerbOk(s.catalog[name].verb) {
      assert EntryAgrees(b, name);
      VerbOfProposal(b.proposals[b.catalog[name].proposalId]);
    }
    forall id | id in s.proposals ensures ProposalOk(s.proposals[id]) && s.proposals[id].id == id {
      assert Filed(b, id);
    }
    assert CatalogDeclared(s.catalog) && ProposalsDeclared(s.proposals);
    StateRoundTrips(s);
  }
}
