/** What a turn from a principal is offered, and what that says of every reachable state. */
module Offering {
  import opened Wrappers
  import opened Json
  import opened Common
  import opened Declarations
  import opened RoundTrips
  import opened StateDoc
  import opened Proposals
  import opened ProposalRuns

  predicate OffersVerb(principal: string, policy: Policy, e: CatalogEntry) {
    e.status == "ready" && e.recipeId.Some? && MayInvoke(principal, e.verb, policy)
  }

  // the tool names of a turn
  function OfferedNames(principal: string, policy: Policy, catalog: map<string, CatalogEntry>): set<string> {
    (if principal == ANONYMOUS then {} else {"remember", "effort"})
    + (if principal != ANONYMOUS && MayPropose(principal, policy) then {"try", "propose"} else {})
    + set name | name in catalog && OffersVerb(principal, policy, catalog[name])
  }

  // root always; else what the policy grants, or the verb's own list where the policy is silent
  predicate MayRun(principal: string, policy: Policy, verb: Verb) {
    || principal == "root"
    || (principal in policy.principals
        && (policy.principals[principal].invoke.Everything? || verb.name in policy.principals[principal].invoke.verbs))
    || (principal !in policy.principals && principal in verb.allow)
  }

  predicate MaySuggest(principal: string, policy: Policy) {
    || principal == "root"
    || (principal != "anonymous" && principal in policy.principals && policy.principals[principal].propose)
  }

  /**
    What a principal is offered, for every policy and catalog: two built-ins to anyone but anonymous,
    two more to who may propose, and each ready verb with a recipe that it may run.
   */
  lemma OffersExactly(principal: string, policy: Policy, catalog: map<string, CatalogEntry>, name: string)
    ensures name in OfferedNames(principal, policy, catalog) <==>
      || (principal != "anonymous" && (name == "remember" || name == "effort"))
      || (MaySuggest(principal, policy) && (name == "try" || name == "propose"))
      || (name in catalog && catalog[name].status == "ready" && catalog[name].recipeId.Some?
          && MayRun(principal, policy, catalog[name].verb))
  {
    assert "root"[0] != "anonymous"[0];
  }

  lemma AnonymousIsNotNamespaced()
    ensures !NamespacedOk(ANONYMOUS)
  {
    var t := ANONYMOUS;
    assert Chopped(t) == t;
    assert forall i :: 0 <= i < |t| ==> t[i] != ':';
  }

  // a catalog verb takes no built-in's name, and its own list grants anonymous nothing
  lemma CatalogNamesAreFree(policy: Policy, commands: seq<Command>, w: Wording, name: string)
    requires PolicyOk(policy) && forall i :: 0 <= i < |commands| ==> HostOk(commands[i])
    requires name in Run(Hatched(policy), commands, w).catalog
    ensures
      var b := Run(Hatched(policy), commands, w);
      && name !in RESERVED_TOOL_NAMES && ANONYMOUS !in b.catalog[name].verb.allow && b.catalog[name].verb.name == name
  {
    CatalogVerbParses(policy, commands, w, name);
    VerbNameIsFree(Run(Hatched(policy), commands, w).catalog[name].verb);
  }

  lemma CatalogVerbParses(policy: Policy, commands: seq<Command>, w: Wording, name: string)
    requires PolicyOk(policy) && forall i :: 0 <= i < |commands| ==> HostOk(commands[i])
    requires name in Run(Hatched(policy), commands, w).catalog
    ensures
      var v := Run(Hatched(policy), commands, w).catalog[name].verb;
      VerbOk(v) && v.name == name
  {
    RunKeeps(policy, commands, w);
    RunPrints(policy, commands, w);
    var b := Run(Hatched(policy), commands, w);
    assert EntryAgrees(b, name);
    VerbOfProposal(b.proposals[b.catalog[name].proposalId]);
  }

  lemma VerbNameIsFree(v: Verb)
    requires VerbOk(v)
    ensures v.name !in RESERVED_TOOL_NAMES && ANONYMOUS !in v.allow
  {
    AnonymousIsNotNamespaced();
  }

  /**
    After any run of commands: the built-ins are offered by the principal alone, no verb under a
    built-in's name; `try` and `propose` go together, and never to anonymous; and anonymous is
    offered nothing but ready verbs the live policy grants it by name or with `*`.
   */
  lemma OffersAreBounded(policy: Policy, commands: seq<Command>, w: Wording, principal: string)
    requires PolicyOk(policy) && forall i :: 0 <= i < |commands| ==> HostOk(commands[i])
    ensures
      var b := Run(Hatched(policy), commands, w);
      var offered := OfferedNames(principal, b.policy, b.catalog);
      && ("remember" in offered <==> principal != ANONYMOUS)
      && ("propose" in offered <==> MaySuggest(principal, b.policy))
      && ("try" in offered <==> "propose" in offered)
      && (principal == ANONYMOUS ==>
            forall name :: name in offered ==> ANONYMOUS in b.policy.principals && Allows(b.policy.principals[ANONYMOUS], name))
  {
    var b := Run(Hatched(policy), commands, w);
    forall name | name in b.catalog
      ensures name !in RESERVED_TOOL_NAMES && ANONYMOUS !in b.catalog[name].verb.allow && b.catalog[name].verb.name == name
    {
      CatalogNamesAreFree(policy, commands, w, name);
    }
    BuiltInsDiffer();
  }

  lemma BuiltInsDiffer()
    ensures "remember" !in {"try", "propose"} && "try" !in {"remember", "effort"} && "propose" !in {"remember", "effort"}
  {
  }

  /** A verb on offer is local or read, and runs the recipe of a ready proposal that declares it as it is. */
  lemma OfferedVerbsWereApproved(policy: Policy, commands: seq<Command>, w: Wording, principal: string, name: string)
    requires
      var b := Run(Hatched(policy), commands, w);
      name in b.catalog && OffersVerb(principal, b.policy, b.catalog[name])
    ensures
      var b := Run(Hatched(policy), commands, w);
      var e := b.catalog[name];
      && e.verb.effect in EMBRYO_EFFECTS
      && exists id :: id in b.proposals && b.proposals[id].verb == Some(e.verb) && b.proposals[id].status == "ready"
                      && b.proposals[id].recipeId == e.recipeId
  {
    CatalogAgreesWithProposals(policy, commands, w);
    var b := Run(Hatched(policy), commands, w);
    assert EntryAgrees(b, name) && EntrySafe(b.catalog[name]);
    assert b.proposals[b.catalog[name].proposalId].status == "ready";
  }
}
