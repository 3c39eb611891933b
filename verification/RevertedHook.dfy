/**
  A run that ends with a live hook that names nobody: the policy naming hook h is replaced, h is
  superseded by a verb that asserts no namespace (h is no live hook now), and the policy is
  reverted. Nothing at the revert looks at the hooks of the policy it brings back.
 */
module RevertedHook {
  import opened Wrappers
  import opened Json
  import opened Common
  import opened Declarations
  import opened RoundTrips
  import opened StateDoc
  import opened Proposals
  import opened ProposalRuns

  function HookVerb(asserts: Option<string>): Verb {
    Verb("h", "d", map["type" := Str("object"), "properties" := Obj(map["p" := Null])], "f", "e", "read", "ephemeral", "verb/h",
         asserts, map[], 60, [], [])
  }

  const NAMING := HookVerb(Some("ns"))
  const SILENT := HookVerb(None)
  const WITHOUT := Policy(map[], [], "closed")
  const WITH := Policy(map[], ["h"], "closed")

  const FIRST := Proposal("p-1", "verb", "t", "r", None, Some(NAMING), None, None, "pending", None, None)
  const SECOND := Proposal("p-2", "policy", "t", "r", None, None, Some(WITH), None, "pending", None, None)
  const THIRD := Proposal("p-3", "policy", "t", "r", None, None, Some(WITHOUT), None, "pending", None, None)
  const FOURTH := Proposal("p-4", "verb", "t", "r", Some("p-1"), Some(SILENT), None, None, "pending", None, None)

  // ---- the states of the run ----

  function Added(b: Book, p: Proposal): Book {
    b.(proposals := b.proposals[p.id := p], nextProposal := b.nextProposal + 1)
  }

  const K0 := Hatched(WITHOUT)
  const K1 := Added(K0, FIRST)
  const K2 := K1.(
    proposals := K1.proposals["p-1" := FIRST.(status := "ready", recipeId := Some("i"))],
    catalog := map["h" := CatalogEntry(NAMING, "ready", Some("i"), "p-1", [])])
  const K3 := Added(K2, SECOND)
  const K4 := K3.(
    proposals := K3.proposals["p-2" := SECOND.(status := "applied")],
    policy := WITH, previousPolicy := Some(WITHOUT), appliedPolicy := Some("p-2"))
  const K5 := Added(K4, THIRD)
  const K6 := K5.(
    proposals := K5.proposals["p-3" := THIRD.(status := "applied")],
    policy := WITHOUT, previousPolicy := Some(WITH), appliedPolicy := Some("p-3"))
  const K7 := Added(K6, FOURTH)

  lemma TextsOk()
    ensures TextOk("h") && TextOk("d") && TextOk("f") && TextOk("e") && TextOk("t") && TextOk("r") && TextOk("ns") && TextOk("p-1")
  {
    assert !IsSpace("h"[0]) && !IsSpace("d"[0]) && !IsSpace("f"[0]) && !IsSpace("e"[0]);
    assert !IsSpace("t"[0]) && !IsSpace("r"[0]) && !IsSpace("ns"[0]) && !IsSpace("p-1"[0]);
  }

  lemma HookVerbOk(asserts: Option<string>)
    requires asserts == None || asserts == Some("ns")
    ensures VerbOk(HookVerb(asserts))
  {
    TextsOk();
    var v := HookVerb(asserts);
    assert NameOk("h") && "h" !in RESERVED_TOOL_NAMES;
    assert Placeholders("e", 0) == [];
    assert "type" != "properties";
    assert Properties(v.params) == Obj(map["p" := Null]);
    assert CHAIN_PREFIX == "verb/h"[..5];
    assert NamespaceOk("ns") by {
      assert Chopped("ns") == "ns" && All("ns", IsNameChar);
    }
    assert "ns" !in RESERVED_NAMESPACES;
  }

  lemma ProposalsAreOk()
    ensures ProposalOk(FIRST) && ProposalOk(SECOND) && ProposalOk(THIRD) && ProposalOk(FOURTH)
  {
    TextsOk();
    ProposalKeys();
    HookVerbOk(Some("ns"));
    HookVerbOk(None);
    assert NameOk("h");
    assert PolicyOk(WITH) && PolicyOk(WITHOUT);
  }

  lemma Ids()
    ensures PidOf(1) == "p-1" && PidOf(2) == "p-2" && PidOf(3) == "p-3" && PidOf(4) == "p-4"
    ensures "p-1" != "p-2" && "p-1" != "p-3" && "p-1" != "p-4" && "p-2" != "p-3" && "p-2" != "p-4" && "p-3" != "p-4"
  {
    assert "p-1"[2] == '1' && "p-2"[2] == '2' && "p-3"[2] == '3' && "p-4"[2] == '4';
  }

  lemma Proposed(b: Book, p: Proposal)
    requires ProposalOk(p) && p.id == PidOf(b.nextProposal) && p.status == "pending" && p.recipeId.None? && p.log.None?
    requires p.supersedes.None? || SupersedeTarget(b, p).Some?
    ensures Propose(b, ProposalDoc(p)).0 == Added(b, p)
  {
    ProposalRoundTrips(p);
    assert p.(status := "pending", recipeId := None, log := None) == p;
  }

  lemma HookBuilt(words: Reason -> string)
    ensures Approve(K1, "p-1", Accepted("i", true), words).0 == K2
  {
    assert "verb"[0] != "policy"[0];
    assert RefuseApproval(FIRST, K1).None?;
  }

  lemma HookNamed(words: Reason -> string)
    ensures Approve(K3, "p-2", Accepted("i", true), words).0 == K4
  {
    Ids();
    ProposalKeys();
    assert OneParameter(NAMING) by {
      assert "type" != "properties";
    }
    RefuseHooksExact(["h"], K3.catalog);
    assert RefuseApproval(SECOND, K3).None?;
  }

  lemma HookDropped(words: Reason -> string)
    ensures Approve(K5, "p-3", Accepted("i", true), words).0 == K6
  {
    Ids();
    ProposalKeys();
    assert RefuseApproval(THIRD, K5).None?;
  }

  lemma HookSilenced(words: Reason -> string)
    ensures
      var b := Approve(K7, "p-4", Accepted("j", true), words).0;
      && b.catalog == map["h" := CatalogEntry(SILENT, "ready", Some("j"), "p-4", [])]
      && RevertsPolicy(b, "p-3") && b.policy == WITHOUT && b.previousPolicy == Some(WITH)
  {
    FourthNotRefused();
    FourthStarts();
  }

  lemma FourthNotRefused()
    ensures "p-4" in K7.proposals && K7.proposals["p-4"] == FOURTH && FOURTH.verb == Some(SILENT)
    ensures RefuseApproval(FOURTH, K7).None?
  {
    Ids();
    ProposalKeys();
  }

  lemma FourthStarts()
    requires "p-4" in K7.proposals
    ensures
      var b := BuildStarted(K7, "p-4", SILENT, "j", "ready");
      && b.catalog == map["h" := CatalogEntry(SILENT, "ready", Some("j"), "p-4", [])]
      && RevertsPolicy(b, "p-3") && b.policy == WITHOUT && b.previousPolicy == Some(WITH)
  {
    Ids();
  }

  lemma ThenPropose(commands: seq<Command>, p: Proposal, w: Wording) returns (more: seq<Command>)
    requires ProposalOk(p) && p.id == PidOf(Run(K0, commands, w).nextProposal)
    requires p.status == "pending" && p.recipeId.None? && p.log.None?
    requires p.supersedes.None? || SupersedeTarget(Run(K0, commands, w), p).Some?
    ensures more == commands + [DoPropose(ProposalDoc(p))] && Run(K0, more, w) == Added(Run(K0, commands, w), p)
  {
    more := commands + [DoPropose(ProposalDoc(p))];
    assert more[..|commands|] == commands;
    Proposed(Run(K0, commands, w), p);
  }

  lemma ThenApprove(commands: seq<Command>, id: string, recipeId: string, w: Wording) returns (more: seq<Command>)
    ensures more == commands + [DoApprove(id, Accepted(recipeId, true))]
    ensures Run(K0, more, w) == Approve(Run(K0, commands, w), id, Accepted(recipeId, true), w.refusal).0
  {
    more := commands + [DoApprove(id, Accepted(recipeId, true))];
    assert more[..|commands|] == commands;
  }

  lemma ReachBuilt(w: Wording) returns (commands: seq<Command>)
    ensures Run(K0, commands, w) == K2
  {
    Ids();
    ProposalsAreOk();
    commands := ThenPropose([], FIRST, w);
    commands := ThenApprove(commands, "p-1", "i", w);
    HookBuilt(w.refusal);
  }

  lemma ReachNamed(w: Wording) returns (commands: seq<Command>)
    ensures Run(K0, commands, w) == K4
  {
    Ids();
    ProposalsAreOk();
    commands := ReachBuilt(w);
    commands := ThenPropose(commands, SECOND, w);
    commands := ThenApprove(commands, "p-2", "i", w);
    HookNamed(w.refusal);
  }

  lemma ReachDropped(w: Wording) returns (commands: seq<Command>)
    ensures Run(K0, commands, w) == K6
  {
    Ids();
    ProposalsAreOk();
    commands := ReachNamed(w);
    commands := ThenPropose(commands, THIRD, w);
    commands := ThenApprove(commands, "p-3", "i", w);
    HookDropped(w.refusal);
  }

  lemma FourthMayBeProposed()
    ensures SupersedeTarget(K6, FOURTH).Some? && K6.nextProposal == 4
  {
    Ids();
    ProposalKeys();
  }

  lemma ReachSilenced(w: Wording) returns (commands: seq<Command>)
    ensures Run(K0, commands, w) == Approve(K7, "p-4", Accepted("j", true), w.refusal).0
  {
    Ids();
    ProposalsAreOk();
    commands := ReachDropped(w);
    FourthMayBeProposed();
    commands := ThenPropose(commands, FOURTH, w);
    commands := ThenApprove(commands, "p-4", "j", w);
  }

  lemma SilentHookDoesNotFit(catalog: map<string, CatalogEntry>)
    requires catalog == map["h" := CatalogEntry(SILENT, "ready", Some("j"), "p-4", [])]
    ensures !HooksFit(WITH, catalog)
  {
    assert !HookFits(catalog, WITH.hooks[0]);
  }

  /** A run from the hatched policy that leaves a live hook asserting nothing, though none did before its revert. */
  lemma RevertCanBreakALiveHook(w: Wording) returns (commands: seq<Command>, id: string)
    ensures SeedPolicy(WITHOUT)
    ensures
      var before := Run(Hatched(WITHOUT), commands, w);
      && HooksFit(before.policy, before.catalog)
      && RevertsPolicy(before, id) && !HooksFit(Revert(before, id).policy, Revert(before, id).catalog)
  {
    id := "p-3";
    commands := ReachSilenced(w);
    HookSilenced(w.refusal);
    SilentHookDoesNotFit(Run(K0, commands, w).catalog);
  }
}
