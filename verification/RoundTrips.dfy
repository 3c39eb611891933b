/**
  Verbs, policies and proposals survive being printed and parsed again, exactly when they are
  ones a parser can produce.
 */
module RoundTrips {
  import opened Wrappers
  import opened Json
  import opened Common
  import opened Declarations

  predicate TextOk(s: string) {
    !IsBlank(s)
  }

  predicate OptionalOk(t: Option<string>) {
    t.None? || TextOk(t.value)
  }

  // ---- lists ----

  // ---- what a document says ----

  // a field as it is written, or what its absence means
  predicate Reads(d: map<string, Json>, key: string, default: Json, value: Json) {
    if key in d then d[key] == value else value == default
  }

  predicate ReadsOptional(d: map<string, Json>, key: string, text: Option<string>) {
    match text
    case Some(t) => key in d && d[key] == Str(t)
    case None => key !in d || d[key] == Null
  }

  predicate ReadsTexts(raw: Json, texts: seq<string>) {
    raw.Arr? && |raw.items| == |texts| && forall i :: 0 <= i < |texts| ==> raw.items[i] == Str(texts[i])
  }

  lemma TextListExact(raw: Json, ok: string -> bool, error: Refusal, texts: seq<string>)
    ensures TextList(raw, ok, error) == Ok(texts)
            <==> ReadsTexts(raw, texts) && forall i :: 0 <= i < |texts| ==> ok(texts[i])
  {
    if ReadsTexts(raw, texts) && forall i :: 0 <= i < |texts| ==> ok(texts[i]) {
      assert forall i :: 0 <= i < |raw.items| ==> raw.items[i].Str? && ok(raw.items[i].s);
      assert TextList(raw, ok, error).value == texts;
    }
  }

  lemma TextArrReads(texts: seq<string>)
    ensures ReadsTexts(TextArr(texts), texts)
  {
  }

  // ---- requirements ----

  predicate RequirementOk(r: Requirement) {
    TextOk(r.kind) && TextOk(r.name) && OptionalOk(r.scope)
  }

  predicate DeclaresRequirement(doc: Json, r: Requirement) {
    && doc.Obj?
    && "kind" in doc.fields && doc.fields["kind"] == Str(r.kind)
    && "name" in doc.fields && doc.fields["name"] == Str(r.name)
    && ReadsOptional(doc.fields, "scope", r.scope)
  }

  lemma RequirementExact(doc: Json, r: Requirement)
    ensures ParseRequirement(doc) == Ok(r) <==> RequirementOk(r) && DeclaresRequirement(doc, r)
  {
  }

  predicate RequirementsOk(rs: seq<Requirement>) {
    forall i :: 0 <= i < |rs| ==> RequirementOk(rs[i])
  }

  ghost predicate DeclaresEach(items: seq<Json>, rs: seq<Requirement>) {
    |items| == |rs| && forall i :: 0 <= i < |rs| ==> DeclaresRequirement(items[i], rs[i])
  }

  lemma {:induction false} EachExact(items: seq<Json>, rs: seq<Requirement>)
    ensures ParseEach(items) == Ok(rs) <==> RequirementsOk(rs) && DeclaresEach(items, rs)
  {
    if items == [] {
    } else if rs == [] {
      assert ParseEach(items).Ok? ==> ParseEach(items).value != [];
    } else {
      var n, k := |items| - 1, |rs| - 1;
      EachExact(items[..n], rs[..k]);
      RequirementExact(items[n], rs[k]);
      LastSplits(items, rs);
      if ParseEach(items) == Ok(rs) {
        var init := ParseEach(items[..n]).value;
        assert init == rs[..k] && ParseRequirement(items[n]).value == rs[k];
      } else {
        assert rs == rs[..k] + [rs[k]];
      }
    }
  }

  lemma LastSplits(items: seq<Json>, rs: seq<Requirement>)
    requires items != [] && rs != []
    ensures
      var n, k := |items| - 1, |rs| - 1;
      RequirementsOk(rs) && DeclaresEach(items, rs) <==>
        && RequirementsOk(rs[..k]) && DeclaresEach(items[..n], rs[..k])
        && RequirementOk(rs[k]) && DeclaresRequirement(items[n], rs[k])
  {
    var n, k := |items| - 1, |rs| - 1;
    assert RequirementsOk(rs) <==> RequirementsOk(rs[..k]) && RequirementOk(rs[k]) by {
      assert forall i :: 0 <= i < k ==> rs[..k][i] == rs[i];
    }
    if n == k {
      assert forall i :: 0 <= i < k ==> rs[..k][i] == rs[i] && items[..n][i] == items[i];
    }
  }

  function RequirementDocs(rs: seq<Requirement>): seq<Json> {
    seq(|rs|, i requires 0 <= i < |rs| => RequirementDoc(rs[i]))
  }

  lemma RequirementDocsDeclare(rs: seq<Requirement>)
    ensures DeclaresEach(RequirementDocs(rs), rs)
  {
    assert "kind"[0] != "name"[0];
    assert |"scope"| == 5 && |"kind"| == 4 && |"name"| == 4;
    forall i | 0 <= i < |rs| ensures DeclaresRequirement(RequirementDocs(rs)[i], rs[i]) {
      assert RequirementDocs(rs)[i] == RequirementDoc(rs[i]);
    }
  }

  // ---- verbs ----

  predicate ParamsOk(params: map<string, Json>, entrypoint: string) {
    && "type" in params && params["type"] == Str("object")
    && Properties(params).Obj?
    && forall p :: p in Placeholders(entrypoint, 0) ==> p in Properties(params).fields
  }

  predicate IdentityOk(v: Verb) {
    && TextOk(v.name) && NameOk(v.name) && v.name !in {"remember", "propose", "try", "effort"}
    && TextOk(v.description) && TextOk(v.dockerfile) && TextOk(v.entrypoint)
    && ParamsOk(v.params, v.entrypoint)
  }

  predicate StateOk(v: Verb) {
    && v.effect in {"local", "read", "communicate", "transact", "administer"}
    && v.state in {"ephemeral", "chain"}
    && "verb/" < v.chain && !("verb/trial/" <= v.chain)
    && 1 <= v.timeoutSeconds <= 200
  }

  predicate HookOk(v: Verb) {
    v.asserts.Some? ==>
      && TextOk(v.asserts.value) && v.asserts.value !in {"root", "system"} && NamespaceOk(v.asserts.value)
      && Properties(v.params).Obj? && |Properties(v.params).fields| == 1
  }

  predicate ListsOk(v: Verb) {
    && (forall i :: 0 <= i < |v.allow| ==> NamespacedOk(v.allow[i]))
    && RequirementsOk(v.requirements) && (v.requirements == [] || v.state != "ephemeral")
  }

  /** The verbs that parse_verb can produce. */
  predicate VerbOk(v: Verb) {
    IdentityOk(v) && StateOk(v) && HookOk(v) && ListsOk(v)
  }

  lemma VerbKeys()
    ensures "dockerfile" != "entrypoint" && "params" != "effect"
    ensures "state" != "chain" && "state" != "needs" && "state" != "allow"
    ensures "chain" != "needs" && "chain" != "allow" && "needs" != "allow"
  {
    assert "dockerfile"[0] != "entrypoint"[0] && "params"[0] != "effect"[0];
    assert "state"[0] != "chain"[0] && "state"[0] != "needs"[0] && "state"[0] != "allow"[0];
    assert "chain"[0] != "needs"[0] && "chain"[0] != "allow"[0] && "needs"[0] != "allow"[0];
  }

  lemma VerbDocTexts(v: Verb)
    ensures
      var d := VerbFields(v);
      && "name" in d && d["name"] == Str(v.name)
      && "description" in d && d["description"] == Str(v.description)
      && "dockerfile" in d && d["dockerfile"] == Str(v.dockerfile)
      && "entrypoint" in d && d["entrypoint"] == Str(v.entrypoint)
      && "effect" in d && d["effect"] == Str(v.effect)
      && "state" in d && d["state"] == Str(v.state)
      && "chain" in d && d["chain"] == Str(v.chain)
      && "asserts" !in d
  {
    VerbKeys();
  }

  lemma VerbDocRest(v: Verb)
    ensures
      var d := VerbFields(v);
      && "params" in d && d["params"] == Obj(v.params)
      && "needs" in d && d["needs"] == Obj(v.needs)
      && "timeout_seconds" in d && d["timeout_seconds"] == Num(v.timeoutSeconds)
      && "allow" in d && d["allow"] == TextArr(v.allow)
      && "requires" in d && d["requires"] == Arr(RequirementDocs(v.requirements))
  {
    VerbKeys();
  }

  predicate DeclaresWords(d: map<string, Json>, v: Verb) {
    && "name" in d && d["name"] == Str(v.name)
    && "description" in d && d["description"] == Str(v.description)
    && "dockerfile" in d && d["dockerfile"] == Str(v.dockerfile)
    && "entrypoint" in d && d["entrypoint"] == Str(v.entrypoint)
    && "params" in d && d["params"] == Obj(v.params)
  }

  predicate DeclaresState(d: map<string, Json>, v: Verb) {
    && "effect" in d && d["effect"] == Str(v.effect)
    && "state" in d && d["state"] == Str(v.state)
    && Reads(d, "chain", Str("verb/" + v.name), Str(v.chain))
    && ReadsOptional(d, "asserts", v.asserts)
  }

  ghost predicate DeclaresLimits(d: map<string, Json>, v: Verb) {
    && Reads(d, "needs", Obj(map["ram" := Str("256MB"), "cores" := Num(1)]), Obj(v.needs))
    && Reads(d, "timeout_seconds", Num(60), Num(v.timeoutSeconds))
    && (if "allow" !in d || d["allow"] == Null then v.allow == [] else ReadsTexts(d["allow"], v.allow))
    && (if "requires" !in d || d["requires"] == Null then v.requirements == []
        else d["requires"].Arr? && DeclaresEach(d["requires"].items, v.requirements))
  }

  /** The document declares the verb: every field as written, or as its absence is read. */
  ghost predicate DeclaresVerb(doc: Json, v: Verb) {
    doc.Obj? && DeclaresWords(doc.fields, v) && DeclaresState(doc.fields, v) && DeclaresLimits(doc.fields, v)
  }

  lemma WordsExact(d: map<string, Json>, v: Verb)
    ensures ParseWords(d) == Ok(Words(v.name, v.description, v.dockerfile, v.entrypoint))
            && ParseParams(d, v.entrypoint) == Ok(v.params)
            <==> IdentityOk(v) && DeclaresWords(d, v)
  {
  }

  lemma ChainedExact(d: map<string, Json>, v: Verb)
    ensures ParseChained(d, v.name) == Ok(Chained(v.effect, v.state, v.chain)) && ParseAsserts(d, v.params) == Ok(v.asserts)
            && 1 <= v.timeoutSeconds <= 200
            <==> StateOk(v) && HookOk(v) && DeclaresState(d, v)
  {
    assert "event" !in STATE_KINDS by {
      assert |"event"| == 5 && "chain"[0] != "event"[0] && |"ephemeral"| == 9;
    }
  }

  lemma AllowExact(d: map<string, Json>, allow: seq<string>)
    ensures ParseAllow(GetOr(d, "allow", Null)) == Ok(allow)
            <==> (forall i :: 0 <= i < |allow| ==> NamespacedOk(allow[i]))
                 && (if "allow" !in d || d["allow"] == Null then allow == [] else ReadsTexts(d["allow"], allow))
  {
    TextListExact(GetOr(d, "allow", Null), NamespacedOk, BadAllow, allow);
  }

  lemma RequirementsExact(d: map<string, Json>, rs: seq<Requirement>)
    ensures ParseRequirements(GetOr(d, "requires", Null)) == Ok(rs)
            <==> RequirementsOk(rs)
                 && (if "requires" !in d || d["requires"] == Null then rs == []
                     else d["requires"].Arr? && DeclaresEach(d["requires"].items, rs))
  {
    if "requires" in d && d["requires"].Arr? {
      EachExact(d["requires"].items, rs);
    }
  }

  lemma LimitsExact(d: map<string, Json>, v: Verb)
    ensures ParseLimits(d, v.state) == Ok(Limits(v.needs, v.timeoutSeconds, v.requirements, v.allow))
            <==> 1 <= v.timeoutSeconds <= 200 && ListsOk(v) && DeclaresLimits(d, v)
  {
    AllowExact(d, v.allow);
    RequirementsExact(d, v.requirements);
  }

  lemma {:induction false} FieldsPresent(d: map<string, Json>, fields: seq<string>)
    requires forall f :: f in fields ==> !Absent(d, f)
    ensures RequireFields(d, fields).Met?
  {
    if fields != [] {
      FieldsPresent(d, fields[1..]);
    }
  }

  /** A document is parsed into a verb exactly when it declares it and the verb is well formed. */
  lemma ParseVerbExact(doc: Json, v: Verb)
    ensures ParseVerb(doc) == Ok(v) <==> VerbOk(v) && DeclaresVerb(doc, v)
  {
    if doc.Obj? {
      WordsExact(doc.fields, v);
      ChainedExact(doc.fields, v);
      LimitsExact(doc.fields, v);
      ParseVerbParts(doc.fields, v);
      if DeclaresVerb(doc, v) {
        FieldsPresent(doc.fields, VERB_REQUIRED);
      }
    }
  }

  // the parser's steps, each for its own part of the verb
  lemma ParseVerbParts(d: map<string, Json>, v: Verb)
    ensures ParseVerb(Obj(d)) == Ok(v) <==>
      && RequireFields(d, VERB_REQUIRED).Met?
      && ParseWords(d) == Ok(Words(v.name, v.description, v.dockerfile, v.entrypoint))
      && ParseParams(d, v.entrypoint) == Ok(v.params)
      && ParseChained(d, v.name) == Ok(Chained(v.effect, v.state, v.chain))
      && ParseAsserts(d, v.params) == Ok(v.asserts)
      && ParseLimits(d, v.state) == Ok(Limits(v.needs, v.timeoutSeconds, v.requirements, v.allow))
  {
  }

  lemma ParsedVerbOk(doc: Json)
    requires ParseVerb(doc).Ok?
    ensures VerbOk(ParseVerb(doc).value)
  {
    ParseVerbExact(doc, ParseVerb(doc).value);
  }

  lemma VerbDocDeclares(v: Verb)
    ensures DeclaresVerb(VerbDoc(v), v)
  {
    VerbDocTexts(v);
    VerbDocRest(v);
    TextArrReads(v.allow);
    RequirementDocsDeclare(v.requirements);
  }

  /** Printing a verb and parsing it gives it back exactly when a document can declare it. */
  lemma VerbRoundTrips(v: Verb)
    ensures VerbOk(v) <==> ParseVerb(VerbDoc(v)) == Ok(v)
  {
    VerbDocDeclares(v);
    ParseVerbExact(VerbDoc(v), v);
  }

  // ---- policies ----

  predicate InvokeOk(i: Invoke) {
    i.Only? ==> forall k :: 0 <= k < |i.verbs| ==> NameOk(i.verbs[k])
  }

  /** The policies that parse_policy can produce. */
  predicate PolicyOk(p: Policy) {
    && (forall q :: q in p.principals ==> q != ROOT && PrincipalOk(q) && InvokeOk(p.principals[q].invoke))
    && (forall k :: 0 <= k < |p.hooks| ==> NameOk(p.hooks[k]))
    && (p.door == "open" || p.door == "closed")
  }

  /** The document declares the grant: nothing to invoke and no proposing where it is silent. */
  predicate DeclaresGrant(doc: Json, g: Grant) {
    && doc.Obj?
    && (match g.invoke
        case Everything => "invoke" in doc.fields && doc.fields["invoke"] == Str("*")
        case Only(verbs) => if "invoke" in doc.fields then ReadsTexts(doc.fields["invoke"], verbs) else verbs == [])
    && Reads(doc.fields, "propose", Bool(false), Bool(g.propose))
  }

  ghost predicate DeclaresGrants(raw: map<string, Json>, principals: map<string, Grant>) {
    raw.Keys == principals.Keys && forall q :: q in principals ==> DeclaresGrant(raw[q], principals[q])
  }

  ghost predicate DeclaresPolicy(doc: Json, p: Policy) {
    && doc.Obj? && doc.fields.Keys <= {"principals", "hooks", "door"}
    && (if "principals" in doc.fields
        then doc.fields["principals"].Obj? && DeclaresGrants(doc.fields["principals"].fields, p.principals)
        else p.principals == map[])
    && (if "hooks" in doc.fields then ReadsTexts(doc.fields["hooks"], p.hooks) else p.hooks == [])
    && Reads(doc.fields, "door", Str("closed"), Str(p.door))
  }

  lemma GrantExact(doc: Json, g: Grant)
    ensures ParseGrant(doc) == Ok(g) <==> InvokeOk(g.invoke) && DeclaresGrant(doc, g)
  {
    if doc.Obj? && g.invoke.Only? {
      TextListExact(GetOr(doc.fields, "invoke", Arr([])), NameOk, BadGrant, g.invoke.verbs);
    }
  }

  lemma GrantsExact(raw: map<string, Json>, principals: map<string, Grant>)
    ensures ParsePrincipals(raw) == Ok(principals)
            <==> (forall q :: q in principals ==> q != ROOT && PrincipalOk(q) && InvokeOk(principals[q].invoke))
                 && DeclaresGrants(raw, principals)
  {
    forall q | q in raw && q in principals
      ensures ParseGrant(raw[q]) == Ok(principals[q]) <==> InvokeOk(principals[q].invoke) && DeclaresGrant(raw[q], principals[q])
    {
      GrantExact(raw[q], principals[q]);
    }
    if raw.Keys == principals.Keys && forall q :: q in raw ==> GrantOk(q, raw[q]) && ParseGrant(raw[q]) == Ok(principals[q]) {
      assert (map q | q in raw :: ParseGrant(raw[q]).value) == principals;
    }
    if ParsePrincipals(raw) == Ok(principals) {
      assert principals == map q | q in raw :: ParseGrant(raw[q]).value;
      assert raw.Keys == principals.Keys;
      assert forall q :: q in raw ==> GrantOk(q, raw[q]) && ParseGrant(raw[q]) == Ok(principals[q]);
    }
  }

  /** A document is parsed into a policy exactly when it declares it and the policy is well formed. */
  lemma ParsePolicyExact(doc: Json, p: Policy)
    ensures ParsePolicy(doc) == Ok(p) <==> PolicyOk(p) && DeclaresPolicy(doc, p)
  {
    if doc.Obj? {
      var raw := GetOr(doc.fields, "principals", Obj(map[]));
      if raw.Obj? {
        GrantsExact(raw.fields, p.principals);
      }
      TextListExact(GetOr(doc.fields, "hooks", Arr([])), NameOk, BadHooks, p.hooks);
    }
  }

  lemma ParsedPolicyOk(doc: Json)
    requires ParsePolicy(doc).Ok?
    ensures PolicyOk(ParsePolicy(doc).value)
  {
    ParsePolicyExact(doc, ParsePolicy(doc).value);
  }

  lemma GrantDocDeclares(g: Grant)
    ensures DeclaresGrant(GrantDoc(g), g)
  {
    assert "invoke"[0] != "propose"[0];
    if g.invoke.Only? {
      TextArrReads(g.invoke.verbs);
    }
  }

  lemma PolicyDocDeclares(p: Policy)
    ensures DeclaresPolicy(PolicyDoc(p), p)
  {
    assert |"principals"| == 10 && |"hooks"| == 5 && |"door"| == 4;
    TextArrReads(p.hooks);
    forall q | q in p.principals ensures DeclaresGrant(GrantDoc(p.principals[q]), p.principals[q]) {
      GrantDocDeclares(p.principals[q]);
    }
  }

  /** Printing a policy and parsing it gives it back exactly when a document can declare it. */
  lemma PolicyRoundTrips(p: Policy)
    ensures PolicyOk(p) <==> ParsePolicy(PolicyDoc(p)) == Ok(p)
  {
    PolicyDocDeclares(p);
    ParsePolicyExact(PolicyDoc(p), p);
  }

  // ---- proposals ----

  predicate BodyOk(p: Proposal) {
    if p.kind == "verb" then p.verb.Some? && VerbOk(p.verb.value) && p.policy.None? && p.prompt.None?
    else if p.kind == "policy" then p.policy.Some? && PolicyOk(p.policy.value) && p.verb.None? && p.prompt.None?
    else p.kind == "prompt" && p.prompt.Some? && TextOk(p.prompt.value) && p.verb.None? && p.policy.None?
  }

  /** The proposals that parse_proposal can produce, whatever status they have moved to. */
  predicate ProposalOk(p: Proposal) {
    BareOk(p) && BodyOk(p)
  }

  predicate BareOk(p: Proposal) {
    && TextOk(p.title) && TextOk(p.rationale) && OptionalOk(p.supersedes) && OptionalOk(p.recipeId)
    && p.kind in {"verb", "policy", "prompt"}
    && p.status in {"pending", "blocked", "rejected", "superseded", "disabled", "building", "ready", "failed", "applied",
                    "reverted"}
  }

  lemma ProposalKeys()
    ensures "rationale" != "recipe_id" && "supersedes" != "rationale" && "status" != "policy" && "status" != "prompt"
    ensures "policy" != "prompt" && "verb" != "kind"
    ensures "verb" != "policy" && "verb" != "prompt"
  {
    assert "rationale"[1] != "recipe_id"[1];
    assert "status"[0] != "policy"[0] && "status"[0] != "prompt"[0];
    assert "policy"[1] != "prompt"[1] && "verb"[0] != "kind"[0];
  }

  lemma ProposalDocKind(p: Proposal)
    ensures "kind" in ProposalDoc(p).fields && ProposalDoc(p).fields["kind"] == Str(p.kind)
  {
    ProposalKeys();
  }

  lemma ProposalDocTexts(p: Proposal)
    ensures
      var d := ProposalDoc(p).fields;
      && "kind" in d && d["kind"] == Str(p.kind)
      && "title" in d && d["title"] == Str(p.title)
  {
    ProposalDocKind(p);
    assert "title"[0] == 't';
  }

  lemma ProposalDocReasons(p: Proposal)
    ensures
      var d := ProposalDoc(p).fields;
      && "rationale" in d && d["rationale"] == Str(p.rationale)
      && "supersedes" in d && d["supersedes"] == TextOrNull(p.supersedes)
  {
    ProposalKeys();
  }

  lemma ProposalDocRest(p: Proposal)
    ensures
      var d := ProposalDoc(p).fields;
      && "status" in d && d["status"] == Str(p.status)
      && "recipe_id" in d && d["recipe_id"] == TextOrNull(p.recipeId)
      && "log" in d && d["log"] == TextOrNull(p.log)
  {
    ProposalKeys();
  }

  lemma ProposalDocBody(p: Proposal)
    ensures
      var d := ProposalDoc(p).fields;
      && (p.verb.Some? ==> "verb" in d && d["verb"] == VerbDoc(p.verb.value))
      && (p.policy.Some? ==> "policy" in d && d["policy"] == PolicyDoc(p.policy.value))
      && (p.prompt.Some? ==> "prompt" in d && d["prompt"] == Str(p.prompt.value))
  {
    ProposalKeys();
  }

  ghost predicate DeclaresBody(d: map<string, Json>, p: Proposal) {
    && (p.kind == "verb" ==> "verb" in d && p.verb.Some? && DeclaresVerb(d["verb"], p.verb.value))
    && (p.kind == "policy" ==> "policy" in d && p.policy.Some? && DeclaresPolicy(d["policy"], p.policy.value))
    && (p.kind == "prompt" ==> "prompt" in d && p.prompt.Some? && d["prompt"] == Str(p.prompt.value))
  }

  predicate DeclaresBare(d: map<string, Json>, p: Proposal) {
    && "kind" in d && d["kind"] == Str(p.kind)
    && "title" in d && d["title"] == Str(p.title)
    && "rationale" in d && d["rationale"] == Str(p.rationale)
    && ReadsOptional(d, "supersedes", p.supersedes)
    && Reads(d, "status", Str("pending"), Str(p.status))
    && ReadsOptional(d, "recipe_id", p.recipeId)
    && p.log == (if "log" in d && d["log"].Str? then Some(d["log"].s) else None)
  }

  /** The document declares the proposal; a log that is no text is dropped. */
  ghost predicate DeclaresProposal(doc: Json, p: Proposal) {
    doc.Obj? && DeclaresBare(doc.fields, p) && DeclaresBody(doc.fields, p)
  }

  function Bare(p: Proposal): Proposal {
    p.(verb := None, policy := None, prompt := None)
  }

  lemma BareExact(d: map<string, Json>, p: Proposal)
    ensures ParseBare(d, p.id) == Ok(Bare(p)) <==> BareOk(p) && DeclaresBare(d, p)
  {
    if DeclaresBare(d, p) {
      FieldsPresent(d, PROPOSAL_REQUIRED);
    }
  }

  lemma BodyExact(d: map<string, Json>, p: Proposal)
    requires p.kind in {"verb", "policy", "prompt"}
    ensures ParseBody(d, Bare(p)) == Ok(p) <==> BodyOk(p) && DeclaresBody(d, p)
  {
    ProposalKeys();
    if "verb" in d && p.verb.Some? {
      ParseVerbExact(d["verb"], p.verb.value);
    }
    if "policy" in d && p.policy.Some? {
      ParsePolicyExact(d["policy"], p.policy.value);
    }
  }

  lemma BareParsed(d: map<string, Json>, id: string)
    requires ParseBare(d, id).Ok?
    ensures
      var p := ParseBare(d, id).value;
      p.id == id && p == Bare(p) && p.kind in {"verb", "policy", "prompt"}
  {
  }

  lemma BodyKeepsBare(d: map<string, Json>, bare: Proposal)
    requires bare == Bare(bare) && ParseBody(d, bare).Ok?
    ensures Bare(ParseBody(d, bare).value) == bare
  {
  }

  /** A document is parsed into a proposal exactly when it declares it and the proposal is well formed. */
  lemma ParseProposalExact(doc: Json, p: Proposal)
    ensures ParseProposal(doc, p.id) == Ok(p) <==> ProposalOk(p) && DeclaresProposal(doc, p)
  {
    if doc.Obj? {
      var d := doc.fields;
      BareExact(d, p);
      if p.kind in {"verb", "policy", "prompt"} {
        BodyExact(d, p);
      }
      if ParseProposal(doc, p.id) == Ok(p) {
        BareParsed(d, p.id);
        BodyKeepsBare(d, ParseBare(d, p.id).value);
      }
    }
  }

  lemma ParsedProposalOk(doc: Json, id: string)
    requires ParseProposal(doc, id).Ok?
    ensures ProposalOk(ParseProposal(doc, id).value) && ParseProposal(doc, id).value.id == id
  {
    var p := ParseProposal(doc, id).value;
    BareParsed(doc.fields, id);
    BodyKeepsBare(doc.fields, ParseBare(doc.fields, id).value);
    ParseProposalExact(doc, p);
  }

  lemma ProposalDocDeclares(p: Proposal)
    requires ProposalOk(p)
    ensures DeclaresProposal(ProposalDoc(p), p)
  {
    ProposalDocTexts(p);
    ProposalDocReasons(p);
    ProposalDocRest(p);
    ProposalDocBody(p);
    if p.verb.Some? {
      VerbDocDeclares(p.verb.value);
    } else if p.policy.Some? {
      PolicyDocDeclares(p.policy.value);
    }
  }

  /** Printing a proposal and parsing it under its id gives it back exactly when it is one of those. */
  lemma ProposalRoundTrips(p: Proposal)
    ensures ProposalOk(p) <==> ParseProposal(ProposalDoc(p), p.id) == Ok(p)
  {
    if ProposalOk(p) {
      ProposalDocDeclares(p);
    }
    ParseProposalExact(ProposalDoc(p), p);
  }
}
