/**
  Verbs, policies and proposals: JSON documents validated into values, and the documents those
  values print to.
 */
module Declarations {
  import opened Wrappers
  import opened Json
  import opened Common

  // ---- values ----

  datatype Requirement = Requirement(kind: string, name: string, scope: Option<string>)

  datatype Verb = Verb(
    name: string, description: string, params: map<string, Json>, dockerfile: string, entrypoint: string,
    effect: string, state: string, chain: string, asserts: Option<string>, needs: map<string, Json>,
    timeoutSeconds: int, allow: seq<string>, requirements: seq<Requirement>)

  datatype Invoke = Everything | Only(verbs: seq<string>)

  datatype Grant = Grant(invoke: Invoke, propose: bool)

  datatype Policy = Policy(principals: map<string, Grant>, hooks: seq<string>, door: string)

  datatype Proposal = Proposal(
    id: string, kind: string, title: string, rationale: string, supersedes: Option<string>,
    verb: Option<Verb>, policy: Option<Policy>, prompt: Option<string>,
    status: string, recipeId: Option<string>, log: Option<string>)

  // why a document is not a declaration
  datatype Refusal =
    | NotAnObject | Missing(field: string) | NotText(field: string)
    | BadName | ReservedName | BadParams | BadProperties | UnknownPlaceholder
    | BadEffect | EventState | BadState | BadChain | TrialChain
    | ReservedNamespace | BadNamespace | NotOneParameter
    | BadNeeds | BadTimeout | BadRequirements | NeedsChain | BadAllow
    | UnknownFields | BadGrant | BadHooks | BadDoor
    | BadKind | BadStatus | BadSupersedes

  // ---- constants ----

  const EFFECTS: set<string> := {"local", "read", "communicate", "transact", "administer"}
  const EMBRYO_EFFECTS: set<string> := {"local", "read"}
  const STATE_KINDS: set<string> := {"ephemeral", "chain"}
  const RESERVED_TOOL_NAMES: set<string> := {"remember", "propose", "try", "effort"}
  const RESERVED_NAMESPACES: set<string> := {"root", "system"}
  const POLICY_FIELDS: set<string> := {"principals", "hooks", "door"}
  const VERB_REQUIRED := ["name", "description", "params", "dockerfile", "entrypoint", "effect", "state"]
  const PROPOSAL_REQUIRED := ["kind", "title", "rationale"]
  const PROPOSAL_STATUSES: set<string> := {
    "pending", "blocked", "rejected", "superseded", "disabled", "building", "ready", "failed", "applied", "reverted"}
  const CHAIN_PREFIX := "verb/"
  const TRIAL_CHAIN_PREFIX := "verb/trial/"
  const TIMEOUT_DEFAULT := 60
  const TIMEOUT_MAX := 200
  const DEFAULT_NEEDS := map["ram" := Str("256MB"), "cores" := Num(1)]

  // ---- the patterns; Python's $ also matches before one final newline ----

  predicate IsLower(c: char) {
    'a' <= c <= 'z'
  }

  predicate IsNameChar(c: char) {
    IsLower(c) || '0' <= c <= '9' || c == '_'
  }

  predicate IsWordChar(c: char) {
    IsNameChar(c) || 'A' <= c <= 'Z'
  }

  predicate IsPrincipalChar(c: char) {
    IsWordChar(c) || c in ".@+-"
  }

  predicate All(s: string, f: char -> bool) {
    forall i :: 0 <= i < |s| ==> f(s[i])
  }

  function Chopped(s: string): string {
    if s != "" && s[|s| - 1] == '\n' then s[..|s| - 1] else s
  }

  predicate NameOk(s: string) {
    Chopped(s) != "" && All(Chopped(s), IsNameChar)
  }

  predicate NamespaceOk(s: string) {
    var t := Chopped(s);
    t != "" && IsLower(t[0]) && All(t, IsNameChar)
  }

  predicate NamespacedOk(s: string) {
    var t := Chopped(s);
    exists i :: 0 < i < |t| - 1 && t[i] == ':' && IsLower(t[0]) && All(t[..i], IsNameChar) && All(t[i + 1..], IsPrincipalChar)
  }

  predicate PrincipalOk(s: string) {
    Chopped(s) == ROOT || Chopped(s) == ANONYMOUS || NamespacedOk(s)
  }

  // how far the word characters from i reach
  function WordEnd(s: string, i: nat): (e: nat)
    requires i <= |s|
    ensures i <= e <= |s|
    decreases |s| - i
  {
    if i < |s| && IsWordChar(s[i]) then WordEnd(s, i + 1) else i
  }

  // the {{names}} of an entrypoint, left to right
  function Placeholders(s: string, i: nat): seq<string>
    requires i <= |s|
    decreases |s| - i
  {
    if i + 2 > |s| then []
    else if s[i] == '{' && s[i + 1] == '{' then
      var e := WordEnd(s, i + 2);
      if e > i + 2 && e + 2 <= |s| && s[e] == '}' && s[e + 1] == '}' then
        [s[i + 2..e]] + Placeholders(s, e + 2)
      else Placeholders(s, i + 1)
    else Placeholders(s, i + 1)
  }

  // ---- reading a document ----

  function ObjectOf(doc: Json): Result<map<string, Json>, Refusal> {
    if doc.Obj? then Ok(doc.fields) else Err(NotAnObject)
  }

  predicate Absent(d: map<string, Json>, key: string) {
    key !in d || d[key].Null?
  }

  function OptionalText(d: map<string, Json>, key: string): Result<Option<string>, Refusal> {
    if Absent(d, key) then Ok(None)
    else if d[key].Str? && !IsBlank(d[key].s) then Ok(Some(d[key].s))
    else Err(NotText(key))
  }

  function RequiredText(d: map<string, Json>, key: string): Result<string, Refusal> {
    var text :- OptionalText(d, key);
    if text.Some? then Ok(text.value) else Err(Missing(key))
  }

  function RequireFields(d: map<string, Json>, fields: seq<string>): Outcome<Refusal> {
    if fields == [] then Met
    else if Absent(d, fields[0]) then Unmet(Missing(fields[0]))
    else RequireFields(d, fields[1..])
  }

  // d.get(key, default)
  function GetOr(d: map<string, Json>, key: string, default: Json): Json {
    if key in d then d[key] else default
  }

  function ParseRequirement(doc: Json): Result<Requirement, Refusal> {
    var d :- ObjectOf(doc);
    var kind :- RequiredText(d, "kind");
    var name :- RequiredText(d, "name");
    var scope :- OptionalText(d, "scope");
    Ok(Requirement(kind, name, scope))
  }

  function ParseEach(items: seq<Json>): Result<seq<Requirement>, Refusal> {
    if items == [] then Ok([])
    else
      var init :- ParseEach(items[..|items| - 1]);
      var last :- ParseRequirement(items[|items| - 1]);
      Ok(init + [last])
  }

  function ParseRequirements(raw: Json): Result<seq<Requirement>, Refusal> {
    if raw.Null? then Ok([]) else if raw.Arr? then ParseEach(raw.items) else Err(BadRequirements)
  }

  lemma {:induction false} EachRefused(items: seq<Json>, i: nat)
    requires i <= |items| && ParseEach(items[..i]).Err?
    ensures ParseEach(items) == ParseEach(items[..i])
    decreases |items| - i
  {
    if i < |items| {
      assert items[..i + 1][..i] == items[..i];
      EachRefused(items, i + 1);
    } else {
      assert items[..i] == items;
    }
  }

  /** The loop over the entries of verb.requires. */
  method ReadRequirements(raw: Json) returns (r: Result<seq<Requirement>, Refusal>)
    ensures r == ParseRequirements(raw)
  {
    if raw.Null? {
      return Ok([]);
    }
    if !raw.Arr? {
      return Err(BadRequirements);
    }
    var out: seq<Requirement> := [];
    var i := 0;
    while i < |raw.items|
      invariant i <= |raw.items|
      invariant ParseEach(raw.items[..i]) == Ok(out)
    {
      assert raw.items[..i + 1][..i] == raw.items[..i];
      var entry := ParseRequirement(raw.items[i]);
      i := i + 1;
      if entry.Err? {
        EachRefused(raw.items, i);
        return Err(entry.error);
      }
      out := out + [entry.value];
    }
    assert raw.items[..i] == raw.items;
    return Ok(out);
  }

  // a list of texts that all pass
  function TextList(raw: Json, ok: string -> bool, error: Refusal): Result<seq<string>, Refusal> {
    if !raw.Arr? then Err(error)
    else if forall i :: 0 <= i < |raw.items| ==> raw.items[i].Str? && ok(raw.items[i].s) then
      Ok(seq(|raw.items|, i requires 0 <= i < |raw.items| && raw.items[i].Str? => raw.items[i].s))
    else Err(error)
  }

  function ParseAllow(raw: Json): Result<seq<string>, Refusal> {
    if raw.Null? then Ok([]) else TextList(raw, NamespacedOk, BadAllow)
  }

  function Properties(params: map<string, Json>): Json {
    GetOr(params, "properties", Obj(map[]))
  }

  datatype Words = Words(name: string, description: string, dockerfile: string, entrypoint: string)

  function ParseWords(d: map<string, Json>): Result<Words, Refusal> {
    var name :- RequiredText(d, "name");
    :- Need(NameOk(name), BadName);
    :- Need(name !in RESERVED_TOOL_NAMES, ReservedName);
    var description :- RequiredText(d, "description");
    var dockerfile :- RequiredText(d, "dockerfile");
    var entrypoint :- RequiredText(d, "entrypoint");
    Ok(Words(name, description, dockerfile, entrypoint))
  }

  function ParseParams(d: map<string, Json>, entrypoint: string): Result<map<string, Json>, Refusal> {
    var params := GetOr(d, "params", Null);
    :- Need(params.Obj? && "type" in params.fields && params.fields["type"] == Str("object"), BadParams);
    var properties := Properties(params.fields);
    :- Need(properties.Obj?, BadProperties);
    :- Need(forall p :: p in Placeholders(entrypoint, 0) ==> p in properties.fields, UnknownPlaceholder);
    Ok(params.fields)
  }

  datatype Chained = Chained(effect: string, state: string, chain: string)

  function ParseChained(d: map<string, Json>, name: string): Result<Chained, Refusal> {
    var effect := GetOr(d, "effect", Null);
    :- Need(effect.Str? && effect.s in EFFECTS, BadEffect);
    var state := GetOr(d, "state", Null);
    :- Need(state != Str("event"), EventState);
    :- Need(state.Str? && state.s in STATE_KINDS, BadState);
    var chain := GetOr(d, "chain", Str(CHAIN_PREFIX + name));
    :- Need(chain.Str? && CHAIN_PREFIX < chain.s, BadChain);
    :- Need(!(TRIAL_CHAIN_PREFIX <= chain.s), TrialChain);
    Ok(Chained(effect.s, state.s, chain.s))
  }

  function ParseAsserts(d: map<string, Json>, params: map<string, Json>): Result<Option<string>, Refusal> {
    var asserts :- OptionalText(d, "asserts");
    :- Need(asserts.None? || asserts.value !in RESERVED_NAMESPACES, ReservedNamespace);
    :- Need(asserts.None? || NamespaceOk(asserts.value), BadNamespace);
    :- Need(asserts.None? || (Properties(params).Obj? && |Properties(params).fields| == 1), NotOneParameter);
    Ok(asserts)
  }

  datatype Limits = Limits(needs: map<string, Json>, timeoutSeconds: int, requirements: seq<Requirement>, allow: seq<string>)

  function ParseLimits(d: map<string, Json>, state: string): Result<Limits, Refusal> {
    var needs := GetOr(d, "needs", Obj(DEFAULT_NEEDS));
    :- Need(needs.Obj?, BadNeeds);
    var timeout := GetOr(d, "timeout_seconds", Num(TIMEOUT_DEFAULT));
    :- Need(timeout.Num? && 1 <= timeout.n <= TIMEOUT_MAX, BadTimeout);
    var requirements :- ParseRequirements(GetOr(d, "requires", Null));
    :- Need(requirements == [] || state != "ephemeral", NeedsChain);
    var allow :- ParseAllow(GetOr(d, "allow", Null));
    Ok(Limits(needs.fields, timeout.n, requirements, allow))
  }

  // parse_verb; its checks run in this order
  function ParseVerb(doc: Json): Result<Verb, Refusal> {
    var d :- ObjectOf(doc);
    :- RequireFields(d, VERB_REQUIRED);
    var words :- ParseWords(d);
    var params :- ParseParams(d, words.entrypoint);
    var chained :- ParseChained(d, words.name);
    var asserts :- ParseAsserts(d, params);
    var limits :- ParseLimits(d, chained.state);
    Ok(Verb(words.name, words.description, params, words.dockerfile, words.entrypoint, chained.effect, chained.state,
            chained.chain, asserts, limits.needs, limits.timeoutSeconds, limits.allow, limits.requirements))
  }

  function ParseGrant(doc: Json): Result<Grant, Refusal> {
    var d :- ObjectOf(doc);
    var raw := GetOr(d, "invoke", Arr([]));
    var invoke :- if raw == Str("*") then Ok(Everything)
                  else
                    var verbs :- TextList(raw, NameOk, BadGrant);
                    Ok(Only(verbs));
    var propose := GetOr(d, "propose", Bool(false));
    :- Need(propose.Bool?, BadGrant);
    Ok(Grant(invoke, propose.b))
  }

  predicate GrantOk(principal: string, doc: Json) {
    principal != ROOT && PrincipalOk(principal) && ParseGrant(doc).Ok?
  }

  function ParsePrincipals(raw: map<string, Json>): Result<map<string, Grant>, Refusal> {
    if forall p :: p in raw ==> GrantOk(p, raw[p]) then
      Ok(map p | p in raw :: ParseGrant(raw[p]).value)
    else Err(BadGrant)
  }

  function ParsePolicy(doc: Json): Result<Policy, Refusal> {
    var d :- ObjectOf(doc);
    :- Need(d.Keys <= POLICY_FIELDS, UnknownFields);
    var raw :- ObjectOf(GetOr(d, "principals", Obj(map[])));
    var principals :- ParsePrincipals(raw);
    var hooks :- TextList(GetOr(d, "hooks", Arr([])), NameOk, BadHooks);
    var door := GetOr(d, "door", Str("closed"));
    :- Need(door == Str("open") || door == Str("closed"), BadDoor);
    Ok(Policy(principals, hooks, door.s))
  }

  /** The loop over the grants; any refusal is the document's. */
  method ReadPrincipals(raw: map<string, Json>) returns (r: Result<map<string, Grant>, Refusal>)
    ensures r == ParsePrincipals(raw)
  {
    var principals: map<string, Grant> := map[];
    var left := raw.Keys;
    while left != {}
      invariant left <= raw.Keys && principals.Keys == raw.Keys - left
      invariant forall p :: p in principals ==> GrantOk(p, raw[p]) && principals[p] == ParseGrant(raw[p]).value
    {
      var p :| p in left;
      left := left - {p};
      if p == ROOT || !PrincipalOk(p) {
        return Err(BadGrant);
      }
      var grant := ParseGrant(raw[p]);
      if grant.Err? {
        return Err(BadGrant);
      }
      principals := principals[p := grant.value];
    }
    assert forall p :: p in raw ==> p in principals;
    assert principals == map p | p in raw :: ParseGrant(raw[p]).value;
    return Ok(principals);
  }

  // everything but the body
  function ParseBare(d: map<string, Json>, id: string): Result<Proposal, Refusal> {
    var required := RequireFields(d, PROPOSAL_REQUIRED);
    :- required;
    var kind := GetOr(d, "kind", Null);
    :- Need(kind.Str? && kind.s in {"verb", "policy", "prompt"}, BadKind);
    var title :- RequiredText(d, "title");
    var rationale :- RequiredText(d, "rationale");
    var supersedes :- OptionalText(d, "supersedes");
    var status := GetOr(d, "status", Str("pending"));
    :- Need(status.Str? && status.s in PROPOSAL_STATUSES, BadStatus);
    var recipeId :- OptionalText(d, "recipe_id");
    var log := GetOr(d, "log", Null);
    Ok(Proposal(id, kind.s, title, rationale, supersedes, None, None, None, status.s, recipeId,
                if log.Str? then Some(log.s) else None))
  }

  function ParseBody(d: map<string, Json>, bare: Proposal): Result<Proposal, Refusal> {
    if bare.kind == "verb" then
      :- Need("verb" in d, Missing("verb"));
      var verb :- ParseVerb(d["verb"]);
      Ok(bare.(verb := Some(verb)))
    else if bare.kind == "policy" then
      :- Need("policy" in d, Missing("policy"));
      var policy :- ParsePolicy(d["policy"]);
      Ok(bare.(policy := Some(policy)))
    else
      var prompt :- RequiredText(d, "prompt");
      Ok(bare.(prompt := Some(prompt)))
  }

  function ParseProposal(doc: Json, id: string): Result<Proposal, Refusal> {
    var d :- ObjectOf(doc);
    var bare :- ParseBare(d, id);
    ParseBody(d, bare)
  }

  // ---- printing a value ----

  function RequirementDoc(r: Requirement): Json {
    var d := map["kind" := Str(r.kind), "name" := Str(r.name)];
    Obj(if r.scope.Some? then d["scope" := Str(r.scope.value)] else d)
  }

  function TextArr(texts: seq<string>): Json {
    Arr(seq(|texts|, i requires 0 <= i < |texts| => Str(texts[i])))
  }

  function VerbFields(v: Verb): map<string, Json> {
    map[
      "name" := Str(v.name),
      "description" := Str(v.description),
      "params" := Obj(v.params),
      "dockerfile" := Str(v.dockerfile),
      "entrypoint" := Str(v.entrypoint),
      "effect" := Str(v.effect),
      "state" := Str(v.state),
      "chain" := Str(v.chain),
      "needs" := Obj(v.needs),
      "timeout_seconds" := Num(v.timeoutSeconds),
      "allow" := TextArr(v.allow),
      "requires" := Arr(seq(|v.requirements|, i requires 0 <= i < |v.requirements| => RequirementDoc(v.requirements[i])))]
  }

  function VerbDoc(v: Verb): Json {
    Obj(if v.asserts.Some? then VerbFields(v)["asserts" := Str(v.asserts.value)] else VerbFields(v))
  }

  function GrantDoc(g: Grant): Json {
    Obj(map["invoke" := if g.invoke.Everything? then Str("*") else TextArr(g.invoke.verbs), "propose" := Bool(g.propose)])
  }

  function PolicyDoc(p: Policy): Json {
    Obj(map[
          "principals" := Obj(map q | q in p.principals :: GrantDoc(p.principals[q])),
          "hooks" := TextArr(p.hooks),
          "door" := Str(p.door)])
  }

  function TextOrNull(text: Option<string>): Json {
    if text.Some? then Str(text.value) else Null
  }

  function ProposalDoc(p: Proposal): Json {
    var d := map[
      "id" := Str(p.id),
      "kind" := Str(p.kind),
      "title" := Str(p.title),
      "rationale" := Str(p.rationale),
      "supersedes" := TextOrNull(p.supersedes),
      "status" := Str(p.status),
      "recipe_id" := TextOrNull(p.recipeId),
      "log" := TextOrNull(p.log)];
    var withVerb := if p.verb.Some? then d["verb" := VerbDoc(p.verb.value)] else d;
    var withPolicy := if p.policy.Some? then withVerb["policy" := PolicyDoc(p.policy.value)] else withVerb;
    Obj(if p.prompt.Some? then withPolicy["prompt" := Str(p.prompt.value)] else withPolicy)
  }
}
