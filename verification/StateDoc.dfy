/**
  state.json: the brain's state as one document, and the state read back from it. Parts that are
  plain data (messages, hook runs, tool results) stay JSON; verbs, policies and proposals go
  through their parsers.
 */
module StateDoc {
  import opened Wrappers
  import opened Json
  import opened Common
  import opened Declarations
  import opened RoundTrips
  import FileTree

  // ---- data ----

  datatype CatalogEntry = CatalogEntry(
    verb: Verb, status: string, recipeId: Option<string>, proposalId: string, provided: seq<string>)

  datatype Trial = Trial(
    id: string, verb: Verb, runs: seq<Json>, recipeId: Option<string>, status: string, results: seq<Json>,
    buildLog: Option<string>, chain: Option<string>, swept: bool)

  datatype Exchange = Exchange(
    turn: int, principal: string, door: string, input: string, reply: string, output: string, audit: map<string, Json>)

  datatype Pending = Pending(
    turn: int, principal: string, door: string, message: string, payload: string, messages: seq<Json>,
    offered: seq<string>, job: string, hooks: seq<Json>, calls: seq<Json>, made: seq<string>, modelCalls: int,
    usage: map<string, Json>, forks: int, startedAt: string, writeMemory: bool, drained: seq<Json>,
    requestedEffort: Option<string>, efforts: seq<Json>, said: seq<string>)

  datatype State = State(
    turn: int, catalog: map<string, CatalogEntry>, proposals: map<string, Proposal>, trials: map<string, Trial>,
    inbox: seq<InboxItem>, window: seq<Exchange>, pending: Option<Pending>, queue: seq<Arrival>,
    principals: set<string>, policy: Policy, selfDescription: string, previousPolicy: Option<Policy>,
    previousPrompt: Option<string>, appliedPolicy: Option<string>, appliedPrompt: Option<string>,
    nextProposal: int, nextTrial: int)

  // ---- printing ----

  function EntryDoc(e: CatalogEntry): Json {
    Obj(map[
          "verb" := VerbDoc(e.verb), "status" := Str(e.status), "recipe_id" := TextOrNull(e.recipeId),
          "proposal_id" := Str(e.proposalId), "provided" := TextArr(e.provided)])
  }

  function TrialDoc(t: Trial): Json {
    Obj(map[
          "id" := Str(t.id), "verb" := VerbDoc(t.verb), "runs" := Arr(t.runs), "recipe_id" := TextOrNull(t.recipeId),
          "status" := Str(t.status), "results" := Arr(t.results), "build_log" := TextOrNull(t.buildLog),
          "chain" := TextOrNull(t.chain), "swept" := Bool(t.swept)])
  }

  function ItemDoc(i: InboxItem): Json {
    Obj(map["kind" := Str(i.kind), "text" := Str(i.text)])
  }

  function ExchangeDoc(e: Exchange): Json {
    Obj(map[
          "turn" := Num(e.turn), "principal" := Str(e.principal), "door" := Str(e.door), "input" := Str(e.input),
          "reply" := Str(e.reply), "output" := Str(e.output), "audit" := Obj(e.audit)])
  }

  function QueuedDoc(q: Arrival): Json {
    Obj(map[
          "principal" := Str(q.principal), "door" := Str(q.door), "message" := Str(q.message),
          "payload" := Str(q.payload), "hooks" := Arr(q.hooks)])
  }

  function PendingDoc(p: Pending): Json {
    Obj(map[
          "turn" := Num(p.turn), "principal" := Str(p.principal), "door" := Str(p.door), "message" := Str(p.message),
          "payload" := Str(p.payload), "messages" := Arr(p.messages), "offered" := TextArr(p.offered),
          "job" := Str(p.job), "hooks" := Arr(p.hooks), "calls" := Arr(p.calls), "made" := TextArr(p.made),
          "model_calls" := Num(p.modelCalls), "usage" := Obj(p.usage), "forks" := Num(p.forks),
          "started_at" := Str(p.startedAt), "write_memory" := Bool(p.writeMemory), "drained" := Arr(p.drained),
          "requested_effort" := TextOrNull(p.requestedEffort), "efforts" := Arr(p.efforts), "said" := TextArr(p.said)])
  }

  // sorted(), as a relation: the set's texts in order
  ghost function Listed(texts: set<string>): seq<string> {
    if texts == {} then []
    else
      var least := Least(texts);
      [least] + Listed(texts - {least})
  }

  ghost function Least(texts: set<string>): (least: string)
    requires texts != {}
    ensures IsLeast(least, texts)
  {
    SomeLeast(texts);
    var least :| IsLeast(least, texts);
    least
  }

  ghost predicate IsLeast(least: string, texts: set<string>) {
    least in texts && forall t :: t in texts ==> FileTree.TextLeq(least, t)
  }

  lemma {:induction false} LeastExists(texts: set<string>) returns (least: string)
    requires texts != {}
    ensures IsLeast(least, texts)
    decreases |texts|
  {
    least :| least in texts;
    FileTree.TextLeqTotal(least, least);
    var rest := texts - {least};
    if rest != {} {
      var other := LeastExists(rest);
      FileTree.TextLeqTotal(least, other);
      if FileTree.TextLeq(other, least) {
        least := other;
      } else {
        forall t | t in rest ensures FileTree.TextLeq(least, t) {
          FileTree.TextLeqTransitive(least, other, t);
        }
      }
    }
  }

  lemma SomeLeast(texts: set<string>)
    requires texts != {}
    ensures exists least :: IsLeast(least, texts)
  {
    var least := LeastExists(texts);
  }

  function DocsOf<T>(xs: seq<T>, doc: T -> Json): seq<Json> {
    seq(|xs|, i requires 0 <= i < |xs| => doc(xs[i]))
  }

  function TableOf<T>(xs: map<string, T>, doc: T -> Json): map<string, Json> {
    map k | k in xs :: doc(xs[k])
  }

  function PolicyOrNull(p: Option<Policy>): Json {
    if p.Some? then PolicyDoc(p.value) else Null
  }

  ghost function ToDoc(s: State): Json {
    Obj(map[
          "turn" := Num(s.turn),
          "catalog" := Obj(TableOf(s.catalog, EntryDoc)),
          "proposals" := Obj(TableOf(s.proposals, ProposalDoc)),
          "trials" := Obj(TableOf(s.trials, TrialDoc)),
          "inbox" := Arr(DocsOf(s.inbox, ItemDoc)),
          "window" := Arr(DocsOf(s.window, ExchangeDoc)),
          "pending" := if s.pending.Some? then PendingDoc(s.pending.value) else Null,
          "queue" := Arr(DocsOf(s.queue, QueuedDoc)),
          "principals" := TextArr(Listed(s.principals)),
          "policy" := PolicyDoc(s.policy),
          "self_description" := Str(s.selfDescription),
          "previous_policy" := PolicyOrNull(s.previousPolicy),
          "previous_prompt" := TextOrNull(s.previousPrompt),
          "applied_policy" := TextOrNull(s.appliedPolicy),
          "applied_prompt" := TextOrNull(s.appliedPrompt),
          "next_proposal" := Num(s.nextProposal),
          "next_trial" := Num(s.nextTrial)])
  }

  // ---- reading ----

  const NO_USAGE: map<string, Json> :=
    map["input_tokens" := Num(0), "output_tokens" := Num(0), "cache_read_input_tokens" := Num(0), "cache_creation_input_tokens" := Num(0)]
  const EXCHANGE_FIELDS: set<string> := {"turn", "principal", "door", "input", "reply", "output", "audit"}
  const QUEUED_FIELDS: set<string> := {"principal", "door", "message", "payload", "hooks"}
  const PENDING_FIELDS: set<string> := {
    "turn", "principal", "door", "message", "payload", "messages", "offered", "job", "hooks", "calls", "made", "model_calls",
    "usage", "forks", "started_at", "write_memory", "drained", "requested_effort", "efforts", "said"}

  // doc[key] and doc.get(key), where only a text, a number, a list or an object will do
  function TextAt(d: map<string, Json>, key: string): Result<string, Refusal> {
    if key in d && d[key].Str? then Ok(d[key].s) else Err(Missing(key))
  }

  function TextMaybe(d: map<string, Json>, key: string): Result<Option<string>, Refusal> {
    if Absent(d, key) then Ok(None) else if d[key].Str? then Ok(Some(d[key].s)) else Err(NotText(key))
  }

  function NumberAt(d: map<string, Json>, key: string): Result<int, Refusal> {
    if key in d && d[key].Num? then Ok(d[key].n) else Err(Missing(key))
  }

  function FlagAt(d: map<string, Json>, key: string): Result<bool, Refusal> {
    if key in d && d[key].Bool? then Ok(d[key].b) else Err(Missing(key))
  }

  function ListAt(d: map<string, Json>, key: string): Result<seq<Json>, Refusal> {
    if key in d && d[key].Arr? then Ok(d[key].items) else Err(Missing(key))
  }

  function FieldsAt(d: map<string, Json>, key: string): Result<map<string, Json>, Refusal> {
    if key in d && d[key].Obj? then Ok(d[key].fields) else Err(Missing(key))
  }

  function TextsIn(raw: Json, key: string): Result<seq<string>, Refusal> {
    TextList(raw, s => true, Missing(key))
  }

  function TextsAt(d: map<string, Json>, key: string): Result<seq<string>, Refusal> {
    TextsIn(GetOr(d, key, Null), key)
  }

  function ParseAll<T>(items: seq<Json>, parse: Json -> Result<T, Refusal>): Result<seq<T>, Refusal> {
    if forall i :: 0 <= i < |items| ==> parse(items[i]).Ok? then
      Ok(seq(|items|, i requires 0 <= i < |items| && parse(items[i]).Ok? => parse(items[i]).value))
    else Err(NotAnObject)
  }

  function ParseTable<T>(table: map<string, Json>, parse: (string, Json) -> Result<T, Refusal>): Result<map<string, T>, Refusal> {
    if forall k :: k in table ==> parse(k, table[k]).Ok? then Ok(map k | k in table :: parse(k, table[k]).value)
    else Err(NotAnObject)
  }

  function FromEntry(key: string, doc: Json): Result<CatalogEntry, Refusal> {
    var d :- ObjectOf(doc);
    EntryOf(d, ParseVerb(GetOr(d, "verb", Null)))
  }

  function EntryOf(d: map<string, Json>, parsed: Result<Verb, Refusal>): Result<CatalogEntry, Refusal> {
    var verb :- parsed;
    var status :- TextAt(d, "status");
    var recipeId :- TextMaybe(d, "recipe_id");
    var proposalId :- TextAt(d, "proposal_id");
    var provided :- TextsIn(GetOr(d, "provided", Arr([])), "provided");
    Ok(CatalogEntry(verb, status, recipeId, proposalId, provided))
  }

  function Truthy(j: Json): bool {
    match j
    case Null => false
    case Bool(b) => b
    case Num(n) => n != 0
    case Frac(r) => r != 0.0
    case Str(s) => s != ""
    case Arr(items) => items != []
    case Obj(fields) => fields != map[]
  }

  function FromTrial(key: string, doc: Json): Result<Trial, Refusal> {
    var d :- ObjectOf(doc);
    TrialOf(d, ParseVerb(GetOr(d, "verb", Null)))
  }

  function TrialOf(d: map<string, Json>, parsed: Result<Verb, Refusal>): Result<Trial, Refusal> {
    var id :- TextAt(d, "id");
    var verb :- parsed;
    var runs :- ListAt(d, "runs");
    var recipeId :- TextMaybe(d, "recipe_id");
    var status :- TextAt(d, "status");
    var results :- if Truthy(GetOr(d, "results", Null)) then ListAt(d, "results") else Ok([]);
    var buildLog :- TextMaybe(d, "build_log");
    var chain :- TextMaybe(d, "chain");
    Ok(Trial(id, verb, runs, recipeId, status, results, buildLog, chain, Truthy(GetOr(d, "swept", Null))))
  }

  // a class built from the document's fields takes no others
  predicate Known(d: map<string, Json>, fields: set<string>) {
    d.Keys <= fields
  }

  function FromItem(doc: Json): Result<InboxItem, Refusal> {
    var d :- ObjectOf(doc);
    :- Need(Known(d, {"kind", "text"}), UnknownFields);
    var kind :- TextAt(d, "kind");
    var text :- TextAt(d, "text");
    Ok(InboxItem(kind, text))
  }

  function FromExchange(doc: Json): Result<Exchange, Refusal> {
    var d :- ObjectOf(doc);
    :- Need(Known(d, EXCHANGE_FIELDS), UnknownFields);
    var turn :- NumberAt(d, "turn");
    var principal :- TextAt(d, "principal");
    var door :- TextAt(d, "door");
    var input :- TextAt(d, "input");
    var reply :- TextAt(d, "reply");
    var output :- if "output" in d then TextAt(d, "output") else Ok("");
    var audit :- if "audit" in d then FieldsAt(d, "audit") else Ok(map[]);
    Ok(Exchange(turn, principal, door, input, reply, output, audit))
  }

  function FromQueued(doc: Json): Result<Arrival, Refusal> {
    var d :- ObjectOf(doc);
    :- Need(Known(d, QUEUED_FIELDS), UnknownFields);
    var principal :- TextAt(d, "principal");
    var door :- TextAt(d, "door");
    var message :- TextAt(d, "message");
    var payload :- TextAt(d, "payload");
    var hooks :- if "hooks" in d then ListAt(d, "hooks") else Ok([]);
    Ok(Arrival(principal, door, message, payload, hooks))
  }

  datatype Asked = Asked(turn: int, principal: string, door: string, message: string, payload: string)

  function ReadAsked(d: map<string, Json>): Result<Asked, Refusal> {
    var turn :- NumberAt(d, "turn");
    var principal :- TextAt(d, "principal");
    var door :- TextAt(d, "door");
    var message :- TextAt(d, "message");
    var payload :- TextAt(d, "payload");
    Ok(Asked(turn, principal, door, message, payload))
  }

  datatype Work = Work(messages: seq<Json>, offered: seq<string>, job: string, hooks: seq<Json>, calls: seq<Json>, made: seq<string>)

  function ReadWork(d: map<string, Json>): Result<Work, Refusal> {
    var messages :- ListAt(d, "messages");
    var offered :- TextsAt(d, "offered");
    var job :- TextAt(d, "job");
    var hooks :- if "hooks" in d then ListAt(d, "hooks") else Ok([]);
    var calls :- if "calls" in d then ListAt(d, "calls") else Ok([]);
    var made :- if "made" in d then TextsAt(d, "made") else Ok([]);
    Ok(Work(messages, offered, job, hooks, calls, made))
  }

  datatype Cost = Cost(modelCalls: int, usage: map<string, Json>, forks: int, startedAt: string, writeMemory: bool)

  function ReadCost(d: map<string, Json>): Result<Cost, Refusal> {
    var modelCalls :- if "model_calls" in d then NumberAt(d, "model_calls") else Ok(0);
    var usage :- if "usage" in d then FieldsAt(d, "usage") else Ok(NO_USAGE);
    var forks :- if "forks" in d then NumberAt(d, "forks") else Ok(1);
    var startedAt :- if "started_at" in d then TextAt(d, "started_at") else Ok("");
    var writeMemory :- if "write_memory" in d then FlagAt(d, "write_memory") else Ok(false);
    Ok(Cost(modelCalls, usage, forks, startedAt, writeMemory))
  }

  datatype Drawn = Drawn(drained: seq<Json>, requestedEffort: Option<string>, efforts: seq<Json>, said: seq<string>)

  function ReadDrawn(d: map<string, Json>): Result<Drawn, Refusal> {
    var drained :- if "drained" in d then ListAt(d, "drained") else Ok([]);
    var requestedEffort :- TextMaybe(d, "requested_effort");
    var efforts :- if "efforts" in d then ListAt(d, "efforts") else Ok([]);
    var said :- if "said" in d then TextsAt(d, "said") else Ok([]);
    Ok(Drawn(drained, requestedEffort, efforts, said))
  }

  function FromPending(doc: Json): Result<Pending, Refusal> {
    var d :- ObjectOf(doc);
    :- Need(Known(d, PENDING_FIELDS), UnknownFields);
    var a :- ReadAsked(d);
    var w :- ReadWork(d);
    var c :- ReadCost(d);
    var r :- ReadDrawn(d);
    Ok(Pending(a.turn, a.principal, a.door, a.message, a.payload, w.messages, w.offered, w.job, w.hooks, w.calls, w.made,
               c.modelCalls, c.usage, c.forks, c.startedAt, c.writeMemory, r.drained, r.requestedEffort, r.efforts, r.said))
  }

  function FromProposal(key: string, doc: Json): Result<Proposal, Refusal> {
    ParseProposal(doc, key)
  }

  function PolicyMaybe(d: map<string, Json>, key: string): Result<Option<Policy>, Refusal> {
    if Absent(d, key) then Ok(None)
    else
      var policy :- ParsePolicy(d[key]);
      Ok(Some(policy))
  }

  function PendingMaybe(d: map<string, Json>): Result<Option<Pending>, Refusal> {
    if Absent(d, "pending") then Ok(None)
    else
      var pending :- FromPending(d["pending"]);
      Ok(Some(pending))
  }

  datatype Tables = Tables(
    turn: int, catalog: map<string, CatalogEntry>, proposals: map<string, Proposal>, trials: map<string, Trial>)

  function ReadTable<T>(d: map<string, Json>, key: string, parse: (string, Json) -> Result<T, Refusal>): Result<map<string, T>, Refusal> {
    var table :- FieldsAt(d, key);
    ParseTable(table, parse)
  }

  function ReadTables(d: map<string, Json>): Result<Tables, Refusal> {
    var turn :- NumberAt(d, "turn");
    var catalog :- ReadTable(d, "catalog", FromEntry);
    var proposals :- ReadTable(d, "proposals", FromProposal);
    var trials :- ReadTable(d, "trials", FromTrial);
    Ok(Tables(turn, catalog, proposals, trials))
  }

  datatype Lists = Lists(inbox: seq<InboxItem>, window: seq<Exchange>, pending: Option<Pending>, queue: seq<Arrival>)

  function ReadLists(d: map<string, Json>): Result<Lists, Refusal> {
    var items :- ListAt(d, "inbox");
    var inbox :- ParseAll(items, FromItem);
    var exchanges :- ListAt(d, "window");
    var window :- ParseAll(exchanges, FromExchange);
    var pending :- PendingMaybe(d);
    var waiting :- if "queue" in d then ListAt(d, "queue") else Ok([]);
    var queue :- ParseAll(waiting, FromQueued);
    Ok(Lists(inbox, window, pending, queue))
  }

  datatype People = People(principals: set<string>, policy: Policy, selfDescription: string, previousPolicy: Option<Policy>)

  function ReadPeople(d: map<string, Json>): Result<People, Refusal> {
    var principals :- TextsAt(d, "principals");
    var policy :- ParsePolicy(GetOr(d, "policy", Null));
    var selfDescription :- TextAt(d, "self_description");
    var previousPolicy :- PolicyMaybe(d, "previous_policy");
    Ok(People((set p | p in principals), policy, selfDescription, previousPolicy))
  }

  datatype Applied = Applied(
    previousPrompt: Option<string>, policy: Option<string>, prompt: Option<string>, nextProposal: int, nextTrial: int)

  function ReadApplied(d: map<string, Json>): Result<Applied, Refusal> {
    var previousPrompt :- TextMaybe(d, "previous_prompt");
    var appliedPolicy :- TextMaybe(d, "applied_policy");
    var appliedPrompt :- TextMaybe(d, "applied_prompt");
    var nextProposal :- NumberAt(d, "next_proposal");
    var nextTrial :- NumberAt(d, "next_trial");
    Ok(Applied(previousPrompt, appliedPolicy, appliedPrompt, nextProposal, nextTrial))
  }

  function FromDoc(doc: Json): Result<State, Refusal> {
    var d :- ObjectOf(doc);
    var t :- ReadTables(d);
    var l :- ReadLists(d);
    var p :- ReadPeople(d);
    var a :- ReadApplied(d);
    Ok(State(t.turn, t.catalog, t.proposals, t.trials, l.inbox, l.window, l.pending, l.queue, p.principals, p.policy,
             p.selfDescription, p.previousPolicy, a.previousPrompt, a.policy, a.prompt, a.nextProposal, a.nextTrial))
  }

  // ---- what a document says ----

  predicate SaysText(d: map<string, Json>, key: string, text: string) {
    key in d && d[key] == Str(text)
  }

  predicate SaysNumber(d: map<string, Json>, key: string, n: int) {
    key in d && d[key] == Num(n)
  }

  predicate SaysList(d: map<string, Json>, key: string, items: seq<Json>) {
    key in d && d[key] == Arr(items)
  }

  predicate SaysTexts(d: map<string, Json>, key: string, texts: seq<string>) {
    key in d && ReadsTexts(d[key], texts)
  }

  lemma TextsExact(raw: Json, key: string, texts: seq<string>)
    ensures TextsIn(raw, key) == Ok(texts) <==> ReadsTexts(raw, texts)
  {
    TextListExact(raw, s => true, Missing(key), texts);
  }

  ghost predicate ListSays<T>(doc: Json, declares: (Json, T) -> bool, xs: seq<T>) {
    doc.Arr? && |doc.items| == |xs| && forall i :: 0 <= i < |xs| ==> declares(doc.items[i], xs[i])
  }

  ghost predicate TableSays<T>(doc: Json, declares: (Json, T) -> bool, xs: map<string, T>) {
    doc.Obj? && doc.fields.Keys == xs.Keys && forall k :: k in xs ==> declares(doc.fields[k], xs[k])
  }

  ghost predicate AllOk<T>(xs: map<string, T>, ok: (string, T) -> bool) {
    forall k :: k in xs ==> ok(k, xs[k])
  }

  // documents are read into what they declare, if it is well formed
  ghost predicate Exact<T(!new)>(parse: (string, Json) -> Result<T, Refusal>, ok: (string, T) -> bool, declares: (Json, T) -> bool) {
    forall k, doc, x :: (parse(k, doc) == Ok(x)) == (ok(k, x) && declares(doc, x))
  }

  // what each of its documents is read into makes a list what it is read into
  lemma ListExact<T(!new)>(items: seq<Json>, parse: Json -> Result<T, Refusal>, declares: (Json, T) -> bool, xs: seq<T>)
    requires forall doc, x :: parse(doc) == Ok(x) <==> declares(doc, x)
    ensures ParseAll(items, parse) == Ok(xs) <==> ListSays(Arr(items), declares, xs)
  {
    if ListSays(Arr(items), declares, xs) {
      assert forall i :: 0 <= i < |xs| ==> declares(Arr(items).items[i], xs[i]) && parse(items[i]) == Ok(xs[i]);
      assert ParseAll(items, parse).Ok?;
      assert ParseAll(items, parse).value == xs;
    }
    if ParseAll(items, parse) == Ok(xs) {
      assert forall i :: 0 <= i < |xs| ==> parse(items[i]) == Ok(xs[i]);
    }
  }

  lemma TableExact<T(!new)>(d: map<string, Json>, key: string, parse: (string, Json) -> Result<T, Refusal>,
                            ok: (string, T) -> bool, declares: (Json, T) -> bool, xs: map<string, T>)
    requires Exact(parse, ok, declares)
    ensures ReadTable(d, key, parse) == Ok(xs) <==> AllOk(xs, ok) && key in d && TableSays(d[key], declares, xs)
  {
    if key in d && d[key].Obj? {
      var table := d[key].fields;
      if AllOk(xs, ok) && TableSays(d[key], declares, xs) {
        assert forall k :: k in table ==> k in xs && parse(k, table[k]) == Ok(xs[k]);
        assert ParseTable(table, parse).Ok?;
        assert ParseTable(table, parse).value == xs;
      }
      if ParseTable(table, parse) == Ok(xs) {
        assert xs == map k | k in table :: parse(k, table[k]).value;
        assert table.Keys == xs.Keys;
        assert forall k :: k in xs ==> parse(k, table[k]) == Ok(xs[k]);
      }
    }
  }

  // a table printed entry by entry, whatever its documents say
  lemma TableDeclares<T(!new)>(xs: map<string, T>, doc: T -> Json, ok: (string, T) -> bool, declares: (Json, T) -> bool)
    requires AllOk(xs, ok) && forall k, x :: ok(k, x) ==> declares(doc(x), x)
    ensures TableSays(Obj(TableOf(xs, doc)), declares, xs)
  {
  }

  lemma ListDeclares<T(!new)>(xs: seq<T>, doc: T -> Json, declares: (Json, T) -> bool)
    requires forall x :: declares(doc(x), x)
    ensures ListSays(Arr(DocsOf(xs, doc)), declares, xs)
  {
  }

  lemma ShortKeys()
    ensures "kind" != "text" && "turn" != "door" && "message" != "payload"
    ensures "input" != "reply" && "input" != "audit" && "reply" != "audit"
    ensures "verb" != "runs" && "chain" != "swept" && "recipe_id" != "build_log"
  {
    assert "kind"[0] != "text"[0] && "turn"[0] != "door"[0] && "message"[0] != "payload"[0];
    assert "input"[0] != "reply"[0] && "input"[0] != "audit"[0] && "reply"[0] != "audit"[0];
    assert "verb"[0] != "runs"[0] && "chain"[0] != "swept"[0] && "recipe_id"[0] != "build_log"[0];
  }

  // ---- catalog entries and trials ----

  predicate EntryOk(k: string, e: CatalogEntry) {
    VerbOk(e.verb)
  }

  // the proposal is filed under its own id
  predicate FiledOk(k: string, p: Proposal) {
    ProposalOk(p) && p.id == k
  }

  predicate TrialOk(k: string, t: Trial) {
    VerbOk(t.verb)
  }

  predicate DeclaresStatus(d: map<string, Json>, e: CatalogEntry) {
    && SaysText(d, "status", e.status) && ReadsOptional(d, "recipe_id", e.recipeId)
    && SaysText(d, "proposal_id", e.proposalId)
    && (if "provided" in d then ReadsTexts(d["provided"], e.provided) else e.provided == [])
  }

  ghost predicate DeclaresEntry(doc: Json, e: CatalogEntry) {
    && doc.Obj? && "verb" in doc.fields && DeclaresVerb(doc.fields["verb"], e.verb)
    && DeclaresStatus(doc.fields, e)
  }

  lemma StatusExact(d: map<string, Json>, parsed: Result<Verb, Refusal>, e: CatalogEntry)
    ensures EntryOf(d, parsed) == Ok(e) <==> parsed == Ok(e.verb) && DeclaresStatus(d, e)
  {
    TextsExact(GetOr(d, "provided", Arr([])), "provided", e.provided);
  }

  lemma EntryExact(key: string, doc: Json, e: CatalogEntry)
    ensures FromEntry(key, doc) == Ok(e) <==> EntryOk(key, e) && DeclaresEntry(doc, e)
  {
    if doc.Obj? {
      var raw := GetOr(doc.fields, "verb", Null);
      ParseVerbExact(raw, e.verb);
      StatusExact(doc.fields, ParseVerb(raw), e);
    }
  }

  lemma EntryDocDeclares(e: CatalogEntry)
    ensures DeclaresEntry(EntryDoc(e), e)
  {
    ShortKeys();
    VerbDocDeclares(e.verb);
    TextArrReads(e.provided);
  }

  lemma EntryBack(key: string, e: CatalogEntry)
    ensures VerbOk(e.verb) <==> FromEntry(key, EntryDoc(e)) == Ok(e)
  {
    EntryDocDeclares(e);
    EntryExact(key, EntryDoc(e), e);
  }

  predicate Falsy(j: Json) {
    j in {Null, Bool(false), Num(0), Frac(0.0), Str(""), Arr([]), Obj(map[])}
  }

  predicate DeclaresRuns(d: map<string, Json>, t: Trial) {
    && SaysText(d, "id", t.id) && SaysList(d, "runs", t.runs) && ReadsOptional(d, "recipe_id", t.recipeId) && SaysText(d, "status", t.status)
    && (if "results" !in d || Falsy(d["results"]) then t.results == [] else d["results"] == Arr(t.results))
    && ReadsOptional(d, "build_log", t.buildLog) && ReadsOptional(d, "chain", t.chain)
    && (t.swept <==> "swept" in d && !Falsy(d["swept"]))
  }

  ghost predicate DeclaresTrial(doc: Json, t: Trial) {
    doc.Obj? && "verb" in doc.fields && DeclaresVerb(doc.fields["verb"], t.verb) && DeclaresRuns(doc.fields, t)
  }

  lemma RunsExact(d: map<string, Json>, parsed: Result<Verb, Refusal>, t: Trial)
    ensures TrialOf(d, parsed) == Ok(t) <==> parsed == Ok(t.verb) && DeclaresRuns(d, t)
  {
  }

  lemma TrialExact(key: string, doc: Json, t: Trial)
    ensures FromTrial(key, doc) == Ok(t) <==> TrialOk(key, t) && DeclaresTrial(doc, t)
  {
    if doc.Obj? {
      var raw := GetOr(doc.fields, "verb", Null);
      ParseVerbExact(raw, t.verb);
      RunsExact(doc.fields, ParseVerb(raw), t);
    }
  }

  lemma TrialDocSays(t: Trial)
    ensures "verb" in TrialDoc(t).fields && TrialDoc(t).fields["verb"] == VerbDoc(t.verb)
  {
    ShortKeys();
  }

  lemma TrialDocRuns(t: Trial)
    ensures DeclaresRuns(TrialDoc(t).fields, t)
  {
    ShortKeys();
  }

  lemma TrialBack(key: string, t: Trial)
    ensures VerbOk(t.verb) <==> FromTrial(key, TrialDoc(t)) == Ok(t)
  {
    TrialDocDeclares(t);
    TrialExact(key, TrialDoc(t), t);
  }

  // ---- inbox items, exchanges and queued messages ----

  predicate DeclaresItem(doc: Json, i: InboxItem) {
    && doc.Obj? && doc.fields.Keys <= {"kind", "text"}
    && SaysText(doc.fields, "kind", i.kind) && SaysText(doc.fields, "text", i.text)
  }

  predicate DeclaresExchange(doc: Json, e: Exchange) {
    && doc.Obj? && doc.fields.Keys <= {"turn", "principal", "door", "input", "reply", "output", "audit"}
    && SaysNumber(doc.fields, "turn", e.turn) && SaysText(doc.fields, "principal", e.principal)
    && SaysText(doc.fields, "door", e.door) && SaysText(doc.fields, "input", e.input) && SaysText(doc.fields, "reply", e.reply)
    && Reads(doc.fields, "output", Str(""), Str(e.output)) && Reads(doc.fields, "audit", Obj(map[]), Obj(e.audit))
  }

  predicate DeclaresQueued(doc: Json, q: Arrival) {
    && doc.Obj? && doc.fields.Keys <= {"principal", "door", "message", "payload", "hooks"}
    && SaysText(doc.fields, "principal", q.principal) && SaysText(doc.fields, "door", q.door)
    && SaysText(doc.fields, "message", q.message) && SaysText(doc.fields, "payload", q.payload)
    && Reads(doc.fields, "hooks", Arr([]), Arr(q.hooks))
  }

  lemma ItemExact(doc: Json, i: InboxItem)
    ensures FromItem(doc) == Ok(i) <==> DeclaresItem(doc, i)
  {
  }

  lemma ExchangeExact(doc: Json, e: Exchange)
    ensures FromExchange(doc) == Ok(e) <==> DeclaresExchange(doc, e)
  {
  }

  lemma QueuedExact(doc: Json, q: Arrival)
    ensures FromQueued(doc) == Ok(q) <==> DeclaresQueued(doc, q)
  {
  }

  lemma ItemDocDeclares(i: InboxItem)
    ensures DeclaresItem(ItemDoc(i), i)
  {
    ShortKeys();
  }

  lemma ExchangeDocDeclares(e: Exchange)
    ensures DeclaresExchange(ExchangeDoc(e), e)
  {
    ShortKeys();
  }

  lemma QueuedDocDeclares(q: Arrival)
    ensures DeclaresQueued(QueuedDoc(q), q)
  {
    ShortKeys();
  }

  // ---- the pending turn ----

  lemma PendingKeys()
    ensures "turn" != "door" && "turn" != "made" && "turn" != "said" && "door" != "made" && "door" != "said" && "made" != "said"
    ensures "hooks" != "calls" && "hooks" != "usage" && "hooks" != "forks" && "calls" != "usage" && "calls" != "forks" && "usage" != "forks"
    ensures "message" != "payload" && "message" != "offered" && "message" != "drained" && "message" != "efforts"
    ensures "payload" != "offered" && "payload" != "drained" && "payload" != "efforts"
    ensures "offered" != "drained" && "offered" != "efforts" && "drained" != "efforts"
  {
    assert "turn"[0] == 't' && "door"[0] == 'd' && "made"[0] == 'm' && "said"[0] == 's';
    assert "hooks"[0] == 'h' && "calls"[0] == 'c' && "usage"[0] == 'u' && "forks"[0] == 'f';
    assert "message"[0] == 'm' && "payload"[0] == 'p' && "offered"[0] == 'o' && "drained"[0] == 'd' && "efforts"[0] == 'e';
  }

  predicate DeclaresCaller(d: map<string, Json>, p: Pending) {
    SaysNumber(d, "turn", p.turn) && SaysText(d, "principal", p.principal) && SaysText(d, "door", p.door)
  }

  predicate DeclaresAsked(d: map<string, Json>, p: Pending) {
    DeclaresCaller(d, p) && SaysText(d, "message", p.message) && SaysText(d, "payload", p.payload)
  }

  predicate DeclaresJob(d: map<string, Json>, p: Pending) {
    SaysList(d, "messages", p.messages) && SaysTexts(d, "offered", p.offered) && SaysText(d, "job", p.job)
  }

  predicate DeclaresWork(d: map<string, Json>, p: Pending) {
    && DeclaresJob(d, p)
    && Reads(d, "hooks", Arr([]), Arr(p.hooks)) && Reads(d, "calls", Arr([]), Arr(p.calls))
    && (if "made" in d then ReadsTexts(d["made"], p.made) else p.made == [])
  }

  predicate DeclaresUsage(d: map<string, Json>, p: Pending) {
    && Reads(d, "model_calls", Num(0), Num(p.modelCalls))
    && Reads(d, "usage", Obj(map["input_tokens" := Num(0), "output_tokens" := Num(0),
                                 "cache_creation_input_tokens" := Num(0), "cache_read_input_tokens" := Num(0)]), Obj(p.usage))
  }

  predicate DeclaresCost(d: map<string, Json>, p: Pending) {
    && DeclaresUsage(d, p)
    && Reads(d, "forks", Num(1), Num(p.forks)) && Reads(d, "started_at", Str(""), Str(p.startedAt))
    && Reads(d, "write_memory", Bool(false), Bool(p.writeMemory))
  }

  predicate DeclaresDrawn(d: map<string, Json>, p: Pending) {
    && Reads(d, "drained", Arr([]), Arr(p.drained)) && ReadsOptional(d, "requested_effort", p.requestedEffort)
    && Reads(d, "efforts", Arr([]), Arr(p.efforts))
    && (if "said" in d then ReadsTexts(d["said"], p.said) else p.said == [])
  }

  predicate DeclaresPending(doc: Json, p: Pending) {
    && doc.Obj?
    && doc.fields.Keys <= {"turn", "principal", "door", "message", "payload", "messages", "offered", "job", "hooks", "calls",
                           "made", "model_calls", "usage", "forks", "started_at", "write_memory", "drained",
                           "requested_effort", "efforts", "said"}
    && DeclaresAsked(doc.fields, p) && DeclaresWork(doc.fields, p) && DeclaresCost(doc.fields, p) && DeclaresDrawn(doc.fields, p)
  }

  lemma AskedExact(d: map<string, Json>, p: Pending)
    ensures ReadAsked(d) == Ok(Asked(p.turn, p.principal, p.door, p.message, p.payload)) <==> DeclaresAsked(d, p)
  {
  }

  lemma WorkExact(d: map<string, Json>, p: Pending)
    ensures ReadWork(d) == Ok(Work(p.messages, p.offered, p.job, p.hooks, p.calls, p.made)) <==> DeclaresWork(d, p)
  {
    TextsExact(GetOr(d, "offered", Null), "offered", p.offered);
    TextsExact(GetOr(d, "made", Null), "made", p.made);
  }

  lemma CostExact(d: map<string, Json>, p: Pending)
    ensures ReadCost(d) == Ok(Cost(p.modelCalls, p.usage, p.forks, p.startedAt, p.writeMemory)) <==> DeclaresCost(d, p)
  {
    assert NO_USAGE == map["input_tokens" := Num(0), "output_tokens" := Num(0),
                           "cache_creation_input_tokens" := Num(0), "cache_read_input_tokens" := Num(0)];
  }

  lemma DrawnExact(d: map<string, Json>, p: Pending)
    ensures ReadDrawn(d) == Ok(Drawn(p.drained, p.requestedEffort, p.efforts, p.said)) <==> DeclaresDrawn(d, p)
  {
    TextsExact(GetOr(d, "said", Null), "said", p.said);
  }

  lemma PendingExact(doc: Json, p: Pending)
    ensures FromPending(doc) == Ok(p) <==> DeclaresPending(doc, p)
  {
    if doc.Obj? {
      AskedExact(doc.fields, p);
      WorkExact(doc.fields, p);
      CostExact(doc.fields, p);
      DrawnExact(doc.fields, p);
    }
  }

  lemma PendingDocCaller(p: Pending)
    ensures DeclaresCaller(PendingDoc(p).fields, p)
  {
    PendingKeys();
  }

  lemma PendingDocMessage(p: Pending)
    ensures SaysText(PendingDoc(p).fields, "message", p.message) && SaysText(PendingDoc(p).fields, "payload", p.payload)
  {
    PendingKeys();
  }

  lemma PendingDocJob(p: Pending)
    ensures DeclaresJob(PendingDoc(p).fields, p)
  {
    PendingKeys();
    TextArrReads(p.offered);
  }

  lemma PendingDocCalls(p: Pending)
    ensures SaysList(PendingDoc(p).fields, "hooks", p.hooks) && SaysList(PendingDoc(p).fields, "calls", p.calls)
    ensures SaysTexts(PendingDoc(p).fields, "made", p.made)
  {
    PendingKeys();
    TextArrReads(p.made);
  }

  lemma PendingDocUsage(p: Pending)
    ensures SaysNumber(PendingDoc(p).fields, "model_calls", p.modelCalls)
    ensures "usage" in PendingDoc(p).fields && PendingDoc(p).fields["usage"] == Obj(p.usage)
  {
    PendingKeys();
  }

  lemma PendingDocCost(p: Pending)
    ensures
      var d := PendingDoc(p).fields;
      && SaysNumber(d, "forks", p.forks) && SaysText(d, "started_at", p.startedAt)
      && "write_memory" in d && d["write_memory"] == Bool(p.writeMemory)
  {
    PendingKeys();
  }

  lemma PendingDocDrawn(p: Pending)
    ensures DeclaresDrawn(PendingDoc(p).fields, p)
  {
    PendingKeys();
    TextArrReads(p.said);
  }

  lemma PendingDocKeys(p: Pending)
    ensures PendingDoc(p).fields.Keys <= PENDING_FIELDS
  {
  }

  lemma PendingDocDeclares(p: Pending)
    ensures DeclaresPending(PendingDoc(p), p)
  {
    var d := PendingDoc(p);
    PendingDocKeys(p);
    PendingDocCaller(p);
    PendingDocMessage(p);
    PendingDocJob(p);
    PendingDocCalls(p);
    PendingDocUsage(p);
    PendingDocCost(p);
    PendingDocDrawn(p);
    PendingPartsDeclare(d, p);
  }

  lemma PendingPartsDeclare(doc: Json, p: Pending)
    requires doc.Obj? && doc.fields.Keys <= PENDING_FIELDS
    requires
      var d := doc.fields;
      && DeclaresCaller(d, p) && SaysText(d, "message", p.message) && SaysText(d, "payload", p.payload)
      && DeclaresJob(d, p) && SaysList(d, "hooks", p.hooks) && SaysList(d, "calls", p.calls) && SaysTexts(d, "made", p.made)
      && SaysNumber(d, "model_calls", p.modelCalls) && "usage" in d && d["usage"] == Obj(p.usage)
      && SaysNumber(d, "forks", p.forks) && SaysText(d, "started_at", p.startedAt)
      && "write_memory" in d && d["write_memory"] == Bool(p.writeMemory) && DeclaresDrawn(d, p)
    ensures DeclaresPending(doc, p)
  {
  }

  lemma PendingBack(p: Pending)
    ensures FromPending(PendingDoc(p)) == Ok(p)
  {
    PendingDocDeclares(p);
    PendingExact(PendingDoc(p), p);
  }

  // ---- the state ----

  lemma {:induction false} ListedIsTheSet(texts: set<string>)
    ensures (set t | t in Listed(texts)) == texts
  {
    if texts != {} {
      var least := Least(texts);
      ListedIsTheSet(texts - {least});
      var rest := Listed(texts - {least});
      forall t ensures t in Listed(texts) <==> t in texts {
        assert t in Listed(texts) <==> t == least || t in rest;
          assert t in rest <==> t in (set u | u in rest);
        assert t in (set u | u in rest) <==> t in texts - {least};
      }
    }
  }

  ghost predicate CatalogDeclared(catalog: map<string, CatalogEntry>) {
    AllOk(catalog, EntryOk)
  }

  ghost predicate ProposalsDeclared(proposals: map<string, Proposal>) {
    AllOk(proposals, FiledOk)
  }

  ghost predicate TrialsDeclared(trials: map<string, Trial>) {
    AllOk(trials, TrialOk)
  }

  /** Every verb, policy and proposal in the state is one its parser accepts. */
  ghost predicate Declared(s: State) {
    && CatalogDeclared(s.catalog) && ProposalsDeclared(s.proposals) && TrialsDeclared(s.trials)
    && PolicyOk(s.policy) && (s.previousPolicy.Some? ==> PolicyOk(s.previousPolicy.value))
  }

  ghost predicate DeclaresTables(d: map<string, Json>, s: State) {
    && SaysNumber(d, "turn", s.turn)
    && "catalog" in d && TableSays(d["catalog"], DeclaresEntry, s.catalog)
    && "proposals" in d && TableSays(d["proposals"], DeclaresProposal, s.proposals)
    && "trials" in d && TableSays(d["trials"], DeclaresTrial, s.trials)
  }

  ghost predicate DeclaresLists(d: map<string, Json>, s: State) {
    && "inbox" in d && ListSays(d["inbox"], DeclaresItem, s.inbox)
    && "window" in d && ListSays(d["window"], DeclaresExchange, s.window)
    && (if "pending" !in d || d["pending"] == Null then s.pending.None?
        else s.pending.Some? && DeclaresPending(d["pending"], s.pending.value))
    && (if "queue" in d then ListSays(d["queue"], DeclaresQueued, s.queue) else s.queue == [])
  }

  ghost predicate DeclaresPeople(d: map<string, Json>, s: State) {
    && "principals" in d && DeclaresSet(d["principals"], s.principals)
    && "policy" in d && DeclaresPolicy(d["policy"], s.policy)
    && SaysText(d, "self_description", s.selfDescription)
    && (if "previous_policy" !in d || d["previous_policy"] == Null then s.previousPolicy.None?
        else s.previousPolicy.Some? && DeclaresPolicy(d["previous_policy"], s.previousPolicy.value))
  }

  ghost predicate DeclaresSet(doc: Json, texts: set<string>) {
    doc.Arr? && (forall i :: 0 <= i < |doc.items| ==> doc.items[i].Str?) && forall t :: t in texts <==> Str(t) in doc.items
  }

  predicate DeclaresApplied(d: map<string, Json>, s: State) {
    && ReadsOptional(d, "previous_prompt", s.previousPrompt) && ReadsOptional(d, "applied_policy", s.appliedPolicy)
    && ReadsOptional(d, "applied_prompt", s.appliedPrompt)
    && SaysNumber(d, "next_proposal", s.nextProposal) && SaysNumber(d, "next_trial", s.nextTrial)
  }

  /** The document declares the state: every part as written, or as its absence is read. */
  ghost predicate DeclaresState(doc: Json, s: State) {
    && doc.Obj? && DeclaresTables(doc.fields, s) && DeclaresLists(doc.fields, s)
    && DeclaresPeople(doc.fields, s) && DeclaresApplied(doc.fields, s)
  }

  lemma CatalogReadExactly()
    ensures Exact(FromEntry, EntryOk, DeclaresEntry)
  {
    var parse, ok, declares := FromEntry, EntryOk, DeclaresEntry;
    forall k, doc, e ensures (parse(k, doc) == Ok(e)) == (ok(k, e) && declares(doc, e)) {
      EntryExact(k, doc, e);
    }
  }

  lemma CatalogExact(d: map<string, Json>, catalog: map<string, CatalogEntry>)
    ensures ReadTable(d, "catalog", FromEntry) == Ok(catalog)
            <==> CatalogDeclared(catalog) && "catalog" in d && TableSays(d["catalog"], DeclaresEntry, catalog)
  {
    CatalogReadExactly();
    TableExact(d, "catalog", FromEntry, EntryOk, DeclaresEntry, catalog);
  }

  lemma FiledExact(k: string, doc: Json, p: Proposal)
    ensures FromProposal(k, doc) == Ok(p) <==> FiledOk(k, p) && DeclaresProposal(doc, p)
  {
    if p.id == k {
      ParseProposalExact(doc, p);
    } else if ParseProposal(doc, k).Ok? {
      ParsedProposalOk(doc, k);
    }
  }

  lemma ProposalsReadExactly()
    ensures Exact(FromProposal, FiledOk, DeclaresProposal)
  {
    var parse, ok, declares := FromProposal, FiledOk, DeclaresProposal;
    forall k, doc, p ensures (parse(k, doc) == Ok(p)) == (ok(k, p) && declares(doc, p)) {
      FiledExact(k, doc, p);
    }
  }

  lemma ProposalsExact(d: map<string, Json>, proposals: map<string, Proposal>)
    ensures ReadTable(d, "proposals", FromProposal) == Ok(proposals)
            <==> ProposalsDeclared(proposals) && "proposals" in d && TableSays(d["proposals"], DeclaresProposal, proposals)
  {
    ProposalsReadExactly();
    TableExact(d, "proposals", FromProposal, FiledOk, DeclaresProposal, proposals);
  }

  lemma TrialsReadExactly()
    ensures Exact(FromTrial, TrialOk, DeclaresTrial)
  {
    var parse, ok, declares := FromTrial, TrialOk, DeclaresTrial;
    forall k, doc, t ensures (parse(k, doc) == Ok(t)) == (ok(k, t) && declares(doc, t)) {
      TrialExact(k, doc, t);
    }
  }

  lemma TrialsExact(d: map<string, Json>, trials: map<string, Trial>)
    ensures ReadTable(d, "trials", FromTrial) == Ok(trials)
            <==> TrialsDeclared(trials) && "trials" in d && TableSays(d["trials"], DeclaresTrial, trials)
  {
    TrialsReadExactly();
    TableExact(d, "trials", FromTrial, TrialOk, DeclaresTrial, trials);
  }

  lemma TablesExact(d: map<string, Json>, s: State)
    ensures ReadTables(d) == Ok(Tables(s.turn, s.catalog, s.proposals, s.trials)) <==>
            && CatalogDeclared(s.catalog) && ProposalsDeclared(s.proposals) && TrialsDeclared(s.trials)
            && DeclaresTables(d, s)
  {
    CatalogExact(d, s.catalog);
    ProposalsExact(d, s.proposals);
    TrialsExact(d, s.trials);
  }

  lemma InboxExact(items: seq<Json>, inbox: seq<InboxItem>)
    ensures ParseAll(items, FromItem) == Ok(inbox) <==> ListSays(Arr(items), DeclaresItem, inbox)
  {
    forall doc, i ensures FromItem(doc) == Ok(i) <==> DeclaresItem(doc, i) {
      ItemExact(doc, i);
    }
    ListExact(items, FromItem, DeclaresItem, inbox);
  }

  lemma WindowExact(items: seq<Json>, window: seq<Exchange>)
    ensures ParseAll(items, FromExchange) == Ok(window) <==> ListSays(Arr(items), DeclaresExchange, window)
  {
    forall doc, e ensures FromExchange(doc) == Ok(e) <==> DeclaresExchange(doc, e) {
      ExchangeExact(doc, e);
    }
    ListExact(items, FromExchange, DeclaresExchange, window);
  }

  lemma QueueExact(items: seq<Json>, queue: seq<Arrival>)
    ensures ParseAll(items, FromQueued) == Ok(queue) <==> ListSays(Arr(items), DeclaresQueued, queue)
  {
    forall doc, q ensures FromQueued(doc) == Ok(q) <==> DeclaresQueued(doc, q) {
      QueuedExact(doc, q);
    }
    ListExact(items, FromQueued, DeclaresQueued, queue);
  }

  lemma ListsExact(d: map<string, Json>, s: State)
    ensures ReadLists(d) == Ok(Lists(s.inbox, s.window, s.pending, s.queue)) <==> DeclaresLists(d, s)
  {
    if "inbox" in d && d["inbox"].Arr? {
      InboxExact(d["inbox"].items, s.inbox);
    }
    if "window" in d && d["window"].Arr? {
      WindowExact(d["window"].items, s.window);
    }
    if "pending" in d && s.pending.Some? {
      PendingExact(d["pending"], s.pending.value);
    }
    QueueExact(if "queue" in d && d["queue"].Arr? then d["queue"].items else [], s.queue);
  }

  lemma SetExact(raw: Json, key: string, texts: set<string>)
    ensures TextsIn(raw, key).Ok? && (set t | t in TextsIn(raw, key).value) == texts <==> DeclaresSet(raw, texts)
  {
    if TextsIn(raw, key).Ok? {
      var found := TextsIn(raw, key).value;
      TextsExact(raw, key, found);
      assert forall t :: t in found <==> Str(t) in raw.items;
      assert (set t | t in found) == texts <==> forall t :: t in texts <==> t in found;
    }
  }

  lemma PolicyMaybeExact(d: map<string, Json>, key: string, p: Option<Policy>)
    ensures PolicyMaybe(d, key) == Ok(p) <==>
            if key !in d || d[key] == Null then p.None?
            else p.Some? && PolicyOk(p.value) && DeclaresPolicy(d[key], p.value)
  {
    if key in d && p.Some? {
      ParsePolicyExact(d[key], p.value);
    }
  }

  lemma PeopleExact(d: map<string, Json>, s: State)
    ensures ReadPeople(d) == Ok(People(s.principals, s.policy, s.selfDescription, s.previousPolicy)) <==>
            && PolicyOk(s.policy) && (s.previousPolicy.Some? ==> PolicyOk(s.previousPolicy.value))
            && DeclaresPeople(d, s)
  {
    SetExact(GetOr(d, "principals", Null), "principals", s.principals);
    ParsePolicyExact(GetOr(d, "policy", Null), s.policy);
    PolicyMaybeExact(d, "previous_policy", s.previousPolicy);
  }

  lemma AppliedExact(d: map<string, Json>, s: State)
    ensures ReadApplied(d) == Ok(Applied(s.previousPrompt, s.appliedPolicy, s.appliedPrompt, s.nextProposal, s.nextTrial)) <==>
            DeclaresApplied(d, s)
  {
  }

  /**
    A document is read into a state exactly when it declares it, every verb, policy and proposal in
    the state is one its parser can produce, and every proposal is filed under its id.
   */
  lemma StateReadsExactly(doc: Json, s: State)
    ensures FromDoc(doc) == Ok(s) <==> Declared(s) && DeclaresState(doc, s)
  {
    if doc.Obj? {
      TablesExact(doc.fields, s);
      ListsExact(doc.fields, s);
      PeopleExact(doc.fields, s);
      AppliedExact(doc.fields, s);
    }
  }

  // ---- the printed state ----

  lemma StateKeys()
    ensures "trials" != "window" && "trials" != "policy" && "window" != "policy"
    ensures "inbox" != "queue" && "catalog" != "pending" && "principals" != "next_trial"
    ensures "applied_policy" != "applied_prompt" && "previous_policy" != "previous_prompt"
  {
    assert "trials"[0] == 't' && "window"[0] == 'w' && "policy"[0] == 'p';
    assert "inbox"[0] != "queue"[0] && "catalog"[0] != "pending"[0] && "principals"[0] != "next_trial"[0];
    assert "applied_policy"[9] != "applied_prompt"[9] && "previous_policy"[10] != "previous_prompt"[10];
  }

  lemma ToDocTables(s: State)
    ensures
      var d := ToDoc(s).fields;
      && SaysNumber(d, "turn", s.turn)
      && "catalog" in d && d["catalog"] == Obj(TableOf(s.catalog, EntryDoc))
  {
    StateKeys();
  }

  lemma ToDocRecords(s: State)
    ensures
      var d := ToDoc(s).fields;
      && "proposals" in d && d["proposals"] == Obj(TableOf(s.proposals, ProposalDoc))
      && "trials" in d && d["trials"] == Obj(TableOf(s.trials, TrialDoc))
  {
    StateKeys();
  }

  lemma ToDocLists(s: State)
    ensures
      var d := ToDoc(s).fields;
      && SaysList(d, "inbox", DocsOf(s.inbox, ItemDoc)) && SaysList(d, "window", DocsOf(s.window, ExchangeDoc))
      && SaysList(d, "queue", DocsOf(s.queue, QueuedDoc))
      && "pending" in d && d["pending"] == (if s.pending.Some? then PendingDoc(s.pending.value) else Null)
  {
    StateKeys();
  }

  lemma ToDocPeople(s: State)
    ensures
      var d := ToDoc(s).fields;
      && "principals" in d && d["principals"] == TextArr(Listed(s.principals))
      && "policy" in d && d["policy"] == PolicyDoc(s.policy) && SaysText(d, "self_description", s.selfDescription)
      && "previous_policy" in d && d["previous_policy"] == PolicyOrNull(s.previousPolicy)
  {
    StateKeys();
  }

  lemma ToDocApplied(s: State)
    ensures DeclaresApplied(ToDoc(s).fields, s)
  {
    StateKeys();
  }

  lemma TrialDocDeclares(t: Trial)
    ensures DeclaresTrial(TrialDoc(t), t)
  {
    TrialDocSays(t);
    TrialDocRuns(t);
    VerbDocDeclares(t.verb);
  }

  lemma EntriesDeclared(catalog: map<string, CatalogEntry>)
    requires CatalogDeclared(catalog)
    ensures TableSays(Obj(TableOf(catalog, EntryDoc)), DeclaresEntry, catalog)
  {
    forall k, e | EntryOk(k, e) ensures DeclaresEntry(EntryDoc(e), e) {
      EntryDocDeclares(e);
    }
    TableDeclares(catalog, EntryDoc, EntryOk, DeclaresEntry);
  }

  lemma RecordsDeclared(proposals: map<string, Proposal>)
    requires ProposalsDeclared(proposals)
    ensures TableSays(Obj(TableOf(proposals, ProposalDoc)), DeclaresProposal, proposals)
  {
    forall k, p | FiledOk(k, p) ensures DeclaresProposal(ProposalDoc(p), p) {
      ProposalDocDeclares(p);
    }
    TableDeclares(proposals, ProposalDoc, FiledOk, DeclaresProposal);
  }

  lemma RunsDeclared(trials: map<string, Trial>)
    requires TrialsDeclared(trials)
    ensures TableSays(Obj(TableOf(trials, TrialDoc)), DeclaresTrial, trials)
  {
    forall k, t | TrialOk(k, t) ensures DeclaresTrial(TrialDoc(t), t) {
      TrialDocDeclares(t);
    }
    TableDeclares(trials, TrialDoc, TrialOk, DeclaresTrial);
  }

  lemma TablesDeclared(s: State)
    requires CatalogDeclared(s.catalog) && ProposalsDeclared(s.proposals) && TrialsDeclared(s.trials)
    ensures DeclaresTables(ToDoc(s).fields, s)
  {
    ToDocTables(s);
    ToDocRecords(s);
    EntriesDeclared(s.catalog);
    RecordsDeclared(s.proposals);
    RunsDeclared(s.trials);
  }

  lemma ListsDeclared(s: State)
    ensures DeclaresLists(ToDoc(s).fields, s)
  {
    ToDocLists(s);
    forall i ensures DeclaresItem(ItemDoc(i), i) {
      ItemDocDeclares(i);
    }
    ListDeclares(s.inbox, ItemDoc, DeclaresItem);
    forall e ensures DeclaresExchange(ExchangeDoc(e), e) {
      ExchangeDocDeclares(e);
    }
    ListDeclares(s.window, ExchangeDoc, DeclaresExchange);
    forall q ensures DeclaresQueued(QueuedDoc(q), q) {
      QueuedDocDeclares(q);
    }
    ListDeclares(s.queue, QueuedDoc, DeclaresQueued);
    if s.pending.Some? {
      PendingDocDeclares(s.pending.value);
    }
  }

  lemma PeopleDeclared(s: State)
    ensures DeclaresPeople(ToDoc(s).fields, s)
  {
    ToDocPeople(s);
    SetDeclared(s.principals);
    PolicyDocDeclares(s.policy);
    if s.previousPolicy.Some? {
      PolicyDocDeclares(s.previousPolicy.value);
    }
  }

  lemma SetDeclared(texts: set<string>)
    ensures DeclaresSet(TextArr(Listed(texts)), texts)
  {
    var listed := Listed(texts);
    ListedIsTheSet(texts);
    TextsExact(TextArr(listed), "", listed);
    TextArrReads(listed);
    SetExact(TextArr(listed), "", texts);
  }

  /**
    The state read back from the document it was saved as is the state, exactly when every verb,
    policy and proposal in it is one its parser accepts and every proposal is filed under its id.
   */
  lemma StateRoundTrips(s: State)
    ensures Declared(s) <==> FromDoc(ToDoc(s)) == Ok(s)
  {
    if Declared(s) {
      TablesDeclared(s);
      ListsDeclared(s);
      PeopleDeclared(s);
      ToDocApplied(s);
    }
    StateReadsExactly(ToDoc(s), s);
  }
}
