/**
  Reassembling a stream of message events. The specification is per block: what the deltas of
  one block add up to, whatever runs between them.
 */
module Reassembly {
  import opened Wrappers
  import opened Json

  // A content block; input is a tool call's.
  datatype Block = Block(
    kind: string, text: Option<string>, thinking: Option<string>, signature: Option<string>,
    input: Option<Json>, rest: map<string, Json>)

  datatype Message = Message(
    content: seq<Block>, stopReason: Option<Json>, stopSequence: Option<Json>,
    usage: map<string, Json>, rest: map<string, Json>)

  datatype Delta =
    | TextDelta(text: string)
    | ThinkingDelta(thinking: string)
    | SignatureDelta(signature: string)
    | InputJsonDelta(partialJson: string)
    | UnknownDelta

  datatype Event =
    | MessageStart(message: Message)
    | BlockStart(index: nat, block: Block)
    | BlockDelta(index: nat, delta: Delta)
    | BlockStop(index: nat)
    | MessageDelta(stopReason: Option<Json>, stopSequence: Option<Json>, usage: map<string, Json>)
    | MessageStop
    | ErrorEvent(kind: string, text: string)
    | UnknownEvent

  datatype Error =
    | StreamError(kind: string, text: string)
    | IncompleteStream
    | BadJson

  // json.loads; None where it raises
  type Loads = string -> Option<Json>

  datatype State = State(message: Option<Message>, partial: map<nat, seq<string>>, stopped: bool)

  // ---- one event ----

  function Join(parts: seq<string>): string {
    if parts == [] then "" else Join(parts[..|parts| - 1]) + parts[|parts| - 1]
  }

  function GetText(t: Option<string>): string {
    if t.Some? then t.value else ""
  }

  // what a delta does to its block
  function Grow(b: Block, d: Delta): Block {
    match d
    case TextDelta(text) => b.(text := Some(GetText(b.text) + text))
    case ThinkingDelta(thinking) => b.(thinking := Some(GetText(b.thinking) + thinking))
    case SignatureDelta(signature) => b.(signature := Some(signature))
    case _ => b
  }

  // what a block's stop makes of its partial JSON
  function LoadInput(raw: string, loads: Loads): Option<Json> {
    if IsBlank(raw) then Some(Obj(map[])) else loads(raw)
  }

  function MergeDelta(m: Message, stopReason: Option<Json>, stopSequence: Option<Json>, usage: map<string, Json>): Message {
    m.(stopReason := if stopReason.Some? then stopReason else m.stopReason,
       stopSequence := if stopSequence.Some? then stopSequence else m.stopSequence,
       usage := m.usage + usage)
  }

  function FeedBlock(s: State, m: Message, e: Event, loads: Loads): Result<State, Error> {
    match e
    case BlockStart(index, block) =>
      if index != |m.content| then Err(IncompleteStream)
      else Ok(s.(message := Some(m.(content := m.content + [block])),
                 partial := if block.kind == "tool_use" then s.partial[index := []] else s.partial))
    case BlockDelta(index, delta) =>
      if index >= |m.content| then Err(IncompleteStream)
      else
        Ok(s.(message := Some(m.(content := m.content[index := Grow(m.content[index], delta)])),
              partial := if delta.InputJsonDelta? then
                           s.partial[index := (if index in s.partial then s.partial[index] else []) + [delta.partialJson]]
                         else s.partial))
    case BlockStop(index) =>
      if index >= |m.content| then Err(IncompleteStream)
      else if index !in s.partial then Ok(s)
      else
        var input := LoadInput(Join(s.partial[index]), loads);
        if input.None? then Err(BadJson)
        else
          Ok(s.(message := Some(m.(content := m.content[index := m.content[index].(input := input)])),
                partial := s.partial - {index}))
    case _ => Ok(s)
  }

  function Feed(s: State, e: Event, loads: Loads): Result<State, Error> {
    if s.stopped then Ok(s)  // the loop has ended
    else
      match e
      case ErrorEvent(kind, text) => Err(StreamError(kind, text))
      case MessageStart(message) => Ok(s.(message := Some(message)))
      case _ =>
        match s.message
        case None => Err(IncompleteStream)
        case Some(m) =>
          match e
          case MessageDelta(stopReason, stopSequence, usage) =>
            Ok(s.(message := Some(MergeDelta(m, stopReason, stopSequence, usage))))
          case MessageStop => Ok(s.(stopped := true))
          case _ => FeedBlock(s, m, e, loads)
  }

  function Fold(events: seq<Event>, loads: Loads): Result<State, Error> {
    if events == [] then Ok(State(None, map[], false))
    else
      match Fold(events[..|events| - 1], loads)
      case Err(error) => Err(error)
      case Ok(s) => Feed(s, events[|events| - 1], loads)
  }

  function Reassembled(events: seq<Event>, loads: Loads): Result<Message, Error> {
    match Fold(events, loads)
    case Err(error) => Err(error)
    case Ok(s) => if s.message.Some? && s.stopped then Ok(s.message.value) else Err(IncompleteStream)
  }

  lemma FoldNext(events: seq<Event>, i: nat, loads: Loads)
    requires i < |events|
    ensures Fold(events[..i + 1], loads) ==
            match Fold(events[..i], loads) case Err(error) => Err(error) case Ok(s) => Feed(s, events[i], loads)
  {
    assert events[..i + 1][..i] == events[..i];
  }

  lemma {:induction false} FailedStaysFailed(events: seq<Event>, i: nat, loads: Loads)
    requires i <= |events| && Fold(events[..i], loads).Err?
    ensures Fold(events, loads) == Fold(events[..i], loads)
    decreases |events| - i
  {
    if i < |events| {
      FoldNext(events, i, loads);
      FailedStaysFailed(events, i + 1, loads);
    } else {
      assert events[..i] == events;
    }
  }

  lemma {:induction false} StoppedStaysStopped(events: seq<Event>, i: nat, loads: Loads)
    requires i <= |events| && Fold(events[..i], loads).Ok? && Fold(events[..i], loads).value.stopped
    ensures Fold(events, loads) == Fold(events[..i], loads)
    decreases |events| - i
  {
    if i < |events| {
      FoldNext(events, i, loads);
      StoppedStaysStopped(events, i + 1, loads);
    } else {
      assert events[..i] == events;
    }
  }

  /** The loop over the events, editing the message in place. */
  method Reassemble(events: seq<Event>, loads: Loads) returns (r: Result<Message, Error>)
    ensures r == Reassembled(events, loads)
  {
    var message: Option<Message> := None;
    var partial: map<nat, seq<string>> := map[];
    var stopped := false;
    var i := 0;
    while i < |events| && !stopped
      invariant i <= |events|
      invariant Fold(events[..i], loads) == Ok(State(message, partial, stopped))
      decreases |events| - i
    {
      FoldNext(events, i, loads);
      var event := events[i];
      i := i + 1;
      if event.ErrorEvent? {
        FailedStaysFailed(events, i, loads);
        return Err(StreamError(event.kind, event.text));
      }
      if event.MessageStart? {
        message := Some(event.message);
      } else {
        if message.None? {
          FailedStaysFailed(events, i, loads);
          return Err(IncompleteStream);
        }
        var m := message.value;
        match event
        case BlockStart(index, block) =>
          if index != |m.content| {
            FailedStaysFailed(events, i, loads);
            return Err(IncompleteStream);
          }
          message := Some(m.(content := m.content + [block]));
          if block.kind == "tool_use" {
            partial := partial[index := []];
          }
        case BlockDelta(index, delta) =>
          if index >= |m.content| {
            FailedStaysFailed(events, i, loads);
            return Err(IncompleteStream);
          }
          message := Some(m.(content := m.content[index := Grow(m.content[index], delta)]));
          if delta.InputJsonDelta? {
            ghost var before := partial;
            if index !in partial {
              partial := partial[index := []];
            }
            partial := partial[index := partial[index] + [delta.partialJson]];
            assert partial == before[index := (if index in before then before[index] else []) + [delta.partialJson]];
          }
        case BlockStop(index) =>
          if index >= |m.content| {
            FailedStaysFailed(events, i, loads);
            return Err(IncompleteStream);
          }
          if index in partial {
            var raw := Join(partial[index]);
            partial := partial - {index};
            var input := if IsBlank(raw) then Some(Obj(map[])) else loads(raw);
            if input.None? {
              FailedStaysFailed(events, i, loads);
              return Err(BadJson);
            }
            message := Some(m.(content := m.content[index := m.content[index].(input := input)]));
          }
        case MessageDelta(stopReason, stopSequence, usage) =>
          if stopReason.Some? {
            m := m.(stopReason := stopReason);
          }
          if stopSequence.Some? {
            m := m.(stopSequence := stopSequence);
          }
          message := Some(m.(usage := m.usage + usage));
        case MessageStop =>
          stopped := true;
        case _ =>
      }
    }
    if stopped {
      StoppedStaysStopped(events, i, loads);
    } else {
      assert events[..i] == events;
    }
    if message.None? || !stopped {
      return Err(IncompleteStream);
    }
    return Ok(message.value);
  }

  // ---- truncated streams ----

  lemma {:induction false} StoppedNeedsStop(events: seq<Event>, loads: Loads)
    requires Fold(events, loads).Ok? && Fold(events, loads).value.stopped
    ensures MessageStop in events
  {
    if events != [] {
      var init := events[..|events| - 1];
      if Fold(init, loads).Ok? && Fold(init, loads).value.stopped {
        StoppedNeedsStop(init, loads);
      } else {
        assert events[|events| - 1] == MessageStop;
      }
    }
  }

  /** A stream cut before its message_stop is rejected, never returned as a shorter message. */
  lemma CutStreamIsRejected(events: seq<Event>, i: nat, loads: Loads)
    requires i <= |events| && MessageStop !in events[..i]
    ensures Reassembled(events[..i], loads).Err?
  {
    if Fold(events[..i], loads).Ok? && Fold(events[..i], loads).value.stopped {
      StoppedNeedsStop(events[..i], loads);
    }
  }

  // ---- emitting a message ----

  // the events between message_start and message_stop, and the blocks they start from
  datatype Script = Script(start: Message, blocks: seq<Block>, body: seq<Event>)

  function Starts(es: seq<Event>): nat {
    if es == [] then 0 else Starts(es[..|es| - 1]) + if es[|es| - 1].BlockStart? then 1 else 0
  }

  function DeltasOf(es: seq<Event>, index: nat): seq<Delta> {
    if es == [] then []
    else
      var last := es[|es| - 1];
      DeltasOf(es[..|es| - 1], index) + if last.BlockDelta? && last.index == index then [last.delta] else []
  }

  predicate Stopped(es: seq<Event>, index: nat) {
    BlockStop(index) in es
  }

  function Header(m: Message, es: seq<Event>): Message {
    if es == [] then m
    else
      var last := es[|es| - 1];
      var before := Header(m, es[..|es| - 1]);
      if last.MessageDelta? then MergeDelta(before, last.stopReason, last.stopSequence, last.usage) else before
  }

  // What may come next: blocks start in order, a block's deltas and its one stop come after
  // its start, its deltas before its stop, and unknown events anywhere.
  predicate MayFollow(blocks: seq<Block>, es: seq<Event>, e: Event) {
    match e
    case BlockStart(index, block) => index == Starts(es) < |blocks| && block == blocks[index]
    case BlockDelta(index, _) => index < Starts(es) && !Stopped(es, index)
    case BlockStop(index) => index < Starts(es) && !Stopped(es, index)
    case MessageDelta(_, _, _) => true
    case UnknownEvent => true
    case _ => false
  }

  predicate WellOrdered(blocks: seq<Block>, es: seq<Event>) {
    es == [] || (WellOrdered(blocks, es[..|es| - 1]) && MayFollow(blocks, es[..|es| - 1], es[|es| - 1]))
  }

  function Texts(ds: seq<Delta>): string {
    if ds == [] then ""
    else Texts(ds[..|ds| - 1]) + if ds[|ds| - 1].TextDelta? then ds[|ds| - 1].text else ""
  }

  function Thinkings(ds: seq<Delta>): string {
    if ds == [] then ""
    else Thinkings(ds[..|ds| - 1]) + if ds[|ds| - 1].ThinkingDelta? then ds[|ds| - 1].thinking else ""
  }

  function JsonParts(ds: seq<Delta>): seq<string> {
    if ds == [] then []
    else JsonParts(ds[..|ds| - 1]) + if ds[|ds| - 1].InputJsonDelta? then [ds[|ds| - 1].partialJson] else []
  }

  function JsonText(ds: seq<Delta>): string {
    if ds == [] then ""
    else JsonText(ds[..|ds| - 1]) + if ds[|ds| - 1].InputJsonDelta? then ds[|ds| - 1].partialJson else ""
  }

  // the last signature a delta gave, or the one the block started with
  function LastSignature(start: Option<string>, ds: seq<Delta>): Option<string> {
    if ds == [] then start
    else
      var last := ds[|ds| - 1];
      if last.SignatureDelta? then Some(last.signature) else LastSignature(start, ds[..|ds| - 1])
  }

  /**
    The deltas, after what the block started with, are a split of the block: of its text, of its
    thinking and signature, or of a call's input; a block of another kind comes whole.
   */
  predicate Splits(block: Block, from: Block, ds: seq<Delta>, loads: Loads) {
    || (&& block.kind == "text" && block.text.Some? && from.text.Some? && from == block.(text := from.text)
        && (forall d :: d in ds ==> d.TextDelta? || d.UnknownDelta?)
        && block.text.value == from.text.value + Texts(ds))
    || (&& block.kind == "thinking" && block.thinking.Some? && from.thinking.Some?
        && from == block.(thinking := from.thinking, signature := from.signature)
        && (forall d :: d in ds ==> d.ThinkingDelta? || d.SignatureDelta? || d.UnknownDelta?)
        && block.thinking.value == from.thinking.value + Thinkings(ds)
        && block.signature == LastSignature(from.signature, ds))
    || (&& block.kind == "tool_use" && block.input.Some? && from == block.(input := from.input)
        && (forall d :: d in ds ==> d.InputJsonDelta? || d.UnknownDelta?)
        && block.input == if IsBlank(JsonText(ds)) then Some(Obj(map[])) else loads(JsonText(ds)))
    || (block.kind != "tool_use" && from == block && forall d :: d in ds ==> d.UnknownDelta?)
  }

  // ---- what the message deltas of a stream say: the last word on each field counts ----

  function LastStopReason(start: Option<Json>, es: seq<Event>): Option<Json> {
    if es == [] then start
    else
      var last := es[|es| - 1];
      if last.MessageDelta? && last.stopReason.Some? then last.stopReason else LastStopReason(start, es[..|es| - 1])
  }

  function LastStopSequence(start: Option<Json>, es: seq<Event>): Option<Json> {
    if es == [] then start
    else
      var last := es[|es| - 1];
      if last.MessageDelta? && last.stopSequence.Some? then last.stopSequence else LastStopSequence(start, es[..|es| - 1])
  }

  function FieldAt(fields: map<string, Json>, key: string): Option<Json> {
    if key in fields then Some(fields[key]) else None
  }

  function LastUsage(start: map<string, Json>, es: seq<Event>, key: string): Option<Json> {
    if es == [] then FieldAt(start, key)
    else
      var last := es[|es| - 1];
      if last.MessageDelta? && key in last.usage then Some(last.usage[key]) else LastUsage(start, es[..|es| - 1], key)
  }

  ghost predicate SaidLast(start: Message, es: seq<Event>, message: Message) {
    && message.rest == start.rest
    && message.stopReason == LastStopReason(start.stopReason, es)
    && message.stopSequence == LastStopSequence(start.stopSequence, es)
    && forall key :: FieldAt(message.usage, key) == LastUsage(start.usage, es, key)
  }

  /** The script emits the message. */
  ghost predicate Emits(script: Script, message: Message, loads: Loads) {
    && script.start.content == [] && |script.blocks| == |message.content|
    && WellOrdered(script.blocks, script.body)
    && Starts(script.body) == |script.blocks|
    && (forall i :: 0 <= i < |script.blocks| ==>
          && Stopped(script.body, i)
          && Splits(message.content[i], script.blocks[i], DeltasOf(script.body, i), loads))
    && SaidLast(script.start, script.body, message)
  }

  lemma {:induction false} HeaderSaidLast(start: Message, es: seq<Event>)
    ensures SaidLast(start, es, Header(start, es)) && Header(start, es).content == start.content
  {
    if es != [] {
      HeaderSaidLast(start, es[..|es| - 1]);
    }
  }

  lemma SaidOnce(start: Message, es: seq<Event>, a: Message, b: Message)
    requires SaidLast(start, es, a) && SaidLast(start, es, b)
    ensures a.(content := []) == b.(content := [])
  {
    forall key ensures FieldAt(a.usage, key) == FieldAt(b.usage, key) {
    }
    assert a.usage.Keys == b.usage.Keys by {
      forall key ensures key in a.usage <==> key in b.usage {
        assert FieldAt(a.usage, key) == FieldAt(b.usage, key);
      }
    }
    forall key | key in a.usage ensures a.usage[key] == b.usage[key] {
      assert FieldAt(a.usage, key) == FieldAt(b.usage, key);
    }
  }

  lemma {:induction false} JoinedIsText(ds: seq<Delta>)
    ensures Join(JsonParts(ds)) == JsonText(ds)
  {
    if ds != [] {
      var init, last := ds[..|ds| - 1], ds[|ds| - 1];
      JoinedIsText(init);
      if last.InputJsonDelta? {
        assert JsonParts(ds)[..|JsonParts(ds)| - 1] == JsonParts(init);
      } else {
        assert JsonParts(init) + [] == JsonParts(init) && JsonText(init) + "" == JsonText(init);
      }
    }
  }

  function EventsOf(script: Script): seq<Event> {
    [MessageStart(script.start)] + script.body + [MessageStop]
  }

  // ---- the block a prefix has built ----

  function GrowAll(b: Block, ds: seq<Delta>): Block {
    if ds == [] then b else Grow(GrowAll(b, ds[..|ds| - 1]), ds[|ds| - 1])
  }

  function IsTool(b: Block): bool {
    b.kind == "tool_use"
  }

  function BlockAfter(blocks: seq<Block>, es: seq<Event>, i: nat, loads: Loads): Block
    requires i < |blocks|
  {
    var grown := GrowAll(blocks[i], DeltasOf(es, i));
    if IsTool(blocks[i]) && Stopped(es, i) then
      grown.(input := LoadInput(Join(JsonParts(DeltasOf(es, i))), loads))
    else grown
  }

  predicate OpenTool(blocks: seq<Block>, es: seq<Event>, i: nat) {
    i < Starts(es) && i < |blocks| && IsTool(blocks[i]) && !Stopped(es, i)
  }

  predicate PartialOk(blocks: seq<Block>, es: seq<Event>, partial: map<nat, seq<string>>, i: nat) {
    && (i in partial <==> OpenTool(blocks, es, i))
    && (i in partial ==> partial[i] == JsonParts(DeltasOf(es, i)))
  }

  ghost predicate Built(script: Script, es: seq<Event>, s: State, loads: Loads) {
    && !s.stopped
    && s.message.Some?
    && s.message.value.(content := []) == Header(script.start, es)
    && |s.message.value.content| == Starts(es) <= |script.blocks|
    && (forall i :: 0 <= i < Starts(es) ==> s.message.value.content[i] == BlockAfter(script.blocks, es, i, loads))
    && (forall i: nat :: PartialOk(script.blocks, es, s.partial, i))
  }

  lemma {:induction false} NoDeltasBeforeStart(blocks: seq<Block>, es: seq<Event>, i: nat)
    requires WellOrdered(blocks, es) && i >= Starts(es)
    ensures DeltasOf(es, i) == [] && !Stopped(es, i)
  {
    if es != [] {
      NoDeltasBeforeStart(blocks, es[..|es| - 1], i);
      assert es == es[..|es| - 1] + [es[|es| - 1]];
    }
  }

  // ---- every prefix is built ----

  // one more event, and what it means for block i
  lemma OneMore(es: seq<Event>, e: Event, i: nat)
    ensures Starts(es + [e]) == Starts(es) + if e.BlockStart? then 1 else 0
    ensures DeltasOf(es + [e], i) ==
            if e.BlockDelta? && e.index == i then DeltasOf(es, i) + [e.delta] else DeltasOf(es, i)
    ensures Stopped(es + [e], i) <==> Stopped(es, i) || e == BlockStop(i)
  {
    assert (es + [e])[..|es|] == es;
  }

  lemma PartialStep(ds: seq<Delta>, d: Delta)
    ensures JsonParts(ds + [d]) == if d.InputJsonDelta? then JsonParts(ds) + [d.partialJson] else JsonParts(ds)
    ensures forall b :: GrowAll(b, ds + [d]) == Grow(GrowAll(b, ds), d)
  {
    assert (ds + [d])[..|ds|] == ds;
  }

  // a delta that no kind of block takes part in leaves it alone; JSON goes to tool calls only
  predicate JsonOnlyForTools(blocks: seq<Block>, e: Event) {
    e.BlockDelta? && e.delta.InputJsonDelta? ==> e.index < |blocks| && IsTool(blocks[e.index])
  }

  lemma BlockUnstarted(blocks: seq<Block>, es: seq<Event>, i: nat, loads: Loads)
    requires WellOrdered(blocks, es) && Starts(es) <= i < |blocks|
    ensures BlockAfter(blocks, es, i, loads) == blocks[i]
  {
    NoDeltasBeforeStart(blocks, es, i);
  }

  lemma BlockAfterStep(blocks: seq<Block>, es: seq<Event>, e: Event, i: nat, loads: Loads)
    requires MayFollow(blocks, es, e) && i < |blocks|
    ensures BlockAfter(blocks, es + [e], i, loads) ==
            var before := BlockAfter(blocks, es, i, loads);
            if e.BlockDelta? && e.index == i then Grow(before, e.delta)
            else if e == BlockStop(i) && IsTool(blocks[i]) then
              before.(input := LoadInput(Join(JsonParts(DeltasOf(es, i))), loads))
            else before
  {
    OneMore(es, e, i);
    if e.BlockDelta? && e.index == i {
      PartialStep(DeltasOf(es, i), e.delta);
      assert !Stopped(es, i);
    } else if e == BlockStop(i) {
      assert !Stopped(es, i) && Stopped(es + [e], i);
    } else {
      assert Stopped(es, i) == Stopped(es + [e], i);
    }
  }

  // what feeding an event does to the block at one index
  function FedBlock(s: State, b: Block, e: Event, i: nat, loads: Loads): Block {
    if e.BlockDelta? && e.index == i then Grow(b, e.delta)
    else if e == BlockStop(i) && i in s.partial then b.(input := LoadInput(Join(s.partial[i]), loads))
    else b
  }

  lemma FeedAt(s: State, m: Message, e: Event, i: nat, loads: Loads)
    requires !s.stopped && s.message == Some(m) && !e.MessageStart?
    requires Feed(s, e, loads).Ok?
    ensures Feed(s, e, loads).value.message.Some?
    ensures
      var next := Feed(s, e, loads).value.message.value.content;
      && |next| == |m.content| + (if e.BlockStart? then 1 else 0)
      && (i < |m.content| ==> next[i] == FedBlock(s, m.content[i], e, i, loads))
      && (e.BlockStart? ==> next[|m.content|] == e.block)
  {
  }

  lemma StepKeepsBlock(script: Script, es: seq<Event>, e: Event, s: State, i: nat, loads: Loads)
    requires Built(script, es, s, loads) && WellOrdered(script.blocks, es)
    requires MayFollow(script.blocks, es, e)
    requires i < Starts(es)
    ensures FedBlock(s, s.message.value.content[i], e, i, loads) == BlockAfter(script.blocks, es + [e], i, loads)
  {
    BlockAfterStep(script.blocks, es, e, i, loads);
    assert PartialOk(script.blocks, es, s.partial, i);
  }

  lemma StepKeepsBlocks(script: Script, es: seq<Event>, e: Event, s: State, loads: Loads)
    requires Built(script, es, s, loads) && WellOrdered(script.blocks, es)
    requires MayFollow(script.blocks, es, e)
    requires Feed(s, e, loads).Ok?
    ensures Feed(s, e, loads).value.message.Some?
    ensures
      var next := Feed(s, e, loads).value.message.value.content;
      && |next| == Starts(es + [e]) <= |script.blocks|
      && forall i :: 0 <= i < |next| ==> next[i] == BlockAfter(script.blocks, es + [e], i, loads)
  {
    var m := s.message.value;
    OneMore(es, e, 0);
    FeedAt(s, m, e, 0, loads);
    var next := Feed(s, e, loads).value.message.value.content;
    forall i: nat | i < |next| ensures next[i] == BlockAfter(script.blocks, es + [e], i, loads) {
      FeedAt(s, m, e, i, loads);
      if i < Starts(es) {
        StepKeepsBlock(script, es, e, s, i, loads);
      } else {
        BlockAfterStep(script.blocks, es, e, i, loads);
        BlockUnstarted(script.blocks, es, i, loads);
      }
    }
  }

  // what feeding an event does to the partial JSON at one index
  function FedPartial(s: State, e: Event, i: nat): Option<seq<string>> {
    var was := if i in s.partial then Some(s.partial[i]) else None;
    if e.BlockStart? && e.index == i && e.block.kind == "tool_use" then Some([])
    else if e.BlockDelta? && e.index == i && e.delta.InputJsonDelta? then
      Some((if was.Some? then was.value else []) + [e.delta.partialJson])
    else if e == BlockStop(i) then None
    else was
  }

  lemma FeedPartialAt(s: State, m: Message, e: Event, i: nat, loads: Loads)
    requires !s.stopped && s.message == Some(m) && !e.MessageStart?
    requires Feed(s, e, loads).Ok?
    ensures
      var next := Feed(s, e, loads).value.partial;
      FedPartial(s, e, i) == if i in next then Some(next[i]) else None
  {
  }

  lemma StepKeepsPartial(script: Script, es: seq<Event>, e: Event, s: State, loads: Loads, i: nat)
    requires Built(script, es, s, loads) && WellOrdered(script.blocks, es)
    requires MayFollow(script.blocks, es, e) && JsonOnlyForTools(script.blocks, e)
    requires Feed(s, e, loads).Ok?
    ensures PartialOk(script.blocks, es + [e], Feed(s, e, loads).value.partial, i)
  {
    assert PartialOk(script.blocks, es, s.partial, i);
    FeedPartialAt(s, s.message.value, e, i, loads);
    OneMore(es, e, i);
    if e.BlockDelta? && e.index == i {
      PartialStep(DeltasOf(es, i), e.delta);
    } else if e.BlockStart? && e.index == i {
      NoDeltasBeforeStart(script.blocks, es, i);
    }
  }

  lemma StepKeepsHeader(script: Script, es: seq<Event>, e: Event, s: State, loads: Loads)
    requires Built(script, es, s, loads) && MayFollow(script.blocks, es, e) && Feed(s, e, loads).Ok?
    ensures
      var next := Feed(s, e, loads).value;
      !next.stopped && next.message.Some? && next.message.value.(content := []) == Header(script.start, es + [e])
  {
    assert (es + [e])[..|es|] == es;
  }

  lemma StepBuilds(script: Script, es: seq<Event>, e: Event, s: State, loads: Loads)
    requires Built(script, es, s, loads) && WellOrdered(script.blocks, es)
    requires MayFollow(script.blocks, es, e) && JsonOnlyForTools(script.blocks, e)
    requires Feed(s, e, loads).Ok?
    ensures Built(script, es + [e], Feed(s, e, loads).value, loads)
  {
    StepKeepsBlocks(script, es, e, s, loads);
    StepKeepsHeader(script, es, e, s, loads);
    forall i: nat ensures PartialOk(script.blocks, es + [e], Feed(s, e, loads).value.partial, i) {
      StepKeepsPartial(script, es, e, s, loads, i);
    }
  }

  lemma {:induction false} PrefixFacts(blocks: seq<Block>, es: seq<Event>, n: nat, i: nat)
    requires WellOrdered(blocks, es) && n <= |es|
    ensures WellOrdered(blocks, es[..n])
    ensures Starts(es[..n]) <= Starts(es)
    ensures DeltasOf(es[..n], i) <= DeltasOf(es, i)
    ensures Stopped(es[..n], i) ==> DeltasOf(es[..n], i) == DeltasOf(es, i)
  {
    if n == |es| {
      assert es[..n] == es;
    } else {
      var init := es[..|es| - 1];
      PrefixFacts(blocks, init, n, i);
      assert init[..n] == es[..n];
      assert Stopped(es[..n], i) ==> Stopped(init, i);
    }
  }

  lemma {:induction false} NextMayFollow(blocks: seq<Block>, es: seq<Event>, n: nat)
    requires WellOrdered(blocks, es) && n < |es|
    ensures MayFollow(blocks, es[..n], es[n])
  {
    PrefixFacts(blocks, es, n + 1, 0);
    assert es[..n + 1][..n] == es[..n];
  }

  // the delta that comes n-th is one of its block's deltas
  lemma DeltaIsListed(blocks: seq<Block>, es: seq<Event>, n: nat)
    requires WellOrdered(blocks, es) && n < |es| && es[n].BlockDelta?
    ensures es[n].delta in DeltasOf(es, es[n].index)
  {
    PrefixFacts(blocks, es, n + 1, es[n].index);
    assert es[..n + 1] == es[..n] + [es[n]];
    OneMore(es[..n], es[n], es[n].index);
    var part := DeltasOf(es[..n + 1], es[n].index);
    assert part[|part| - 1] == es[n].delta;
  }

  lemma KindsDiffer()
    ensures "text" != "tool_use" && "thinking" != "tool_use" && "text" != "thinking"
  {
    assert "thinking"[1] != "tool_use"[1];
  }

  lemma JsonMeansTool(block: Block, from: Block, ds: seq<Delta>, loads: Loads, d: Delta)
    requires Splits(block, from, ds, loads) && d in ds && d.InputJsonDelta?
    ensures IsTool(from)
  {
    KindsDiffer();
  }

  lemma JsonGoesToTools(script: Script, message: Message, n: nat, loads: Loads)
    requires Emits(script, message, loads) && n < |script.body|
    ensures JsonOnlyForTools(script.blocks, script.body[n])
  {
    var body, e := script.body, script.body[n];
    if e.BlockDelta? && e.delta.InputJsonDelta? {
      NextMayFollow(script.blocks, body, n);
      PrefixFacts(script.blocks, body, n, e.index);
      DeltaIsListed(script.blocks, body, n);
      JsonMeansTool(message.content[e.index], script.blocks[e.index], DeltasOf(body, e.index), loads, e.delta);
    }
  }

  // when a block stops, its deltas are all there
  lemma DeltasAtStop(blocks: seq<Block>, body: seq<Event>, n: nat)
    requires WellOrdered(blocks, body) && n < |body| && body[n].BlockStop?
    ensures DeltasOf(body[..n], body[n].index) == DeltasOf(body, body[n].index)
    ensures body[n].index < Starts(body[..n])
  {
    var index := body[n].index;
    NextMayFollow(blocks, body, n);
    PrefixFacts(blocks, body, n + 1, index);
    assert body[..n + 1] == body[..n] + [body[n]];
    OneMore(body[..n], body[n], index);
  }

  lemma StoppedLoads(script: Script, message: Message, index: nat, loads: Loads)
    requires Emits(script, message, loads) && index < |script.blocks| && IsTool(script.blocks[index])
    ensures LoadInput(Join(JsonParts(DeltasOf(script.body, index))), loads).Some?
  {
    KindsDiffer();
    JoinedIsText(DeltasOf(script.body, index));
    assert Splits(message.content[index], script.blocks[index], DeltasOf(script.body, index), loads);
  }

  lemma NextFeeds(script: Script, message: Message, n: nat, s: State, loads: Loads)
    requires Emits(script, message, loads) && n < |script.body|
    requires Built(script, script.body[..n], s, loads)
    ensures Feed(s, script.body[n], loads).Ok?
  {
    var body, e := script.body, script.body[n];
    NextMayFollow(script.blocks, body, n);
    if e.BlockStop? {
      DeltasAtStop(script.blocks, body, n);
      assert PartialOk(script.blocks, body[..n], s.partial, e.index);
      if e.index in s.partial {
        StoppedLoads(script, message, e.index, loads);
      }
    }
  }

  lemma NextIsBuilt(script: Script, message: Message, n: nat, s: State, loads: Loads)
    requires Emits(script, message, loads) && n < |script.body|
    requires Built(script, script.body[..n], s, loads)
    ensures
      var r := Feed(s, script.body[n], loads);
      r.Ok? && Built(script, script.body[..n + 1], r.value, loads)
  {
    NextFeeds(script, message, n, s, loads);
    JsonGoesToTools(script, message, n, loads);
    NextMayFollow(script.blocks, script.body, n);
    PrefixFacts(script.blocks, script.body, n, 0);
    StepBuilds(script, script.body[..n], script.body[n], s, loads);
    assert script.body[..n + 1] == script.body[..n] + [script.body[n]];
  }

  lemma {:induction false} PrefixIsBuilt(script: Script, message: Message, n: nat, loads: Loads)
    requires Emits(script, message, loads) && n <= |script.body|
    ensures
      var r := Fold(EventsOf(script)[..n + 1], loads);
      r.Ok? && Built(script, script.body[..n], r.value, loads)
  {
    var events := EventsOf(script);
    FoldNext(events, n, loads);
    if n == 0 {
      assert events[..0] == [] && events[0] == MessageStart(script.start);
    } else {
      PrefixIsBuilt(script, message, n - 1, loads);
      assert events[n] == script.body[n - 1];
      NextIsBuilt(script, message, n - 1, Fold(events[..n], loads).value, loads);
    }
  }

  // ---- what the deltas of one block add up to ----

  lemma {:induction false} GrowText(b: Block, ds: seq<Delta>)
    requires b.text.Some? && forall d :: d in ds ==> d.TextDelta? || d.UnknownDelta?
    ensures GrowAll(b, ds) == b.(text := Some(b.text.value + Texts(ds)))
  {
    if ds != [] {
      var init, d := ds[..|ds| - 1], ds[|ds| - 1];
      assert ds == init + [d] && d in ds;
      GrowText(b, init);
      if d.TextDelta? {
        assert b.text.value + (Texts(init) + d.text) == b.text.value + Texts(init) + d.text;
      } else {
        assert Texts(init) + "" == Texts(init);
      }
    } else {
      assert b.text.value + "" == b.text.value;
    }
  }

  lemma {:induction false} GrowThinking(b: Block, ds: seq<Delta>)
    requires b.thinking.Some? && forall d :: d in ds ==> d.ThinkingDelta? || d.SignatureDelta? || d.UnknownDelta?
    ensures GrowAll(b, ds) ==
            b.(thinking := Some(b.thinking.value + Thinkings(ds)), signature := LastSignature(b.signature, ds))
  {
    if ds != [] {
      var init, d := ds[..|ds| - 1], ds[|ds| - 1];
      assert ds == init + [d] && d in ds;
      GrowThinking(b, init);
      if d.ThinkingDelta? {
        assert b.thinking.value + (Thinkings(init) + d.thinking) == b.thinking.value + Thinkings(init) + d.thinking;
      } else {
        assert Thinkings(init) + "" == Thinkings(init);
      }
    } else {
      assert b.thinking.value + "" == b.thinking.value;
    }
  }

  lemma {:induction false} GrowTool(b: Block, ds: seq<Delta>)
    requires forall d :: d in ds ==> d.InputJsonDelta? || d.UnknownDelta?
    ensures GrowAll(b, ds) == b
  {
    if ds != [] {
      assert ds[|ds| - 1] in ds;
      GrowTool(b, ds[..|ds| - 1]);
    }
  }

  lemma {:induction false} GrowUnknown(b: Block, ds: seq<Delta>)
    requires forall d :: d in ds ==> d.UnknownDelta?
    ensures GrowAll(b, ds) == b
  {
    if ds != [] {
      assert ds[|ds| - 1] in ds;
      GrowUnknown(b, ds[..|ds| - 1]);
    }
  }

  lemma SplitAddsUp(block: Block, from: Block, ds: seq<Delta>, loads: Loads)
    requires Splits(block, from, ds, loads)
    ensures
      var grown := GrowAll(from, ds);
      block == if IsTool(from) then grown.(input := LoadInput(Join(JsonParts(ds)), loads)) else grown
  {
    KindsDiffer();
    if block.kind != "tool_use" && from == block && forall d :: d in ds ==> d.UnknownDelta? {
      GrowUnknown(from, ds);
    } else if block.kind == "text" {
      GrowText(from, ds);
    } else if block.kind == "thinking" {
      GrowThinking(from, ds);
    } else {
      GrowTool(from, ds);
      JoinedIsText(ds);
    }
  }

  /**
    Reassembling undoes emitting: whatever the split of each block into deltas and however the
    blocks' events and unknown ones interleave, the message comes back whole, with the last word of
    the message deltas on its stop and its usage. What follows message_stop is not read.
   */
  lemma EmittedIsReassembled(script: Script, message: Message, more: seq<Event>, loads: Loads)
    requires Emits(script, message, loads)
    ensures Reassembled(EventsOf(script) + more, loads) == Ok(message)
  {
    EmittedAlone(script, message, loads);
    var events := EventsOf(script) + more;
    assert events[..|EventsOf(script)|] == EventsOf(script);
    StoppedStaysStopped(events, |EventsOf(script)|, loads);
  }

  lemma EmittedAlone(script: Script, message: Message, loads: Loads)
    requires Emits(script, message, loads)
    ensures Fold(EventsOf(script), loads) == Ok(State(Some(message), map[], true))
  {
    var n := |script.body|;
    var events := EventsOf(script);
    PrefixIsBuilt(script, message, n, loads);
    FoldNext(events, n + 1, loads);
    assert script.body[..n] == script.body;
    assert events[..n + 2] == events && events[n + 1] == MessageStop;
    var s := Fold(events[..n + 1], loads).value;
    var m := s.message.value;
    forall i | 0 <= i < |message.content| ensures m.content[i] == message.content[i] {
      SplitAddsUp(message.content[i], script.blocks[i], DeltasOf(script.body, i), loads);
    }
    assert m.content == message.content;
    HeaderSaidLast(script.start, script.body);
    SaidOnce(script.start, script.body, message, Header(script.start, script.body));
    assert m == message;
    forall i: nat ensures i !in s.partial {
      assert PartialOk(script.blocks, script.body, s.partial, i);
    }
    assert s.partial == map[];
  }

  // ---- what ends a stream early ----

  // an event that cannot be read where it comes, and what follows it is not
  lemma RejectedAt(before: seq<Event>, e: Event, more: seq<Event>, error: Error, loads: Loads)
    requires Fold(before, loads).Ok? && Feed(Fold(before, loads).value, e, loads) == Err(error)
    ensures Reassembled(before + [e] + more, loads) == Err(error)
  {
    var events := before + [e] + more;
    assert events[..|before|] == before && events[|before|] == e;
    FoldNext(events, |before|, loads);
    FailedStaysFailed(events, |before| + 1, loads);
  }

  /** An error event anywhere before message_stop is the stream's error, whatever comes after it. */
  lemma ErrorIsRaised(script: Script, message: Message, n: nat, kind: string, text: string, more: seq<Event>, loads: Loads)
    requires Emits(script, message, loads) && n <= |script.body| + 1
    ensures Reassembled(EventsOf(script)[..n] + [ErrorEvent(kind, text)] + more, loads) == Err(StreamError(kind, text))
  {
    if n > 0 {
      PrefixIsBuilt(script, message, n - 1, loads);
    } else {
      assert EventsOf(script)[..0] == [];
    }
    RejectedAt(EventsOf(script)[..n], ErrorEvent(kind, text), more, StreamError(kind, text), loads);
  }

  /** Nothing but an error can come before message_start. */
  lemma StartComesFirst(e: Event, more: seq<Event>, loads: Loads)
    requires !e.MessageStart? && !e.ErrorEvent?
    ensures Reassembled([e] + more, loads) == Err(IncompleteStream)
  {
    RejectedAt([], e, more, IncompleteStream, loads);
    assert [] + [e] + more == [e] + more;
  }

  // an event about a block that has not started, or a block that starts out of turn
  predicate OutOfTurn(es: seq<Event>, e: Event) {
    match e
    case BlockStart(index, _) => index != Starts(es)
    case BlockDelta(index, _) => index >= Starts(es)
    case BlockStop(index) => index >= Starts(es)
    case _ => false
  }

  /** Blocks start in order, and nothing is said of one that has not started. */
  lemma OutOfTurnIsRejected(script: Script, message: Message, n: nat, e: Event, more: seq<Event>, loads: Loads)
    requires Emits(script, message, loads) && n <= |script.body| && OutOfTurn(script.body[..n], e)
    ensures Reassembled(EventsOf(script)[..n + 1] + [e] + more, loads) == Err(IncompleteStream)
  {
    PrefixIsBuilt(script, message, n, loads);
    RejectedAt(EventsOf(script)[..n + 1], e, more, IncompleteStream, loads);
  }

  /** A call's input that is no JSON when its block stops is the stream's error. */
  lemma BadInputIsRejected(script: Script, message: Message, n: nat, i: nat, more: seq<Event>, loads: Loads)
    requires Emits(script, message, loads) && n <= |script.body| && OpenTool(script.blocks, script.body[..n], i)
    requires
      var text := JsonText(DeltasOf(script.body[..n], i));
      !IsBlank(text) && loads(text).None?
    ensures Reassembled(EventsOf(script)[..n + 1] + [BlockStop(i)] + more, loads) == Err(BadJson)
  {
    PrefixIsBuilt(script, message, n, loads);
    var s := Fold(EventsOf(script)[..n + 1], loads).value;
    assert PartialOk(script.blocks, script.body[..n], s.partial, i);
    JoinedIsText(DeltasOf(script.body[..n], i));
    RejectedAt(EventsOf(script)[..n + 1], BlockStop(i), more, BadJson, loads);
  }

  lemma {:induction false} SameFold(a: seq<Event>, b: seq<Event>, more: seq<Event>, loads: Loads)
    requires Fold(a, loads) == Fold(b, loads)
    ensures Fold(a + more, loads) == Fold(b + more, loads)
  {
    if more == [] {
      assert a + more == a && b + more == b;
    } else {
      SameFold(a, b, more[..|more| - 1], loads);
      assert (a + more)[..|a + more| - 1] == a + more[..|more| - 1];
      assert (b + more)[..|b + more| - 1] == b + more[..|more| - 1];
    }
  }

  /** A second message_start begins the message anew, once no call is left open. */
  lemma StartsOver(junk: Script, dropped: Message, n: nat, script: Script, message: Message, loads: Loads)
    requires Emits(junk, dropped, loads) && n <= |junk.body| && forall i: nat :: !OpenTool(junk.blocks, junk.body[..n], i)
    requires Emits(script, message, loads)
    ensures Reassembled(EventsOf(junk)[..n + 1] + EventsOf(script), loads) == Ok(message)
  {
    var before := EventsOf(junk)[..n + 1];
    PrefixIsBuilt(junk, dropped, n, loads);
    var s := Fold(before, loads).value;
    forall i: nat ensures i !in s.partial {
      assert PartialOk(junk.blocks, junk.body[..n], s.partial, i);
    }
    assert s.partial == map[];
    var start := [MessageStart(script.start)];
    assert (before + start)[..|before|] == before;
    assert Fold(before + start, loads) == Fold(start, loads) by {
      assert start[..0] == [];
    }
    SameFold(before + start, start, EventsOf(script)[1..], loads);
    assert before + start + EventsOf(script)[1..] == before + EventsOf(script);
    assert start + EventsOf(script)[1..] == EventsOf(script);
    EmittedAlone(script, message, loads);
  }

  lemma {:induction false} BodyHasNoStop(blocks: seq<Block>, es: seq<Event>)
    requires WellOrdered(blocks, es)
    ensures MessageStop !in es
  {
    if es != [] {
      BodyHasNoStop(blocks, es[..|es| - 1]);
      assert es == es[..|es| - 1] + [es[|es| - 1]];
    }
  }

  /** Every strict prefix of an emitted stream is rejected. */
  lemma EmittedPrefixIsRejected(script: Script, message: Message, n: nat, loads: Loads)
    requires Emits(script, message, loads) && n < |EventsOf(script)|
    ensures Reassembled(EventsOf(script)[..n], loads).Err?
  {
    BodyHasNoStop(script.blocks, script.body);
    CutStreamIsRejected(EventsOf(script), n, loads);
  }
}
