/**
  The text of an event stream: lines, blank-line-separated events, and the `data:` lines of each.
  The framing follows section 9.2.6 of the WHATWG HTML standard, as far as the parser does.
 */
module Framing {
  import opened Wrappers
  import opened Json
  import opened Common
  import opened Reassembly

  // ---- the parser ----

  // replace("\r\n", "\n")
  function Unix(text: string): string {
    if |text| >= 2 && text[0] == '\r' && text[1] == '\n' then "\n" + Unix(text[2..])
    else if text == "" then ""
    else [text[0]] + Unix(text[1..])
  }

  // where the separator first stands, or the length
  function Find(text: string, sep: string): (i: nat)
    requires sep != ""
    ensures i <= |text|
    ensures i < |text| ==> i + |sep| <= |text| && text[i..i + |sep|] == sep
  {
    if text == "" then 0
    else if sep <= text then 0
    else Find(text[1..], sep) + 1
  }

  function Split(text: string, sep: string): seq<string>
    requires sep != ""
    decreases |text|
  {
    var i := Find(text, sep);
    if i == |text| then [text] else [text[..i]] + Split(text[i + |sep|..], sep)
  }

  function LStrip(text: string): string {
    if text != "" && IsSpace(text[0]) then LStrip(text[1..]) else text
  }

  function DataLines(lines: seq<string>): seq<string> {
    if lines == [] then []
    else (if "data:" <= lines[0] then [LStrip(lines[0][5..])] else []) + DataLines(lines[1..])
  }

  function JoinLines(lines: seq<string>): string {
    if lines == [] then "" else if |lines| == 1 then lines[0] else lines[0] + "\n" + JoinLines(lines[1..])
  }

  function PayloadsOf(blocks: seq<string>): seq<string> {
    if blocks == [] then []
    else
      var data := DataLines(Split(blocks[0], "\n"));
      (if data == [] then [] else [JoinLines(data)]) + PayloadsOf(blocks[1..])
  }

  function Payloads(text: string): seq<string> {
    PayloadsOf(Split(Unix(text), "\n\n"))
  }

  // json.loads, and the event an object stands for; None for anything else
  type Decode = string -> Option<Event>

  function Decoded(payloads: seq<string>, decode: Decode): seq<Event> {
    if payloads == [] then []
    else
      var event := decode(payloads[0]);
      (if event.Some? then [event.value] else []) + Decoded(payloads[1..], decode)
  }

  // the event of one block, if it has one
  function EventOf(block: string, decode: Decode): Option<Event> {
    var data := DataLines(Split(block, "\n"));
    if data == [] then None else decode(JoinLines(data))
  }

  lemma DecodedCons(payload: string, rest: seq<string>, decode: Decode)
    ensures Decoded([payload] + rest, decode) ==
            if decode(payload).Some? then [decode(payload).value] + Decoded(rest, decode) else Decoded(rest, decode)
  {
    assert ([payload] + rest)[1..] == rest;
  }

  lemma DecodedStep(blocks: seq<string>, decode: Decode)
    requires blocks != []
    ensures
      var rest := Decoded(PayloadsOf(blocks[1..]), decode);
      var event := EventOf(blocks[0], decode);
      Decoded(PayloadsOf(blocks), decode) == if event.Some? then [event.value] + rest else rest
  {
    var data := DataLines(Split(blocks[0], "\n"));
    if data != [] {
      DecodedCons(JoinLines(data), PayloadsOf(blocks[1..]), decode);
    } else {
      assert [] + PayloadsOf(blocks[1..]) == PayloadsOf(blocks[1..]);
    }
  }

  /** What decodes is kept and what does not is skipped, each payload by itself and in its place. */
  lemma {:induction false} DecodedSplits(a: seq<string>, b: seq<string>, decode: Decode)
    ensures Decoded(a + b, decode) == Decoded(a, decode) + Decoded(b, decode)
    ensures |a| == 1 ==> Decoded(a, decode) == if decode(a[0]).Some? then [decode(a[0]).value] else []
  {
    if a == [] {
      assert a + b == b;
    } else {
      DecodedSplits(a[1..], b, decode);
      assert (a + b)[1..] == a[1..] + b && (a + b)[0] == a[0];
      Assoc(if decode(a[0]).Some? then [decode(a[0]).value] else [], Decoded(a[1..], decode), Decoded(b, decode));
    }
  }

  /** parse_events: one payload an event, in order; what does not decode is skipped. */
  method ParseEvents(text: string, decode: Decode) returns (events: seq<Event>)
    ensures events == Decoded(Payloads(text), decode)
  {
    events := [];
    var blocks := Split(Unix(text), "\n\n");
    var i := 0;
    while i < |blocks|
      invariant i <= |blocks|
      invariant events + Decoded(PayloadsOf(blocks[i..]), decode) == Decoded(PayloadsOf(blocks), decode)
    {
      DecodedStep(blocks[i..], decode);
      assert blocks[i..][1..] == blocks[i + 1..];
      var block := blocks[i];
      i := i + 1;
      var data := DataLines(Split(block, "\n"));
      if data == [] {
        continue;
      }
      var event := decode(JoinLines(data));
      if event.Some? {
        events := events + [event.value];
      }
    }
  }

  // ---- a stream, written out ----

  // a line of an event: data and what follows its colon, or a field or comment the parser does not read
  datatype Line = Data(text: string) | Field(text: string)

  function Written(line: Line): string {
    if line.Data? then "data:" + line.text else line.text
  }

  predicate OneLine(text: string) {
    forall i :: 0 <= i < |text| ==> text[i] != '\n' && text[i] != '\r'
  }

  predicate LineOk(line: Line) {
    && OneLine(line.text)
    && (line.Field? ==> line.text != "" && !("data:" <= line.text))
  }

  predicate BlockOk(block: seq<Line>) {
    block != [] && forall i :: 0 <= i < |block| ==> LineOk(block[i])
  }

  function WriteBlock(block: seq<Line>, eol: string): string {
    if block == [] then "" else Written(block[0]) + eol + WriteBlock(block[1..], eol)
  }

  /** Each event's lines, each ended by eol, and a blank line after each event. */
  function Write(blocks: seq<seq<Line>>, eol: string): string {
    if blocks == [] then "" else WriteBlock(blocks[0], eol) + eol + Write(blocks[1..], eol)
  }

  // the data of a block; white space after the colon is no part of it
  function TextsOf(block: seq<Line>): seq<string> {
    if block == [] then [] else (if block[0].Data? then [LStrip(block[0].text)] else []) + TextsOf(block[1..])
  }

  function Sent(blocks: seq<seq<Line>>): seq<string> {
    if blocks == [] then []
    else (if TextsOf(blocks[0]) == [] then [] else [JoinLines(TextsOf(blocks[0]))]) + Sent(blocks[1..])
  }

  // ---- line ends ----

  lemma {:induction false} UnixSkips(a: string, b: string)
    requires forall i :: 0 <= i < |a| ==> a[i] != '\r'
    ensures Unix(a + b) == a + Unix(b)
  {
    if a == "" {
      assert a + b == b;
    } else {
      UnixSkips(a[1..], b);
      assert (a + b)[1..] == a[1..] + b;
    }
  }

  lemma UnixEol(b: string, eol: string)
    requires eol == "\n" || eol == "\r\n"
    ensures Unix(eol + b) == "\n" + Unix(b)
  {
    if eol == "\r\n" {
      assert (eol + b)[2..] == b;
    } else {
      UnixSkips("\n", b);
    }
  }

  lemma WrittenOneLine(line: Line)
    requires LineOk(line)
    ensures OneLine(Written(line)) && Written(line) != ""
  {
    if line.Data? {
      assert OneLine("data:");
    }
  }

  lemma Regroup(a: string, b: string, c: string, d: string)
    ensures (a + b + c) + d == a + (b + (c + d)) && a + b + c == a + (b + c)
  {
  }

  lemma {:induction false} UnixBlock(block: seq<Line>, eol: string, b: string)
    requires forall i :: 0 <= i < |block| ==> LineOk(block[i])
    requires eol == "\n" || eol == "\r\n"
    ensures Unix(WriteBlock(block, eol) + b) == WriteBlock(block, "\n") + Unix(b)
  {
    if block == [] {
      assert WriteBlock(block, eol) + b == b;
    } else {
      var first, w, unix := Written(block[0]), WriteBlock(block[1..], eol), WriteBlock(block[1..], "\n");
      WrittenOneLine(block[0]);
      UnixBlock(block[1..], eol, b);
      UnixEol(w + b, eol);
      UnixSkips(first, eol + (w + b));
      Regroup(first, eol, w, b);
      Regroup(first, "\n", unix, Unix(b));
    }
  }

  lemma {:induction false} UnixWrite(blocks: seq<seq<Line>>, b: string, eol: string)
    requires forall i :: 0 <= i < |blocks| ==> BlockOk(blocks[i])
    requires eol == "\n" || eol == "\r\n"
    ensures Unix(Write(blocks, eol) + b) == Write(blocks, "\n") + Unix(b)
  {
    if blocks == [] {
      assert Write(blocks, eol) + b == b;
    } else {
      var rest := Write(blocks[1..], eol) + b;
      UnixWrite(blocks[1..], b, eol);
      UnixBlock(blocks[0], eol, eol + rest);
      UnixEol(rest, eol);
      Regroup(WriteBlock(blocks[0], eol), eol, Write(blocks[1..], eol), b);
      Regroup(WriteBlock(blocks[0], "\n"), "\n", Write(blocks[1..], "\n"), Unix(b));
    }
  }

  // ---- splitting ----

  lemma {:induction false} FindAt(a: string, sep: string, b: string)
    requires sep != "" && forall k :: 0 <= k < |a| ==> !(sep <= (a + sep + b)[k..])
    ensures Find(a + sep + b, sep) == |a|
  {
    var text := a + sep + b;
    if a == "" {
      assert text == sep + b;
    } else {
      assert text[0..] == text;
      assert text[1..] == a[1..] + sep + b;
      forall k | 0 <= k < |a[1..]| ensures !(sep <= (a[1..] + sep + b)[k..]) {
        assert (a[1..] + sep + b)[k..] == text[k + 1..];
      }
      FindAt(a[1..], sep, b);
    }
  }

  lemma SplitAt(a: string, sep: string, b: string)
    requires sep != "" && forall k :: 0 <= k < |a| ==> !(sep <= (a + sep + b)[k..])
    ensures Split(a + sep + b, sep) == [a] + Split(b, sep)
  {
    FindAt(a, sep, b);
    var text := a + sep + b;
    assert text[..|a|] == a && text[|a| + |sep|..] == b;
  }

  lemma {:induction false} FindNone(a: string, sep: string)
    requires sep != "" && forall i :: 0 <= i < |a| ==> a[i] != sep[0]
    ensures Find(a, sep) == |a|
  {
    if a != "" {
      FindNone(a[1..], sep);
    }
  }

  // the lines of a block, without the end of its last line
  function Lines(block: seq<Line>): string {
    if block == [] then "" else if |block| == 1 then Written(block[0]) else Written(block[0]) + "\n" + Lines(block[1..])
  }

  lemma {:induction false} BlockIsLines(block: seq<Line>)
    requires block != []
    ensures WriteBlock(block, "\n") == Lines(block) + "\n"
  {
    if |block| > 1 {
      BlockIsLines(block[1..]);
    } else {
      assert WriteBlock(block, "\n") == Written(block[0]) + "\n" + "";
    }
  }

  function WrittenAll(block: seq<Line>): seq<string> {
    if block == [] then [] else [Written(block[0])] + WrittenAll(block[1..])
  }

  lemma {:induction false} SplitLines(block: seq<Line>)
    requires BlockOk(block)
    ensures Split(Lines(block), "\n") == WrittenAll(block)
  {
    var first := Written(block[0]);
    WrittenOneLine(block[0]);
    if |block| == 1 {
      FindNone(first, "\n");
      assert WrittenAll(block) == [first];
    } else {
      SplitLine(first, Lines(block[1..]));
      SplitLines(block[1..]);
    }
  }

  lemma NotBlankAt(text: string, k: nat)
    requires k + 1 < |text| && (text[k] != '\n' || text[k + 1] != '\n')
    ensures !("\n\n" <= text[k..])
  {
    assert text[k..][0] == text[k] && text[k..][1] == text[k + 1];
  }

  lemma LinesStart(block: seq<Line>)
    requires BlockOk(block)
    ensures Lines(block) != "" && Lines(block)[0] == Written(block[0])[0] != '\n'
  {
    WrittenOneLine(block[0]);
  }

  // none begins inside a line, nor at its end if something follows on the next
  lemma NoBlankInLine(line: string, rest: string, k: nat)
    requires OneLine(line) && k <= |line| && (k == |line| ==> rest != "" && rest[0] != '\n')
    ensures !("\n\n" <= (line + "\n" + rest)[k..])
  {
    var text := line + "\n" + rest;
    if k < |line| {
      assert text[k] == line[k];
    } else {
      assert text[k + 1] == rest[0];
    }
    NotBlankAt(text, k);
  }

  // a block and the blank line after it, as its first line and the rest
  function AfterFirst(block: seq<Line>, b: string): string
    requires block != []
  {
    if |block| == 1 then "\n" + b else Lines(block[1..]) + "\n\n" + b
  }

  lemma OnlyLine(block: seq<Line>, b: string)
    requires |block| == 1
    ensures Lines(block) == Written(block[0])
    ensures Lines(block) + "\n\n" + b == Written(block[0]) + "\n" + AfterFirst(block, b)
  {
    Regroup(Written(block[0]), "\n", "\n", b);
  }

  lemma LaterLines(block: seq<Line>, b: string)
    requires BlockOk(block) && |block| > 1
    ensures BlockOk(block[1..]) && |Lines(block)| == |Written(block[0])| + 1 + |Lines(block[1..])|
    ensures Lines(block) + "\n\n" + b == Written(block[0]) + "\n" + AfterFirst(block, b)
    ensures AfterFirst(block, b) != "" && AfterFirst(block, b)[0] != '\n'
  {
    LinesStart(block[1..]);
    var first, rest := Written(block[0]), Lines(block[1..]);
    assert Lines(block) == first + "\n" + rest;
    Assoc(first + "\n", rest, "\n\n" + b);
    Assoc(rest, "\n\n", b);
    Assoc(first + "\n" + rest, "\n\n", b);
  }

  // no blank line inside a block, nor where its last line ends
  lemma {:induction false} NoBlankInside(block: seq<Line>, k: nat, b: string)
    requires BlockOk(block) && k < |Lines(block)|
    ensures !("\n\n" <= (Lines(block) + "\n\n" + b)[k..])
  {
    WrittenOneLine(block[0]);
    if |block| == 1 {
      OnlyLine(block, b);
    } else {
      LaterLines(block, b);
    }
    var first, rest := Written(block[0]), AfterFirst(block, b);
    if k <= |first| {
      NoBlankInLine(first, rest, k);
    } else {
      NoBlankInside(block[1..], k - |first| - 1, b);
      DropLine(first, rest, k);
    }
  }

  lemma DropLine(line: string, rest: string, k: nat)
    requires |line| < k <= |line| + 1 + |rest|
    ensures (line + "\n" + rest)[k..] == rest[k - |line| - 1..]
  {
  }

  // lines that no blank line follows make one block, with an empty line at its end
  lemma {:induction false} SplitEnded(block: seq<Line>)
    requires forall i :: 0 <= i < |block| ==> LineOk(block[i])
    ensures Split(WriteBlock(block, "\n"), "\n") == WrittenAll(block) + [""]
  {
    if block == [] {
      assert Split("", "\n") == [""];
    } else {
      var first, rest := Written(block[0]), WriteBlock(block[1..], "\n");
      WrittenOneLine(block[0]);
      SplitLine(first, rest);
      SplitEnded(block[1..]);
    }
  }

  lemma {:induction false} FindNothing(text: string, sep: string)
    requires sep != "" && forall k :: 0 <= k < |text| ==> !(sep <= text[k..])
    ensures Find(text, sep) == |text|
  {
    if text != "" {
      assert text[0..] == text;
      forall k | 0 <= k < |text[1..]| ensures !(sep <= text[1..][k..]) {
        assert text[1..][k..] == text[k + 1..];
      }
      FindNothing(text[1..], sep);
    }
  }

  lemma StillBegins(sep: string, text: string, more: string)
    requires sep <= text
    ensures sep <= text + more
  {
  }

  lemma NoBlankUnended(block: seq<Line>, k: nat)
    requires BlockOk(block) && k <= |Lines(block)|
    ensures !("\n\n" <= (Lines(block) + "\n")[k..])
  {
    var lines, text := Lines(block), Lines(block) + "\n";
    if k < |lines| {
      NoBlankInside(block, k, "");
      assert (lines + "\n\n" + "")[k..] == text[k..] + "\n";
      if "\n\n" <= text[k..] {
        StillBegins("\n\n", text[k..], "\n");
      }
    } else {
      assert |text[k..]| == 1;
    }
  }

  lemma UnendedIsOneBlock(block: seq<Line>)
    requires forall i :: 0 <= i < |block| ==> LineOk(block[i])
    ensures Split(WriteBlock(block, "\n"), "\n\n") == [WriteBlock(block, "\n")]
  {
    var text := WriteBlock(block, "\n");
    if block != [] {
      BlockIsLines(block);
      forall k: nat | k < |text| ensures !("\n\n" <= text[k..]) {
        NoBlankUnended(block, k);
      }
    }
    FindNothing(text, "\n\n");
  }

  lemma {:induction false} DataLinesSplit(a: seq<string>, b: seq<string>)
    ensures DataLines(a + b) == DataLines(a) + DataLines(b)
  {
    if a == [] {
      assert a + b == b;
    } else {
      DataLinesSplit(a[1..], b);
      assert (a + b)[1..] == a[1..] + b && (a + b)[0] == a[0];
      Assoc(if "data:" <= a[0] then [LStrip(a[0][5..])] else [], DataLines(a[1..]), DataLines(b));
    }
  }

  lemma UnendedData(last: seq<Line>)
    requires forall i :: 0 <= i < |last| ==> LineOk(last[i])
    ensures DataLines(Split(WriteBlock(last, "\n"), "\n")) == TextsOf(last)
  {
    SplitEnded(last);
    DataLinesSplit(WrittenAll(last), [""]);
    DataBack(last);
    assert DataLines([""]) == [];
  }

  lemma UnendedPayload(last: seq<Line>)
    requires forall i :: 0 <= i < |last| ==> LineOk(last[i])
    ensures PayloadsOf(Split(WriteBlock(last, "\n"), "\n\n")) == Sent([last])
  {
    UnendedIsOneBlock(last);
    UnendedData(last);
    PayloadsNext([WriteBlock(last, "\n")], last, []);
  }

  // a block's payload, if it has one, in front of the others'
  lemma PayloadsNext(blocks: seq<string>, block: seq<Line>, rest: seq<seq<Line>>)
    requires blocks != [] && DataLines(Split(blocks[0], "\n")) == TextsOf(block) && PayloadsOf(blocks[1..]) == Sent(rest)
    ensures PayloadsOf(blocks) == Sent([block] + rest)
  {
    assert ([block] + rest)[1..] == rest;
  }

  lemma {:induction false} SplitWrite(blocks: seq<seq<Line>>, last: seq<Line>, tail: string)
    requires forall i :: 0 <= i < |blocks| ==> BlockOk(blocks[i])
    requires PayloadsOf(Split(tail, "\n\n")) == Sent([last])
    ensures PayloadsOf(Split(Write(blocks, "\n") + tail, "\n\n")) == Sent(blocks + [last])
  {
    if blocks == [] {
      assert Write(blocks, "\n") + tail == tail && blocks + [last] == [last];
    } else {
      SplitWrite(blocks[1..], last, tail);
      WriteFirst(blocks, tail);
      NextPayload(blocks[0], Write(blocks[1..], "\n") + tail, blocks[1..] + [last]);
      assert [blocks[0]] + (blocks[1..] + [last]) == blocks + [last];
    }
  }

  lemma NextPayload(block: seq<Line>, rest: string, sent: seq<seq<Line>>)
    requires BlockOk(block) && PayloadsOf(Split(rest, "\n\n")) == Sent(sent)
    ensures PayloadsOf(Split(Lines(block) + "\n\n" + rest, "\n\n")) == Sent([block] + sent)
  {
    SplitFirst(block, rest);
    SplitLines(block);
    DataBack(block);
    PayloadsNext([Lines(block)] + Split(rest, "\n\n"), block, sent);
  }

  lemma WriteFirst(blocks: seq<seq<Line>>, more: string)
    requires blocks != [] && BlockOk(blocks[0])
    ensures Write(blocks, "\n") + more == Lines(blocks[0]) + "\n\n" + (Write(blocks[1..], "\n") + more)
  {
    BlockIsLines(blocks[0]);
  }

  lemma SplitFirst(block: seq<Line>, rest: string)
    requires BlockOk(block)
    ensures Split(Lines(block) + "\n\n" + rest, "\n\n") == [Lines(block)] + Split(rest, "\n\n")
  {
    forall k: nat | k < |Lines(block)| ensures !("\n\n" <= (Lines(block) + "\n\n" + rest)[k..]) {
      NoBlankInside(block, k, rest);
    }
    SplitAt(Lines(block), "\n\n", rest);
  }

  // the lines of several-line data, put together and taken apart
  lemma {:induction false} JoinedLinesSplit(lines: seq<string>)
    requires lines != [] && forall i :: 0 <= i < |lines| ==> OneLine(lines[i])
    ensures Split(JoinLines(lines), "\n") == lines
  {
    if |lines| == 1 {
      FindNone(lines[0], "\n");
    } else {
      SplitLine(lines[0], JoinLines(lines[1..]));
      JoinedLinesSplit(lines[1..]);
      assert [lines[0]] + lines[1..] == lines;
    }
  }

  lemma SplitLine(line: string, rest: string)
    requires OneLine(line)
    ensures Split(line + "\n" + rest, "\n") == [line] + Split(rest, "\n")
  {
    forall k | 0 <= k < |line| ensures !("\n" <= (line + "\n" + rest)[k..]) {
      assert (line + "\n" + rest)[k..][0] == line[k];
    }
    SplitAt(line, "\n", rest);
  }

  lemma {:induction false} DataBack(block: seq<Line>)
    requires forall i :: 0 <= i < |block| ==> LineOk(block[i])
    ensures DataLines(WrittenAll(block)) == TextsOf(block)
  {
    if block != [] {
      DataBack(block[1..]);
      var first := block[0];
      if first.Data? {
        assert Written(first)[..5] == "data:";
        assert Written(first)[5..] == first.text;
      }
    }
  }

  lemma {:induction false} LStripStops(text: string)
    ensures LStrip(text) == "" || !IsSpace(LStrip(text)[0])
    ensures |LStrip(text)| <= |text|
  {
    if text != "" && IsSpace(text[0]) {
      LStripStops(text[1..]);
    }
  }

  /**
    Data written after one space comes back whole exactly when it does not begin with white space
    itself; where the standard takes one space off, the parser takes them all.
   */
  lemma DataKeptExactly(text: string)
    ensures LStrip(" " + text) == text <==> text == "" || !IsSpace(text[0])
  {
    assert IsSpace(' ') && (" " + text)[1..] == text;
    LStripStops(text);
  }

  /**
    What was sent is what is parsed, whichever line end the stream uses, and a last event that no
    blank line ends is parsed too.
   */
  lemma PayloadsRoundTrip(blocks: seq<seq<Line>>, last: seq<Line>, eol: string)
    requires forall i :: 0 <= i < |blocks| ==> BlockOk(blocks[i])
    requires forall i :: 0 <= i < |last| ==> LineOk(last[i])
    requires eol == "\n" || eol == "\r\n"
    ensures Payloads(Write(blocks, eol) + WriteBlock(last, eol)) == Sent(blocks + [last])
  {
    UnixWrite(blocks, WriteBlock(last, eol), eol);
    UnixBlock(last, eol, "");
    assert WriteBlock(last, eol) + "" == WriteBlock(last, eol) && WriteBlock(last, "\n") + Unix("") == WriteBlock(last, "\n");
    UnendedPayload(last);
    SplitWrite(blocks, last, WriteBlock(last, "\n"));
  }

  /** From text to message: a framed stream whose payloads decode to an emitted message gives it back. */
  lemma FramedStreamIsReassembled(
      blocks: seq<seq<Line>>, last: seq<Line>, eol: string, decode: Decode, script: Script, message: Message, loads: Loads)
    requires forall i :: 0 <= i < |blocks| ==> BlockOk(blocks[i])
    requires forall i :: 0 <= i < |last| ==> LineOk(last[i])
    requires eol == "\n" || eol == "\r\n"
    requires Decoded(Sent(blocks + [last]), decode) == EventsOf(script) && Emits(script, message, loads)
    ensures Reassembled(Decoded(Payloads(Write(blocks, eol) + WriteBlock(last, eol)), decode), loads) == Ok(message)
  {
    PayloadsRoundTrip(blocks, last, eol);
    EmittedIsReassembled(script, message, [], loads);
    assert EventsOf(script) + [] == EventsOf(script);
  }
}
