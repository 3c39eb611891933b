/**
  Bounding recorded output on bytes without splitting a character. Text is UTF-8 as in
  section 3 of RFC 3629; decoding drops what is not a character.
 */
module Truncate {
  import opened Wrappers
  import opened Common

  // ---- UTF-8 ----

  function EncodeChar(c: char): (bytes: seq<Byte>)
    ensures 1 <= |bytes| <= 4
  {
    var n := c as int;
    if n < 0x80 then [n]
    else if n < 0x800 then [0xC0 + n / 0x40, 0x80 + n % 0x40]
    else if n < 0x10000 then [0xE0 + n / 0x1000, 0x80 + n / 0x40 % 0x40, 0x80 + n % 0x40]
    else [0xF0 + n / 0x40000, 0x80 + n / 0x1000 % 0x40, 0x80 + n / 0x40 % 0x40, 0x80 + n % 0x40]
  }

  function Encode(text: string): seq<Byte> {
    if text == [] then [] else EncodeChar(text[0]) + Encode(text[1..])
  }

  function At(bytes: seq<Byte>, i: nat): int
    requires i < |bytes|
  {
    bytes[i]
  }

  predicate Tail(bytes: seq<Byte>, i: nat) {
    i < |bytes| && 0x80 <= bytes[i] < 0xC0
  }

  predicate Between(bytes: seq<Byte>, i: nat, lo: int, hi: int) {
    i < |bytes| && lo <= bytes[i] <= hi
  }

  datatype Decoded = Decoded(c: char, size: nat)

  // The character a byte string starts with, by the grammar of RFC 3629, or None.
  function DecodeFirst(bytes: seq<Byte>): (d: Option<Decoded>)
    ensures d.Some? ==> 1 <= d.value.size <= |bytes|
  {
    if bytes == [] then None
    else
      var b := At(bytes, 0);
      if b < 0x80 then Some(Decoded(b as char, 1))
      else if 0xC2 <= b <= 0xDF && Tail(bytes, 1) then
        Some(Decoded(((b - 0xC0) * 0x40 + (At(bytes, 1) - 0x80)) as char, 2))
      else if && (|| (b == 0xE0 && Between(bytes, 1, 0xA0, 0xBF))
                  || (0xE1 <= b <= 0xEC && Tail(bytes, 1))
                  || (b == 0xED && Between(bytes, 1, 0x80, 0x9F))
                  || (0xEE <= b <= 0xEF && Tail(bytes, 1)))
              && Tail(bytes, 2) then
        Some(Decoded(((b - 0xE0) * 0x1000 + (At(bytes, 1) - 0x80) * 0x40 + (At(bytes, 2) - 0x80)) as char, 3))
      else if && (|| (b == 0xF0 && Between(bytes, 1, 0x90, 0xBF))
                  || (0xF1 <= b <= 0xF3 && Tail(bytes, 1))
                  || (b == 0xF4 && Between(bytes, 1, 0x80, 0x8F)))
              && Tail(bytes, 2) && Tail(bytes, 3) then
        Some(Decoded(((b - 0xF0) * 0x40000 + (At(bytes, 1) - 0x80) * 0x1000
                      + (At(bytes, 2) - 0x80) * 0x40 + (At(bytes, 3) - 0x80)) as char, 4))
      else None
  }

  // bytes.decode(errors="ignore")
  function Decode(bytes: seq<Byte>): string
    decreases |bytes|
  {
    if bytes == [] then ""
    else
      match DecodeFirst(bytes)
      case Some(d) => [d.c] + Decode(bytes[d.size..])
      case None => Decode(bytes[1..])
  }

  lemma SixBitDigits(n: nat)
    ensures n == n / 0x40 * 0x40 + n % 0x40
    ensures n / 0x40 == n / 0x1000 * 0x40 + n / 0x40 % 0x40
    ensures n / 0x1000 == n / 0x40000 * 0x40 + n / 0x1000 % 0x40
  {
    assert n / 0x40 / 0x40 == n / 0x1000;
    assert n / 0x1000 / 0x40 == n / 0x40000;
  }

  lemma ShortCharRoundTrip(c: char, rest: seq<Byte>)
    requires c as int < 0x800
    ensures DecodeFirst(EncodeChar(c) + rest) == Some(Decoded(c, |EncodeChar(c)|))
  {
  }

  lemma LongCharRoundTrip(c: char, rest: seq<Byte>)
    requires 0x800 <= c as int < 0x10000
    ensures DecodeFirst(EncodeChar(c) + rest) == Some(Decoded(c, |EncodeChar(c)|))
  {
    var n, bytes := c as int, EncodeChar(c) + rest;
    SixBitDigits(n);
    assert bytes[0] == 0xE0 + n / 0x1000 && bytes[1] == 0x80 + n / 0x40 % 0x40 && bytes[2] == 0x80 + n % 0x40;
    assert n < 0xD800 || 0xE000 <= n;
  }

  lemma LongestCharRoundTrip(c: char, rest: seq<Byte>)
    requires 0x10000 <= c as int
    ensures DecodeFirst(EncodeChar(c) + rest) == Some(Decoded(c, |EncodeChar(c)|))
  {
    var n, bytes := c as int, EncodeChar(c) + rest;
    SixBitDigits(n);
    assert bytes[0] == 0xF0 + n / 0x40000 && bytes[1] == 0x80 + n / 0x1000 % 0x40;
    assert bytes[2] == 0x80 + n / 0x40 % 0x40 && bytes[3] == 0x80 + n % 0x40;
    assert n < 0x110000;
  }

  lemma CharRoundTrip(c: char, rest: seq<Byte>)
    ensures DecodeFirst(EncodeChar(c) + rest) == Some(Decoded(c, |EncodeChar(c)|))
  {
    if c as int < 0x800 {
      ShortCharRoundTrip(c, rest);
    } else if c as int < 0x10000 {
      LongCharRoundTrip(c, rest);
    } else {
      LongestCharRoundTrip(c, rest);
    }
  }

  lemma {:induction false} RoundTrip(text: string)
    ensures Decode(Encode(text)) == text
  {
    if text != [] {
      CharRoundTrip(text[0], Encode(text[1..]));
      assert Encode(text)[|EncodeChar(text[0])|..] == Encode(text[1..]);
      RoundTrip(text[1..]);
    }
  }

  lemma {:induction false} EncodeConcat(s: string, t: string)
    ensures Encode(s + t) == Encode(s) + Encode(t)
  {
    if s == [] {
      assert s + t == t;
    } else {
      assert (s + t)[1..] == s[1..] + t;
      EncodeConcat(s[1..], t);
    }
  }

  predicate Continuation(b: Byte) {
    0x80 <= b < 0xC0
  }

  lemma ContinuationBytes(c: char)
    ensures !Continuation(EncodeChar(c)[0])
    ensures forall i :: 1 <= i < |EncodeChar(c)| ==> Continuation(EncodeChar(c)[i])
  {
  }

  // Bytes that continue a character are dropped when the character's start is missing.
  lemma {:induction false} DropContinuations(bytes: seq<Byte>, rest: seq<Byte>)
    requires forall i :: 0 <= i < |bytes| ==> Continuation(bytes[i])
    ensures Decode(bytes + rest) == Decode(rest)
  {
    if bytes == [] {
      assert bytes + rest == rest;
    } else {
      assert (bytes + rest)[0] == bytes[0];
      assert DecodeFirst(bytes + rest) == None;
      assert (bytes + rest)[1..] == bytes[1..] + rest;
      DropContinuations(bytes[1..], rest);
    }
  }

  // A character cut short is dropped whole.
  lemma DropCutChar(c: char, n: nat)
    requires n < |EncodeChar(c)|
    ensures Decode(EncodeChar(c)[..n]) == ""
  {
    if n > 0 {
      var cut := EncodeChar(c)[..n];
      ContinuationBytes(c);
      assert DecodeFirst(cut) == None;
      DropContinuations(cut[1..], []);
      assert cut[1..] + [] == cut[1..];
    }
  }

  /** Decoding the first n bytes gives a prefix of the text, at most 3 bytes short of them. */
  lemma {:induction false} HeadIsPrefix(text: string, n: nat) returns (i: nat)
    requires n <= |Encode(text)|
    ensures i <= |text| && Decode(Encode(text)[..n]) == text[..i]
    ensures n - 3 <= |Encode(text[..i])| <= n
  {
    if text == [] {
      i := 0;
    } else {
      var first := EncodeChar(text[0]);
      if n < |first| {
        i := 0;
        assert Encode(text)[..n] == first[..n];
        DropCutChar(text[0], n);
      } else {
        var j := HeadIsPrefix(text[1..], n - |first|);
        i := j + 1;
        var rest := Encode(text[1..])[..n - |first|];
        assert Encode(text)[..n] == first + rest;
        CharRoundTrip(text[0], rest);
        assert (first + rest)[|first|..] == rest;
        assert text[..i] == [text[0]] + text[1..][..j];
        assert text[..i][1..] == text[1..][..j];
      }
    }
  }

  /** Decoding from byte m on gives a suffix of the text, at most 3 bytes short of them. */
  lemma {:induction false} TailIsSuffix(text: string, m: nat) returns (j: nat)
    requires m <= |Encode(text)|
    ensures j <= |text| && Decode(Encode(text)[m..]) == text[j..]
    ensures |Encode(text)| - m - 3 <= |Encode(text[j..])| <= |Encode(text)| - m
  {
    if m == 0 {
      j := 0;
      RoundTrip(text);
      assert Encode(text)[0..] == Encode(text) && text[0..] == text;
    } else {
      var first := EncodeChar(text[0]);
      if m < |first| {
        j := 1;
        ContinuationBytes(text[0]);
        assert Encode(text)[m..] == first[m..] + Encode(text[1..]);
        DropContinuations(first[m..], Encode(text[1..]));
        RoundTrip(text[1..]);
      } else {
        var k := TailIsSuffix(text[1..], m - |first|);
        j := k + 1;
        assert Encode(text)[m..] == Encode(text[1..])[m - |first|..];
        assert text[j..] == text[1..][k..];
      }
    }
  }

  /** Characters of the examples in section 7 of RFC 3629, one of each length and more. */
  lemma EncodesAsTheStandard()
    ensures EncodeChar('A') == [0x41] && EncodeChar('\U{0391}') == [0xCE, 0x91]
    ensures EncodeChar('\U{2262}') == [0xE2, 0x89, 0xA2] && EncodeChar('\U{D55C}') == [0xED, 0x95, 0x9C]
    ensures EncodeChar('\U{65E5}') == [0xE6, 0x97, 0xA5] && EncodeChar('\U{233B4}') == [0xF0, 0xA3, 0x8E, 0xB4]
  {
  }

  // ---- truncate_output ----

  function Head(text: string, limit: nat): string {
    var data := Encode(text);
    Decode(data[..if limit / 2 <= |data| then limit / 2 else |data|])
  }

  // data[-half:], which is all of data when half is zero
  function LastBytes(data: seq<Byte>, half: nat): seq<Byte> {
    if half == 0 || half > |data| then data else data[|data| - half..]
  }

  function TailText(text: string, limit: nat): string {
    Decode(LastBytes(Encode(text), limit / 2))
  }

  function Dropped(text: string, limit: nat): int {
    |Encode(text)| - |Encode(Head(text, limit))| - |Encode(TailText(text, limit))|
  }

  function Marked(head: string, dropped: int, tail: string): string {
    head + "\n[mshkn: " + (if dropped >= 0 then Decimal(dropped) else "-" + Decimal(-dropped))
    + " bytes truncated]\n" + tail
  }

  function TruncateOutput(text: string, limit: nat): (string, bool) {
    if |Encode(text)| <= limit then (text, false)
    else (Marked(Head(text, limit), Dropped(text, limit), TailText(text, limit)), true)
  }

  lemma {:induction false} LongerPrefixLonger(text: string, i: nat, j: nat)
    requires j < i <= |text|
    ensures |Encode(text[..j])| < |Encode(text[..i])|
  {
    assert text[..i] == text[..j] + text[j..i];
    EncodeConcat(text[..j], text[j..i]);
  }

  // A text cut in two places encodes to the three pieces' bytes.
  lemma ThreePieces(text: string, i: nat, j: nat)
    requires i <= j <= |text|
    ensures |Encode(text)| == |Encode(text[..i])| + |Encode(text[i..j])| + |Encode(text[j..])|
  {
    assert text == text[..j] + text[j..];
    EncodeConcat(text[..j], text[j..]);
    assert text[..j] == text[..i] + text[i..j];
    EncodeConcat(text[..i], text[i..j]);
  }

  lemma HeadCut(text: string, limit: nat) returns (i: nat)
    requires |Encode(text)| > limit
    ensures i <= |text| && Head(text, limit) == text[..i] && limit / 2 - 3 <= |Encode(text[..i])| <= limit / 2
  {
    i := HeadIsPrefix(text, limit / 2);
  }

  lemma LastHalf(text: string, half: nat) returns (j: nat)
    requires 0 < half <= |Encode(text)|
    ensures j <= |text| && Decode(LastBytes(Encode(text), half)) == text[j..] && half - 3 <= |Encode(text[j..])| <= half
  {
    var start: nat := |Encode(text)| - half;
    j := TailIsSuffix(text, start);
  }

  lemma TailCut(text: string, limit: nat) returns (j: nat)
    requires limit >= 2 && |Encode(text)| > limit
    ensures j <= |text| && TailText(text, limit) == text[j..] && limit / 2 - 3 <= |Encode(text[j..])| <= limit / 2
  {
    var half := limit / 2;
    assert 0 < half <= |Encode(text)|;
    j := LastHalf(text, half);
  }

  lemma CutPoints(text: string, limit: nat) returns (i: nat, j: nat)
    requires limit >= 2 && |Encode(text)| > limit
    ensures i <= j <= |text| && Head(text, limit) == text[..i] && TailText(text, limit) == text[j..]
    ensures limit / 2 - 3 <= |Encode(text[..i])| <= limit / 2
    ensures limit / 2 - 3 <= |Encode(text[j..])| <= limit / 2
    ensures Dropped(text, limit) == |Encode(text[i..j])|
  {
    i := HeadCut(text, limit);
    j := TailCut(text, limit);
    CutsInOrder(text, i, j, limit / 2);
    ThreePieces(text, i, j);
  }

  lemma CutsInOrder(text: string, i: nat, j: nat, half: nat)
    requires i <= |text| && j <= |text| && 2 * half < |Encode(text)|
    requires |Encode(text[..i])| <= half && |Encode(text[j..])| <= half
    ensures i <= j
  {
    if j < i {
      assert text == text[..j] + text[j..];
      EncodeConcat(text[..j], text[j..]);
      LongerPrefixLonger(text, i, j);
    }
  }

  /**
    A text over the limit keeps a true head and a true tail of itself that do not overlap,
    each within half the limit and at most 3 bytes short of it; the number reported is the
    size of exactly what lies between them. A shorter text is kept as it is.
   */
  lemma TruncationKeepsHeadAndTail(text: string, limit: nat) returns (i: nat, j: nat)
    requires limit >= 2
    ensures |Encode(text)| <= limit ==> TruncateOutput(text, limit) == (text, false)
    ensures |Encode(text)| > limit ==>
      && i <= j <= |text|
      && TruncateOutput(text, limit)
         == (text[..i] + "\n[mshkn: " + Decimal(|Encode(text[i..j])|) + " bytes truncated]\n" + text[j..], true)
      && limit / 2 - 3 <= |Encode(text[..i])| <= limit / 2
      && limit / 2 - 3 <= |Encode(text[j..])| <= limit / 2
  {
    i, j := 0, 0;
    if |Encode(text)| > limit {
      i, j := CutPoints(text, limit);
    }
  }

  /**
    The bound needs a limit of at least 2. Under that, half the limit is zero bytes, which
    as a slice from the end is the whole text.
   */
  lemma TailBoundedExactly(text: string, limit: nat)
    requires |Encode(text)| > limit
    ensures |Encode(TailText(text, limit))| <= limit / 2 <==> limit >= 2
    ensures limit < 2 ==> TailText(text, limit) == text
  {
    if limit >= 2 {
      var j := TailCut(text, limit);
    } else {
      RoundTrip(text);
    }
  }

  /** What a limit below 2 then gives: the whole text, under a notice that nothing was cut. */
  lemma BelowTwoKeepsAll(text: string, limit: nat)
    requires limit < 2 && |Encode(text)| > limit
    ensures TruncateOutput(text, limit) == (Marked("", 0, text), true)
    ensures Marked("", 0, text) == "" + "\n[mshkn: " + "0" + " bytes truncated]\n" + text
  {
    TailBoundedExactly(text, limit);
    assert Head(text, limit) == Decode([]) == "";
    assert |Encode("")| == 0;
  }
}
