/** Messages as they lie in an aggregation buffer: a header, the arguments, the payload. */
module Framing {
  import opened Wrappers

  type byte = x: int | 0 <= x < 256

  /** A handler's address, the core it is for, and what it is called with. */
  datatype Message = Message(fn: nat, dest: nat, args: seq<byte>, payload: seq<byte>)

  /** Eight bytes of function pointer, three fields of two bytes, and two bytes of padding. */
  const HEADER := 16

  /** The size of an aggregation buffer. */
  const MAX := 4096 - 72

  function SizeOf(m: Message): nat { HEADER + |m.args| + |m.payload| }

  ghost predicate Sendable(m: Message) {
    m.fn < Bound(8) && m.dest < Bound(2) && SizeOf(m) < MAX
  }

  // ---------------------------------------------------------------- numbers

  /** 256 to the power `k`. */
  ghost function Bound(k: nat): nat { if k == 0 then 1 else 256 * Bound(k - 1) }

  /** Least significant byte first. */
  function Digits(x: nat, k: nat): (s: seq<byte>)
    ensures |s| == k
  {
    if k == 0 then [] else [x % 256] + Digits(x / 256, k - 1)
  }

  function Number(s: seq<byte>): nat { if s == [] then 0 else s[0] + 256 * Number(s[1..]) }

  lemma {:induction false} NumberOfDigits(x: nat, k: nat)
    requires x < Bound(k)
    ensures Number(Digits(x, k)) == x
  {
    if k > 0 {
      NumberOfDigits(x / 256, k - 1);
      assert Digits(x, k)[1..] == Digits(x / 256, k - 1);
    }
  }

  // ---------------------------------------------------------------- one message

  function Header(m: Message): (s: seq<byte>)
    ensures |s| == HEADER
  {
    Digits(m.fn, 8) + Digits(m.dest, 2) + Digits(|m.args|, 2) + Digits(|m.payload|, 2) + [0, 0]
  }

  function Encode(m: Message): (s: seq<byte>)
    ensures |s| == SizeOf(m)
  {
    Header(m) + m.args + m.payload
  }

  /** What deaggregate reads at `i`: none if the buffer ends before the message does. */
  function Decode(buf: seq<byte>, i: nat): (r: Option<Message>)
    ensures r.Some? ==> i + SizeOf(r.value) <= |buf|
  {
    if i + HEADER > |buf| then None else
      var fn, dest := Number(buf[i..i + 8]), Number(buf[i + 8..i + 10]);
      var argsSize, payloadSize := Number(buf[i + 10..i + 12]), Number(buf[i + 12..i + 14]);
      var at := i + HEADER;
      if at + argsSize + payloadSize > |buf| then None
      else Some(Message(fn, dest, buf[at..at + argsSize], buf[at + argsSize..at + argsSize + payloadSize]))
  }

  lemma Slice(buf: seq<byte>, i: nat, x: nat, y: nat)
    requires i + HEADER <= |buf| && x <= y <= HEADER
    ensures buf[i..i + HEADER][x..y] == buf[i + x..i + y]
  {
    var whole, part := buf[i..i + HEADER][x..y], buf[i + x..i + y];
    assert |whole| == |part|;
    forall k: nat | k < |part| ensures whole[k] == part[k] {
      assert part[k] == buf[i + x + k];
      assert whole[k] == buf[i..i + HEADER][x + k];
    }
  }

  lemma HeaderFields(m: Message)
    ensures Header(m)[0..8] == Digits(m.fn, 8) && Header(m)[8..10] == Digits(m.dest, 2)
    ensures Header(m)[10..12] == Digits(|m.args|, 2) && Header(m)[12..14] == Digits(|m.payload|, 2)
  {
  }

  /** The fields of a header, read back. */
  lemma FieldsOf(buf: seq<byte>, i: nat, m: Message)
    requires Sendable(m) && i + HEADER <= |buf| && buf[i..i + HEADER] == Header(m)
    ensures Number(buf[i..i + 8]) == m.fn && Number(buf[i + 8..i + 10]) == m.dest
    ensures Number(buf[i + 10..i + 12]) == |m.args| && Number(buf[i + 12..i + 14]) == |m.payload|
  {
    var h := Header(m);
    assert Bound(2) == 65536 by { assert Bound(1) == 256; }
    HeaderFields(m);
    Slice(buf, i, 0, 8);
    Slice(buf, i, 8, 10);
    Slice(buf, i, 10, 12);
    Slice(buf, i, 12, 14);
    NumberOfDigits(m.fn, 8);
    NumberOfDigits(m.dest, 2);
    NumberOfDigits(|m.args|, 2);
    NumberOfDigits(|m.payload|, 2);
  }

  lemma DecodeEncoded(before: seq<byte>, m: Message, after: seq<byte>)
    requires Sendable(m)
    ensures Decode(before + Encode(m) + after, |before|) == Some(m)
  {
    var buf, i := before + Encode(m) + after, |before|;
    assert buf[i..i + HEADER] == Header(m);
    FieldsOf(buf, i, m);
    var at := i + HEADER;
    assert buf[at..at + |m.args|] == m.args;
    assert buf[at + |m.args|..at + |m.args| + |m.payload|] == m.payload;
  }

  // ---------------------------------------------------------------- a buffer of messages

  function EncodeAll(ms: seq<Message>): seq<byte> {
    if ms == [] then [] else Encode(ms[0]) + EncodeAll(ms[1..])
  }

  /** The messages from offset `i` on, as the loop of deaggregate reads them. */
  function Parse(buf: seq<byte>, i: nat): Option<seq<Message>>
    requires i <= |buf|
    decreases |buf| - i
  {
    if i == |buf| then Some([]) else
      var m := Decode(buf, i);
      if m.None? then None else
        var rest := Parse(buf, i + SizeOf(m.value));
        if rest.None? then None else Some([m.value] + rest.value)
  }

  ghost predicate AllSendable(ms: seq<Message>) { forall k: nat :: k < |ms| ==> Sendable(ms[k]) }

  ghost predicate HoldsAt(buf: seq<byte>, i: nat, m: Message) { i < |buf| && Decode(buf, i) == Some(m) }

  ghost predicate ParsesAs(buf: seq<byte>, i: nat, ms: seq<Message>) { i <= |buf| && Parse(buf, i) == Some(ms) }

  lemma ParseStep(buf: seq<byte>, i: nat, m: Message, rest: seq<Message>)
    requires HoldsAt(buf, i, m) && ParsesAs(buf, i + SizeOf(m), rest)
    ensures ParsesAs(buf, i, [m] + rest)
  {
  }

  lemma EncodedHolds(buf: seq<byte>, before: seq<byte>, m: Message, after: seq<byte>)
    requires Sendable(m) && buf == before + (Encode(m) + after)
    ensures HoldsAt(buf, |before|, m) && buf == (before + Encode(m)) + after
  {
    assert buf == before + Encode(m) + after;
    DecodeEncoded(before, m, after);
  }

  lemma {:induction false} ParseEncoded(buf: seq<byte>, before: seq<byte>, ms: seq<Message>)
    requires AllSendable(ms) && buf == before + EncodeAll(ms)
    ensures ParsesAs(buf, |before|, ms)
    decreases |ms|
  {
    if ms == [] {
      assert |buf| == |before|;
    } else {
      var m, rest := ms[0], ms[1..];
      assert Sendable(m);
      EncodedHolds(buf, before, m, EncodeAll(rest));
      ParseEncoded(buf, before + Encode(m), rest);
      ParseStep(buf, |before|, m, rest);
      assert [m] + rest == ms;
    }
  }

  /** Deaggregating a buffer gives back the messages that were aggregated into it, in order. */
  lemma BufferRoundTrip(ms: seq<Message>)
    requires AllSendable(ms)
    ensures Parse(EncodeAll(ms), 0) == Some(ms)
  {
    assert [] + EncodeAll(ms) == EncodeAll(ms);
    ParseEncoded(EncodeAll(ms), [], ms);
  }

  lemma {:induction false} EncodeAppend(ms: seq<Message>, m: Message)
    ensures EncodeAll(ms + [m]) == EncodeAll(ms) + Encode(m)
    decreases |ms|
  {
    if ms == [] {
      EncodeFirst(m, []);
      assert ms + [m] == [m] + [];
    } else {
      var rest := ms[1..];
      EncodeAppend(rest, m);
      EncodeFirst(ms[0], rest + [m]);
      EncodeFirst(ms[0], rest);
      assert ms + [m] == [ms[0]] + (rest + [m]) && ms == [ms[0]] + rest;
      assert Encode(ms[0]) + (EncodeAll(rest) + Encode(m)) == (Encode(ms[0]) + EncodeAll(rest)) + Encode(m);
    }
  }

  lemma EncodeFirst(m: Message, rest: seq<Message>)
    ensures EncodeAll([m] + rest) == Encode(m) + EncodeAll(rest)
  {
    assert ([m] + rest)[1..] == rest;
  }
}
