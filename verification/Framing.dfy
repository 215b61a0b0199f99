/** WebSocket framing as the relay speaks it: sections 5.2, 5.3 and 5.5 of RFC 6455, without fragmentation. */
module Framing {
  import opened Bytes

  const TEXT := 1
  const BINARY := 2
  const CLOSE := 8
  const PING := 9
  const PONG := 10
  const MAX_INT := 0x7fff_ffff_ffff_ffff

  predicate ValidOpcode(op: nat) { op == TEXT || op == BINARY || op == CLOSE || op == PING || op == PONG }

  function Masked(payload: Octets, mask: Octets): (r: Octets)
    requires |mask| == 4
    ensures |r| == |payload|
  {
    seq(|payload|, i requires 0 <= i < |payload| => Xor(payload[i], mask[i % 4]))
  }

  // ---- reading -------------------------------------------------------------

  datatype Error = Short | ReservedBits | Unmasked | BadOpcode | Fragmented | BadLength | ControlTooLarge | BadClose | TooLarge
  datatype Read = Frame(opcode: nat, payload: Octets, rest: Octets) | Failed(error: Error)

  datatype Length = Length(value: nat, rest: Octets) | NoLength(error: Error)

  /** The payload length, from the seven bits of the second byte and the extension that may follow it. */
  function ReadLength(seven: nat, b: Octets): (r: Length)
  {
    if seven == 126 then
      if |b| < 2 then NoLength(Short) else Length(FromBigEndian(b[..2]), b[2..])
    else if seven == 127 then
      if |b| < 8 then NoLength(Short)
      else if FromBigEndian(b[..8]) > MAX_INT then NoLength(BadLength)
      else Length(FromBigEndian(b[..8]), b[8..])
    else Length(seven, b)
  }

  function ReadPayload(op: nat, n: nat, b: Octets): (r: Read)
  {
    if |b| < 4 then Failed(Short)
    else if |b| - 4 < n then Failed(Short)
    else Frame(op, Masked(b[4..4 + n], b[..4]), b[4 + n..])
  }

  function ReadFrame(b: Octets, limit: nat): (r: Read)
  {
    if |b| < 2 then Failed(Short)
    else if b[0] / 16 % 8 != 0 then Failed(ReservedBits)
    else if b[1] < 128 then Failed(Unmasked)
    else if !ValidOpcode(b[0] % 16) then Failed(BadOpcode)
    else if b[0] < 128 then Failed(Fragmented)
    else
      match ReadLength(b[1] % 128, b[2..])
      case NoLength(e) => Failed(e)
      case Length(n, rest) =>
        if b[0] % 16 >= CLOSE && n > 125 then Failed(ControlTooLarge)
        else if b[0] % 16 == CLOSE && n == 1 then Failed(BadClose)
        else if (limit > 0 && n > limit) || n > MAX_INT then Failed(TooLarge)
        else ReadPayload(b[0] % 16, n, rest)
  }

  // ---- what a client may send ----------------------------------------------

  datatype Form = Seven | Sixteen | SixtyFour
  datatype Sent = Sent(opcode: nat, form: Form, mask: Octets, payload: Octets)

  /** A masked, unfragmented frame that the relay takes: any of the length forms that can hold its length. */
  predicate Acceptable(f: Sent, limit: nat)
  {
    && ValidOpcode(f.opcode) && |f.mask| == 4
    && |f.payload| <= (match f.form case Seven => 125 case Sixteen => 0xffff case SixtyFour => MAX_INT)
    && (f.opcode >= CLOSE ==> |f.payload| <= 125) && (f.opcode == CLOSE ==> |f.payload| != 1)
    && (limit > 0 ==> |f.payload| <= limit)
  }

  function LengthField(form: Form, n: nat, high: nat): (b: Octets)
    requires form == Seven ==> n <= 125
    requires high == 0 || high == 128
  {
    match form
    case Seven => [high + n]
    case Sixteen => [high + 126] + ToBigEndian(n, 2)
    case SixtyFour => [high + 127] + ToBigEndian(n, 8)
  }

  function Encode(f: Sent, limit: nat): (b: Octets)
    requires Acceptable(f, limit)
  {
    [128 + f.opcode] + LengthField(f.form, |f.payload|, 128) + f.mask + Masked(f.payload, f.mask)
  }

  lemma MaskTwice(p: Octets, mask: Octets)
    requires |mask| == 4
    ensures Masked(Masked(p, mask), mask) == p
  {
    forall i | 0 <= i < |p|
      ensures Masked(Masked(p, mask), mask)[i] == p[i]
    {
      XorCancels(p[i], mask[i % 4]);
    }
  }

  lemma FieldWidths()
    ensures Pow256(2) == 0x1_0000 && Pow256(8) == 0x1_0000_0000_0000_0000
  {
    assert Pow256(2) == 256 * 256;
    assert Pow256(4) == 256 * (256 * Pow256(2));
    assert Pow256(6) == 256 * (256 * Pow256(4));
    assert Pow256(8) == 256 * (256 * Pow256(6));
  }

  lemma ReadBackExtension(lead: byte, n: nat, w: nat, tail: Octets)
    requires (lead % 128 == 126 && w == 2 && n <= 0xffff) || (lead % 128 == 127 && w == 8 && n <= MAX_INT)
    ensures ReadLength(lead % 128, ToBigEndian(n, w) + tail) == Length(n, tail)
  {
    FieldWidths();
    ReadAfterWrite(n, w);
    var b := ToBigEndian(n, w) + tail;
    assert b[..w] == ToBigEndian(n, w) && b[w..] == tail;
  }

  lemma ReadBackLength(form: Form, n: nat, high: nat, tail: Octets)
    requires n <= (match form case Seven => 125 case Sixteen => 0xffff case SixtyFour => MAX_INT)
    requires high == 0 || high == 128
    ensures var b := LengthField(form, n, high) + tail; b[0] / 128 * 128 == high && ReadLength(b[0] % 128, b[1..]) == Length(n, tail)
  {
    var b := LengthField(form, n, high) + tail;
    match form
    case Seven =>
      assert b[1..] == tail;
    case Sixteen =>
      ReadBackExtension(high + 126, n, 2, tail);
      assert b[1..] == ToBigEndian(n, 2) + tail;
    case SixtyFour =>
      ReadBackExtension(high + 127, n, 8, tail);
      assert b[1..] == ToBigEndian(n, 8) + tail;
  }

  lemma ReadBackPayload(op: nat, mask: Octets, payload: Octets, rest: Octets)
    requires |mask| == 4
    ensures ReadPayload(op, |payload|, mask + Masked(payload, mask) + rest) == Frame(op, payload, rest)
  {
    var m := Masked(payload, mask);
    var b := mask + m + rest;
    assert b[..4] == mask && b[4..4 + |payload|] == m && b[4 + |payload|..] == rest;
    MaskTwice(payload, mask);
  }

  /** An acceptable frame is read back exactly, and reading stops at its last byte whatever follows. */
  lemma ReadsBack(f: Sent, limit: nat, rest: Octets)
    requires Acceptable(f, limit)
    ensures ReadFrame(Encode(f, limit) + rest, limit) == Frame(f.opcode, f.payload, rest)
  {
    var tail := f.mask + Masked(f.payload, f.mask) + rest;
    var field := LengthField(f.form, |f.payload|, 128);
    ReadBackLength(f.form, |f.payload|, 128, tail);
    ReadBackPayload(f.opcode, f.mask, f.payload, rest);
    Regroup([128 + f.opcode], field, f.mask, Masked(f.payload, f.mask), rest);
    ReadsFields(f, limit, field + tail, tail);
  }

  lemma Regroup(a: Octets, b: Octets, c: Octets, d: Octets, e: Octets)
    ensures a + b + c + d + e == a + (b + (c + d + e))
  {}

  /** A frame whose length field has been read: what is left is the payload. */
  lemma ReadsFields(f: Sent, limit: nat, b: Octets, tail: Octets)
    requires Acceptable(f, limit) && |b| >= 1 && b[0] >= 128 && ReadLength(b[0] % 128, b[1..]) == Length(|f.payload|, tail)
    ensures ReadFrame([128 + f.opcode] + b, limit) == ReadPayload(f.opcode, |f.payload|, tail)
  {
    var w := [128 + f.opcode] + b;
    assert w[1] == b[0] && w[2..] == b[1..];
  }

  // ---- a whole connection --------------------------------------------------

  datatype Happening = Message(opcode: nat, payload: Octets) | PongSent(payload: Octets) | PongSeen(payload: Octets)
  datatype Ending = Closed(rest: Octets) | Broken(error: Error)

  lemma FrameIsShorter(b: Octets, limit: nat)
    ensures ReadFrame(b, limit).Frame? ==> |ReadFrame(b, limit).rest| < |b| && |ReadFrame(b, limit).payload| <= MAX_INT
  {}

  /** What ReadMessage hands out and answers, call after call, until the connection closes or breaks. */
  function Converse(b: Octets, limit: nat): (r: (seq<Happening>, Ending))
    decreases |b|
  {
    match ReadFrame(b, limit)
    case Failed(e) => ([], Broken(e))
    case Frame(op, payload, rest) =>
      FrameIsShorter(b, limit);
      if op == CLOSE then ([], Closed(rest))
      else
        var (more, ending) := Converse(rest, limit);
        ([if op == PING then PongSent(payload) else if op == PONG then PongSeen(payload) else Message(op, payload)] + more, ending)
  }

  ghost predicate AllAcceptable(fs: seq<Sent>, limit: nat) { forall i :: 0 <= i < |fs| ==> Acceptable(fs[i], limit) }

  function EncodeAll(fs: seq<Sent>, limit: nat): (b: Octets)
    requires AllAcceptable(fs, limit)
  {
    if |fs| == 0 then [] else Encode(fs[0], limit) + EncodeAll(fs[1..], limit)
  }

  function Answer(f: Sent): (h: Happening)
  {
    if f.opcode == PING then PongSent(f.payload)
    else if f.opcode == PONG then PongSeen(f.payload)
    else Message(f.opcode, f.payload)
  }

  /** What ought to happen: every frame before the first close frame is answered in order. */
  function Expected(fs: seq<Sent>): (hs: seq<Happening>)
  {
    if |fs| == 0 || fs[0].opcode == CLOSE then [] else [Answer(fs[0])] + Expected(fs[1..])
  }

  predicate HasClose(fs: seq<Sent>) { |fs| > 0 && (fs[0].opcode == CLOSE || HasClose(fs[1..])) }

  /** The frames after the first close frame. */
  function AfterClose(fs: seq<Sent>): (r: seq<Sent>)
  {
    if |fs| == 0 then [] else if fs[0].opcode == CLOSE then fs[1..] else AfterClose(fs[1..])
  }

  /** What the frames should lead to when `last` is what the bytes after them lead to. */
  function Outcome(fs: seq<Sent>, limit: nat, rest: Octets, last: (seq<Happening>, Ending)): (r: (seq<Happening>, Ending))
    requires AllAcceptable(fs, limit)
  {
    if |fs| == 0 then last
    else if fs[0].opcode == CLOSE then ([], Closed(EncodeAll(fs[1..], limit) + rest))
    else
      var more := Outcome(fs[1..], limit, rest, last);
      ([Answer(fs[0])] + more.0, more.1)
  }

  lemma {:induction false} OutcomeMeans(fs: seq<Sent>, limit: nat, rest: Octets, last: (seq<Happening>, Ending))
    requires AllAcceptable(fs, limit)
    ensures AllAcceptable(AfterClose(fs), limit)
    ensures Outcome(fs, limit, rest, last) ==
      if HasClose(fs) then (Expected(fs), Closed(EncodeAll(AfterClose(fs), limit) + rest)) else (Expected(fs) + last.0, last.1)
  {
    if |fs| == 0 {
      assert [] + last.0 == last.0;
    } else if fs[0].opcode != CLOSE {
      OutcomeMeans(fs[1..], limit, rest, last);
      assert [Answer(fs[0])] + Expected(fs[1..]) + last.0 == [Answer(fs[0])] + (Expected(fs[1..]) + last.0);
    }
  }

  lemma {:induction false} ConverseIsOutcome(fs: seq<Sent>, limit: nat, rest: Octets)
    requires AllAcceptable(fs, limit)
    ensures Converse(EncodeAll(fs, limit) + rest, limit) == Outcome(fs, limit, rest, Converse(rest, limit))
  {
    if |fs| == 0 {
      assert EncodeAll(fs, limit) + rest == rest;
    } else {
      ConverseIsOutcome(fs[1..], limit, rest);
      ParsesOne(fs[0], limit, EncodeAll(fs[1..], limit) + rest);
      assert EncodeAll(fs, limit) + rest == Encode(fs[0], limit) + (EncodeAll(fs[1..], limit) + rest);
    }
  }

  /**
    * Any concatenation of acceptable frames, followed by any bytes, is parsed without misalignment: the data payloads in
    * order, one echoing pong for each ping, up to the first close frame or, without one, exactly to the bytes that follow.
    */
  lemma ParsesConcatenation(fs: seq<Sent>, limit: nat, rest: Octets)
    requires AllAcceptable(fs, limit)
    ensures AllAcceptable(AfterClose(fs), limit)
    ensures var (hs, end) := Converse(EncodeAll(fs, limit) + rest, limit);
      if HasClose(fs) then hs == Expected(fs) && end == Closed(EncodeAll(AfterClose(fs), limit) + rest)
      else hs == Expected(fs) + Converse(rest, limit).0 && end == Converse(rest, limit).1
  {
    ConverseIsOutcome(fs, limit, rest);
    OutcomeMeans(fs, limit, rest, Converse(rest, limit));
  }

  lemma ParsesOne(f: Sent, limit: nat, tail: Octets)
    requires Acceptable(f, limit)
    ensures Converse(Encode(f, limit) + tail, limit) ==
      if f.opcode == CLOSE then ([], Closed(tail)) else ([Answer(f)] + Converse(tail, limit).0, Converse(tail, limit).1)
  {
    ReadsBack(f, limit, tail);
  }

  // ---- writing -------------------------------------------------------------

  function FormFor(n: nat): (f: Form) { if n < 126 then Seven else if n <= 0xffff then Sixteen else SixtyFour }

  /** The header the relay writes; its frames are final and unmasked. */
  function Header(op: nat, n: nat): (b: Octets)
  {
    [128 + op % 16] + LengthField(FormFor(n), n, 0)
  }

  /** The written header reads back to the opcode and the length, for every payload length a slice can have. */
  lemma HeaderReadsBack(op: nat, n: nat, payload: Octets)
    requires op < 16 && n <= MAX_INT
    ensures var b := Header(op, n) + payload;
      b[0] % 16 == op && b[0] >= 128 && b[1] < 128 && ReadLength(b[1] % 128, b[2..]) == Length(n, payload)
    ensures |Header(op, n)| == if n < 126 then 2 else if n <= 0xffff then 4 else 10
  {
    ReadBackLength(FormFor(n), n, 0, payload);
    var field := LengthField(FormFor(n), n, 0);
    var b := Header(op, n) + payload;
    assert b[1..] == field + payload && b[2..] == (field + payload)[1..];
  }
}
