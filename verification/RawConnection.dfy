/** The relay's end of a WebSocket connection: a byte stream consumed in place, and frames written to the other side. */
module RawConnection {
  import opened Bytes
  import Envelope
  import opened Framing

  datatype Result = Data(opcode: nat, payload: Octets) | End(ending: Ending)

  /** One ReadMessage call: the control frames it handles on the way, its result, and the bytes it leaves. */
  datatype Call = Call(handled: seq<Happening>, result: Result, rest: Octets)

  function Control(op: nat, payload: Octets): (h: Happening) { if op == PING then PongSent(payload) else PongSeen(payload) }

  function NextMessage(b: Octets, limit: nat): (c: Call)
    decreases |b|
  {
    match ReadFrame(b, limit)
    case Failed(e) => Call([], End(Broken(e)), b)
    case Frame(op, payload, rest) =>
      FrameIsShorter(b, limit);
      if op == CLOSE then Call([], End(Closed(rest)), rest)
      else if op == PING || op == PONG then
        var c := NextMessage(rest, limit);
        c.(handled := [Control(op, payload)] + c.handled)
      else Call([], Data(op, payload), rest)
  }

  lemma ControlThenMore(b: Octets, limit: nat, op: nat, payload: Octets, rest: Octets)
    requires ReadFrame(b, limit) == Frame(op, payload, rest) && (op == PING || op == PONG)
    ensures NextMessage(b, limit) == NextMessage(rest, limit).(handled := [Control(op, payload)] + NextMessage(rest, limit).handled)
    ensures Converse(b, limit) == ([Control(op, payload)] + Converse(rest, limit).0, Converse(rest, limit).1)
  {}

  /** A conversation that is what one call saw and then the rest of it. */
  ghost predicate BeginsWith(whole: (seq<Happening>, Ending), c: Call, more: (seq<Happening>, Ending))
  {
    match c.result
    case Data(op, payload) => whole == (c.handled + ([Message(op, payload)] + more.0), more.1)
    case End(ending) => whole == (c.handled, ending)
  }

  lemma HandledFirst(h: Happening, whole: (seq<Happening>, Ending), c: Call, more: (seq<Happening>, Ending))
    requires BeginsWith(whole, c, more)
    ensures BeginsWith(([h] + whole.0, whole.1), c.(handled := [h] + c.handled), more)
  {
    if c.result.Data? {
      Prepend([h], c.handled, [Message(c.result.opcode, c.result.payload)] + more.0);
    }
  }

  lemma MessageAtOnce(b: Octets, limit: nat)
    requires ReadFrame(b, limit).Frame? && ReadFrame(b, limit).opcode != PING && ReadFrame(b, limit).opcode != PONG
    ensures var c := NextMessage(b, limit);
      BeginsWith(Converse(b, limit), c, Converse(c.rest, limit)) && (c.result.Data? ==> |c.rest| < |b|)
    ensures var f := ReadFrame(b, limit);
      NextMessage(b, limit) == Call([], if f.opcode == CLOSE then End(Closed(f.rest)) else Data(f.opcode, f.payload), f.rest)
  {
    var f := ReadFrame(b, limit);
    FrameIsShorter(b, limit);
    var more := Converse(f.rest, limit);
    assert [] + ([Message(f.opcode, f.payload)] + more.0) == [Message(f.opcode, f.payload)] + more.0;
  }

  /** The conversation is one call after another. */
  lemma {:induction false} ConversationByCalls(b: Octets, limit: nat)
    ensures var c := NextMessage(b, limit);
      BeginsWith(Converse(b, limit), c, Converse(c.rest, limit)) && (c.result.Data? ==> |c.rest| < |b|)
    decreases |b|
  {
    var r := ReadFrame(b, limit);
    FrameIsShorter(b, limit);
    if r.Frame? {
      if r.opcode == PING || r.opcode == PONG {
        ControlThenMore(b, limit, r.opcode, r.payload, r.rest);
        ConversationByCalls(r.rest, limit);
        var c := NextMessage(r.rest, limit);
        HandledFirst(Control(r.opcode, r.payload), Converse(r.rest, limit), c, Converse(c.rest, limit));
      } else {
        MessageAtOnce(b, limit);
      }
    }
  }

  lemma Prepend(a: seq<Happening>, b: seq<Happening>, c: seq<Happening>)
    ensures a + (b + c) == (a + b) + c
  {}

  /** The frame written in answer to a control frame: a pong for a ping. */
  function AnswerTo(h: Happening): (b: Octets)
  {
    if h.PongSent? then Header(PONG, |h.payload|) + h.payload else []
  }

  function Answers(hs: seq<Happening>): (b: Octets)
  {
    if |hs| == 0 then [] else AnswerTo(hs[0]) + Answers(hs[1..])
  }

  lemma AnswersCons(out: Octets, h: Happening, hs: seq<Happening>)
    ensures out + Answers([h] + hs) == out + AnswerTo(h) + Answers(hs)
  {
    assert ([h] + hs)[1..] == hs;
  }

  /** Unmasking in place. */
  method Unmask(payload: array<byte>, mask: Octets)
    requires |mask| == 4
    modifies payload
    ensures payload[..] == Masked(old(payload[..]), mask)
  {
    for i := 0 to payload.Length
      invariant forall j :: 0 <= j < i ==> payload[j] == Xor(old(payload[j]), mask[j % 4])
      invariant forall j :: i <= j < payload.Length ==> payload[j] == old(payload[j])
    {
      payload[i] := Xor(payload[i], mask[i % 4]);
    }
  }

  /** Fills the ten-byte header buffer and tells how much of it to write. */
  method FillHeader(header: array<byte>, op: nat, n: nat) returns (used: nat)
    requires header.Length == 10 && n <= MAX_INT
    modifies header
    ensures used <= 10 && header[..used] == Header(op, n)
  {
    header[0] := 128 + op % 16;
    if n < 126 {
      header[1] := n;
      used := 2;
    } else if n <= 0xffff {
      header[1] := 126;
      Envelope.PutField(header, 2, n, 2);
      used := 4;
    } else {
      header[1] := 127;
      Envelope.PutField(header, 2, n, 8);
      used := 10;
    }
  }

  class RawConn {
    const limit: nat
    var incoming: Octets
    var outgoing: Octets

    method WriteMessage(op: nat, payload: Octets)
      requires |payload| <= MAX_INT
      modifies this`outgoing
      ensures outgoing == old(outgoing) + Header(op, |payload|) + payload
    {
      var header := new byte[10];
      var used := FillHeader(header, op, |payload|);
      outgoing := outgoing + header[..used];
      outgoing := outgoing + payload;
    }

    /** The part of readFrame after the length: mask and payload, unmasked in its own buffer. */
    method TakePayload(op: nat, n: nat) returns (r: Read)
      modifies this`incoming
      ensures r == ReadPayload(op, n, old(incoming)) && (r.Frame? ==> incoming == r.rest)
    {
      if |incoming| < 4 { return Failed(Short); }
      var mask := incoming[..4];
      incoming := incoming[4..];
      if |incoming| < n { return Failed(Short); }
      var payload := new byte[n](i requires 0 <= i < n && n <= |incoming| reads this => incoming[i]);
      assert payload[..] == old(incoming)[4..4 + n];
      Unmask(payload, mask);
      incoming := incoming[n..];
      assert incoming == old(incoming)[4 + n..];
      return Frame(op, payload[..], incoming);
    }

    /** Reads one frame off the stream. */
    method TakeFrame() returns (r: Read)
      modifies this`incoming
      ensures r == ReadFrame(old(incoming), limit) && (r.Frame? ==> incoming == r.rest)
    {
      if |incoming| < 2 { return Failed(Short); }
      var first: int, second: int := incoming[0], incoming[1];
      incoming := incoming[2..];
      if first / 16 % 8 != 0 { return Failed(ReservedBits); }
      if second < 128 { return Failed(Unmasked); }
      var op := first % 16;
      if !ValidOpcode(op) { return Failed(BadOpcode); }
      if first < 128 { return Failed(Fragmented); }
      match ReadLength(second % 128, incoming) {
        case NoLength(e) => return Failed(e);
        case Length(n, rest) =>
          incoming := rest;
          if op >= CLOSE && n > 125 { return Failed(ControlTooLarge); }
          if op == CLOSE && n == 1 { return Failed(BadClose); }
          if (limit > 0 && n > limit) || n > MAX_INT { return Failed(TooLarge); }
          r := TakePayload(op, n);
      }
    }

    /** Answers pings and notes pongs until a message, a close frame or an error comes. */
    method ReadMessage() returns (r: Result)
      modifies this
      ensures var c := NextMessage(old(incoming), limit);
              r == c.result && outgoing == old(outgoing) + Answers(c.handled) && (r.Data? ==> incoming == c.rest)
    {
      ghost var all := NextMessage(incoming, limit);
      while true
        invariant var d := NextMessage(incoming, limit);
          all.result == d.result && all.rest == d.rest && old(outgoing) + Answers(all.handled) == outgoing + Answers(d.handled)
        decreases |incoming|
      {
        ghost var b := incoming;
        FrameIsShorter(b, limit);
        var f := TakeFrame();
        if f.Failed? {
          assert outgoing + Answers([]) == outgoing;
          return End(Broken(f.error));
        }
        if f.opcode == PING || f.opcode == PONG {
          ControlThenMore(b, limit, f.opcode, f.payload, f.rest);
          AnswersCons(outgoing, Control(f.opcode, f.payload), NextMessage(f.rest, limit).handled);
          Reply(f.opcode, f.payload);
        } else {
          MessageAtOnce(b, limit);
          assert outgoing + Answers([]) == outgoing;
          return if f.opcode == CLOSE then End(Closed(f.rest)) else Data(f.opcode, f.payload);
        }
      }
    }

    method Reply(op: nat, payload: Octets)
      requires |payload| <= MAX_INT
      modifies this`outgoing
      ensures outgoing == old(outgoing) + AnswerTo(Control(op, payload))
    {
      if op == PING {
        WriteMessage(PONG, payload);
        assert outgoing == old(outgoing) + (Header(PONG, |payload|) + payload);
      }
    }
  }
}
