/** The 38-byte frame header, its packing and unpacking, and the associated data derived from it. */
module Envelope {
  import opened Bytes

  const HEADER_BYTES := 38
  const AAD_BYTES := 34
  const NONCE_BYTES := 12
  const HANDSHAKE := 1
  const DATA := 2

  datatype Lane = Control | Voice | Text | File

  datatype Context = Context(version: nat, outerType: nat, flags: nat, stream: nat, sequence: nat)
  datatype Frame = Frame(ctx: Context, counter: nat, nonce: Octets, payload: Octets, lane: Lane)

  /** The two profile fields the codec reads. Every profile has a one-byte version and a 32-bit frame limit. */
  datatype Limits = Limits(version: byte, maxFrame: nat)
  ghost predicate FitsWord(limits: Limits) { limits.maxFrame < 0x1_0000_0000 }

  datatype Error =
    | BadNonce | VersionMismatch | BadType | FrameTooLarge
    | FrameTooSmall | BadMagic | BadVersion | UnknownType | FlagsSet | BadHeaderLength | BadPayloadLength
  datatype Result<+T> = Ok(value: T) | Err(error: Error)

  /** The bytes of a header up to and including the nonce. */
  function Prefix(ctx: Context, counter: nat, nonce: Octets): (s: Octets)
    ensures |s| == 22 + |nonce|
  {
    [0x4f, 0x54, ctx.version % 256, ctx.outerType % 256, ctx.flags % 256, HEADER_BYTES]
    + ToBigEndian(ctx.stream, 4) + ToBigEndian(ctx.sequence, 4) + ToBigEndian(counter, 8) + nonce
  }

  function EncodeAad(ctx: Context, counter: nat, nonce: Octets): (r: Result<Octets>)
    ensures r.Ok? ==> |r.value| == AAD_BYTES
  {
    if |nonce| != NONCE_BYTES then Err(BadNonce) else Ok(Prefix(ctx, counter, nonce))
  }

  /** The context either side builds: the version comes from the local profile, the rest from the frame. */
  function AadContext(ctx: Context, limits: Limits): (r: Context)
  {
    ctx.(version := limits.version)
  }

  function Pack(f: Frame, limits: Limits): (r: Result<Octets>)
  {
    if |f.nonce| != NONCE_BYTES then Err(BadNonce)
    else if f.ctx.version != limits.version then Err(VersionMismatch)
    else if f.ctx.outerType != HANDSHAKE && f.ctx.outerType != DATA then Err(BadType)
    else if HEADER_BYTES + |f.payload| > limits.maxFrame then Err(FrameTooLarge)
    else Ok(Prefix(f.ctx, f.counter, f.nonce) + ToBigEndian(|f.payload|, 4) + f.payload)
  }

  function Unpack(b: Octets, limits: Limits): (r: Result<Frame>)
  {
    if |b| < HEADER_BYTES then Err(FrameTooSmall)
    else if |b| > limits.maxFrame then Err(FrameTooLarge)
    else if b[0] != 0x4f || b[1] != 0x54 then Err(BadMagic)
    else if b[2] != limits.version then Err(BadVersion)
    else if b[3] != HANDSHAKE && b[3] != DATA then Err(UnknownType)
    else if b[4] != 0 then Err(FlagsSet)
    else if b[5] != HEADER_BYTES then Err(BadHeaderLength)
    else if FromBigEndian(b[34..38]) + HEADER_BYTES != |b| then Err(BadPayloadLength)
    else Ok(Frame(Context(b[2], b[3], b[4], FromBigEndian(b[6..10]), FromBigEndian(b[10..14])),
                  FromBigEndian(b[14..22]), b[22..34], b[38..],
                  if b[3] == HANDSHAKE then Control else Text))
  }

  /** What the wire can carry of a frame: fields modulo their widths, and the lane guessed from the type. */
  function OnWire(f: Frame): (r: Frame)
  {
    f.(ctx := f.ctx.(stream := f.ctx.stream % 0x1_0000_0000, sequence := f.ctx.sequence % 0x1_0000_0000,
                     flags := f.ctx.flags % 256),
       counter := f.counter % 0x1_0000_0000_0000_0000,
       lane := if f.ctx.outerType == HANDSHAKE then Control else Text)
  }

  lemma Widths()
    ensures Pow256(4) == 0x1_0000_0000 && Pow256(8) == 0x1_0000_0000_0000_0000
  {
    assert Pow256(2) == 0x1_0000;
    assert Pow256(4) == 256 * (256 * Pow256(2));
    assert Pow256(6) == 256 * (256 * Pow256(4));
    assert Pow256(8) == 256 * (256 * Pow256(6));
  }

  lemma PackedFields(f: Frame, limits: Limits)
    requires Pack(f, limits).Ok?
    ensures var b := Pack(f, limits).value;
            && |b| == HEADER_BYTES + |f.payload| <= limits.maxFrame
            && b[..6] == [0x4f, 0x54, limits.version, f.ctx.outerType, f.ctx.flags % 256, HEADER_BYTES]
            && b[6..10] == ToBigEndian(f.ctx.stream, 4) && b[10..14] == ToBigEndian(f.ctx.sequence, 4)
            && b[14..22] == ToBigEndian(f.counter, 8) && b[22..34] == f.nonce
            && b[34..38] == ToBigEndian(|f.payload|, 4) && b[38..] == f.payload
  {}

  /** Unpacking a packed frame gives its wire image, and fails exactly when a flag bit is set. */
  lemma UnpackAfterPack(f: Frame, limits: Limits)
    requires FitsWord(limits) && Pack(f, limits).Ok?
    ensures Unpack(Pack(f, limits).value, limits) == (if f.ctx.flags % 256 != 0 then Err(FlagsSet) else Ok(OnWire(f)))
  {
    PackedFields(f, limits);
    PackedNumbers(f, limits);
    UnpackFields(Pack(f, limits).value, limits, f.ctx.outerType, f.ctx.flags % 256);
  }

  /** The numbers in a packed frame read back modulo their widths. */
  lemma PackedNumbers(f: Frame, limits: Limits)
    requires FitsWord(limits) && Pack(f, limits).Ok?
    ensures var b := Pack(f, limits).value;
      && |b| >= HEADER_BYTES
      && FromBigEndian(b[6..10]) == f.ctx.stream % 0x1_0000_0000 && FromBigEndian(b[10..14]) == f.ctx.sequence % 0x1_0000_0000
      && FromBigEndian(b[14..22]) == f.counter % 0x1_0000_0000_0000_0000 && FromBigEndian(b[34..38]) == |f.payload|
  {
    PackedFields(f, limits);
    Widths();
    ReadAfterWrite(f.ctx.stream, 4);
    ReadAfterWrite(f.ctx.sequence, 4);
    ReadAfterWrite(f.counter, 8);
    ReadAfterWrite(|f.payload|, 4);
  }

  lemma UnpackFields(b: Octets, limits: Limits, t: byte, flags: byte)
    requires HEADER_BYTES <= |b| <= limits.maxFrame && (t == HANDSHAKE || t == DATA)
    requires b[..6] == [0x4f, 0x54, limits.version, t, flags, HEADER_BYTES] && FromBigEndian(b[34..38]) + HEADER_BYTES == |b|
    ensures Unpack(b, limits) == if flags != 0 then Err(FlagsSet) else
      Ok(Frame(Context(limits.version, t, 0, FromBigEndian(b[6..10]), FromBigEndian(b[10..14])),
               FromBigEndian(b[14..22]), b[22..34], b[38..], if t == HANDSHAKE then Control else Text))
  {
    assert b[0] == b[..6][0] && b[1] == b[..6][1] && b[2] == b[..6][2];
    assert b[3] == b[..6][3] && b[4] == b[..6][4] && b[5] == b[..6][5];
  }

  /** Packing an unpacked frame restores the very bytes that arrived. */
  lemma PackAfterUnpack(b: Octets, limits: Limits)
    requires FitsWord(limits) && Unpack(b, limits).Ok?
    ensures Pack(Unpack(b, limits).value, limits) == Ok(b)
  {
    var f := Unpack(b, limits).value;
    WriteAfterRead(b[6..10]);
    WriteAfterRead(b[10..14]);
    WriteAfterRead(b[14..22]);
    WriteAfterRead(b[34..38]);
    assert b[..6] == [0x4f, 0x54, f.ctx.version % 256, f.ctx.outerType % 256, f.ctx.flags % 256, HEADER_BYTES];
    assert Prefix(f.ctx, f.counter, f.nonce) == b[..34];
    assert |f.payload| == FromBigEndian(b[34..38]);
    assert b == b[..34] + b[34..38] + b[38..];
  }

  /** The associated data is the first 34 bytes of the frame, for the sender and again for the receiver. */
  lemma AadIsHeaderPrefix(f: Frame, limits: Limits)
    requires FitsWord(limits) && Pack(f, limits).Ok? && f.ctx.flags == 0
    ensures EncodeAad(AadContext(f.ctx, limits), f.counter, f.nonce) == Ok(Pack(f, limits).value[..AAD_BYTES])
    ensures var g := Unpack(Pack(f, limits).value, limits);
            && g.Ok?
            && EncodeAad(AadContext(g.value.ctx, limits), g.value.counter, g.value.nonce)
            == EncodeAad(AadContext(f.ctx, limits), f.counter, f.nonce)
  {
    var b := Pack(f, limits).value;
    UnpackAfterPack(f, limits);
    var g := OnWire(f);
    PackAfterUnpack(b, limits);
    assert Prefix(f.ctx, f.counter, f.nonce) == b[..AAD_BYTES];
    assert Prefix(g.ctx, g.counter, g.nonce) == b[..AAD_BYTES];
  }

  method PutField(out: array<byte>, at: nat, v: nat, n: nat)
    requires at + n <= out.Length
    modifies out
    ensures out[..at + n] == old(out[..at]) + ToBigEndian(v, n)
    ensures out[at + n..] == old(out[at + n..])
  {
    var rest, i := v, n;
    while i > 0
      invariant 0 <= i <= n
      invariant out[..at + i] == old(out[..at + i])
      invariant ToBigEndian(rest, i) + out[at + i..at + n] == ToBigEndian(v, n)
      invariant out[at + n..] == old(out[at + n..])
    {
      ghost var before := out[at + i..at + n];
      i := i - 1;
      out[at + i] := rest % 256;
      assert out[at + i..at + n] == [rest % 256] + before;
      assert ToBigEndian(rest, i + 1) + before == ToBigEndian(rest / 256, i) + ([rest % 256] + before);
      rest := rest / 256;
    }
    assert out[..at + n] == out[..at] + out[at..at + n];
  }

  method PutBytes(out: array<byte>, at: nat, s: Octets)
    requires at + |s| <= out.Length
    modifies out
    ensures out[..at + |s|] == old(out[..at]) + s
    ensures out[at + |s|..] == old(out[at + |s|..])
  {
    for i := 0 to |s|
      invariant out[..at] == old(out[..at])
      invariant out[at..at + i] == s[..i]
      invariant out[at + i..] == old(out[at + i..])
    {
      out[at + i] := s[i];
    }
    assert out[..at + |s|] == out[..at] + out[at..at + |s|];
  }

  /** Filling the frame buffer field by field produces the packed bytes. */
  method PackEnvelope(f: Frame, limits: Limits) returns (r: Result<array<byte>>)
    ensures r.Err? <==> Pack(f, limits).Err?
    ensures r.Err? ==> r.error == Pack(f, limits).error
    ensures r.Ok? ==> r.value[..] == Pack(f, limits).value
  {
    if |f.nonce| != NONCE_BYTES { return Err(BadNonce); }
    if f.ctx.version != limits.version { return Err(VersionMismatch); }
    if f.ctx.outerType != HANDSHAKE && f.ctx.outerType != DATA { return Err(BadType); }
    var total := HEADER_BYTES + |f.payload|;
    if total > limits.maxFrame { return Err(FrameTooLarge); }
    var out := new byte[total];
    var fixed: Octets := [0x4f, 0x54, limits.version, f.ctx.outerType, f.ctx.flags % 256, HEADER_BYTES];
    PutBytes(out, 0, fixed);
    PutField(out, 6, f.ctx.stream, 4);
    PutField(out, 10, f.ctx.sequence, 4);
    PutField(out, 14, f.counter, 8);
    PutBytes(out, 22, f.nonce);
    assert out[..34] == Prefix(f.ctx, f.counter, f.nonce);
    PutField(out, 34, |f.payload|, 4);
    PutBytes(out, HEADER_BYTES, f.payload);
    assert out[..] == out[..total];
    return Ok(out);
  }
}
