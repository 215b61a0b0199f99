/** Length-hiding padding to the profile's buckets, and the proof that every bounded message fits one. */
module Padding {
  import opened Bytes
  import opened Envelope
  import Base64Url
  import opened Profiles

  /** A bucket list as the worker keeps it: 32-bit sizes large enough for the length field. */
  ghost predicate ValidBuckets(buckets: seq<nat>)
  {
    forall i :: 0 <= i < |buckets| ==> 1024 <= buckets[i] < 0x1_0000_0000
  }

  /** The first bucket in ascending order that holds the payload and its four-byte length. */
  function SelectBucket(buckets: seq<nat>, actual: nat): (r: Option<nat>)
    ensures r.Some? ==> r.value in buckets && actual + 4 <= r.value
    ensures forall b :: b in buckets && actual + 4 <= b ==> r.Some? && r.value <= b
  {
    if |buckets| == 0 then None else
    assert buckets == [buckets[0]] + buckets[1..];
    var rest := SelectBucket(buckets[1..], actual);
    if actual + 4 <= buckets[0] && (rest.None? || buckets[0] <= rest.value) then Some(buckets[0]) else rest
  }

  /** `noise` stands for the random bytes the buffer is filled with before the length and payload are written. */
  function Pad(buckets: seq<nat>, actual: Octets, noise: Octets): (r: Option<Octets>)
  {
    match SelectBucket(buckets, |actual|)
    case None => None
    case Some(size) =>
      var fill := size - 4 - |actual|;
      Some(ToBigEndian(|actual|, 4) + actual + seq(fill, i => if 0 <= i < |noise| then noise[i] else 0))
  }

  function Parse(buckets: seq<nat>, padded: Octets): (r: Option<Octets>)
  {
    if |padded| !in buckets || |padded| < 4 then None else
    var length := FromBigEndian(padded[..4]);
    if length > |padded| - 4 then None else Some(padded[4..4 + length])
  }

  /** Padding fails exactly when no bucket fits; otherwise its size is the least that does and parsing undoes it. */
  lemma ParseInvertsPad(buckets: seq<nat>, actual: Octets, noise: Octets)
    requires ValidBuckets(buckets)
    ensures Pad(buckets, actual, noise).None? <==> (forall b :: b in buckets ==> b < |actual| + 4)
    ensures var p := Pad(buckets, actual, noise);
            p.Some? ==>
              && |p.value| in buckets
              && (forall b :: b in buckets && |actual| + 4 <= b ==> |p.value| <= b)
              && Parse(buckets, p.value) == Some(actual)
  {
    match Pad(buckets, actual, noise)
    case None =>
    case Some(p) =>
      assert p[..4] == ToBigEndian(|actual|, 4);
      ReadAfterWrite(|actual|, 4);
      Widths();
      assert p[4..4 + |actual|] == actual;
  }

  // ---- capacity ------------------------------------------------------------

  type unit = x: int | 0 <= x < 0x1_0000

  predicate High(u: unit) { 0xD800 <= u < 0xDC00 }
  predicate Low(u: unit) { 0xDC00 <= u < 0xE000 }

  /** Bytes of one UTF-16 unit that is not half of a surrogate pair, after JSON escaping and UTF-8. */
  function EscapedUnit(u: unit): (n: nat)
  {
    if u == 0x22 || u == 0x5C then 2
    else if u in {8, 9, 10, 12, 13} then 2
    else if u < 0x20 || High(u) || Low(u) then 6
    else if u < 0x80 then 1
    else if u < 0x800 then 2
    else 3
  }

  /** Bytes of a JSON string body: a surrogate pair takes four, a lone surrogate is escaped. */
  function JsonBytes(s: seq<unit>): (n: nat)
  {
    if |s| == 0 then 0
    else if |s| >= 2 && High(s[0]) && Low(s[1]) then 4 + JsonBytes(s[2..])
    else EscapedUnit(s[0]) + JsonBytes(s[1..])
  }

  lemma {:induction false} JsonGrowth(s: seq<unit>)
    ensures JsonBytes(s) <= 6 * |s|
  {
    if |s| >= 2 && High(s[0]) && Low(s[1]) {
      JsonGrowth(s[2..]);
    } else if |s| >= 1 {
      JsonGrowth(s[1..]);
    }
  }

  const MAX_TEXT_UNITS := 8000
  const MAX_ID_CHARS := 160
  const MAX_DIGITS := 16
  const TAG_BYTES := 16

  // The fixed characters of a reliable text message and of a file chunk, two quotes per string value included.
  const TEXT_SKELETON :=
    "{'kind':'reliable.msg','id':'','channel':'text','body':{'kind':'text.message','messageId':'','body':'','createdAt':},'createdAt':,'attempt':}"
  const CHUNK_SKELETON := "{'kind':'file.chunk','fileId':'','index':,'totalChunks':,'data':''}"

  function TextMessageBytes(body: seq<unit>, idChars: nat, messageIdChars: nat, digits: nat): (n: nat)
  {
    |TEXT_SKELETON| + idChars + messageIdChars + 3 * digits + JsonBytes(body)
  }

  function ChunkMessageBytes(chunk: Octets, idChars: nat, digits: nat): (n: nat)
  {
    |CHUNK_SKELETON| + idChars + 2 * digits + |Base64Url.Encode(chunk)|
  }

  /** A plaintext of n bytes can be padded, sealed with a 16-byte tag and packed under this profile. */
  ghost predicate Sendable(p: Profile, n: nat)
  {
    match SelectBucket(p.buckets, n)
    case None => false
    case Some(size) => HEADER_BYTES + size + TAG_BYTES <= p.maxFrame
  }

  lemma FitsLargest(p: Profile, n: nat, largest: nat)
    requires p in ALL && largest in p.buckets && n + 4 <= largest
    ensures Sendable(p, n)
  {
    var r := SelectBucket(p.buckets, n);
    assert r.Some? && r.value in p.buckets;
    assert forall b :: b in p.buckets ==> HEADER_BYTES + b + TAG_BYTES <= p.maxFrame;
  }

  /** In every profile any 8,000-unit text message can be sent, whatever characters it contains. */
  lemma EveryTextFits(p: Profile, body: seq<unit>, idChars: nat, messageIdChars: nat, digits: nat)
    requires p in ALL
    requires |body| <= MAX_TEXT_UNITS && idChars <= MAX_ID_CHARS && messageIdChars <= MAX_ID_CHARS && digits <= MAX_DIGITS
    ensures Sendable(p, TextMessageBytes(body, idChars, messageIdChars, digits))
  {
    JsonGrowth(body);
    assert |TEXT_SKELETON| < 200;
    var i := |p.buckets| - 1;
    assert p.buckets[i] >= 64 * KB;
    FitsLargest(p, TextMessageBytes(body, idChars, messageIdChars, digits), p.buckets[i]);
  }

  /** In every profile any chunk of at most chunkBytes bytes can be sent after base64url encoding. */
  lemma EveryChunkFits(p: Profile, chunk: Octets, idChars: nat, digits: nat)
    requires p in ALL
    requires |chunk| <= p.files.chunkBytes && idChars <= MAX_ID_CHARS && digits <= MAX_DIGITS
    ensures Sendable(p, ChunkMessageBytes(chunk, idChars, digits))
  {
    Base64Url.EncodedLength(chunk);
    assert |CHUNK_SKELETON| < 100;
    var i := |p.buckets| - 1;
    assert p.buckets[i] >= 64 * KB;
    FitsLargest(p, ChunkMessageBytes(chunk, idChars, digits), p.buckets[i]);
  }
}
