/** Cutting a file into chunks and putting it together again, and the metadata an offer carries. */
module FileChunks {
  import opened Bytes
  import opened Profiles

  datatype Meta = Meta(size: nat, chunkSize: nat, total: nat, hashed: bool)

  function Ceiling(a: nat, b: nat): (r: nat)
    requires b > 0
  {
    (a + b - 1) / b
  }

  function MetaOf(file: Octets, chunkSize: nat, hashed: bool): (m: Meta)
    requires chunkSize > 0
  {
    Meta(|file|, chunkSize, Ceiling(|file|, chunkSize), hashed)
  }

  function Min(a: nat, b: nat): (r: nat) { if a <= b then a else b }

  /** What the sender reads for chunk i: from i * chunkSize up to the next multiple or the end of the file. */
  function Slice(file: Octets, chunkSize: nat, i: nat): (r: Octets)
  {
    file[Min(i * chunkSize, |file|)..Min(i * chunkSize + chunkSize, |file|)]
  }

  /** The length the receiver demands of chunk i. */
  function ExpectedBytes(m: Meta, i: nat): (n: int)
  {
    if i == m.total - 1 then m.size - i * m.chunkSize else m.chunkSize
  }

  function Joined(chunks: seq<Octets>): (r: Octets)
  {
    if |chunks| == 0 then [] else Joined(chunks[..|chunks| - 1]) + chunks[|chunks| - 1]
  }

  function Slices(file: Octets, chunkSize: nat, n: nat): (r: seq<Octets>)
    ensures |r| == n
  {
    seq(n, i requires 0 <= i < n => Slice(file, chunkSize, i))
  }

  lemma CeilingBounds(a: nat, b: nat)
    requires b > 0
    ensures a <= Ceiling(a, b) * b && (a > 0 ==> (Ceiling(a, b) - 1) * b < a) && (a > 0 ==> Ceiling(a, b) >= 1)
  {
    var q := Ceiling(a, b);
    assert q * b <= a + b - 1 < q * b + b;
  }

  /** Every chunk the sender cuts has exactly the length the receiver demands, and a multiple starts where it should. */
  lemma SliceLength(file: Octets, chunkSize: nat, hashed: bool, i: nat)
    requires chunkSize > 0 && i < MetaOf(file, chunkSize, hashed).total
    ensures |Slice(file, chunkSize, i)| == ExpectedBytes(MetaOf(file, chunkSize, hashed), i) && i * chunkSize < |file|
  {
    var n := MetaOf(file, chunkSize, hashed).total;
    CeilingBounds(|file|, chunkSize);
    if i < n - 1 {
      Scaled(i + 1, n - 1, chunkSize);
      assert (i + 1) * chunkSize == i * chunkSize + chunkSize;
    } else {
      assert n * chunkSize == i * chunkSize + chunkSize;
    }
  }

  lemma Scaled(a: nat, b: nat, c: nat)
    requires a <= b
    ensures a * c <= b * c
  {}

  lemma {:induction false} JoinedPrefix(file: Octets, chunkSize: nat, n: nat)
    ensures Joined(Slices(file, chunkSize, n)) == file[..Min(n * chunkSize, |file|)]
  {
    if n == 0 {
      assert 0 * chunkSize == 0;
    } else {
      JoinedPrefix(file, chunkSize, n - 1);
      SlicesSnoc(file, chunkSize, n - 1);
      JoinedSnoc(Slices(file, chunkSize, n - 1), Slice(file, chunkSize, n - 1));
      assert (n - 1) * chunkSize + chunkSize == n * chunkSize;
      PrefixGrows(file, (n - 1) * chunkSize, n * chunkSize);
    }
  }

  lemma SlicesSnoc(file: Octets, chunkSize: nat, n: nat)
    ensures Slices(file, chunkSize, n + 1) == Slices(file, chunkSize, n) + [Slice(file, chunkSize, n)]
  {}

  lemma JoinedSnoc(chunks: seq<Octets>, x: Octets)
    ensures Joined(chunks + [x]) == Joined(chunks) + x
  {
    assert (chunks + [x])[..|chunks|] == chunks;
  }

  lemma PrefixGrows(file: Octets, a: nat, b: nat)
    requires a <= b
    ensures file[..Min(a, |file|)] + file[Min(a, |file|)..Min(b, |file|)] == file[..Min(b, |file|)]
  {}

  /** The chunks of a file join to the file. */
  lemma JoinedIsFile(file: Octets, chunkSize: nat, hashed: bool)
    requires chunkSize > 0
    ensures Joined(Slices(file, chunkSize, MetaOf(file, chunkSize, hashed).total)) == file
  {
    var n := MetaOf(file, chunkSize, hashed).total;
    CeilingBounds(|file|, chunkSize);
    JoinedPrefix(file, chunkSize, n);
    assert file[..|file|] == file;
  }

  // ---- the receiver's judgement of an offer --------------------------------

  datatype Verdict = Acceptable | TooLarge | BadMetadata

  function Judge(f: FileLimits, m: Meta): (v: Verdict)
  {
    if m.size == 0 || m.size > f.maxFile || m.size > f.maxMemory then TooLarge
    else if m.chunkSize == 0 || m.chunkSize > f.chunkBytes || m.total == 0
            || m.total != Ceiling(m.size, m.chunkSize) || m.total > Ceiling(f.maxFile, m.chunkSize) then BadMetadata
    else Acceptable
  }

  /** The sender refuses empty files and files over the profile's limit. */
  predicate Sendable(f: FileLimits, file: Octets) { 0 < |file| <= f.maxFile }

  /** Under any of the four profiles, shared by both peers, the receiver finds fault with no offer the sender makes. */
  lemma EveryOfferIsAcceptable(p: Profile, file: Octets, hashed: bool)
    requires p in ALL
    ensures Sendable(p.files, file) <==> Judge(p.files, MetaOf(file, p.files.chunkBytes, hashed)) == Acceptable
  {
    assert p.files.chunkBytes > 0 && p.files.maxFile == p.files.maxMemory;
    if Sendable(p.files, file) {
      CeilingBounds(|file|, p.files.chunkBytes);
      CeilingMonotone(|file|, p.files.maxFile, p.files.chunkBytes);
    }
  }

  lemma CeilingMonotone(a: nat, b: nat, c: nat)
    requires a <= b && c > 0
    ensures Ceiling(a, c) <= Ceiling(b, c)
  {
    CeilingBounds(a, c);
    CeilingBounds(b, c);
    if Ceiling(a, c) > Ceiling(b, c) {
      Scaled(Ceiling(b, c), Ceiling(a, c) - 1, c);
    }
  }
}
