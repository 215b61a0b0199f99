/** The unpadded URL-safe alphabet of section 5 of RFC 4648, as used for keys, chunks and voice payloads. */
module Base64Url {
  import opened Bytes

  type sextet = x: int | 0 <= x < 64

  function ToChar(v: sextet): (ch: char)
    ensures ch != '='
  {
    if v < 26 then (v + 'A' as int) as char
    else if v < 52 then (v - 26 + 'a' as int) as char
    else if v < 62 then (v - 52 + '0' as int) as char
    else if v == 62 then '-' else '_'
  }

  /** Decoding first maps '-' and '_' back to '+' and '/', so both alphabets are accepted. */
  function FromChar(ch: char): (v: Option<sextet>)
  {
    if 'A' <= ch <= 'Z' then Some(ch as int - 'A' as int)
    else if 'a' <= ch <= 'z' then Some(ch as int - 'a' as int + 26)
    else if '0' <= ch <= '9' then Some(ch as int - '0' as int + 52)
    else if ch == '-' || ch == '+' then Some(62)
    else if ch == '_' || ch == '/' then Some(63)
    else None
  }

  // The four sextets of an octet triple x, y, z, and the octets they give back.
  function S0(x: byte): (v: sextet) { x / 4 }
  function S1(x: byte, y: byte): (v: sextet) { x % 4 * 16 + y / 16 }
  function S2(y: byte, z: byte): (v: sextet) { y % 16 * 4 + z / 64 }
  function S3(z: byte): (v: sextet) { z % 64 }

  function First(v: sextet, w: sextet): (b: byte) { var p: int, q: int := v, w; p * 4 + q / 16 }
  function Second(v: sextet, w: sextet): (b: byte) { var p: int, q: int := v, w; p % 16 * 16 + q / 4 }
  function Third(v: sextet, w: sextet): (b: byte) { var p: int, q: int := v, w; p % 4 * 64 + q }

  lemma TripleRoundTrip(x: byte, y: byte, z: byte)
    ensures First(S0(x), S1(x, y)) == x
    ensures Second(S1(x, y), S2(y, z)) == y
    ensures Third(S2(y, z), S3(z)) == z
  {}

  function Encode(b: Octets): (s: string)
  {
    if |b| == 0 then ""
    else if |b| == 1 then [ToChar(S0(b[0])), ToChar(S1(b[0], 0))]
    else if |b| == 2 then [ToChar(S0(b[0])), ToChar(S1(b[0], b[1])), ToChar(S2(b[1], 0))]
    else [ToChar(S0(b[0])), ToChar(S1(b[0], b[1])), ToChar(S2(b[1], b[2])), ToChar(S3(b[2]))] + Encode(b[3..])
  }

  function Sextets(s: string): (r: Option<seq<sextet>>)
    ensures r.Some? ==> |r.value| == |s|
  {
    if |s| == 0 then Some([]) else
    match (FromChar(s[0]), Sextets(s[1..]))
    case (Some(v), Some(vs)) => Some([v] + vs)
    case _ => None
  }

  /** A lone trailing sextet is rejected; bits beyond the last whole octet are dropped. */
  function Join(v: seq<sextet>): (r: Option<Octets>)
  {
    if |v| == 0 then Some([])
    else if |v| == 1 then None
    else if |v| == 2 then Some([First(v[0], v[1])])
    else if |v| == 3 then Some([First(v[0], v[1]), Second(v[1], v[2])])
    else match Join(v[4..])
      case Some(rest) => Some([First(v[0], v[1]), Second(v[1], v[2]), Third(v[2], v[3])] + rest)
      case None => None
  }

  function Decode(s: string): (r: Option<Octets>)
  {
    match Sextets(s)
    case Some(v) => Join(v)
    case None => None
  }

  lemma SextetsOfCons(v: sextet, s: string)
    requires Sextets(s).Some?
    ensures Sextets([ToChar(v)] + s) == Some([v] + Sextets(s).value)
  {
    assert ([ToChar(v)] + s)[1..] == s;
  }

  lemma SextetsOfFour(a: sextet, b: sextet, c: sextet, d: sextet, s: string)
    requires Sextets(s).Some?
    ensures Sextets([ToChar(a), ToChar(b), ToChar(c), ToChar(d)] + s)
         == Some([a, b, c, d] + Sextets(s).value)
  {
    SextetsOfCons(d, s);
    SextetsOfCons(c, [ToChar(d)] + s);
    SextetsOfCons(b, [ToChar(c)] + ([ToChar(d)] + s));
    SextetsOfCons(a, [ToChar(b)] + ([ToChar(c)] + ([ToChar(d)] + s)));
    assert [ToChar(a)] + ([ToChar(b)] + ([ToChar(c)] + ([ToChar(d)] + s)))
        == [ToChar(a), ToChar(b), ToChar(c), ToChar(d)] + s;
    assert [a] + ([b] + ([c] + ([d] + Sextets(s).value))) == [a, b, c, d] + Sextets(s).value;
  }

  lemma JoinOfFour(a: sextet, b: sextet, c: sextet, d: sextet, v: seq<sextet>)
    requires Join(v).Some?
    ensures Join([a, b, c, d] + v) == Some([First(a, b), Second(b, c), Third(c, d)] + Join(v).value)
  {
    assert ([a, b, c, d] + v)[4..] == v;
  }

  /** Every byte string survives the text form in which chunks and keys travel. */
  lemma {:induction false} DecodeInvertsEncode(b: Octets)
    ensures Decode(Encode(b)) == Some(b)
  {
    if |b| == 1 {
      OneRoundTrip(b[0]);
      assert Encode(b) == [ToChar(S0(b[0])), ToChar(S1(b[0], 0))];
      assert b == [b[0]];
    } else if |b| == 2 {
      TwoRoundTrip(b[0], b[1]);
      assert Encode(b) == [ToChar(S0(b[0])), ToChar(S1(b[0], b[1])), ToChar(S2(b[1], 0))];
      assert b == [b[0], b[1]];
    } else if |b| >= 3 {
      DecodeInvertsEncode(b[3..]);
      GroupRoundTrip(b[0], b[1], b[2], b[3..]);
      assert b == [b[0], b[1], b[2]] + b[3..];
    }
  }

  lemma GroupRoundTrip(x: byte, y: byte, z: byte, rest: Octets)
    requires Decode(Encode(rest)) == Some(rest)
    ensures Decode([ToChar(S0(x)), ToChar(S1(x, y)), ToChar(S2(y, z)), ToChar(S3(z))] + Encode(rest))
         == Some([x, y, z] + rest)
  {
    var (p, q, r, s) := (S0(x), S1(x, y), S2(y, z), S3(z));
    TripleRoundTrip(x, y, z);
    SextetsOfFour(p, q, r, s, Encode(rest));
    JoinOfFour(p, q, r, s, Sextets(Encode(rest)).value);
  }

  lemma OneRoundTrip(x: byte)
    ensures Decode([ToChar(S0(x)), ToChar(S1(x, 0))]) == Some([x])
  {
    var p, q := S0(x), S1(x, 0);
    TripleRoundTrip(x, 0, 0);
    TwoSextets(p, q);
  }

  lemma TwoRoundTrip(x: byte, y: byte)
    ensures Decode([ToChar(S0(x)), ToChar(S1(x, y)), ToChar(S2(y, 0))]) == Some([x, y])
  {
    var p, q, r := S0(x), S1(x, y), S2(y, 0);
    TripleRoundTrip(x, y, 0);
    TwoSextets(q, r);
    SextetsOfCons(p, [ToChar(q), ToChar(r)]);
    assert [ToChar(p)] + [ToChar(q), ToChar(r)] == [ToChar(p), ToChar(q), ToChar(r)];
    assert [p] + [q, r] == [p, q, r];
  }

  lemma TwoSextets(p: sextet, q: sextet)
    ensures Sextets([ToChar(p), ToChar(q)]) == Some([p, q])
  {
    SextetsOfCons(q, "");
    SextetsOfCons(p, [ToChar(q)] + "");
    assert [ToChar(p)] + ([ToChar(q)] + "") == [ToChar(p), ToChar(q)];
    assert [p] + ([q] + []) == [p, q];
  }

  /** The text form has exactly the ceiling of 4n/3 characters. */
  lemma {:induction false} EncodedLength(b: Octets)
    ensures |Encode(b)| == (4 * |b| + 2) / 3
  {
    if |b| > 2 {
      EncodedLength(b[3..]);
    }
  }
}
