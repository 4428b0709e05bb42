/** The byte encodings: big-endian integers, lease ids and routing keys. */
module Encoding {
  import opened Int64

  type byte = x: int | 0 <= x < 256
  type Bytes = seq<byte>

  const TWO32 := 0x1_0000_0000

  function Pow256(k: nat): (p: nat)
    ensures 0 < p
  {
    if k == 0 then 1 else 256 * Pow256(k - 1)
  }

  /** The k low bytes of n, most significant first. */
  function BigEndian(n: nat, k: nat): (s: Bytes)
    ensures |s| == k
  {
    if k == 0 then [] else BigEndian(n / 256, k - 1) + [n % 256]
  }

  function FromBigEndian(s: Bytes): nat {
    if s == [] then 0 else 256 * FromBigEndian(s[..|s| - 1]) + s[|s| - 1]
  }

  lemma {:induction false} BigEndianRoundTrip(n: nat, k: nat)
    ensures FromBigEndian(BigEndian(n, k)) == n % Pow256(k)
  {
    if k > 0 {
      var s := BigEndian(n, k);
      assert s[..k - 1] == BigEndian(n / 256, k - 1) && s[k - 1] == n % 256;
      BigEndianRoundTrip(n / 256, k - 1);
      PlaceValue(n, Pow256(k - 1));
    }
  }

  /** Each byte is a digit of the number in base 256, the most significant first. */
  lemma {:induction false} BigEndianAt(n: nat, k: nat, i: nat)
    requires i < k
    ensures BigEndian(n, k)[i] == n / Pow256(k - 1 - i) % 256
  {
    if i < k - 1 {
      BigEndianAt(n / 256, k - 1, i);
      DivideTwice(n, Pow256(k - 2 - i));
    }
  }

  lemma DivideTwice(n: nat, p: int)
    requires 0 < p
    ensures n / 256 / p == n / (256 * p)
  {
    var m := n / 256;
    var q, r := m / p, m % p;
    MulAssociates(256, p, q);
    DivModUnique(n, 256 * p, q, 256 * r + n % 256);
  }

  /** The bytes of a small routing key and of a small lease id. */
  lemma EncodingExample()
    ensures RouteKey([97], [98, 99]) == [0, 0, 0, 1, 97, 0, 0, 0, 2, 98, 99]
    ensures MakeLeaseID([120, 121], 258) == [120, 121, 0, 0, 0, 0, 0, 0, 1, 2]
  {
    SmallLength(1);
    SmallLength(2);
    SmallNonce();
  }

  lemma SmallLength(n: byte)
    ensures BigEndian(n, 4) == [0, 0, 0, n]
  {
    BigEndianZero(3);
    assert BigEndian(0, 3) == [0, 0, 0];
  }

  lemma SmallNonce()
    ensures BigEndian(258, 8) == [0, 0, 0, 0, 0, 0, 1, 2]
  {
    BigEndianZero(6);
    assert BigEndian(0, 6) == [0, 0, 0, 0, 0, 0];
    assert BigEndian(1, 7) == BigEndian(0, 6) + [1];
  }

  /** One more place: the remainder of the front digits, shifted, plus the last digit. */
  lemma PlaceValue(n: nat, p: int)
    requires 0 < p
    ensures n % (256 * p) == 256 * ((n / 256) % p) + n % 256
  {
    var m := n / 256;
    var q, r := m / p, m % p;
    MulAssociates(256, p, q);
    assert n == 256 * m + n % 256 && m == p * q + r;
    DivModUnique(n, 256 * p, q, 256 * r + n % 256);
  }

  /** Byte strings of one length with the same value are the same. */
  lemma {:induction false} FromBigEndianInjective(s: Bytes, t: Bytes)
    requires |s| == |t| && FromBigEndian(s) == FromBigEndian(t)
    ensures s == t
  {
    if s != [] {
      var k := |s| - 1;
      FromBigEndianInjective(s[..k], t[..k]);
      assert s == s[..k] + [s[k]] && t == t[..k] + [t[k]];
    }
  }

  lemma MulAssociates(a: int, b: int, c: int)
    ensures (a * b) * c == a * (b * c)
  {
  }

  lemma Pow256Constants()
    ensures Pow256(4) == TWO32
    ensures Pow256(8) == TWO64
  {
    assert Pow256(1) == 256 && Pow256(2) == 0x1_0000 && Pow256(3) == 0x100_0000;
    assert Pow256(4) == TWO32 && Pow256(5) == 0x100_0000_0000;
    assert Pow256(6) == 0x1_0000_0000_0000 && Pow256(7) == 0x100_0000_0000_0000;
  }

  // ----- lease ids: the holder followed by the big-endian nonce -----

  function MakeLeaseID(holder: Bytes, nonce: uint64): (id: Bytes)
    ensures |id| == |holder| + 8
  {
    holder + BigEndian(nonce, 8)
  }

  /** The nonce a lease id carries in its last eight bytes. */
  function NonceOf(id: Bytes): nat {
    if |id| < 8 then 0 else FromBigEndian(id[|id| - 8..])
  }

  /** id is a lease id of this holder with a nonce below the bound. */
  predicate Minted(holder: Bytes, id: Bytes, bound: int) {
    |id| == |holder| + 8 && id[..|holder|] == holder && NonceOf(id) < bound
  }

  lemma LeaseIDDecodes(holder: Bytes, nonce: uint64)
    ensures NonceOf(MakeLeaseID(holder, nonce)) == nonce
    ensures Minted(holder, MakeLeaseID(holder, nonce), nonce + 1)
  {
    var id := MakeLeaseID(holder, nonce);
    assert id[..|holder|] == holder && id[|id| - 8..] == BigEndian(nonce, 8);
    BigEndianRoundTrip(nonce, 8);
    Pow256Constants();
  }

  /** Equal-length holders: a lease id names its holder and its nonce. */
  lemma LeaseIDInjective(h: Bytes, n: uint64, h': Bytes, n': uint64)
    requires |h| == |h'|
    ensures MakeLeaseID(h, n) == MakeLeaseID(h', n') <==> h == h' && n == n'
  {
    LeaseIDDecodes(h, n);
    LeaseIDDecodes(h', n');
  }

  // ----- routing keys: two length-prefixed chunks -----

  function AppendChunk(dst: Bytes, b: Bytes): Bytes {
    dst + BigEndian(|b| % TWO32, 4) + b
  }

  function RouteKey(ns: Bytes, coll: Bytes): Bytes {
    AppendChunk(AppendChunk([], ns), coll)
  }

  datatype Parsed = Malformed | Front(chunk: Bytes, rest: Bytes)

  /** Reads one length-prefixed chunk off the front. */
  function ParseChunk(s: Bytes): Parsed {
    if |s| < 4 then Malformed
    else
      var len := FromBigEndian(s[..4]);
      if |s| < 4 + len then Malformed else Front(s[4..4 + len], s[4 + len..])
  }

  datatype Decoded = Undecodable | Key(ns: Bytes, coll: Bytes, rest: Bytes)

  /** Reads a routing key off the front of s. */
  function DecodeRouteKey(s: Bytes): Decoded {
    var first := ParseChunk(s);
    if first.Malformed? then Undecodable
    else
      var second := ParseChunk(first.rest);
      if second.Malformed? then Undecodable else Key(first.chunk, second.chunk, second.rest)
  }

  /** A chunk reads back exactly when it is shorter than 2^32 bytes, and then what follows it reads back too. */
  lemma ParseAppended(b: Bytes, tail: Bytes)
    ensures var p := ParseChunk(AppendChunk([], b) + tail);
            p.Front? && (p.chunk == b <==> |b| < TWO32) && (|b| < TWO32 ==> p.rest == tail)
  {
    var prefix := LengthPrefix(|b|);
    AppendedForm(prefix, b, tail);
    ParsePrefixed(prefix, b + tail);
    if |b| < TWO32 {
      SplitAt(b, tail);
    } else {
      assert |(b + tail)[..|b| % TWO32]| < |b|;
    }
  }

  lemma LengthPrefix(n: nat) returns (prefix: Bytes)
    ensures prefix == BigEndian(n % TWO32, 4) && |prefix| == 4 && FromBigEndian(prefix) == n % TWO32
  {
    prefix := BigEndian(n % TWO32, 4);
    BigEndianRoundTrip(n % TWO32, 4);
    Pow256Constants();
  }

  lemma AppendedForm(prefix: Bytes, b: Bytes, tail: Bytes)
    ensures ([] + prefix + b) + tail == prefix + (b + tail)
  {
  }

  lemma SplitAt(b: Bytes, tail: Bytes)
    ensures (b + tail)[..|b|] == b && (b + tail)[|b|..] == tail
  {
  }

  lemma ParsePrefixed(prefix: Bytes, body: Bytes)
    requires |prefix| == 4 && FromBigEndian(prefix) <= |body|
    ensures var len := FromBigEndian(prefix);
            ParseChunk(prefix + body) == Front(body[..len], body[len..])
  {
    var s, len := prefix + body, FromBigEndian(prefix);
    assert s[..4] == prefix;
    assert s[4..4 + len] == body[..len] && s[4 + len..] == body[len..];
  }

  /** A routing key followed by anything decodes back exactly when both parts are shorter than 2^32 bytes:
      the uint32 length prefix drops the higher bits of a longer length. */
  lemma RouteKeyDecodes(ns: Bytes, coll: Bytes, tail: Bytes)
    ensures DecodeRouteKey(RouteKey(ns, coll) + tail) == Key(ns, coll, tail) <==> |ns| < TWO32 && |coll| < TWO32
  {
    var second := AppendChunk([], coll) + tail;
    KeyForm(ns, coll, tail);
    ParseAppended(ns, second);
    ParseAppended(coll, tail);
  }

  lemma KeyForm(ns: Bytes, coll: Bytes, tail: Bytes)
    ensures RouteKey(ns, coll) + tail == AppendChunk([], ns) + (AppendChunk([], coll) + tail)
  {
  }

  /** Injective and prefix-free: no routing key of short parts is a prefix of another one's. */
  lemma RouteKeyPrefixFree(ns: Bytes, coll: Bytes, ns': Bytes, coll': Bytes)
    requires |ns| < TWO32 && |coll| < TWO32 && |ns'| < TWO32 && |coll'| < TWO32
    ensures RouteKey(ns, coll) <= RouteKey(ns', coll') <==> ns == ns' && coll == coll'
  {
    if RouteKey(ns, coll) <= RouteKey(ns', coll') {
      PrefixDecodes(ns, coll, RouteKey(ns', coll'));
      PrefixDecodes(ns', coll', RouteKey(ns', coll'));
    }
  }

  /** Whatever a routing key is a prefix of decodes to its parts. */
  lemma PrefixDecodes(ns: Bytes, coll: Bytes, s: Bytes)
    requires |ns| < TWO32 && |coll| < TWO32 && RouteKey(ns, coll) <= s
    ensures DecodeRouteKey(s).Key? && DecodeRouteKey(s).ns == ns && DecodeRouteKey(s).coll == coll
  {
    var k := RouteKey(ns, coll);
    var tail := s[|k|..];
    assert k + tail == s;
    RouteKeyDecodes(ns, coll, tail);
  }

  /** At 2^32 bytes the encoding stops being injective: two different pairs share a key. */
  lemma RouteKeyCollides()
    ensures exists ns: Bytes, coll: Bytes, ns': Bytes, coll': Bytes ::
              ns != ns' && RouteKey(ns, coll) == RouteKey(ns', coll')
  {
    var long: Bytes := seq(TWO32, i => 0);
    BigEndianZero(4);
    assert forall i | 0 <= i < 4 :: BigEndian(0, 4)[i] == 0;
    assert RouteKey(long, []) == RouteKey([], long);
  }

  lemma {:induction false} BigEndianZero(k: nat)
    ensures forall i | 0 <= i < k :: BigEndian(0, k)[i] == 0
  {
    if k > 0 {
      BigEndianZero(k - 1);
    }
  }
}
