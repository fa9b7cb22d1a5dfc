/** Unpadded base64url, section 5 of RFC 4648, as the cursor codec uses it: the padding is
    stripped on the way out and restored on the way in. */
module Base64Url {
  import opened Wrappers

  type Byte = b: nat | b < 256
  type Sextet = v: nat | v < 64

  /** The alphabet: capitals, small letters, digits, dash and underscore. */
  function CharOf(v: Sextet): (c: char)
    ensures SextetOf(c) == Some(v)
  {
    if v < 26 then ('A' as int + v) as char
    else if v < 52 then ('a' as int + v - 26) as char
    else if v < 62 then ('0' as int + v - 52) as char
    else if v == 62 then '-' else '_'
  }

  function SextetOf(c: char): Option<Sextet> {
    if 'A' <= c <= 'Z' then Some(c as int - 'A' as int)
    else if 'a' <= c <= 'z' then Some(c as int - 'a' as int + 26)
    else if '0' <= c <= '9' then Some(c as int - '0' as int + 52)
    else if c == '-' then Some(62)
    else if c == '_' then Some(63)
    else None
  }

  lemma SextetPrints(c: char)
    requires SextetOf(c).Some?
    ensures CharOf(SextetOf(c).value) == c
  {
  }

  function Chars(vs: seq<Sextet>): string {
    if vs == [] then [] else [CharOf(vs[0])] + Chars(vs[1..])
  }

  function SextetsOf(s: string): Option<seq<Sextet>> {
    if s == [] then Some([]) else
    match (SextetOf(s[0]), SextetsOf(s[1..]))
    case (Some(v), Some(vs)) => Some([v] + vs)
    case _ => None
  }

  // How the bits of a byte triple spread over four sextets, and back.
  function Sextet0(a: int): Sextet requires 0 <= a < 256 { a / 4 }
  function Sextet1(a: int, b: int): Sextet requires 0 <= a < 256 && 0 <= b < 256 { a % 4 * 16 + b / 16 }
  function Sextet2(b: int, c: int): Sextet requires 0 <= b < 256 && 0 <= c < 256 { b % 16 * 4 + c / 64 }
  function Sextet3(c: int): Sextet requires 0 <= c < 256 { c % 64 }
  function Byte0(v: int, w: int): Byte requires 0 <= v < 64 && 0 <= w < 64 { v * 4 + w / 16 }
  function Byte1(w: int, x: int): Byte requires 0 <= w < 64 && 0 <= x < 64 { w % 16 * 16 + x / 4 }
  function Byte2(x: int, y: int): Byte requires 0 <= x < 64 && 0 <= y < 64 { x % 4 * 64 + y }

  lemma TripleBits(a: Byte, b: Byte, c: Byte)
    ensures Byte0(Sextet0(a), Sextet1(a, b)) == a
    ensures Byte1(Sextet1(a, b), Sextet2(b, c)) == b
    ensures Byte2(Sextet2(b, c), Sextet3(c)) == c
  {
  }

  lemma QuadBits(v: Sextet, w: Sextet, x: Sextet, y: Sextet)
    ensures Sextet0(Byte0(v, w)) == v
    ensures Sextet1(Byte0(v, w), Byte1(w, x)) == w
    ensures Sextet2(Byte1(w, x), Byte2(x, y)) == x
    ensures Sextet3(Byte2(x, y)) == y
    ensures Sextet1(Byte0(v, w), 0) == w <==> w % 16 == 0
    ensures Sextet2(Byte1(w, x), 0) == x <==> x % 4 == 0
  {
  }

  /** Three bytes become four sextets; a tail of one or two bytes becomes two or three. */
  function Pack(raw: seq<Byte>): seq<Sextet> {
    if raw == [] then []
    else if |raw| == 1 then [Sextet0(raw[0]), Sextet1(raw[0], 0)]
    else if |raw| == 2 then [Sextet0(raw[0]), Sextet1(raw[0], raw[1]), Sextet2(raw[1], 0)]
    else [Sextet0(raw[0]), Sextet1(raw[0], raw[1]), Sextet2(raw[1], raw[2]), Sextet3(raw[2])] + Pack(raw[3..])
  }

  /** The decoder drops the unused low bits of a short tail without looking at them. */
  function Unpack(vs: seq<Sextet>): Option<seq<Byte>> {
    if vs == [] then Some([])
    else if |vs| == 1 then None
    else if |vs| == 2 then Some([Byte0(vs[0], vs[1])])
    else if |vs| == 3 then Some([Byte0(vs[0], vs[1]), Byte1(vs[1], vs[2])])
    else match Unpack(vs[4..])
      case None => None
      case Some(rest) => Some([Byte0(vs[0], vs[1]), Byte1(vs[1], vs[2]), Byte2(vs[2], vs[3])] + rest)
  }

  function Encode(raw: seq<Byte>): string { Chars(Pack(raw)) }

  function Decode(text: string): Option<seq<Byte>> {
    match SextetsOf(text)
    case None => None
    case Some(vs) => Unpack(vs)
  }

  lemma {:induction false} CharsReadBack(vs: seq<Sextet>)
    ensures SextetsOf(Chars(vs)) == Some(vs) && |Chars(vs)| == |vs|
  {
    if vs != [] {
      CharsReadBack(vs[1..]);
      assert Chars(vs)[1..] == Chars(vs[1..]);
      assert vs == [vs[0]] + vs[1..];
    }
  }

  lemma {:induction false} SextetsPrintBack(s: string)
    requires SextetsOf(s).Some?
    ensures Chars(SextetsOf(s).value) == s
  {
    if s != [] {
      SextetsPrintBack(s[1..]);
      SextetPrints(s[0]);
      assert s == [s[0]] + s[1..];
      var vs := SextetsOf(s[1..]).value;
      assert ([SextetOf(s[0]).value] + vs)[1..] == vs;
    }
  }

  lemma {:induction false} PackUnpacks(raw: seq<Byte>)
    ensures Unpack(Pack(raw)) == Some(raw)
    decreases |raw|
  {
    hide Sextet0, Sextet1, Sextet2, Sextet3, Byte0, Byte1, Byte2;
    if |raw| < 3 {
      if raw != [] { TripleBits(raw[0], if |raw| > 1 then raw[1] else 0, 0); }
      assert raw == (if raw == [] then [] else if |raw| == 1 then [raw[0]] else [raw[0], raw[1]]);
    } else {
      TripleBits(raw[0], raw[1], raw[2]);
      PackUnpacks(raw[3..]);
      var quad := [Sextet0(raw[0]), Sextet1(raw[0], raw[1]), Sextet2(raw[1], raw[2]), Sextet3(raw[2])];
      var vs := Pack(raw);
      assert vs == quad + Pack(raw[3..]);
      assert vs[0] == quad[0] && vs[1] == quad[1] && vs[2] == quad[2] && vs[3] == quad[3] && vs[4..] == Pack(raw[3..]);
      assert raw == [raw[0], raw[1], raw[2]] + raw[3..];
    }
  }

  /** Every byte string, of every length modulo three, survives the round trip. */
  lemma RoundTrip(raw: seq<Byte>)
    ensures Decode(Encode(raw)) == Some(raw)
  {
    CharsReadBack(Pack(raw));
    PackUnpacks(raw);
  }

  lemma {:induction false} EncodedLength(raw: seq<Byte>)
    ensures |raw| <= |Encode(raw)|
    ensures raw != [] ==> Encode(raw) != []
    decreases |raw|
  {
    CharsReadBack(Pack(raw));
    if |raw| >= 3 {
      CharsReadBack(Pack(raw[3..]));
      EncodedLength(raw[3..]);
    }
  }

  lemma {:induction false} EncodedIsShort(raw: seq<Byte>)
    ensures 3 * |Encode(raw)| <= 4 * |raw| + 8
    decreases |raw|
  {
    hide Sextet0, Sextet1, Sextet2, Sextet3;
    CharsReadBack(Pack(raw));
    if |raw| >= 3 {
      CharsReadBack(Pack(raw[3..]));
      EncodedIsShort(raw[3..]);
    }
  }

  /** Decodable texts are those of the alphabet whose length is not one modulo four. */
  lemma {:induction false} DecodableLengths(vs: seq<Sextet>)
    ensures Unpack(vs).Some? <==> |vs| % 4 != 1
    decreases |vs|
  {
    hide Sextet0, Sextet1, Sextet2, Sextet3, Byte0, Byte1, Byte2;
    if |vs| >= 4 { DecodableLengths(vs[4..]); }
  }

  /** The bits a short tail does not use are zero. */
  predicate TailIsZero(vs: seq<Sextet>) {
    (|vs| % 4 == 2 ==> vs[|vs| - 1] % 16 == 0) && (|vs| % 4 == 3 ==> vs[|vs| - 1] % 4 == 0)
  }

  /** Decoding then encoding returns the text exactly when its unused bits are zero: other
      texts are accepted for the same bytes. */
  lemma {:induction false} RepackIsCanonical(vs: seq<Sextet>)
    requires Unpack(vs).Some?
    ensures Pack(Unpack(vs).value) == vs <==> TailIsZero(vs)
    decreases |vs|
  {
    hide Sextet0, Sextet1, Sextet2, Sextet3, Byte0, Byte1, Byte2;
    if |vs| >= 4 {
      RepackIsCanonical(vs[4..]);
      RepackQuad(vs);
      if |vs| > 4 { assert vs[4..][|vs| - 5] == vs[|vs| - 1]; }
    } else if vs != [] {
      RepackTail(vs);
    }
  }

  lemma RepackTail(vs: seq<Sextet>)
    requires |vs| == 2 || |vs| == 3
    ensures Pack(Unpack(vs).value) == vs <==> TailIsZero(vs)
  {
    hide Sextet0, Sextet1, Sextet2, Sextet3, Byte0, Byte1, Byte2;
    QuadBits(vs[0], vs[1], if |vs| > 2 then vs[2] else 0, 0);
    var packed := Pack(Unpack(vs).value);
    assert |packed| == |vs| && packed[0] == vs[0];
    if |vs| == 3 { assert packed[1] == vs[1]; }
    assert packed == vs <==> packed[|vs| - 1] == vs[|vs| - 1];
  }

  lemma RepackQuad(vs: seq<Sextet>)
    requires |vs| >= 4 && Unpack(vs).Some?
    ensures Pack(Unpack(vs).value) == vs[..4] + Pack(Unpack(vs[4..]).value)
    ensures Pack(Unpack(vs).value) == vs <==> Pack(Unpack(vs[4..]).value) == vs[4..]
  {
    hide Sextet0, Sextet1, Sextet2, Sextet3, Byte0, Byte1, Byte2;
    QuadBits(vs[0], vs[1], vs[2], vs[3]);
    var rest := Unpack(vs[4..]).value;
    var raw := [Byte0(vs[0], vs[1]), Byte1(vs[1], vs[2]), Byte2(vs[2], vs[3])] + rest;
    assert Unpack(vs) == Some(raw);
    PackQuad(raw, vs[..4], rest);
    assert vs == vs[..4] + vs[4..];
    SamePrefix(vs[..4], Pack(rest), vs[4..]);
  }

  lemma PackQuad(raw: seq<Byte>, quad: seq<Sextet>, rest: seq<Byte>)
    requires |quad| == 4 && |raw| >= 3 && raw[3..] == rest
    requires quad[0] == Sextet0(raw[0]) && quad[1] == Sextet1(raw[0], raw[1])
    requires quad[2] == Sextet2(raw[1], raw[2]) && quad[3] == Sextet3(raw[2])
    ensures Pack(raw) == quad + Pack(rest)
  {
    hide Sextet0, Sextet1, Sextet2, Sextet3;
    assert quad == [quad[0], quad[1], quad[2], quad[3]];
  }

  lemma SamePrefix(p: seq<Sextet>, a: seq<Sextet>, b: seq<Sextet>)
    ensures p + a == p + b <==> a == b
  {
    assert (p + a)[|p|..] == a && (p + b)[|p|..] == b;
  }

  lemma ReencodeIsCanonical(text: string)
    requires Decode(text).Some?
    ensures Encode(Decode(text).value) == text <==> TailIsZero(SextetsOf(text).value)
  {
    var vs := SextetsOf(text).value;
    SextetsPrintBack(text);
    RepackIsCanonical(vs);
    CharsReadBack(Pack(Decode(text).value));
  }

  /** How many sextets name so many bytes. */
  lemma {:induction false} SizesCorrespond(vs: seq<Sextet>)
    requires Unpack(vs).Some?
    ensures |Unpack(vs).value| % 3 == 0 <==> |vs| % 4 == 0
    decreases |vs|
  {
    hide Byte0, Byte1, Byte2;
    if |vs| >= 4 { SizesCorrespond(vs[4..]); }
  }

  /** The same sextets, but for an unused bit of the last one. */
  function Flipped(vs: seq<Sextet>): seq<Sextet>
    requires |vs| % 4 >= 2 && TailIsZero(vs)
  {
    vs[|vs| - 1 := vs[|vs| - 1] + 1]
  }

  lemma UnusedBits(v: Sextet)
    ensures v % 16 == 0 ==> (v + 1) / 16 == v / 16
    ensures v % 4 == 0 ==> (v + 1) / 4 == v / 4
  {
  }

  lemma FlippedBytes(v: Sextet, w: Sextet)
    ensures w % 16 == 0 ==> w < 63 && Byte0(v, w + 1) == Byte0(v, w)
    ensures w % 4 == 0 ==> w < 63 && Byte1(v, w + 1) == Byte1(v, w)
  {
    UnusedBits(w);
  }

  lemma FlippedPair(v: Sextet, w: Sextet)
    requires w % 16 == 0
    ensures w < 63 && Unpack([v, w + 1]) == Unpack([v, w])
  {
    FlippedBytes(v, w);
    hide Byte0, Byte1, Byte2;
  }

  lemma FlippedTriple(v: Sextet, w: Sextet, x: Sextet)
    requires x % 4 == 0
    ensures x < 63 && Unpack([v, w, x + 1]) == Unpack([v, w, x])
  {
    FlippedBytes(w, x);
    hide Byte0, Byte1, Byte2;
  }

  lemma FlippedTail(vs: seq<Sextet>)
    requires 2 <= |vs| <= 3 && TailIsZero(vs)
    ensures Unpack(Flipped(vs)) == Unpack(vs)
  {
    hide Unpack;
    if |vs| == 2 {
      assert vs == [vs[0], vs[1]];
      FlippedPair(vs[0], vs[1]);
      assert Flipped(vs) == [vs[0], vs[1] + 1];
    } else {
      assert vs == [vs[0], vs[1], vs[2]];
      FlippedTriple(vs[0], vs[1], vs[2]);
      assert Flipped(vs) == [vs[0], vs[1], vs[2] + 1];
    }
  }

  lemma UnpacksAlike(a: seq<Sextet>, b: seq<Sextet>)
    requires |a| >= 4 && |b| >= 4 && a[0] == b[0] && a[1] == b[1] && a[2] == b[2] && a[3] == b[3]
    requires Unpack(a[4..]) == Unpack(b[4..])
    ensures Unpack(a) == Unpack(b)
  {
    hide Byte0, Byte1, Byte2;
  }

  lemma FlippedQuad(vs: seq<Sextet>)
    requires |vs| >= 4 && |vs| % 4 >= 2 && TailIsZero(vs)
    ensures TailIsZero(vs[4..]) && Flipped(vs)[4..] == Flipped(vs[4..])
    ensures forall i :: 0 <= i < 4 ==> Flipped(vs)[i] == vs[i]
  {
    assert vs[4..][|vs| - 5] == vs[|vs| - 1];
  }

  lemma {:induction false} FlippedUnpacksAlike(vs: seq<Sextet>)
    requires |vs| % 4 >= 2 && TailIsZero(vs)
    ensures Unpack(Flipped(vs)) == Unpack(vs)
    decreases |vs|
  {
    if |vs| >= 4 {
      FlippedQuad(vs);
      hide Flipped, Unpack, TailIsZero;
      FlippedUnpacksAlike(vs[4..]);
      UnpacksAlike(Flipped(vs), vs);
    } else {
      FlippedTail(vs);
    }
  }

  /** All texts of the same bytes have the same length. */
  lemma SameLength(text: string, raw: seq<Byte>)
    requires Decode(text) == Some(raw)
    ensures |text| == |Encode(raw)|
  {
    var vs := SextetsOf(text).value;
    SextetsPrintBack(text);
    CharsReadBack(vs);
    CharsReadBack(Pack(raw));
    RepackLength(vs);
  }

  lemma {:induction false} RepackLength(vs: seq<Sextet>)
    requires Unpack(vs).Some?
    ensures |Pack(Unpack(vs).value)| == |vs|
    decreases |vs|
  {
    if |vs| >= 4 {
      RepackLength(vs[4..]);
      RepackQuad(vs);
    }
  }

  /** An encoding has a second text exactly if its last sextet is not full, which its
      length shows. */
  lemma SecondTextIff(raw: seq<Byte>)
    ensures (exists text :: text != Encode(raw) && Decode(text) == Some(raw)) <==> |Encode(raw)| % 4 != 0
  {
    RoundTrip(raw);
    CharsReadBack(Pack(raw));
    SizesCorrespond(Pack(raw));
    PackUnpacks(raw);
    if |Encode(raw)| % 4 == 0 {
      forall text | Decode(text) == Some(raw) ensures text == Encode(raw) {
        SizesCorrespond(SextetsOf(text).value);
        ReencodeIsCanonical(text);
      }
    } else {
      DecodableLengths(Pack(raw));
      RepackIsCanonical(Pack(raw));
      var vs := Flipped(Pack(raw));
      FlippedUnpacksAlike(Pack(raw));
      CharsReadBack(vs);
      assert vs[|vs| - 1] != Pack(raw)[|vs| - 1];
      assert Decode(Chars(vs)) == Some(raw) && Chars(vs) != Encode(raw);
    }
  }
}
