/** base64.RawStdEncoding: the standard alphabet of section 4 of RFC 4648 without
    padding (section 3.2). */
module Base64 {
  import opened Wrappers

  type Byte = b: int | 0 <= b < 256
  type Sextet = i: int | 0 <= i < 64

  function Symbol(i: Sextet): char {
    if i < 26 then 'A' + i as char
    else if i < 52 then 'a' + (i - 26) as char
    else if i < 62 then '0' + (i - 52) as char
    else if i == 62 then '+' else '/'
  }

  function Index(c: char): Option<Sextet> {
    if 'A' <= c <= 'Z' then Some((c - 'A') as int)
    else if 'a' <= c <= 'z' then Some((c - 'a') as int + 26)
    else if '0' <= c <= '9' then Some((c - '0') as int + 52)
    else if c == '+' then Some(62)
    else if c == '/' then Some(63)
    else None
  }

  lemma SymbolIndex(i: Sextet)
    ensures Index(Symbol(i)) == Some(i)
  {
  }

  // The four sextets of the bytes x, y, z, and those that end a text early.
  function High6(x: Byte): Sextet { x / 4 }
  function Low2High4(x: Byte, y: Byte): Sextet { x % 4 * 16 + y / 16 }
  function Low4High2(y: Byte, z: Byte): Sextet { y % 16 * 4 + z / 64 }
  function Low6(z: Byte): Sextet { z % 64 }
  function Low2(x: Byte): Sextet { x % 4 * 16 }
  function Low4(y: Byte): Sextet { y % 16 * 4 }

  // The three bytes of the sextets i, j, k, l.
  function FirstByte(i: Sextet, j: Sextet): Byte { i * 4 + j / 16 }
  function SecondByte(j: Sextet, k: Sextet): Byte { j % 16 * 16 + k / 4 }
  function ThirdByte(k: Sextet, l: Sextet): Byte { k % 4 * 64 + l }

  /** Three bytes are four sextets; a rest of one or two bytes is filled with
      zero bits and makes two or three sextets. */
  function Sextets(b: seq<Byte>): seq<Sextet> {
    if |b| == 0 then []
    else if |b| == 1 then [High6(b[0]), Low2(b[0])]
    else if |b| == 2 then [High6(b[0]), Low2High4(b[0], b[1]), Low4(b[1])]
    else [High6(b[0]), Low2High4(b[0], b[1]), Low4High2(b[1], b[2]), Low6(b[2])] + Sextets(b[3..])
  }

  /** The way back: the unused low bits of a rest are ignored, and a rest of one
      sextet is corrupt. */
  function Bytes(i: seq<Sextet>): Option<seq<Byte>> {
    if |i| == 0 then Some([])
    else if |i| == 1 then None
    else if |i| == 2 then Some([FirstByte(i[0], i[1])])
    else if |i| == 3 then Some([FirstByte(i[0], i[1]), SecondByte(i[1], i[2])])
    else
      match Bytes(i[4..])
      case None => None
      case Some(tail) => Some([FirstByte(i[0], i[1]), SecondByte(i[1], i[2]), ThirdByte(i[2], i[3])] + tail)
  }

  lemma BitsRoundTrip(x: Byte, y: Byte, z: Byte)
    ensures FirstByte(High6(x), Low2High4(x, y)) == x
    ensures SecondByte(Low2High4(x, y), Low4High2(y, z)) == y
    ensures ThirdByte(Low4High2(y, z), Low6(z)) == z
  {
  }

  function Symbols(i: seq<Sextet>): string {
    seq(|i|, k requires 0 <= k < |i| => Symbol(i[k]))
  }

  /** The sextets of a text; the decoder skips carriage returns and line feeds
      and rejects every other byte outside the alphabet. */
  function Indices(s: string): Option<seq<Sextet>> {
    if s == [] then Some([])
    else if s[0] == '\r' || s[0] == '\n' then Indices(s[1..])
    else
      match (Index(s[0]), Indices(s[1..]))
      case (Some(i), Some(rest)) => Some([i] + rest)
      case _ => None
  }

  function Encode(b: seq<Byte>): string {
    Symbols(Sextets(b))
  }

  function Decode(s: string): Option<seq<Byte>> {
    match Indices(s)
    case None => None
    case Some(i) => Bytes(i)
  }

  lemma {:induction false} IndicesOfSymbols(i: seq<Sextet>)
    ensures Indices(Symbols(i)) == Some(i)
  {
    if i != [] {
      SymbolIndex(i[0]);
      assert Symbols(i)[1..] == Symbols(i[1..]);
      IndicesOfSymbols(i[1..]);
      assert [i[0]] + i[1..] == i;
    }
  }

  /** One full quantum in front of a text that decodes. */
  lemma QuantumInFront(x: Byte, y: Byte, z: Byte, i: seq<Sextet>, tail: seq<Byte>)
    requires Bytes(i) == Some(tail)
    ensures Bytes([High6(x), Low2High4(x, y), Low4High2(y, z), Low6(z)] + i) == Some([x, y, z] + tail)
  {
    BitsRoundTrip(x, y, z);
    assert ([High6(x), Low2High4(x, y), Low4High2(y, z), Low6(z)] + i)[4..] == i;
  }

  lemma OneByte(x: Byte)
    ensures Bytes(Sextets([x])) == Some([x])
  {
  }

  lemma TwoBytesBits(x: Byte, y: Byte)
    ensures FirstByte(High6(x), Low2High4(x, y)) == x && SecondByte(Low2High4(x, y), Low4(y)) == y
  {
    BitsRoundTrip(x, y, y);
    assert Low2High4(x, y) % 16 == y / 16 && Low4(y) / 4 == y % 16;
  }

  lemma TwoBytes(x: Byte, y: Byte)
    ensures Bytes(Sextets([x, y])) == Some([x, y])
  {
    TwoBytesBits(x, y);
    var i, j, k := High6(x), Low2High4(x, y), Low4(y);
    assert Sextets([x, y]) == [i, j, k];
    assert Bytes([i, j, k]) == Some([FirstByte(i, j), SecondByte(j, k)]);
  }

  lemma {:induction false} BytesOfSextets(b: seq<Byte>)
    ensures Bytes(Sextets(b)) == Some(b)
  {
    if |b| == 1 {
      var x := b[0];
      assert b == [x];
      OneByte(x);
    } else if |b| == 2 {
      var x, y := b[0], b[1];
      assert b == [x, y];
      TwoBytes(x, y);
    } else if |b| >= 3 {
      BytesOfSextets(b[3..]);
      QuantumInFront(b[0], b[1], b[2], Sextets(b[3..]), b[3..]);
      assert [b[0], b[1], b[2]] + b[3..] == b;
    }
  }

  lemma RoundTrip(b: seq<Byte>)
    ensures Decode(Encode(b)) == Some(b)
  {
    IndicesOfSymbols(Sextets(b));
    BytesOfSextets(b);
  }

  /** Encoded text stays inside the alphabet, so '$' cannot occur in it. */
  lemma EncodeAlphabet(b: seq<Byte>)
    ensures forall k :: 0 <= k < |Encode(b)| ==> Index(Encode(b)[k]).Some?
  {
    forall k | 0 <= k < |Encode(b)| ensures Index(Encode(b)[k]).Some? {
      SymbolIndex(Sextets(b)[k]);
    }
  }

  /** Test vectors of section 10 of RFC 4648: "f", "fo", "foo". */
  lemma Vectors()
    ensures Encode([102]) == "Zg"
    ensures Encode([102, 111]) == "Zm8"
    ensures Encode([102, 111, 111]) == "Zm9v"
  {
    var one, two, three := Sextets([102]), Sextets([102, 111]), Sextets([102, 111, 111]);
    assert one == [25, 32];
    assert two == [25, 38, 60];
    assert three == [25, 38, 61, 47];
    assert Symbols(one) == [Symbol(25), Symbol(32)];
    assert Symbols(two) == [Symbol(25), Symbol(38), Symbol(60)];
    assert Symbols(three) == [Symbol(25), Symbol(38), Symbol(61), Symbol(47)];
  }
}
