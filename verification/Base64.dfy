/** Base64 byte fields (tuxstack-fs-protocol/src/lib.rs), section 4 of RFC 4648. */
module Base64 {
  import opened Common
  import opened Units

  const PAD: byte := 0x3D

  datatype Base64Error = BadLength | BadCharacter

  function Alphabet(n: byte): byte {
    if n < 26 then 0x41 + n
    else if n < 52 then 0x61 + (n - 26)
    else if n < 62 then 0x30 + (n - 52)
    else if n == 62 then 0x2B
    else 0x2F
  }

  function Value(b: byte): Option<byte> {
    if 0x41 <= b <= 0x5A then Some(b - 0x41)
    else if 0x61 <= b <= 0x7A then Some(b - 0x61 + 26)
    else if 0x30 <= b <= 0x39 then Some(b - 0x30 + 52)
    else if b == 0x2B then Some(62)
    else if b == 0x2F then Some(63)
    else None
  }

  predicate Whitespace(b: byte) { b == 0x20 || b == 0x09 || b == 0x0A || b == 0x0C || b == 0x0D }

  lemma ValueAlphabet(n: byte)
    requires n < 64
    ensures IsLetter(Alphabet, Value, n)
  {
  }

  /** The letter of a digit is read back, and is neither padding nor whitespace. */
  ghost predicate IsLetter(letter: byte -> byte, value: byte -> Option<byte>, n: byte) {
    value(letter(n)) == Some(n) && letter(n) != PAD && !Whitespace(letter(n))
  }

  // ----- three bytes and four digits -----

  datatype Three = Three(b0: byte, b1: byte, b2: byte)

  datatype Four = Four(d0: byte, d1: byte, d2: byte, d3: byte)

  function Digits(b: Three): Four {
    var t := (b.b0 as bv32 << 16) | (b.b1 as bv32 << 8) | (b.b2 as bv32);
    Four(((t >> 18) & 63) as byte, ((t >> 12) & 63) as byte, ((t >> 6) & 63) as byte, (t & 63) as byte)
  }

  function Octets(d: Four): Three {
    var t := (d.d0 as bv32 << 18) | (d.d1 as bv32 << 12) | (d.d2 as bv32 << 6) | (d.d3 as bv32);
    Three(((t >> 16) & 0xFF) as byte, ((t >> 8) & 0xFF) as byte, (t & 0xFF) as byte)
  }

  /** Regrouping bytes into digits and back; zero bytes leave the digits below them empty. */
  lemma Regroup(b: Three)
    ensures Octets(Digits(b)) == b
    ensures Digits(b).d0 < 64 && Digits(b).d1 < 64 && Digits(b).d2 < 64 && Digits(b).d3 < 64
    ensures b.b2 == 0 ==> Digits(b).d3 == 0 && Digits(b).d2 & 3 == 0
    ensures b.b1 == 0 && b.b2 == 0 ==> Digits(b).d2 == 0 && Digits(b).d1 & 15 == 0
  {
  }

  /** Regrouping digits into bytes and back; empty digits leave the bytes below them zero. */
  lemma Resplit(d: Four)
    requires d.d0 < 64 && d.d1 < 64 && d.d2 < 64 && d.d3 < 64
    ensures Digits(Octets(d)) == d
    ensures d.d3 == 0 && d.d2 & 3 == 0 ==> Octets(d).b2 == 0
    ensures d.d3 == 0 && d.d2 == 0 && d.d1 & 15 == 0 ==> Octets(d).b1 == 0 && Octets(d).b2 == 0
  {
  }

  // ----- encoding -----

  /** Three bytes at a time, fewer at the end. */
  function Chunk(s: Bytes): (n: nat)
    ensures n <= |s| && (n == 0 <==> s == [])
  {
    if |s| < 3 then |s| else 3
  }

  /** The bytes of a chunk, zero where it is short. */
  function Filled(c: Bytes): Three
    requires c != []
  {
    Three(c[0], if |c| > 1 then c[1] else 0, if |c| > 2 then c[2] else 0)
  }

  /** A chunk in letters, padded where it is short. */
  function Spell(letter: byte -> byte, digits: Three -> Four, c: Bytes): (r: Bytes)
    ensures c != [] ==> |r| == 4
  {
    if c == [] then []
    else
      var d := digits(Filled(c));
      [letter(d.d0), letter(d.d1), if |c| > 1 then letter(d.d2) else PAD, if |c| > 2 then letter(d.d3) else PAD]
  }

  function EncodeChunk(c: Bytes): Bytes { Spell(Alphabet, Digits, c) }

  function Encode(data: Bytes): Bytes { Translate(Chunk, EncodeChunk, data) }

  method EncodeBase64(data: Bytes) returns (out: Bytes)
    ensures out == Encode(data)
  {
    out := TranslateInto(Chunk, EncodeChunk, data, []);
  }

  // ----- decoding -----

  function Digit(value: byte -> Option<byte>, b: byte): Option<byte> { if b == PAD then Some(0) else value(b) }

  /** One quad: `=` counts as zero anywhere, and drops the third or fourth output byte. */
  function Read(value: byte -> Option<byte>, octets: Four -> Three, q: Bytes): Option<Bytes> {
    if |q| != 4 then None
    else match (Digit(value, q[0]), Digit(value, q[1]), Digit(value, q[2]), Digit(value, q[3]))
      case (Some(v0), Some(v1), Some(v2), Some(v3)) =>
        var b := octets(Four(v0, v1, v2, v3));
        Some([b.b0] + (if q[2] != PAD then [b.b1] else []) + (if q[3] != PAD then [b.b2] else []))
      case _ => None
  }

  function DecodeQuad(q: Bytes): Option<Bytes> { Read(Value, Octets, q) }

  /** Quad by quad, stopping at the first one that does not decode. */
  function Quads(quad: Bytes -> Option<Bytes>, s: Bytes): Result<Bytes, Base64Error>
    requires |s| % 4 == 0
  {
    if s == [] then Ok([])
    else match quad(s[..4])
      case None => Err(BadCharacter)
      case Some(b) => Prepend(b, Quads(quad, s[4..]))
  }

  method DecodeInto(quad: Bytes -> Option<Bytes>, clean: Bytes) returns (r: Result<Bytes, Base64Error>)
    requires |clean| % 4 == 0
    ensures r == Quads(quad, clean)
  {
    var out: Bytes := [];
    var i := 0;
    TakeAll(clean);
    PrependLaws([], [], Quads(quad, clean));
    while i < |clean|
      invariant i <= |clean| && i % 4 == 0
      invariant Quads(quad, clean) == Prepend(out, Quads(quad, clean[i..]))
    {
      DropDrop(clean, i, 4);
      var b := quad(clean[i..][..4]);
      if b.None? { return Err(BadCharacter); }
      PrependLaws(out, b.value, Quads(quad, clean[i + 4..]));
      out := out + b.value;
      i := i + 4;
    }
    assert clean[i..] == [] && out + [] == out;
    return Ok(out);
  }

  /** The input without whitespace. */
  function Squeeze(s: Bytes): Bytes {
    if s == [] then [] else if Whitespace(s[0]) then Squeeze(s[1..]) else [s[0]] + Squeeze(s[1..])
  }

  function Decode(input: Bytes): Result<Bytes, Base64Error> {
    var clean := Squeeze(input);
    if |clean| % 4 != 0 then Err(BadLength) else Quads(DecodeQuad, clean)
  }

  method DecodeBase64(input: Bytes) returns (r: Result<Bytes, Base64Error>)
    ensures r == Decode(input)
  {
    var clean := Squeeze(input);
    if |clean| % 4 != 0 { return Err(BadLength); }
    r := DecodeInto(DecodeQuad, clean);
  }

  // ----- round trip -----

  /** All four letters of a chunk are letters. */
  ghost predicate Lettered(letter: byte -> byte, value: byte -> Option<byte>, d: Four) {
    && IsLetter(letter, value, d.d0) && IsLetter(letter, value, d.d1)
    && IsLetter(letter, value, d.d2) && IsLetter(letter, value, d.d3)
  }

  /** One chunk is read back, whatever the letters and the regrouping, if both can be undone. */
  lemma SpellThenRead(letter: byte -> byte, value: byte -> Option<byte>, digits: Three -> Four, octets: Four -> Three,
                      c: Bytes)
    requires 1 <= |c| <= 3 && Lettered(letter, value, digits(Filled(c))) && octets(digits(Filled(c))) == Filled(c)
    requires |c| < 3 ==> digits(Filled(c)).d3 == 0
    requires |c| < 2 ==> digits(Filled(c)).d2 == 0
    ensures Read(value, octets, Spell(letter, digits, c)) == Some(c)
  {
    ChunkShape(c);
  }

  lemma AllLettered(b: Three)
    ensures Lettered(Alphabet, Value, Digits(b))
  {
    Regroup(b);
    ValueAlphabet(Digits(b).d0);
    ValueAlphabet(Digits(b).d1);
    ValueAlphabet(Digits(b).d2);
    ValueAlphabet(Digits(b).d3);
  }

  lemma ChunkRoundTrip(c: Bytes)
    requires 1 <= |c| <= 3
    ensures DecodeQuad(EncodeChunk(c)) == Some(c)
  {
    Regroup(Filled(c));
    AllLettered(Filled(c));
    SpellThenRead(Alphabet, Value, Digits, Octets, c);
  }

  lemma ChunkShape(c: Bytes)
    requires 1 <= |c| <= 3
    ensures c == [c[0]] + (if |c| > 1 then [c[1]] else []) + (if |c| > 2 then [c[2]] else [])
  {
  }

  lemma SpellClean(letter: byte -> byte, value: byte -> Option<byte>, digits: Three -> Four, c: Bytes)
    requires c != [] ==> Lettered(letter, value, digits(Filled(c)))
    ensures forall i :: 0 <= i < |Spell(letter, digits, c)| ==> !Whitespace(Spell(letter, digits, c)[i])
    ensures |c| >= 3 ==> PAD !in Spell(letter, digits, c)
  {
  }

  lemma ChunkClean(c: Bytes)
    ensures forall i :: 0 <= i < |EncodeChunk(c)| ==> !Whitespace(EncodeChunk(c)[i])
    ensures |c| >= 3 ==> PAD !in EncodeChunk(c)
  {
    if c != [] { AllLettered(Filled(c)); }
    SpellClean(Alphabet, Value, Digits, c);
  }

  lemma {:induction false} EncodeShape(data: Bytes)
    ensures |Encode(data)| == 4 * ((|data| + 2) / 3)
    ensures forall i :: 0 <= i < |Encode(data)| ==> !Whitespace(Encode(data)[i])
  {
    if data != [] {
      var n := Chunk(data);
      EncodeShape(data[n..]);
      ChunkClean(data[..n]);
    }
  }

  lemma {:induction false} SqueezeClean(s: Bytes)
    requires forall i :: 0 <= i < |s| ==> !Whitespace(s[i])
    ensures Squeeze(s) == s
  {
    if s != [] {
      SqueezeClean(s[1..]);
      HeadTail(s);
    }
  }

  /** Whole quads only. */
  lemma {:induction false} QuadLengths(code: Code, data: Bytes)
    requires forall c :: 1 <= |c| <= 3 ==> |code(c)| == 4
    ensures |Translate(Chunk, code, data)| % 4 == 0
  {
    if data != [] {
      var n := Chunk(data);
      QuadLengths(code, data[n..]);
      assert |Translate(Chunk, code, data)| == 4 + |Translate(Chunk, code, data[n..])|;
    }
  }

  /** If every chunk round-trips as one quad, every string does. */
  lemma {:induction false} QuadsRoundTrip(code: Code, quad: Bytes -> Option<Bytes>, data: Bytes)
    requires forall c :: 1 <= |c| <= 3 ==> |code(c)| == 4 && quad(code(c)) == Some(c)
    ensures |Translate(Chunk, code, data)| % 4 == 0
    ensures Quads(quad, Translate(Chunk, code, data)) == Ok(data)
  {
    QuadLengths(code, data);
    if data != [] {
      var n := Chunk(data);
      QuadsRoundTrip(code, quad, data[n..]);
      Prefix(code(data[..n]), Translate(Chunk, code, data[n..]));
      SplitAt(data, n);
    }
  }

  lemma Prefix<T>(a: seq<T>, b: seq<T>)
    ensures (a + b)[..|a|] == a && (a + b)[|a|..] == b
  {
  }

  /** decode(encode(b)) == b, with output length 4 * ceil(n / 3). */
  lemma RoundTrip(data: Bytes)
    ensures |Encode(data)| == 4 * ((|data| + 2) / 3)
    ensures Decode(Encode(data)) == Ok(data)
  {
    EncodeShape(data);
    SqueezeClean(Encode(data));
    forall c | 1 <= |c| <= 3 ensures |EncodeChunk(c)| == 4 && DecodeQuad(EncodeChunk(c)) == Some(c) {
      ChunkRoundTrip(c);
    }
    QuadsRoundTrip(EncodeChunk, DecodeQuad, data);
  }

  /** Space, tab, line feed, form feed and carriage return are ignored wherever they are. */
  lemma WhitespaceIgnored(a: Bytes, w: byte, b: Bytes)
    requires w in {0x20, 0x09, 0x0A, 0x0C, 0x0D}
    ensures Decode(a + [w] + b) == Decode(a + b)
  {
    SqueezeAppend(a + [w], b);
    SqueezeAppend(a, [w]);
    SqueezeAppend(a, b);
    assert [w][1..] == [] && Squeeze([w]) == [];
    assert Squeeze(a) + [] == Squeeze(a);
    assert Squeeze(a + [w] + b) == Squeeze(a + b);
  }

  lemma {:induction false} SqueezeAppend(a: Bytes, b: Bytes)
    ensures Squeeze(a + b) == Squeeze(a) + Squeeze(b)
  {
    if a == [] {
      assert a + b == b;
    } else {
      assert (a + b)[1..] == a[1..] + b && (a + b)[0] == a[0];
      SqueezeAppend(a[1..], b);
      Concat3([a[0]], Squeeze(a[1..]), Squeeze(b));
    }
  }

  /** Whole quads of anything else are refused for their first foreign character. */
  lemma ForeignRefused(s: Bytes)
    requires Decode(s).Ok?
    ensures forall i :: 0 <= i < |Squeeze(s)| ==> Squeeze(s)[i] == PAD || Value(Squeeze(s)[i]).Some?
  {
    QuadsKnown(Squeeze(s));
  }

  lemma {:induction false} QuadsKnown(s: Bytes)
    requires |s| % 4 == 0 && Quads(DecodeQuad, s).Ok?
    ensures forall i :: 0 <= i < |s| ==> s[i] == PAD || Value(s[i]).Some?
    decreases |s|
  {
    if s != [] {
      QuadsKnown(s[4..]);
      var q := s[..4];
      assert DecodeQuad(q).Some?;
      assert q[0] == s[0] && q[1] == s[1] && q[2] == s[2] && q[3] == s[3];
      assert forall i :: 4 <= i < |s| ==> s[i] == s[4..][i - 4];
    }
  }

  // ----- which inputs are encodings -----

  /** Whole quads without whitespace; padding only as the last one or two characters; unused bits zero. */
  predicate Canonical(s: Bytes) {
    && |s| % 4 == 0 && (forall i :: 0 <= i < |s| ==> !Whitespace(s[i]))
    && (forall i :: 0 <= i < |s| && s[i] == PAD ==> i >= |s| - 2 && s[|s| - 1] == PAD)
    && (s != [] ==> UnusedBitsZero(s[|s| - 3], s[|s| - 2], s[|s| - 1]))
  }

  /** The second, third and fourth character of the last quad. */
  predicate UnusedBitsZero(c1: byte, c2: byte, c3: byte) {
    && (c2 == PAD ==> Value(c1).Some? && Value(c1).value & 15 == 0)
    && (c2 != PAD && c3 == PAD ==> Value(c2).Some? && Value(c2).value & 3 == 0)
  }

  lemma AlphabetValue(b: byte)
    requires Value(b).Some?
    ensures Value(b).value < 64 && Alphabet(Value(b).value) == b
  {
  }

  /** One quad is spelled again, whatever the letters and the regrouping, if both can be undone. */
  lemma ReadThenSpell(letter: byte -> byte, value: byte -> Option<byte>, digits: Three -> Four, octets: Four -> Three,
                      q: Bytes, d: Four)
    requires |q| == 4 && q[0] != PAD && q[1] != PAD && (q[2] == PAD ==> q[3] == PAD)
    requires Digit(value, q[0]) == Some(d.d0) && Digit(value, q[1]) == Some(d.d1)
    requires Digit(value, q[2]) == Some(d.d2) && Digit(value, q[3]) == Some(d.d3)
    requires letter(d.d0) == q[0] && letter(d.d1) == q[1]
    requires (q[2] != PAD ==> letter(d.d2) == q[2]) && (q[3] != PAD ==> letter(d.d3) == q[3])
    requires digits(octets(d)) == d && (q[3] == PAD ==> octets(d).b2 == 0) && (q[2] == PAD ==> octets(d).b1 == 0)
    ensures Read(value, octets, q).Some?
    ensures Spell(letter, digits, Read(value, octets, q).value) == q
    ensures |Read(value, octets, q).value| == if q[2] == PAD then 1 else if q[3] == PAD then 2 else 3
  {
    var c, b := Read(value, octets, q).value, octets(d);
    assert Filled(c) == b;
  }

  lemma QuadRoundTrip(q: Bytes)
    requires |q| == 4 && DecodeQuad(q).Some? && q[0] != PAD && q[1] != PAD
    requires (q[2] == PAD ==> q[3] == PAD) && UnusedBitsZero(q[1], q[2], q[3])
    ensures EncodeChunk(DecodeQuad(q).value) == q
    ensures |DecodeQuad(q).value| == if q[2] == PAD then 1 else if q[3] == PAD then 2 else 3
  {
    var d := DigitsOf(q);
    ReadThenSpell(Alphabet, Value, Digits, Octets, q, d);
  }

  /** The digits of a canonical quad, with what is known about them. */
  lemma DigitsOf(q: Bytes) returns (d: Four)
    requires |q| == 4 && DecodeQuad(q).Some? && q[0] != PAD && q[1] != PAD
    requires (q[2] == PAD ==> q[3] == PAD) && UnusedBitsZero(q[1], q[2], q[3])
    ensures Digit(Value, q[0]) == Some(d.d0) && Digit(Value, q[1]) == Some(d.d1)
    ensures Digit(Value, q[2]) == Some(d.d2) && Digit(Value, q[3]) == Some(d.d3)
    ensures Alphabet(d.d0) == q[0] && Alphabet(d.d1) == q[1]
    ensures (q[2] != PAD ==> Alphabet(d.d2) == q[2]) && (q[3] != PAD ==> Alphabet(d.d3) == q[3])
    ensures Digits(Octets(d)) == d && (q[3] == PAD ==> Octets(d).b2 == 0) && (q[2] == PAD ==> Octets(d).b1 == 0)
  {
    d := Four(Digit(Value, q[0]).value, Digit(Value, q[1]).value, Digit(Value, q[2]).value, Digit(Value, q[3]).value);
    AlphabetValue(q[0]);
    AlphabetValue(q[1]);
    if q[2] != PAD { AlphabetValue(q[2]); }
    if q[3] != PAD { AlphabetValue(q[3]); }
    Resplit(d);
  }

  /** The first quad is full unless it is the last, and the rest is canonical again. */
  lemma CanonicalSplit(s: Bytes)
    requires Canonical(s) && s != []
    ensures s[0] != PAD && s[1] != PAD && (s[2] == PAD ==> s[3] == PAD) && UnusedBitsZero(s[1], s[2], s[3])
    ensures Canonical(s[4..]) && (s[4..] != [] ==> s[2] != PAD && s[3] != PAD)
  {
    var t := s[4..];
    assert forall i :: 0 <= i < |t| ==> t[i] == s[i + 4];
  }

  /** If every canonical quad is the code of its value, every canonical string is. */
  lemma {:induction false} CanonicalQuads(s: Bytes)
    requires Canonical(s) && Quads(DecodeQuad, s).Ok?
    ensures Encode(Quads(DecodeQuad, s).value) == s
    decreases |s|
  {
    if s != [] {
      var q, rest := s[..4], s[4..];
      CanonicalSplit(s);
      QuadRoundTrip(q);
      CanonicalQuads(rest);
      var c, data := DecodeQuad(q).value, Quads(DecodeQuad, rest).value;
      EncodeFirst(EncodeChunk, c, data);
      SplitAt(s, 4);
      if rest == [] { assert c + data == c; }
    }
  }

  lemma EncodeFirst(code: Code, c: Bytes, data: Bytes)
    requires 1 <= |c| <= 3 && (data != [] ==> |c| == 3)
    ensures Translate(Chunk, code, c + data) == code(c) + Translate(Chunk, code, data)
  {
    Prefix(c, data);
  }

  /** Every encoding is canonical. */
  lemma {:induction false} EncodeCanonical(data: Bytes)
    ensures Canonical(Encode(data))
  {
    if data != [] {
      var n := Chunk(data);
      EncodeCanonical(data[n..]);
      ChunkCanonical(data[..n]);
      JoinCanonical(EncodeChunk(data[..n]), Encode(data[n..]));
    }
  }

  /** The code of one to three bytes: padding at the end, nothing in the unused bits. */
  lemma ChunkCanonical(c: Bytes)
    requires 1 <= |c| <= 3
    ensures Canonical(EncodeChunk(c)) && (|c| == 3 ==> PAD !in EncodeChunk(c))
  {
    Regroup(Filled(c));
    AllLettered(Filled(c));
    SpellClean(Alphabet, Value, Digits, c);
    SpellEnd(Alphabet, Value, Digits, c);
  }

  /** Where the padding of one chunk is, and which digits are before it. */
  lemma SpellEnd(letter: byte -> byte, value: byte -> Option<byte>, digits: Three -> Four, c: Bytes)
    requires 1 <= |c| <= 3 && Lettered(letter, value, digits(Filled(c)))
    ensures var r := Spell(letter, digits, c);
            && (forall i :: 0 <= i < |r| && r[i] == PAD ==> i >= 2 && r[3] == PAD)
            && (r[2] == PAD <==> |c| == 1) && (r[3] == PAD <==> |c| < 3)
            && value(r[1]) == Some(digits(Filled(c)).d1) && (|c| > 1 ==> value(r[2]) == Some(digits(Filled(c)).d2))
  {
  }

  lemma JoinCanonical(q: Bytes, rest: Bytes)
    requires |q| == 4 && Canonical(q) && Canonical(rest) && (rest != [] ==> PAD !in q)
    ensures Canonical(q + rest)
  {
    var s := q + rest;
    forall i | 0 <= i < |s| ensures !Whitespace(s[i]) && (s[i] == PAD ==> i >= |s| - 2 && s[|s| - 1] == PAD) {
      if i < 4 { assert s[i] == q[i]; } else { assert s[i] == rest[i - 4]; }
    }
  }

  /** Encoding what an input decodes to gives the input back exactly when the input is canonical. */
  lemma DecodeThenEncode(s: Bytes)
    requires Decode(s).Ok?
    ensures Encode(Decode(s).value) == s <==> Canonical(s)
  {
    if Canonical(s) {
      SqueezeClean(s);
      CanonicalQuads(s);
    }
    EncodeCanonical(Decode(s).value);
  }

  /** The table of section 4 of RFC 4648: A to Z, a to z, 0 to 9, + and /. */
  lemma AlphabetTable()
    ensures Alphabet(0) == 0x41 && Alphabet(1) == 0x42 && Alphabet(2) == 0x43 && Alphabet(3) == 0x44
    ensures Alphabet(4) == 0x45 && Alphabet(5) == 0x46 && Alphabet(6) == 0x47 && Alphabet(7) == 0x48
    ensures Alphabet(8) == 0x49 && Alphabet(9) == 0x4A && Alphabet(10) == 0x4B && Alphabet(11) == 0x4C
    ensures Alphabet(12) == 0x4D && Alphabet(13) == 0x4E && Alphabet(14) == 0x4F && Alphabet(15) == 0x50
    ensures Alphabet(16) == 0x51 && Alphabet(17) == 0x52 && Alphabet(18) == 0x53 && Alphabet(19) == 0x54
    ensures Alphabet(20) == 0x55 && Alphabet(21) == 0x56 && Alphabet(22) == 0x57 && Alphabet(23) == 0x58
    ensures Alphabet(24) == 0x59 && Alphabet(25) == 0x5A && Alphabet(26) == 0x61 && Alphabet(27) == 0x62
    ensures Alphabet(28) == 0x63 && Alphabet(29) == 0x64 && Alphabet(30) == 0x65 && Alphabet(31) == 0x66
    ensures Alphabet(32) == 0x67 && Alphabet(33) == 0x68 && Alphabet(34) == 0x69 && Alphabet(35) == 0x6A
    ensures Alphabet(36) == 0x6B && Alphabet(37) == 0x6C && Alphabet(38) == 0x6D && Alphabet(39) == 0x6E
    ensures Alphabet(40) == 0x6F && Alphabet(41) == 0x70 && Alphabet(42) == 0x71 && Alphabet(43) == 0x72
    ensures Alphabet(44) == 0x73 && Alphabet(45) == 0x74 && Alphabet(46) == 0x75 && Alphabet(47) == 0x76
    ensures Alphabet(48) == 0x77 && Alphabet(49) == 0x78 && Alphabet(50) == 0x79 && Alphabet(51) == 0x7A
    ensures Alphabet(52) == 0x30 && Alphabet(53) == 0x31 && Alphabet(54) == 0x32 && Alphabet(55) == 0x33
    ensures Alphabet(56) == 0x34 && Alphabet(57) == 0x35 && Alphabet(58) == 0x36 && Alphabet(59) == 0x37
    ensures Alphabet(60) == 0x38 && Alphabet(61) == 0x39 && Alphabet(62) == 0x2B && Alphabet(63) == 0x2F
  {
  }

  /** Section 10 of RFC 4648: "f" is "Zg==", "fo" is "Zm8=" and "foo" is "Zm9v". */
  lemma Examples()
    ensures EncodeChunk([0x66]) == [0x5A, 0x67, PAD, PAD]
    ensures EncodeChunk([0x66, 0x6F]) == [0x5A, 0x6D, 0x38, PAD]
    ensures EncodeChunk([0x66, 0x6F, 0x6F]) == [0x5A, 0x6D, 0x39, 0x76]
  {
    assert Digits(Three(0x66, 0, 0)) == Four(25, 32, 0, 0);
    assert Digits(Three(0x66, 0x6F, 0)) == Four(25, 38, 60, 0);
    assert Digits(Three(0x66, 0x6F, 0x6F)) == Four(25, 38, 61, 47);
    AlphabetTable();
  }

  /** Decoding is not injective: padding is accepted in any position. */
  lemma DecodeNotInjective()
    ensures Decode([0x41, 0x41, 0x41, PAD]) == Decode([PAD, PAD, 0x41, PAD])
    ensures Decode([0x41, 0x41, 0x41, PAD]).Ok?
  {
    var a, b := [0x41, 0x41, 0x41, PAD], [PAD, PAD, 0x41, PAD];
    SqueezeClean(a);
    SqueezeClean(b);
    assert a[..4] == a && a[4..] == [] && b[..4] == b && b[4..] == [];
    assert DecodeQuad(a) == DecodeQuad(b);
    assert Quads(DecodeQuad, []) == Ok([]);
  }
}
