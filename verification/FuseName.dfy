/**
 The reversible name codec (tuxstack-vfs/src/path.rs, FuseNameCodec): any NUL-free byte string,
 valid UTF-8 or not, becomes a printable file name and back. Strings of the original are
 represented by their UTF-8 bytes.
 */
module FuseName {
  import opened Common
  import opened VfsPath
  import opened Units

  // ----- UTF-8 (table 3-7 of the Unicode standard) -----

  predicate Continuation(b: byte) { 0x80 <= b <= 0xBF }

  /** The sequence length announced by a lead byte; 0 for a byte that cannot lead. */
  function Width(b: byte): nat {
    if b < 0x80 then 1
    else if 0xC2 <= b <= 0xDF then 2
    else if 0xE0 <= b <= 0xEF then 3
    else if 0xF0 <= b <= 0xF4 then 4
    else 0
  }

  predicate SecondByte(lead: byte, b: byte) {
    if lead == 0xE0 then 0xA0 <= b <= 0xBF
    else if lead == 0xED then 0x80 <= b <= 0x9F
    else if lead == 0xF0 then 0x90 <= b <= 0xBF
    else if lead == 0xF4 then 0x80 <= b <= 0x8F
    else Continuation(b)
  }

  /** The length of the well-formed character at the front of `s`, or 0. */
  function CharLen(s: Bytes): (n: nat)
    ensures n <= |s| && n <= 4
  {
    if s == [] then 0
    else
      var w := Width(s[0]);
      if w == 1 then 1
      else if w == 0 || |s| < w || !SecondByte(s[0], s[1]) then 0
      else if w >= 3 && !Continuation(s[2]) then 0
      else if w == 4 && !Continuation(s[3]) then 0
      else w
  }

  /** Utf8Error::error_len, with "rest of the input" for a truncated character. */
  function BadLen(s: Bytes): (n: nat)
    requires s != [] && CharLen(s) == 0
    ensures 1 <= n <= |s|
  {
    if Width(s[0]) == 0 then 1
    else if |s| < 2 then |s|
    else if !SecondByte(s[0], s[1]) then 1
    else if |s| < 3 then |s|
    else if !Continuation(s[2]) then 2
    else if |s| < 4 then |s|
    else 3
  }

  /** Utf8Error::valid_up_to. */
  function ValidUpTo(s: Bytes): nat { UpTo(CharLen, s) }

  predicate ValidUtf8(s: Bytes) { ValidUpTo(s) == |s| }

  lemma CharLenLocal(s: Bytes, t: Bytes)
    requires CharLen(s) > 0 && |t| >= CharLen(s) && t[..CharLen(s)] == s[..CharLen(s)]
    ensures CharLen(t) == CharLen(s)
  {
    var n := CharLen(s);
    assert forall i :: 0 <= i < n ==> t[i] == t[..n][i] && s[i] == s[..n][i];
  }

  // ----- percent escapes -----

  function HexDigit(n: byte): byte { if n < 10 then 0x30 + n else 0x37 + n }

  function HexValue(b: byte): Option<byte> {
    if 0x30 <= b <= 0x39 then Some(b - 0x30)
    else if 0x61 <= b <= 0x66 then Some(b - 0x61 + 10)
    else if 0x41 <= b <= 0x46 then Some(b - 0x41 + 10)
    else None
  }

  function Escape(b: byte): Bytes { [PERCENT, HexDigit(b >> 4), HexDigit(b & 0x0F)] }

  function Escapes(s: Bytes): Bytes {
    if s == [] then [] else Escape(s[0]) + Escapes(s[1..])
  }

  lemma HexRoundTrip(b: byte)
    ensures HexValue(HexDigit(b >> 4)) == Some(b >> 4)
    ensures HexValue(HexDigit(b & 0x0F)) == Some(b & 0x0F)
    ensures ((b >> 4) << 4) | (b & 0x0F) == b
    ensures 0x30 <= HexDigit(b >> 4) <= 0x46 && 0x30 <= HexDigit(b & 0x0F) <= 0x46
  {
  }

  // ----- the encoding, character by character -----

  /** is_safe: no control character and none of / : @ % \. */
  predicate Safe(c: Bytes) {
    if |c| == 1 then c[0] >= 0x20 && c[0] < 0x7F && c[0] !in {SLASH, 0x3A, 0x40, PERCENT, 0x5C}
    else if |c| == 2 then !(c[0] == 0xC2 && c[1] < 0xA0)
    else true
  }

  /** One well-formed character, or one malformed run. */
  function Unit(s: Bytes): (n: nat)
    ensures n <= |s| && (n == 0 <==> s == [])
  {
    if s == [] then 0 else if CharLen(s) > 0 then CharLen(s) else BadLen(s)
  }

  /** A safe character stays as it is; every byte of anything else is escaped. */
  function EncodeUnit(u: Bytes): Bytes {
    if CharLen(u) == |u| && Safe(u) then u else Escapes(u)
  }

  function EncodeAll(s: Bytes): Bytes { Translate(Unit, EncodeUnit, s) }

  /** FuseNameCodec::encode. */
  function Encode(name: Bytes): Result<Bytes, VfsError> {
    if 0 in name then Err(InvalidInput)
    else if name == [DOT] then Ok(Escape(DOT))
    else if name == [DOT, DOT] then Ok(Escape(DOT) + Escape(DOT))
    else Ok(EncodeAll(name))
  }

  /** Whether a character is well-formed does not depend on what follows it. */
  lemma CharactersLocal()
    ensures Local(CharLen, Unit)
  {
    forall s: Bytes, v: nat ensures LocalAt(CharLen, Unit, s, v) {
      if 0 < CharLen(s) <= v <= |s| {
        SliceDrop(s, CharLen(s), v);
        CharLenLocal(s, s[..v]);
      }
    }
  }

  /** A malformed run is never by itself a well-formed character. */
  lemma BadIsBad(s: Bytes)
    requires s != [] && CharLen(s) == 0
    ensures EncodeUnit(s[..BadLen(s)]) == Escapes(s[..BadLen(s)])
  {
    var run := s[..BadLen(s)];
    if CharLen(run) == |run| {
      SliceDrop(s, BadLen(s), BadLen(s));
      CharLenLocal(run, s);
    }
  }

  /** The reference, a byte at a time where no character starts. */
  function EncodeSimply(s: Bytes): Bytes
    decreases |s|
  {
    if s == [] then []
    else if CharLen(s) > 0 then EncodeUnit(s[..CharLen(s)]) + EncodeSimply(s[CharLen(s)..])
    else Escape(s[0]) + EncodeSimply(s[1..])
  }

  /** No character starts within a malformed run. */
  lemma RunHoldsNoCharacter(s: Bytes, i: nat)
    requires s != [] && CharLen(s) == 0 && i < BadLen(s)
    ensures CharLen(s[i..]) == 0
  {
    TakeAll(s);
    if i > 0 { assert s[i..][0] == s[i] && Continuation(s[i]); }
  }

  lemma {:induction false} SimplyByRun(s: Bytes, n: nat)
    requires n <= |s| && forall i :: 0 <= i < n ==> CharLen(s[i..]) == 0
    ensures EncodeSimply(s) == Escapes(s[..n]) + EncodeSimply(s[n..])
    decreases n
  {
    if n == 0 {
      TakeAll(s);
      assert s[..0] == [];
    } else {
      TakeAll(s);
      assert CharLen(s[0..]) == 0;
      forall i | 0 <= i < n - 1 ensures CharLen(s[1..][i..]) == 0 {
        DropDrop(s, 1, i);
        assert CharLen(s[i + 1..]) == 0;
      }
      SimplyByRun(s[1..], n - 1);
      DropDrop(s, 1, n - 1);
      assert s[..n][1..] == s[1..][..n - 1] && s[..n][0] == s[0];
      Concat3(Escape(s[0]), Escapes(s[1..][..n - 1]), EncodeSimply(s[n..]));
    }
  }

  /** How malformed bytes are grouped into runs does not matter. */
  lemma {:induction false} EncodesSimply(s: Bytes)
    ensures EncodeAll(s) == EncodeSimply(s)
    decreases |s|
  {
    if s != [] {
      var n := Unit(s);
      EncodesSimply(s[n..]);
      if CharLen(s) == 0 {
        forall i: nat | i < n ensures CharLen(s[i..]) == 0 { RunHoldsNoCharacter(s, i); }
        SimplyByRun(s, n);
        BadIsBad(s);
      }
    }
  }

  /**
   The codec's cursor loop: a stretch up to the first malformed byte is encoded character by
   character, then one malformed run is escaped, until the input is used up.
   */
  method EncodeBytes(name: Bytes) returns (encoded: Bytes)
    ensures encoded == EncodeAll(name)
  {
    CharactersLocal();
    forall t ensures StretchesAt(Unit, EncodeUnit, Escapes, ValidUpTo, t) {
      UpToReaches(CharLen, Unit, t);
      UpToStops(CharLen, t);
      if ValidUpTo(t) < |t| { BadIsBad(t[ValidUpTo(t)..]); }
    }
    encoded := TranslateByStretch(Unit, EncodeUnit, Escapes, ValidUpTo, name);
  }

  method EncodeName(name: Bytes) returns (r: Result<Bytes, VfsError>)
    ensures r == Encode(name)
  {
    if 0 in name { return Err(InvalidInput); }
    if name == [DOT] { return Ok(Escape(DOT)); }
    if name == [DOT, DOT] { return Ok(Escape(DOT) + Escape(DOT)); }
    var encoded := EncodeBytes(name);
    return Ok(encoded);
  }

  // ----- decoding -----

  /** FuseNameCodec::decode; its argument is a string, hence well-formed UTF-8. */
  function Decode(e: Bytes): Result<Bytes, VfsError>
    requires ValidUtf8(e)
    decreases |e|
  {
    if e == [] then Ok([])
    else if e[0] == PERCENT then
      if |e| < 3 then Err(InvalidEncoding)
      else match (HexValue(e[1]), HexValue(e[2]))
        case (Some(high), Some(low)) =>
          (AsciiSplit(e);
           if (high << 4) | low == 0 then Err(InvalidInput)
           else Prepend([(high << 4) | low], Decode(e[3..])))
        case _ => Err(InvalidEncoding)
    else
      Prepend(e[..CharLen(e)], Decode(e[CharLen(e)..]))
  }

  /** Escapes are ASCII, so the text after one is again well-formed. */
  lemma AsciiSplit(e: Bytes)
    requires ValidUtf8(e) && |e| >= 3 && e[0] < 0x80 && HexValue(e[1]).Some? && HexValue(e[2]).Some?
    ensures ValidUtf8(e[3..])
  {
    assert CharLen(e) == 1 && ValidUtf8(e[1..]);
    assert e[1..][1..] == e[2..];
    assert CharLen(e[1..]) == 1 && ValidUtf8(e[2..]);
    assert e[2..][1..] == e[3..];
    assert CharLen(e[2..]) == 1;
  }

  method DecodeName(e: Bytes) returns (r: Result<Bytes, VfsError>)
    requires ValidUtf8(e)
    ensures r == Decode(e)
  {
    var result: Bytes := [];
    var index := 0;
    TakeAll(e);
    PrependLaws([], [], Decode(e));
    while index < |e|
      invariant index <= |e| && ValidUtf8(e[index..])
      invariant Decode(e) == Prepend(result, Decode(e[index..]))
    {
      ghost var rest := e[index..];
      if e[index] == PERCENT {
        if index + 2 >= |e| { return Err(InvalidEncoding); }
        var high := HexValue(e[index + 1]);
        if high.None? { return Err(InvalidEncoding); }
        var low := HexValue(e[index + 2]);
        if low.None? { return Err(InvalidEncoding); }
        var b := (high.value << 4) | low.value;
        if b == 0 { return Err(InvalidInput); }
        AsciiSplit(rest);
        DropDrop(e, index, 3);
        PrependLaws(result, [b], Decode(rest[3..]));
        result := result + [b];
        index := index + 3;
      } else {
        var c := CharLen(e[index..]);
        DropDrop(e, index, c);
        PrependLaws(result, rest[..c], Decode(rest[c..]));
        result := result + e[index..][..c];
        index := index + c;
      }
    }
    assert e[|e|..] == [];
    assert result + [] == result;
    r := Ok(result);
  }

  /** Text without escapes stands for itself, whatever follows. */
  lemma {:induction false} PlainDecodes(p: Bytes, e: Bytes)
    requires ValidUtf8(p) && PERCENT !in p && ValidUtf8(p + e)
    ensures ValidUtf8(e) && Decode(p + e) == Prepend(p, Decode(e))
    decreases |p|
  {
    if p == [] {
      assert p + e == e;
      PrependLaws([], [], Decode(e));
    } else {
      var c := CharLen(p);
      assert (p + e)[..c] == p[..c] && (p + e)[c..] == p[c..] + e;
      CharLenLocal(p, p + e);
      PlainDecodes(p[c..], e);
      PrependLaws(p[..c], p[c..], Decode(e));
      SplitAt(p, c);
      assert p[0] in p;
    }
  }

  /** Hexadecimal digits are read in either case, and nothing else is. */
  lemma HexDigitsRead(b: byte)
    ensures HexValue(b).Some? <==> (0x30 <= b <= 0x39) || (0x41 <= b <= 0x46) || (0x61 <= b <= 0x66)
    ensures 0x41 <= b <= 0x46 ==> HexValue(b) == HexValue(b + 0x20)
  {
  }

  /** An escape that is cut short, has a bad digit or stands for NUL is refused, wherever it is. */
  lemma BadEscapes(p: Bytes, e: Bytes)
    requires ValidUtf8(p) && PERCENT !in p && e != [] && e[0] == PERCENT && ValidUtf8(p + e)
    ensures |e| < 3 || HexValue(e[1]).None? || HexValue(e[2]).None? ==> Decode(p + e) == Err(InvalidEncoding)
    ensures Ascii("%00") <= e ==> Decode(p + e) == Err(InvalidInput)
  {
    PlainDecodes(p, e);
    if Ascii("%00") <= e { ZeroEscape(e); }
  }

  lemma ZeroEscape(e: Bytes)
    requires Ascii("%00") <= e && ValidUtf8(e)
    ensures Decode(e) == Err(InvalidInput)
  {
    var z := Ascii("%00");
    assert z[0] == PERCENT && z[1] == 0x30 && z[2] == 0x30;
    assert e[0] == z[0] && e[1] == z[1] && e[2] == z[2];
    assert HexValue(0x30) == Some(0);
  }

  // ----- round trip -----

  /** `e` is well-formed text that decodes to `s`. */
  ghost predicate Reads(e: Bytes, s: Bytes) { ValidUtf8(e) && Decode(e) == Ok(s) }

  lemma ReadsEscape(b: byte, e: Bytes, s: Bytes)
    requires b != 0 && Reads(e, s)
    ensures Reads(Escape(b) + e, [b] + s)
  {
    HexRoundTrip(b);
    var t := Escape(b) + e;
    assert t[1..][1..] == t[2..] && t[2..][1..] == t[3..] && t[3..] == e;
    assert CharLen(t) == 1 && CharLen(t[1..]) == 1 && CharLen(t[2..]) == 1;
    assert ValidUtf8(t[2..]) && ValidUtf8(t[1..]) && ValidUtf8(t);
  }

  /** Any relation kept by one escape is kept by a run of escapes. */
  lemma {:induction false} EscapesCompose(rel: (Bytes, Bytes) -> bool, run: Bytes, e: Bytes, s: Bytes)
    requires forall b: byte, t, u :: b != 0 && rel(t, u) ==> rel(Escape(b) + t, [b] + u)
    requires 0 !in run && rel(e, s)
    ensures rel(Escapes(run) + e, run + s)
  {
    if run == [] {
      assert Escapes(run) + e == e && run + s == s;
    } else {
      EscapesCompose(rel, run[1..], e, s);
      var tail, text := Escapes(run[1..]) + e, run[1..] + s;
      assert rel(Escape(run[0]) + tail, [run[0]] + text);
      Concat3(Escape(run[0]), Escapes(run[1..]), e);
      HeadTail(run);
      Concat3([run[0]], run[1..], s);
    }
  }

  lemma ReadsEscapes(run: Bytes, e: Bytes, s: Bytes)
    requires 0 !in run && Reads(e, s)
    ensures Reads(Escapes(run) + e, run + s)
  {
    forall b: byte, t, u | b != 0 && Reads(t, u) ensures Reads(Escape(b) + t, [b] + u) {
      ReadsEscape(b, t, u);
    }
    EscapesCompose(Reads, run, e, s);
  }

  lemma ReadsChar(c: Bytes, e: Bytes, s: Bytes)
    requires c != [] && CharLen(c) == |c| && Safe(c) && Reads(e, s)
    ensures Reads(c + e, c + s)
  {
    assert (c + e)[..|c|] == c[..|c|];
    CharLenLocal(c, c + e);
    assert (c + e)[|c|..] == e;
    assert c[0] != PERCENT;
  }

  /** Every unit reads back as itself. */
  lemma ReadsUnit(u: Bytes, e: Bytes, s: Bytes)
    requires u != [] && 0 !in u && Reads(e, s)
    ensures Reads(EncodeUnit(u) + e, u + s)
  {
    if CharLen(u) == |u| && Safe(u) {
      ReadsChar(u, e, s);
    } else {
      ReadsEscapes(u, e, s);
    }
  }

  lemma {:induction false} EncodeAllReads(s: Bytes)
    requires 0 !in s
    ensures Reads(EncodeAll(s), s)
    decreases |s|
  {
    if s != [] {
      var n := Unit(s);
      EncodeAllReads(s[n..]);
      ReadsUnit(s[..n], EncodeAll(s[n..]), s[n..]);
      SplitAt(s, n);
    }
  }

  /** decode(encode(n)) == n for every NUL-free byte string. */
  lemma RoundTrip(name: Bytes)
    requires 0 !in name
    ensures Encode(name).Ok? && ValidUtf8(Encode(name).value)
    ensures Decode(Encode(name).value) == Ok(name)
  {
    assert Reads([], []);
    if name == [DOT] {
      ReadsEscape(DOT, [], []);
      assert Escape(DOT) + [] == Escape(DOT);
      assert [DOT] + [] == [DOT];
    } else if name == [DOT, DOT] {
      ReadsEscape(DOT, [], []);
      assert [DOT] + [] == [DOT];
      ReadsEscape(DOT, Escape(DOT) + [], [DOT]);
      assert Escape(DOT) + (Escape(DOT) + []) == Escape(DOT) + Escape(DOT);
      assert [DOT] + [DOT] == [DOT, DOT];
    } else {
      EncodeAllReads(name);
    }
  }

  /** Distinct names have distinct encodings. */
  lemma EncodeInjective(m: Bytes, n: Bytes)
    requires Encode(m).Ok? && Encode(m) == Encode(n)
    ensures m == n
  {
    RoundTrip(m);
    RoundTrip(n);
  }

  // ----- shape of an encoded name -----

  /** No control byte and none of / : @ \. */
  ghost predicate Clean(e: Bytes) {
    forall i :: 0 <= i < |e| ==> e[i] >= 0x20 && e[i] != 0x7F && e[i] !in {SLASH, 0x3A, 0x40, 0x5C}
  }

  /** The code point of a well-formed character. */
  function CodePoint(c: Bytes): bv32
    requires 1 <= |c| <= 4
  {
    if |c| == 1 then c[0] as bv32
    else if |c| == 2 then ((c[0] & 0x1F) as bv32 << 6) | (c[1] & 0x3F) as bv32
    else if |c| == 3 then ((c[0] & 0x0F) as bv32 << 12) | ((c[1] & 0x3F) as bv32 << 6) | (c[2] & 0x3F) as bv32
    else ((c[0] & 0x07) as bv32 << 18) | ((c[1] & 0x3F) as bv32 << 12) | ((c[2] & 0x3F) as bv32 << 6)
         | (c[3] & 0x3F) as bv32
  }

  /** Unicode scalar values: code points without the surrogates. */
  predicate IsScalar(p: bv32) { p < 0xD800 || 0xE000 <= p < 0x110000 }

  /** The UTF-8 encoding form (section 3.9 of the Unicode standard, table 3-6). */
  function Utf8(p: bv32): Bytes {
    if p < 0x80 then [p as byte]
    else if p < 0x800 then [(0xC0 | ((p >> 6) & 0x1F)) as byte, (0x80 | (p & 0x3F)) as byte]
    else if p < 0x10000 then
      [(0xE0 | ((p >> 12) & 0x0F)) as byte, (0x80 | ((p >> 6) & 0x3F)) as byte, (0x80 | (p & 0x3F)) as byte]
    else
      [(0xF0 | ((p >> 18) & 0x07)) as byte, (0x80 | ((p >> 12) & 0x3F)) as byte, (0x80 | ((p >> 6) & 0x3F)) as byte,
       (0x80 | (p & 0x3F)) as byte]
  }

  /** Every scalar value is a character. */
  lemma ScalarIsCharacter(p: bv32)
    requires IsScalar(p)
    ensures CharLen(Utf8(p)) == |Utf8(p)|
  {
  }

  /** The character is a scalar value in its only encoding. */
  predicate Encodes(c: Bytes)
    requires 1 <= |c| <= 4
  {
    IsScalar(CodePoint(c)) && Utf8(CodePoint(c)) == c
  }

  lemma CharacterIsScalar(c: Bytes)
    requires c != [] && CharLen(c) == |c|
    ensures Encodes(c)
  {
    match |c|
    case 1 => assert c == [c[0]];
    case 2 => TwoEncodes(c);
    case 3 => ThreeEncodes(c);
    case _ => FourEncodes(c);
  }

  lemma TwoEncodes(c: Bytes)
    requires |c| == 2 && CharLen(c) == 2
    ensures Encodes(c)
  {
    assert c == [c[0], c[1]];
    TwoBytes(c[0], c[1]);
  }

  lemma ThreeEncodes(c: Bytes)
    requires |c| == 3 && CharLen(c) == 3
    ensures Encodes(c)
  {
    ThreeInRange(c);
    ThreeSpelled(c, CodePoint(c));
  }

  lemma ThreeInRange(c: Bytes)
    requires |c| == 3 && CharLen(c) == 3
    ensures 0x800 <= CodePoint(c) < 0x10000 && IsScalar(CodePoint(c))
  {
    ThreeRange(c[0], c[1], c[2], CodePoint(c));
  }

  lemma ThreeSpelled(c: Bytes, p: bv32)
    requires |c| == 3 && 0xE0 <= c[0] <= 0xEF && 0x80 <= c[1] <= 0xBF && 0x80 <= c[2] <= 0xBF
    requires p == CodePoint(c) && 0x800 <= p < 0x10000
    ensures Utf8(p) == c
  {
    ThreeBytes(c[0], c[1], c[2], p);
    ThreeLetters(c, Utf8(p));
  }

  lemma ThreeLetters(c: Bytes, d: Bytes)
    requires |c| == 3 && d == [c[0], c[1], c[2]]
    ensures c == d
  {
  }

  lemma FourEncodes(c: Bytes)
    requires |c| == 4 && CharLen(c) == 4
    ensures Encodes(c)
  {
    FourInRange(c);
    FourSpelled(c);
  }

  lemma FourInRange(c: Bytes)
    requires |c| == 4 && CharLen(c) == 4
    ensures 0x10000 <= CodePoint(c) && IsScalar(CodePoint(c))
  {
    FourRange(c[0], c[1], c[2], c[3], CodePoint(c));
  }

  lemma FourSpelled(c: Bytes)
    requires |c| == 4 && CharLen(c) == 4 && 0x10000 <= CodePoint(c)
    ensures Utf8(CodePoint(c)) == c
  {
    assert c == [c[0], c[1], c[2], c[3]];
    FourBytes(c[0], c[1], c[2], c[3], CodePoint(c));
  }

  lemma TwoBytes(a: byte, b: byte)
    requires Width(a) == 2 && SecondByte(a, b)
    ensures IsScalar(CodePoint([a, b])) && Utf8(CodePoint([a, b])) == [a, b]
  {
  }

  lemma ThreeBytes(a: byte, b: byte, c: byte, p: bv32)
    requires 0xE0 <= a <= 0xEF && 0x80 <= b <= 0xBF && 0x80 <= c <= 0xBF && 0x800 <= p < 0x10000
    requires p == ((a & 0x0F) as bv32 << 12) | ((b & 0x3F) as bv32 << 6) | (c & 0x3F) as bv32
    ensures Utf8(p) == [a, b, c]
  {
    ThreeBits(a, b, c, p);
    ThreeUtf8(a, b, c, p);
  }

  lemma ThreeUtf8(a: byte, b: byte, c: byte, p: bv32)
    requires 0x800 <= p < 0x10000 && (0xE0 | ((p >> 12) & 0x0F)) as byte == a
    requires (0x80 | ((p >> 6) & 0x3F)) as byte == b && (0x80 | (p & 0x3F)) as byte == c
    ensures Utf8(p) == [a, b, c]
  {
  }

  lemma ThreeRange(a: byte, b: byte, c: byte, p: bv32)
    requires 0xE0 <= a <= 0xEF && SecondByte(a, b) && Continuation(c)
    requires p == ((a & 0x0F) as bv32 << 12) | ((b & 0x3F) as bv32 << 6) | (c & 0x3F) as bv32
    ensures 0x800 <= p < 0x10000 && IsScalar(p)
  {
  }

  lemma ThreeBits(a: byte, b: byte, c: byte, p: bv32)
    requires 0xE0 <= a <= 0xEF && 0x80 <= b <= 0xBF && 0x80 <= c <= 0xBF
    requires p == ((a & 0x0F) as bv32 << 12) | ((b & 0x3F) as bv32 << 6) | (c & 0x3F) as bv32
    ensures (0xE0 | ((p >> 12) & 0x0F)) as byte == a && (0x80 | ((p >> 6) & 0x3F)) as byte == b
    ensures (0x80 | (p & 0x3F)) as byte == c
  {
  }

  lemma FourBytes(a: byte, b: byte, c: byte, d: byte, p: bv32)
    requires 0xF0 <= a <= 0xF4 && 0x80 <= b <= 0xBF && 0x80 <= c <= 0xBF && 0x80 <= d <= 0xBF && 0x10000 <= p
    requires p == ((a & 0x07) as bv32 << 18) | ((b & 0x3F) as bv32 << 12) | ((c & 0x3F) as bv32 << 6)
                  | (d & 0x3F) as bv32
    ensures Utf8(p) == [a, b, c, d]
  {
    FourBits(a, b, c, d, p);
    FourUtf8(a, b, c, d, p);
  }

  lemma FourUtf8(a: byte, b: byte, c: byte, d: byte, p: bv32)
    requires 0x10000 <= p && (0xF0 | ((p >> 18) & 0x07)) as byte == a && (0x80 | ((p >> 12) & 0x3F)) as byte == b
    requires (0x80 | ((p >> 6) & 0x3F)) as byte == c && (0x80 | (p & 0x3F)) as byte == d
    ensures Utf8(p) == [a, b, c, d]
  {
  }

  lemma FourRange(a: byte, b: byte, c: byte, d: byte, p: bv32)
    requires 0xF0 <= a <= 0xF4 && SecondByte(a, b) && Continuation(c) && Continuation(d)
    requires p == ((a & 0x07) as bv32 << 18) | ((b & 0x3F) as bv32 << 12) | ((c & 0x3F) as bv32 << 6)
                  | (d & 0x3F) as bv32
    ensures 0x10000 <= p < 0x110000
  {
  }

  lemma FourBits(a: byte, b: byte, c: byte, d: byte, p: bv32)
    requires 0xF0 <= a <= 0xF4 && 0x80 <= b <= 0xBF && 0x80 <= c <= 0xBF && 0x80 <= d <= 0xBF
    requires p == ((a & 0x07) as bv32 << 18) | ((b & 0x3F) as bv32 << 12) | ((c & 0x3F) as bv32 << 6)
                  | (d & 0x3F) as bv32
    ensures (0xF0 | ((p >> 18) & 0x07)) as byte == a && (0x80 | ((p >> 12) & 0x3F)) as byte == b
    ensures (0x80 | ((p >> 6) & 0x3F)) as byte == c && (0x80 | (p & 0x3F)) as byte == d
  {
  }

  /** The control characters are U+0000 to U+001F and U+007F to U+009F. */
  predicate IsControl(p: bv32) { p < 0x20 || 0x7F <= p < 0xA0 }

  predicate IsReserved(p: bv32) { p == 0x2F || p == 0x3A || p == 0x40 || p == 0x25 || p == 0x5C }

  /** A character is written as it is unless it is a control character or one of / : @ % \. */
  lemma KeptExactly(c: Bytes)
    requires c != [] && CharLen(c) == |c|
    ensures EncodeUnit(c) == if IsControl(CodePoint(c)) || IsReserved(CodePoint(c)) then Escapes(c) else c
  {
    SafeExactly(c);
  }

  lemma SafeExactly(c: Bytes)
    requires c != [] && CharLen(c) == |c|
    ensures Safe(c) <==> !IsControl(CodePoint(c)) && !IsReserved(CodePoint(c))
  {
    if |c| == 1 {
      OneBytePoint(c[0]);
    } else if |c| == 2 {
      TwoByteControls(c[0], c[1]);
      assert c == [c[0], c[1]];
    } else if |c| == 3 {
      ThreeBytePoints(c[0], c[1], c[2]);
      assert c == [c[0], c[1], c[2]];
    } else {
      FourBytePoints(c[0], c[1], c[2], c[3]);
      assert c == [c[0], c[1], c[2], c[3]];
    }
  }

  lemma OneBytePoint(a: byte)
    requires a < 0x80
    ensures IsControl(a as bv32) <==> a < 0x20 || a == 0x7F
    ensures IsReserved(a as bv32) <==> a in {SLASH, 0x3A, 0x40, PERCENT, 0x5C}
  {
  }

  lemma TwoByteControls(a: byte, b: byte)
    requires 0xC2 <= a <= 0xDF && Continuation(b)
    ensures var p := CodePoint([a, b]); p >= 0x80 && (p < 0xA0 <==> a == 0xC2 && b < 0xA0)
  {
  }

  lemma ThreeBytePoints(a: byte, b: byte, c: byte)
    requires 0xE0 <= a <= 0xEF && SecondByte(a, b) && Continuation(c)
    ensures CodePoint([a, b, c]) >= 0x800
  {
  }

  lemma FourBytePoints(a: byte, b: byte, c: byte, d: byte)
    requires 0xF0 <= a <= 0xF4 && SecondByte(a, b) && Continuation(c) && Continuation(d)
    ensures CodePoint([a, b, c, d]) >= 0x10000
  {
  }

  lemma HexShape(b: byte)
    ensures 0x30 <= HexDigit(b >> 4) <= 0x39 || 0x41 <= HexDigit(b >> 4) <= 0x46
    ensures 0x30 <= HexDigit(b & 15) <= 0x39 || 0x41 <= HexDigit(b & 15) <= 0x46
  {
  }

  lemma {:induction false} EscapesClean(s: Bytes)
    ensures Clean(Escapes(s))
  {
    if s != [] {
      EscapesClean(s[1..]);
      HexShape(s[0]);
    }
  }

  lemma {:induction false} EncodeAllClean(s: Bytes)
    ensures Clean(EncodeAll(s))
    decreases |s|
  {
    if s != [] {
      var n := Unit(s);
      EncodeAllClean(s[n..]);
      UnitClean(s[..n]);
    }
  }

  /** Only one-byte characters contain bytes below 0x80. */
  lemma UnitClean(u: Bytes)
    ensures Clean(EncodeUnit(u))
  {
    EscapesClean(u);
    if CharLen(u) == |u| && Safe(u) {
      forall i | 0 <= i < |u| ensures u[i] >= 0x20 && u[i] != 0x7F && u[i] !in {SLASH, 0x3A, 0x40, 0x5C} {
        if |u| > 1 { assert u[i] >= 0x80; }
      }
    }
  }

  /** An encoded name has no control byte, no separator and no NUL, and is neither `.` nor `..`. */
  lemma EncodedShape(name: Bytes)
    requires 0 !in name
    ensures Encode(name).Ok?
    ensures var e := Encode(name).value; Clean(e) && e != [DOT] && e != [DOT, DOT] && (e == [] <==> name == [])
  {
    var e := Encode(name).value;
    EncodeAllClean(name);
    HexRoundTrip(DOT);
    RoundTrip(name);
    DotsDecode();
  }

  lemma DotsDecode()
    ensures Reads([DOT], [DOT]) && Reads([DOT, DOT], [DOT, DOT])
  {
    assert Reads([], []);
    ReadsChar([DOT], [], []);
    assert [DOT] + [] == [DOT];
    ReadsChar([DOT], [DOT], [DOT]);
    assert [DOT] + [DOT] == [DOT, DOT];
  }

  /** So an encoded name is a file name exactly when it is non-empty and short enough. */
  lemma EncodedIsFileName(name: Bytes)
    requires 0 !in name
    ensures Encode(name).Ok?
    ensures ValidName(Encode(name).value) <==> name != [] && |Encode(name).value| <= MAX_NAME_BYTES
  {
    EncodedShape(name);
  }
}
