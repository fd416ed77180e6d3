/** Translating a byte string unit by unit, for any way of cutting units and any translation. */
module Units {
  import opened Common

  type Cut = Bytes -> nat
  type Code = Bytes -> Bytes

  /** The translation of the units of `s`, in order. */
  function Translate(cut: Cut, code: Code, s: Bytes): Bytes
    decreases |s|
  {
    var n := cut(s);
    if n == 0 || n > |s| then [] else code(s[..n]) + Translate(cut, code, s[n..])
  }

  /** Cutting `s` or its first `v` bytes gives the same units, and they end exactly at `v`. */
  ghost predicate Reaches(cut: Cut, s: Bytes, v: nat)
    decreases |s|
  {
    v <= |s| && (v == 0 || (0 < cut(s) <= v && cut(s[..v]) == cut(s) && Reaches(cut, s[cut(s)..], v - cut(s))))
  }

  /** The length of the longest stretch of units that `len` accepts. */
  function UpTo(len: Cut, s: Bytes): (n: nat)
    ensures n <= |s|
    decreases |s|
  {
    var c := len(s);
    if c == 0 || c > |s| then 0 else c + UpTo(len, s[c..])
  }

  /** An accepted unit is also the unit cut off, however much of the input follows. */
  ghost predicate LocalAt(len: Cut, cut: Cut, s: Bytes, v: nat) {
    0 < len(s) <= v <= |s| ==> cut(s) == len(s) && cut(s[..v]) == len(s)
  }

  ghost predicate Local(len: Cut, cut: Cut) { forall s: Bytes, v: nat :: LocalAt(len, cut, s, v) }

  lemma {:induction false} UpToReaches(len: Cut, cut: Cut, s: Bytes)
    requires Local(len, cut)
    ensures Reaches(cut, s, UpTo(len, s))
    decreases |s|
  {
    var c := len(s);
    if 0 < c <= |s| {
      UpToReaches(len, cut, s[c..]);
      assert LocalAt(len, cut, s, UpTo(len, s));
    }
  }

  /** Where the stretch ends, nothing is accepted. */
  lemma {:induction false} UpToStops(len: Cut, s: Bytes)
    ensures var rest := s[UpTo(len, s)..]; len(rest) == 0 || len(rest) > |rest|
    decreases |s|
  {
    var c := len(s);
    if 0 < c <= |s| {
      UpToStops(len, s[c..]);
      DropDrop(s, c, UpTo(len, s[c..]));
    } else {
      TakeAll(s);
    }
  }

  /** A stretch of whole units can be translated first. */
  lemma {:induction false} TranslateStretch(cut: Cut, code: Code, s: Bytes, v: nat)
    requires Reaches(cut, s, v) && cut([]) == 0
    ensures Translate(cut, code, s) == Translate(cut, code, s[..v]) + Translate(cut, code, s[v..])
    decreases |s|
  {
    if v == 0 {
      assert s[..0] == [];
      TakeAll(s);
    } else {
      var n := cut(s);
      var rest := s[n..];
      TranslateStretch(cut, code, rest, v - n);
      SliceDrop(s, n, v);
      DropDrop(s, n, v - n);
      FirstUnit(cut, code, s, s[..n], rest);
      FirstUnit(cut, code, s[..v], s[..n], rest[..v - n]);
      Concat3(code(s[..n]), Translate(cut, code, rest[..v - n]), Translate(cut, code, s[v..]));
    }
  }

  lemma FirstUnit(cut: Cut, code: Code, s: Bytes, unit: Bytes, rest: Bytes)
    requires 0 < cut(s) <= |s| && unit == s[..cut(s)] && rest == s[cut(s)..]
    ensures Translate(cut, code, s) == code(unit) + Translate(cut, code, rest)
  {
  }

  ghost predicate CutsAt(cut: Cut, s: Bytes) { if s == [] then cut(s) == 0 else 0 < cut(s) <= |s| }

  /** Every non-empty text starts with a unit. */
  ghost predicate Cuts(cut: Cut) { forall s: Bytes :: CutsAt(cut, s) }

  /** The loop over the units of a text. */
  method TranslateInto(cut: Cut, code: Code, s: Bytes, output: Bytes) returns (r: Bytes)
    requires Cuts(cut)
    ensures r == output + Translate(cut, code, s)
  {
    r := output;
    var i := 0;
    TakeAll(s);
    while i < |s|
      invariant i <= |s|
      invariant output + Translate(cut, code, s) == r + Translate(cut, code, s[i..])
    {
      assert CutsAt(cut, s[i..]);
      var n := cut(s[i..]);
      DropDrop(s, i, n);
      Concat3(r, code(s[i..][..n]), Translate(cut, code, s[i + n..]));
      r := r + code(s[i..][..n]);
      i := i + n;
    }
    assert CutsAt(cut, s[i..]);
  }

  lemma StretchAndUnit(cut: Cut, code: Code, s: Bytes, v: nat, output: Bytes)
    requires Reaches(cut, s, v) && cut([]) == 0 && v < |s| && 0 < cut(s[v..]) <= |s| - v
    ensures var n := cut(s[v..]);
            output + Translate(cut, code, s)
            == output + Translate(cut, code, s[..v]) + code(s[v..][..n]) + Translate(cut, code, s[v + n..])
  {
    var n := cut(s[v..]);
    TranslateStretch(cut, code, s, v);
    DropDrop(s, v, n);
    var a, b, c := Translate(cut, code, s[..v]), code(s[v..][..n]), Translate(cut, code, s[v + n..]);
    Concat3(a, b, c);
    Concat4(output, a, b, c);
  }

  /** Writing the unit after the stretch in its own way, `odd`, makes no difference. */
  ghost predicate OddAgrees(cut: Cut, code: Code, odd: Code, s: Bytes, v: nat) {
    v < |s| && cut(s[v..]) <= |s| - v ==> odd(s[v..][..cut(s[v..])]) == code(s[v..][..cut(s[v..])])
  }

  /** One turn of a cursor loop: a stretch of whole units and, if the input goes on, one odd unit. */
  method Turn(cut: Cut, code: Code, odd: Code, rest: Bytes, v: nat, output: Bytes) returns (r: Bytes, n: nat)
    requires Cuts(cut) && rest != [] && Reaches(cut, rest, v) && OddAgrees(cut, code, odd, rest, v)
    ensures 0 < n <= |rest|
    ensures output + Translate(cut, code, rest) == r + Translate(cut, code, rest[n..])
  {
    if v == |rest| {
      r := TranslateInto(cut, code, rest, output);
      assert CutsAt(cut, []) && rest[v..] == [] && r + [] == r;
      return r, v;
    }
    assert CutsAt(cut, rest[v..]) && CutsAt(cut, []);
    StretchAndUnit(cut, code, rest, v, output);
    r := TranslateInto(cut, code, rest[..v], output);
    n := cut(rest[v..]);
    r := r + odd(rest[v..][..n]);
    n := v + n;
  }

  ghost predicate StretchesAt(cut: Cut, code: Code, odd: Code, stretch: Cut, s: Bytes) {
    Reaches(cut, s, stretch(s)) && OddAgrees(cut, code, odd, s, stretch(s))
  }

  /** Every stretch ends between units, and the unit after it may be written its own way. */
  ghost predicate Stretches(cut: Cut, code: Code, odd: Code, stretch: Cut) {
    forall s: Bytes :: StretchesAt(cut, code, odd, stretch, s)
  }

  /** The cursor loop: how long each stretch is does not matter. */
  method TranslateByStretch(cut: Cut, code: Code, odd: Code, stretch: Cut, name: Bytes) returns (r: Bytes)
    requires Cuts(cut) && Stretches(cut, code, odd, stretch)
    ensures r == Translate(cut, code, name)
  {
    r := [];
    var cursor := 0;
    ghost var goal, left := Translate(cut, code, name), Translate(cut, code, name);
    TakeAll(name);
    while cursor < |name|
      invariant cursor <= |name| && goal == r + left && left == Translate(cut, code, name[cursor..])
    {
      var n;
      r, n, left := StretchTurn(cut, code, odd, stretch, name[cursor..], r, left);
      DropDrop(name, cursor, n);
      cursor := cursor + n;
    }
    assert name[cursor..] == [];
    NothingLeft(cut, code);
  }

  lemma NothingLeft(cut: Cut, code: Code)
    requires Cuts(cut)
    ensures Translate(cut, code, []) == []
  {
    assert CutsAt(cut, []);
  }

  /** One turn with the stretch found for the rest of the input. */
  method StretchTurn(cut: Cut, code: Code, odd: Code, stretch: Cut, rest: Bytes, output: Bytes, ghost left: Bytes)
    returns (r: Bytes, n: nat, ghost after: Bytes)
    requires Cuts(cut) && Stretches(cut, code, odd, stretch) && rest != [] && left == Translate(cut, code, rest)
    ensures 0 < n <= |rest| && output + left == r + after && after == Translate(cut, code, rest[n..])
  {
    assert StretchesAt(cut, code, odd, stretch, rest);
    r, n := Turn(cut, code, odd, rest, stretch(rest), output);
    after := Translate(cut, code, rest[n..]);
  }
}
