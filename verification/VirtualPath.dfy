/**
 Byte paths of the virtual filesystem (tuxstack-vfs/src/path.rs): component names, absolute
 paths as component lists, and raw symlink targets, each with its size limit.
 */
module VfsPath {
  import opened Common

  const MAX_NAME_BYTES: nat := 255
  const MAX_PATH_BYTES: nat := 16384

  // ----- component names -----

  predicate ValidName(b: Bytes) {
    && 0 < |b| <= MAX_NAME_BYTES
    && 0 !in b && SLASH !in b
    && b != [DOT] && b != [DOT, DOT]
  }

  /** VirtualFileName::new, with its order of checks. */
  function FileName(b: Bytes): (r: Result<Bytes, VfsError>)
    ensures r.Ok? <==> ValidName(b)
    ensures r.Ok? <==> 1 <= |b| <= 255 && 0x00 !in b && 0x2F !in b && b != [0x2E] && b != [0x2E, 0x2E]
    ensures r.Ok? ==> r.value == b
    ensures r == Err(NameTooLong) <==> |b| > 255 && 0x00 !in b && 0x2F !in b
  {
    if b == [] then Err(InvalidInput)
    else if 0 in b then Err(InvalidInput)
    else if b == [DOT] || b == [DOT, DOT] then Err(InvalidInput)
    else if SLASH in b then Err(InvalidInput)
    else if |b| > MAX_NAME_BYTES then Err(NameTooLong)
    else Ok(b)
  }

  // ----- absolute paths -----

  /** Bytes of the components when each is written with one separator. */
  function Weight(p: seq<Bytes>): nat {
    if p == [] then 0 else Weight(p[..|p| - 1]) + |p[|p| - 1]| + 1
  }

  function ByteLen(p: seq<Bytes>): nat { if p == [] then 1 else Weight(p) }

  predicate ValidNames(p: seq<Bytes>) { forall i :: 0 <= i < |p| ==> ValidName(p[i]) }

  predicate ValidPath(p: seq<Bytes>) { ValidNames(p) && ByteLen(p) <= MAX_PATH_BYTES }

  /** A resource-relative absolute path; the empty list is the root. */
  type VirtualPath = p: seq<Bytes> | ValidPath(p) witness []

  /** VirtualPath::from_components. */
  function FromComponents(p: seq<Bytes>): (r: Result<VirtualPath, VfsError>)
    requires ValidNames(p)
    ensures r.Ok? <==> ValidPath(p)
    ensures r.Ok? ==> r.value == p
    ensures r.Err? ==> r.error == PathTooLong
  {
    if ByteLen(p) > MAX_PATH_BYTES then Err(PathTooLong) else Ok(p)
  }

  lemma {:induction false} WeightAppend(p: seq<Bytes>, q: seq<Bytes>)
    ensures Weight(p + q) == Weight(p) + Weight(q)
  {
    if q == [] {
      assert p + q == p;
    } else {
      WeightAppend(p, q[..|q| - 1]);
      assert (p + q)[..|p + q| - 1] == p + q[..|q| - 1];
    }
  }

  /** Every contiguous part of a path is a path, so the `expect`s in the original never fire. */
  lemma SubPath(p: VirtualPath, lo: nat, hi: nat)
    requires lo <= hi <= |p|
    ensures ValidPath(p[lo..hi])
  {
    var mid := p[lo..hi];
    WeightAppend(p[..lo], mid);
    WeightAppend(p[..lo] + mid, p[hi..]);
    ThreeParts(p, lo, hi);
  }

  function Parent(p: VirtualPath): (r: Option<VirtualPath>)
    ensures r.None? <==> p == []
    ensures r.Some? ==> r.value == p[..|p| - 1]
  {
    if p == [] then None else (SubPath(p, 0, |p| - 1); Some(p[..|p| - 1]))
  }

  function Join(p: VirtualPath, name: Bytes): Result<VirtualPath, VfsError>
    requires ValidName(name)
  {
    FromComponents(p + [name])
  }

  function StripPrefix(p: VirtualPath, prefix: VirtualPath): (r: Option<VirtualPath>)
    ensures r.Some? <==> prefix <= p
    ensures r.Some? ==> prefix + r.value == p
  {
    if prefix <= p then (SubPath(p, |prefix|, |p|); Some(p[|prefix|..|p|])) else None
  }

  // ----- bytes and separators -----

  /** The pieces of `b` between separators; always at least one piece. */
  function Split(b: Bytes): (r: seq<Bytes>)
    ensures |r| >= 1
  {
    if b == [] then [[]]
    else
      var last := b[|b| - 1];
      var r := Split(b[..|b| - 1]);
      if last == SLASH then r + [[]] else r[|r| - 1 := r[|r| - 1] + [last]]
  }

  /** Pieces written with one separator between neighbours. */
  function JoinSlash(parts: seq<Bytes>): Bytes {
    if parts == [] then []
    else if |parts| == 1 then parts[0]
    else JoinSlash(parts[..|parts| - 1]) + [SLASH] + parts[|parts| - 1]
  }

  lemma {:induction false} SplitNoSlash(b: Bytes)
    requires SLASH !in b
    ensures Split(b) == [b]
  {
    if b != [] {
      SplitNoSlash(b[..|b| - 1]);
      assert b == b[..|b| - 1] + [b[|b| - 1]];
    }
  }

  lemma {:induction false} SplitAppend(a: Bytes, b: Bytes)
    ensures Split(a + [SLASH] + b) == Split(a) + Split(b)
  {
    if b == [] {
      assert a + [SLASH] + b == a + [SLASH];
      FrontOfConcat(a, [SLASH]);
    } else {
      var front := b[..|b| - 1];
      SplitAppend(a, front);
      FrontOfConcat(a + [SLASH], b);
      if b[|b| - 1] == SLASH {
        Concat3(Split(a), Split(front), [[]]);
      } else {
        UpdateLast(Split(a), Split(front), Split(front)[|Split(front)| - 1] + [b[|b| - 1]]);
      }
    }
  }

  lemma {:induction false} SplitJoin(parts: seq<Bytes>)
    requires parts != [] && forall i :: 0 <= i < |parts| ==> SLASH !in parts[i]
    ensures Split(JoinSlash(parts)) == parts
  {
    var last := parts[|parts| - 1];
    SplitNoSlash(last);
    if |parts| > 1 {
      SplitJoin(parts[..|parts| - 1]);
      SplitAppend(JoinSlash(parts[..|parts| - 1]), last);
    }
  }

  lemma {:induction false} JoinSplit(b: Bytes)
    ensures JoinSlash(Split(b)) == b
  {
    if b != [] {
      var front, last := b[..|b| - 1], b[|b| - 1];
      var r := Split(front);
      JoinSplit(front);
      assert b == front + [last];
      if last == SLASH {
        assert (r + [[]])[..|r|] == r;
        assert JoinSlash(r + [[]]) == JoinSlash(r) + [SLASH] + [];
      } else {
        JoinGrow(r, last);
      }
    }
  }

  /** A byte more in the last piece is a byte more in the text. */
  lemma JoinGrow(parts: seq<Bytes>, last: byte)
    requires parts != []
    ensures JoinSlash(parts[|parts| - 1 := parts[|parts| - 1] + [last]]) == JoinSlash(parts) + [last]
  {
    var more := parts[|parts| - 1 := parts[|parts| - 1] + [last]];
    assert more[..|parts| - 1] == parts[..|parts| - 1];
    if |parts| > 1 { Concat3(JoinSlash(parts[..|parts| - 1]) + [SLASH], parts[|parts| - 1], [last]); }
  }

  lemma {:induction false} JoinLength(parts: seq<Bytes>)
    requires parts != []
    ensures |JoinSlash(parts)| == Weight(parts) - 1
  {
    if |parts| > 1 {
      JoinLength(parts[..|parts| - 1]);
    } else {
      assert Weight(parts[..0]) == 0;
    }
  }

  lemma WeightSnoc(p: seq<Bytes>, b: Bytes)
    ensures Weight(p + [b]) == Weight(p) + |b| + 1
  {
    assert (p + [b])[..|p|] == p;
  }

  /** Lengthening the last piece by one byte. */
  lemma WeightGrow(p: seq<Bytes>, last: byte)
    requires p != []
    ensures Weight(p[|p| - 1 := p[|p| - 1] + [last]]) == Weight(p) + 1
  {
    var q := p[|p| - 1 := p[|p| - 1] + [last]];
    assert q[..|q| - 1] == p[..|p| - 1];
  }

  lemma {:induction false} SplitWeight(b: Bytes)
    ensures Weight(Split(b)) == |b| + 1
  {
    if b == [] {
      WeightSnoc([], []);
      assert Split(b) == [] + [[]];
    } else {
      SplitWeight(b[..|b| - 1]);
      WeightSnoc(Split(b[..|b| - 1]), []);
      WeightGrow(Split(b[..|b| - 1]), b[|b| - 1]);
    }
  }

  /** VirtualPath::as_bytes: every component preceded by a separator, or "/" for the root. */
  function PathBytes(p: seq<Bytes>): Bytes {
    if p == [] then [SLASH] else JoinSlash([[]] + p)
  }

  method AsBytes(p: VirtualPath) returns (result: Bytes)
    ensures result == PathBytes(p)
  {
    if p == [] { return [SLASH]; }
    result := [];
    for i := 0 to |p|
      invariant result == JoinSlash([[]] + p[..i])
    {
      result := result + [SLASH];
      result := result + p[i];
      var q := [[]] + p[..i + 1];
      assert q[..|q| - 1] == [[]] + p[..i];
    }
    TakeAll(p);
  }

  // ----- walking a byte path -----

  predicate Skipped(piece: Bytes) { piece == [] || piece == [DOT] }

  /** The component list reached from `at` by the pieces of a byte path. */
  function Walk(at: seq<Bytes>, pieces: seq<Bytes>): Result<seq<Bytes>, VfsError>
    decreases |pieces|
  {
    if pieces == [] then Ok(at)
    else
      var piece, rest := pieces[0], pieces[1..];
      if Skipped(piece) then Walk(at, rest)
      else if piece == [DOT, DOT] then
        if at == [] then Err(SymlinkEscape) else Walk(at[..|at| - 1], rest)
      else match FileName(piece)
        case Err(e) => Err(e)
        case Ok(name) => Walk(at + [name], rest)
  }

  lemma {:induction false} WalkValid(at: seq<Bytes>, pieces: seq<Bytes>)
    requires ValidNames(at)
    ensures Walk(at, pieces).Ok? ==> ValidNames(Walk(at, pieces).value)
    ensures Walk(at, pieces).Ok? ==> Weight(Walk(at, pieces).value) <= Weight(at) + Weight(pieces)
    decreases |pieces|
  {
    if pieces != [] {
      var piece, rest := pieces[0], pieces[1..];
      WeightAppend([piece], rest);
      assert pieces == [piece] + rest;
      assert Weight([piece][..0]) == 0;
      if Skipped(piece) {
        WalkValid(at, rest);
      } else if piece == [DOT, DOT] {
        if at != [] { WalkValid(at[..|at| - 1], rest); }
      } else if FileName(piece).Ok? {
        WeightAppend(at, [piece]);
        WalkValid(at + [piece], rest);
      }
    }
  }

  lemma {:induction false} WalkAppend(at: seq<Bytes>, p: seq<Bytes>, q: seq<Bytes>)
    ensures Walk(at, p + q) == match Walk(at, p) case Ok(mid) => Walk(mid, q) case Err(e) => Err(e)
    decreases |p|
  {
    if p == [] {
      assert p + q == q;
    } else {
      assert (p + q)[1..] == p[1..] + q;
      var piece := p[0];
      if Skipped(piece) {
        WalkAppend(at, p[1..], q);
      } else if piece == [DOT, DOT] {
        if at != [] { WalkAppend(at[..|at| - 1], p[1..], q); }
      } else if FileName(piece).Ok? {
        WalkAppend(at + [piece], p[1..], q);
      }
    }
  }

  /** Walking plain names appends them. */
  lemma {:induction false} WalkNames(at: seq<Bytes>, names: seq<Bytes>)
    requires ValidNames(names)
    ensures Walk(at, names) == Ok(at + names)
    decreases |names|
  {
    if names != [] {
      assert ValidName(names[0]);
      WalkNames(at + [names[0]], names[1..]);
      assert at + [names[0]] + names[1..] == at + names;
    } else {
      assert at + names == at;
    }
  }

  function DotDots(n: nat): seq<Bytes> { seq(n, _ => [DOT, DOT]) }

  /** As many `..` as the path is deep lead to the root. */
  lemma {:induction false} WalkUp(at: seq<Bytes>)
    ensures Walk(at, DotDots(|at|)) == Ok([])
    decreases |at|
  {
    if at != [] {
      assert DotDots(|at|)[1..] == DotDots(|at| - 1);
      WalkUp(at[..|at| - 1]);
    }
  }

  /** What a byte path does from wherever it starts: climb so far, then go down these names. */
  datatype Climb = Climb(ups: nat, names: seq<Bytes>)

  function Net(pieces: seq<Bytes>): Climb {
    if pieces == [] then Climb(0, [])
    else
      var before, piece := Net(pieces[..|pieces| - 1]), pieces[|pieces| - 1];
      if Skipped(piece) then before
      else if piece != [DOT, DOT] then before.(names := before.names + [piece])
      else if before.names == [] then before.(ups := before.ups + 1)
      else before.(names := before.names[..|before.names| - 1])
  }

  /** A walk that succeeds keeps all but the climbed components of its start and adds the names. */
  lemma {:induction false} WalkNet(at: seq<Bytes>, pieces: seq<Bytes>)
    requires Walk(at, pieces).Ok?
    ensures var c := Net(pieces); c.ups <= |at| && Walk(at, pieces).value == at[..|at| - c.ups] + c.names
    decreases |pieces|
  {
    if pieces == [] {
      TakeAll(at);
      assert at + [] == at;
    } else {
      var front, piece := pieces[..|pieces| - 1], pieces[|pieces| - 1];
      assert pieces == front + [piece];
      WalkAppend(at, front, [piece]);
      WalkNet(at, front);
      var c, mid := Net(front), Walk(at, front).value;
      assert [piece][1..] == [];
      if piece == [DOT, DOT] {
        assert mid[..|mid| - 1] == Walk(at, pieces).value;
      } else if !Skipped(piece) {
        Concat3(at[..|at| - c.ups], c.names, [piece]);
      }
    }
  }

  /**
   Whether a byte path read in a directory `depth` deep ends at or below `d`, judged from its
   text: it does not climb above `d`, or the names after its lowest point spell the missing
   end of `d`.
   */
  predicate EndsBelow(d: seq<Bytes>, depth: nat, pieces: seq<Bytes>) {
    var c := Net(pieces);
    c.ups <= depth && (depth - c.ups >= |d| || d[depth - c.ups..] <= c.names)
  }

  lemma EndsBelowExactly(d: seq<Bytes>, at: seq<Bytes>, pieces: seq<Bytes>)
    requires Walk(at, pieces).Ok? && (d <= at || at <= d)
    ensures d <= Walk(at, pieces).value <==> EndsBelow(d, |at|, pieces)
  {
    WalkNet(at, pieces);
    var c, p := Net(pieces), Walk(at, pieces).value;
    var low := |at| - c.ups;
    if low >= |d| {
      assert at[..low][..|d|] == d;
      assert p[..|d|] == at[..low][..|d|];
    } else {
      assert at[..low] == d[..low];
      SplitAt(d, low);
      assert p[..low] == d[..low] && p[low..] == c.names;
      PrefixAfter(d, p, low);
    }
  }

  lemma PrefixAfter<T>(a: seq<T>, b: seq<T>, n: nat)
    requires n <= |a| && n <= |b| && a[..n] == b[..n]
    ensures a <= b <==> a[n..] <= b[n..]
  {
    if a[n..] <= b[n..] {
      assert a == a[..n] + a[n..] && b == b[..n] + b[n..];
      assert b[..|a|] == b[..n] + b[n..][..|a| - n];
    }
    if a <= b { assert b[n..][..|a| - n] == b[..|a|][n..]; }
  }

  /**
   VirtualPath::from_absolute on the pieces after the leading separator. The original
   re-checks the path limit at every component.
   */
  method WalkChecked(pieces: seq<Bytes>) returns (r: Result<VirtualPath, VfsError>)
    requires Weight(pieces) <= MAX_PATH_BYTES
    ensures r == match Walk([], pieces) case Ok(p) => (WalkValid([], pieces); FromComponents(p)) case Err(e) => Err(e)
  {
    var path: VirtualPath := [];
    for i := 0 to |pieces|
      invariant Walk([], pieces) == Walk(path, pieces[i..])
      invariant Weight(path) + Weight(pieces[i..]) <= MAX_PATH_BYTES
    {
      var raw := pieces[i];
      assert pieces[i..][1..] == pieces[i + 1..];
      WeightAppend([raw], pieces[i + 1..]);
      assert pieces[i..] == [raw] + pieces[i + 1..];
      assert Weight([raw][..0]) == 0;
      if raw == [] || raw == [DOT] { continue; }
      if raw == [DOT, DOT] {
        var up := Parent(path);
        if up.None? { return Err(SymlinkEscape); }
        path := up.value;
        continue;
      }
      var name := FileName(raw);
      if name.Err? { return Err(name.error); }
      WeightAppend(path, [raw]);
      var joined := Join(path, name.value);
      assert joined.Ok?;
      path := joined.value;
    }
    return Ok(path);
  }

  /** VirtualPath::from_absolute. */
  function AbsolutePath(b: Bytes): Result<VirtualPath, VfsError> {
    if 0 in b then Err(InvalidInput)
    else if b == [] || b[0] != SLASH then Err(InvalidInput)
    else if |b| > MAX_PATH_BYTES then Err(PathTooLong)
    else match Walk([], Split(b)[1..])
      case Err(e) => Err(e)
      case Ok(p) => (WalkValid([], Split(b)[1..]); FromComponents(p))
  }

  lemma SplitAbsolute(b: Bytes)
    requires b != [] && b[0] == SLASH
    ensures Split(b)[0] == [] && Weight(Split(b)[1..]) == |b|
  {
    assert b == [] + [SLASH] + b[1..];
    SplitAppend([], b[1..]);
    SplitWeight(b);
    WeightAppend(Split(b)[..1], Split(b)[1..]);
    assert Split(b) == Split(b)[..1] + Split(b)[1..];
    assert Split(b)[..1] == [[]];
    assert Weight([[]][..0]) == 0;
  }

  method FromAbsolute(b: Bytes) returns (r: Result<VirtualPath, VfsError>)
    ensures r == AbsolutePath(b)
  {
    if 0 in b { return Err(InvalidInput); }
    if b == [] || b[0] != SLASH { return Err(InvalidInput); }
    if |b| > MAX_PATH_BYTES { return Err(PathTooLong); }
    SplitAbsolute(b);
    r := WalkChecked(Split(b)[1..]);
  }

  lemma {:induction false} PathBytesShape(p: seq<Bytes>)
    requires p != [] && ValidNames(p)
    ensures PathBytes(p) != [] && PathBytes(p)[0] == SLASH && 0 !in PathBytes(p)
    decreases |p|
  {
    var parts := [[]] + p;
    assert parts[..|parts| - 1] == [[]] + p[..|p| - 1];
    assert ValidName(p[|p| - 1]);
    if |p| > 1 {
      PathBytesShape(p[..|p| - 1]);
    } else {
      assert parts[..1] == [[]];
      assert JoinSlash(parts) == [SLASH] + p[0];
    }
  }

  lemma PathBytesSplit(p: seq<Bytes>)
    requires p != [] && ValidNames(p)
    ensures Split(PathBytes(p))[1..] == p && |PathBytes(p)| == ByteLen(p)
  {
    var parts := [[]] + p;
    SplitJoin(parts);
    JoinLength(parts);
    WeightAppend([[]], p);
    assert Weight([[]][..0]) == 0;
  }

  /** The limit is one on the text of the path. */
  lemma LimitIsOnText(p: seq<Bytes>)
    requires ValidNames(p)
    ensures FromComponents(p).Ok? <==> |PathBytes(p)| <= 16384
  {
    if p != [] { PathBytesSplit(p); }
  }

  /** Printing a path and parsing it again gives the same path. */
  lemma PathRoundTrip(p: VirtualPath)
    ensures |PathBytes(p)| == ByteLen(p)
    ensures AbsolutePath(PathBytes(p)) == Ok(p)
  {
    if p == [] {
      assert [SLASH] == [] + [SLASH] + [];
      SplitAppend([], []);
      assert Split([SLASH])[1..] == [[]];
      assert Walk([], [[]]) == Walk([], [[]][1..]);
    } else {
      PathBytesSplit(p);
      PathBytesShape(p);
      WalkNames([], p);
      assert [] + p == p;
    }
  }

  // ----- raw symlink targets -----

  predicate IsAbsolute(t: Bytes) { t != [] && t[0] == SLASH }

  predicate ValidTarget(t: Bytes) { 0 !in t && |t| <= MAX_PATH_BYTES }

  /** VirtualPathBytes: an unparsed link target. */
  type LinkTarget = t: Bytes | ValidTarget(t) witness []

  /** VirtualPathBytes::new. */
  function MakeTarget(t: Bytes): (r: Result<LinkTarget, VfsError>)
    ensures r.Ok? <==> ValidTarget(t)
    ensures r.Ok? ==> r.value == t
  {
    if 0 in t then Err(InvalidInput)
    else if |t| > MAX_PATH_BYTES then Err(PathTooLong)
    else Ok(t)
  }
}
