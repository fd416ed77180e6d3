/**
 Path normalisation, canonicalisation and confinement in the filesystem helper
 (tuxstack-fs-helper/src/path.rs), over an arbitrary filesystem. Paths are lists of the
 components that std::path yields.
 */
module Canonical {
  import opened Common
  import opened Chains
  import opened Helper

  const MAX_SYMLINK_HOPS: nat := 40

  datatype Component = RootDir | CurDir | ParentDir | Normal(name: Name)

  type OsPath = seq<Component>

  /** lstat of one absolute location, with the answer of read_link for a symlink. */
  datatype Node = Failed(error: OsError) | Plain | Link(target: Result<OsPath, OsError>)

  type Fs = seq<Name> -> Node

  // ----- lexical normalisation -----

  predicate Rooted(p: OsPath) { p != [] && p[0] == RootDir }

  /** Nothing but names, after at most one leading root. */
  predicate Tidy(p: OsPath) {
    forall i :: 0 <= i < |p| ==> p[i].Normal? || (i == 0 && p[i].RootDir?)
  }

  /** One step of the loop: names are pushed, `..` pops a name if there is one, the root restarts. */
  function Push(out: OsPath, c: Component): (r: OsPath)
    requires Tidy(out)
    ensures Tidy(r)
  {
    match c
    case CurDir => out
    case ParentDir => if out != [] && out[|out| - 1].Normal? then out[..|out| - 1] else out
    case RootDir => [RootDir]
    case Normal(_) => out + [c]
  }

  function PushAll(out: OsPath, p: OsPath): (r: OsPath)
    requires Tidy(out)
    ensures Tidy(r)
    decreases |p|
  {
    if p == [] then out else PushAll(Push(out, p[0]), p[1..])
  }

  function Normalize(p: OsPath): (r: OsPath)
    ensures Tidy(r) && r != []
  {
    var out := PushAll([], p);
    if out == [] then [RootDir] else out
  }

  method NormalizePath(p: OsPath) returns (out: OsPath)
    ensures out == Normalize(p)
  {
    out := [];
    TakeAll(p);
    for i := 0 to |p|
      invariant Tidy(out) && PushAll([], p) == PushAll(out, p[i..])
    {
      match p[i] {
        case CurDir =>
        case ParentDir =>
          if out != [] && out[|out| - 1].Normal? {
            out := out[..|out| - 1];
          } else if out != [] {
            assert out == [RootDir];
            out := [RootDir];
          }
        case RootDir => out := [RootDir];
        case Normal(_) => out := out + [p[i]];
      }
    }
    if out == [] { out := [RootDir]; }
  }

  /** A tidy path is its own normal form. */
  lemma {:induction false} PushTidy(out: OsPath, p: OsPath)
    requires Tidy(out + p)
    ensures Tidy(out) && PushAll(out, p) == out + p
    decreases |p|
  {
    assert forall i :: 0 <= i < |out| ==> (out + p)[i] == out[i];
    if p == [] {
      assert out + p == out;
    } else {
      assert (out + p)[|out|] == p[0];
      HeadTail(p);
      Concat3(out, [p[0]], p[1..]);
      assert Push(out, p[0]) == out + [p[0]];
      PushTidy(out + [p[0]], p[1..]);
    }
  }

  /** An absolute path stays absolute. */
  lemma {:induction false} PushAbsolute(out: OsPath, p: OsPath)
    requires Tidy(out) && Rooted(out)
    ensures Rooted(PushAll(out, p))
    decreases |p|
  {
    if p != [] { PushAbsolute(Push(out, p[0]), p[1..]); }
  }

  lemma NormalizeAbsolute(p: OsPath)
    requires Rooted(p)
    ensures Rooted(Normalize(p))
  {
    PushAbsolute([RootDir], p[1..]);
  }

  lemma {:induction false} PushAppend(out: OsPath, p: OsPath, q: OsPath)
    requires Tidy(out)
    ensures PushAll(out, p + q) == PushAll(PushAll(out, p), q)
    decreases |p|
  {
    if p == [] {
      assert p + q == q;
    } else {
      assert (p + q)[1..] == p[1..] + q && (p + q)[0] == p[0];
      PushAppend(Push(out, p[0]), p[1..], q);
    }
  }

  /** `..` is collapsed as text: wherever a name is followed by `..`, both go, whatever the name denotes. */
  lemma LexicalParent(p: OsPath, a: Name, q: OsPath)
    ensures Normalize(p + [Normal(a), ParentDir] + q) == Normalize(p + q)
  {
    var pair := [Normal(a), ParentDir];
    var out := PushAll([], p);
    PushAppend([], p + pair, q);
    PushAppend([], p, pair);
    PushAppend([], p, q);
    var named := out + [Normal(a)];
    assert pair[1..] == [ParentDir] && [ParentDir][1..] == [];
    assert named[..|named| - 1] == out;
    assert PushAll(out, pair) == PushAll(named, [ParentDir]) == PushAll(out, []) == out;
  }

  /** `.` vanishes, `..` at the root stays there, and an absolute part starts afresh. */
  lemma LexicalLaws(p: OsPath, q: OsPath)
    ensures Normalize(p + [RootDir] + q) == Normalize([RootDir] + q)
    ensures Normalize(p + [CurDir] + q) == Normalize(p + q)
    ensures Normalize([RootDir, ParentDir] + q) == Normalize([RootDir] + q)
  {
    PushAppend([], p + [CurDir], q);
    PushAppend([], p, [CurDir]);
    PushAppend([], p, q);
    assert [CurDir][1..] == [];
    assert PushAll(PushAll([], p), [CurDir]) == PushAll([], p);
    var up, root := [RootDir, ParentDir], [RootDir];
    PushAppend([], up, q);
    PushAppend([], root, q);
    assert up[1..] == [ParentDir] && [ParentDir][1..] == [] && root[1..] == [];
    assert PushAll([], up) == PushAll([RootDir], [ParentDir]) == PushAll([RootDir], []) == [RootDir];
    assert PushAll([], root) == PushAll([RootDir], []) == [RootDir];
    PushAppend([], p + root, q);
    PushAppend([], p, root);
    assert PushAll(PushAll([], p), root) == PushAll([RootDir], []);
  }

  // ----- one walk -----

  function Names(names: seq<Name>): OsPath { seq(|names|, i requires 0 <= i < |names| => Normal(names[i])) }

  function Full(names: seq<Name>): OsPath { [RootDir] + Names(names) }

  function JoinOne(at: seq<Name>, c: Component): seq<Name> {
    match c
    case RootDir => []
    case Normal(n) => at + [n]
    case _ => at
  }

  /** Why a walk ends without meeting a readable symlink. */
  datatype End = Arrived(path: seq<Name>) | Missing(error: OsError) | BadLink(error: OsError)

  /** Where a chain stands: a path still to walk, or a symlink that turned out to be unreadable. */
  datatype Place = At(path: OsPath) | Broken(error: OsError)

  /** The target spliced in front of the components still to come. */
  function Splice(at: seq<Name>, target: OsPath, rest: OsPath): OsPath {
    if Rooted(target) then target + rest else Full(at) + target + rest
  }

  /** Checks each prefix in turn; the first symlink turns the path into another path. */
  function Walk(fs: Fs, at: seq<Name>, todo: OsPath): Hop<Place, End>
    decreases |todo|
  {
    if todo == [] then Stop(Arrived(at))
    else
      var next := JoinOne(at, todo[0]);
      match fs(next)
      case Failed(e) => Stop(Missing(e))
      case Plain => Walk(fs, next, todo[1..])
      case Link(Err(e)) => Follow(Broken(e))
      case Link(Ok(target)) => Follow(At(Normalize(Splice(at, target, todo[1..]))))
  }

  /** Meeting a symlink costs a hop before its target is read. */
  function Steps(fs: Fs): Place -> Hop<Place, End> {
    (p: Place) => match p case At(path) => Walk(fs, [], path) case Broken(e) => Stop(BadLink(e))
  }

  /** Every location from depth `lo` on exists and is no symlink. */
  ghost predicate Physical(fs: Fs, p: seq<Name>, lo: nat) {
    forall k :: lo <= k <= |p| ==> fs(p[..k]).Plain?
  }

  /** A walk that arrives has checked every prefix it added. */
  lemma {:induction false} ArrivedPhysical(fs: Fs, at: seq<Name>, todo: OsPath)
    requires Tidy(todo) && (todo != [] && todo[0].RootDir? ==> at == [])
    requires Walk(fs, at, todo).Stop? && Walk(fs, at, todo).result.Arrived?
    ensures var p := Walk(fs, at, todo).result.path;
            at <= p && Physical(fs, p, |at| + 1) && (Rooted(todo) ==> fs([]).Plain?)
    decreases |todo|
  {
    if todo != [] {
      var next := JoinOne(at, todo[0]);
      assert forall i :: 0 <= i < |todo[1..]| ==> todo[1..][i] == todo[i + 1];
      ArrivedPhysical(fs, next, todo[1..]);
      var p := Walk(fs, at, todo).result.path;
      assert next == p[..|next|];
      if todo[0].Normal? { assert at == next[..|at|]; }
    }
  }

  /** Walking a physical path arrives at it. */
  lemma {:induction false} PhysicalArrives(fs: Fs, p: seq<Name>, k: nat)
    requires k <= |p| && Physical(fs, p, k + 1)
    ensures Walk(fs, p[..k], Full(p)[k + 1..]) == Stop(Arrived(p))
    decreases |p| - k
  {
    var todo := Full(p)[k + 1..];
    if k == |p| {
      TakeAll(p);
    } else {
      assert todo[0] == Normal(p[k]);
      TakeSnoc(p, k);
      assert todo[1..] == Full(p)[k + 2..];
      PhysicalArrives(fs, p, k + 1);
    }
  }

  /** The text of a list of names is its own normal form. */
  lemma FullIsNormal(p: seq<Name>)
    ensures Normalize(Full(p)) == Full(p)
  {
    PushTidy([], Full(p));
    assert [] + Full(p) == Full(p);
  }

  // ----- canonicalize -----

  /** After exactly n symlinks the path arrives at p. */
  ghost predicate ArrivesIn(fs: Fs, path: OsPath, n: nat, p: seq<Name>) {
    EndsAt(Steps(fs), At(Normalize(path)), n, Arrived(p))
  }

  /** The answer of a bounded chain: what it arrives at within 40 hops. */
  ghost predicate Arrives(fs: Fs, path: OsPath, p: seq<Name>) {
    exists n: nat :: n <= MAX_SYMLINK_HOPS && ArrivesIn(fs, path, n, p)
  }

  /** The inner loop: one pass over the components of the current path is one step of the chain. */
  method WalkOnce(fs: Fs, current: OsPath) returns (hop: Hop<Place, End>)
    ensures hop == Steps(fs)(At(current))
  {
    var result: seq<Name> := [];
    TakeAll(current);
    for i := 0 to |current|
      invariant Walk(fs, [], current) == Walk(fs, result, current[i..])
    {
      var next := JoinOne(result, current[i]);
      var node := fs(next);
      match node {
        case Failed(e) => return Stop(Missing(e));
        case Link(Err(e)) => return Follow(Broken(e));
        case Link(Ok(target)) =>
          var normal := NormalizePath(Splice(result, target, current[i + 1..]));
          return Follow(At(normal));
        case Plain =>
      }
      result := next;
    }
    return Stop(Arrived(result));
  }

  /**
   canonicalize. It always stops; it succeeds with p exactly when following first symlinks, at
   most 40 of them, arrives at p, and reports a loop exactly when that many hops end nowhere.
   */
  method Canonicalize(fs: Fs, path: OsPath) returns (r: Result<seq<Name>, HelperError>)
    ensures r.Ok? ==> Arrives(fs, path, r.value)
    ensures forall p :: Arrives(fs, path, p) ==> r == Ok(p)
    ensures r == Err(HelperError.SymlinkLoop) <==>
              forall n: nat, e :: n <= 40 ==> !EndsAt(Steps(fs), At(Normalize(path)), n, e)
    ensures forall n: nat, e: End ::
              n <= MAX_SYMLINK_HOPS && !e.Arrived? && EndsAt(Steps(fs), At(Normalize(path)), n, e) ==>
                r == Err(Os(e.error))
  {
    var hops := 0;
    var current := NormalizePath(path);
    ghost var start := At(current);
    while true
      invariant hops <= MAX_SYMLINK_HOPS && After(Steps(fs), start, hops) == Some(At(current))
      decreases MAX_SYMLINK_HOPS - hops
    {
      var hop := WalkOnce(fs, current);
      if hop.Stop? {
        EndsHere(Steps(fs), start, hops, hop.result);
        assert EndsAt(Steps(fs), At(Normalize(path)), hops, hop.result);
        assert hop.result.Arrived? ==> ArrivesIn(fs, path, hops, hop.result.path);
        return if hop.result.Arrived? then Ok(hop.result.path) else Err(Os(hop.result.error));
      }
      assert After(Steps(fs), start, hops + 1) == Some(hop.to);
      if hops == MAX_SYMLINK_HOPS {
        NotYetEnded(Steps(fs), start, hops + 1);
        return Err(HelperError.SymlinkLoop);
      }
      hops := hops + 1;
      if hop.to.Broken? {
        EndsHere(Steps(fs), start, hops, BadLink(hop.to.error));
        assert EndsAt(Steps(fs), At(Normalize(path)), hops, BadLink(hop.to.error));
        return Err(Os(hop.to.error));
      }
      current := hop.to.path;
    }
  }

  /** Every path a chain walks is tidy, and absolute if it started so. */
  ghost predicate Walkable(p: Place, absolute: bool) {
    p.At? ==> Tidy(p.path) && (absolute ==> Rooted(p.path))
  }

  lemma {:induction false} ChainTidy(fs: Fs, start: Place, absolute: bool, n: nat)
    requires Walkable(start, absolute) && After(Steps(fs), start, n).Some?
    ensures Walkable(After(Steps(fs), start, n).value, absolute)
  {
    if n > 0 {
      ChainTidy(fs, start, absolute, n - 1);
      var before := After(Steps(fs), start, n - 1).value;
      if before.At? { FollowAbsolute(fs, [], before.path); }
    }
  }

  lemma {:induction false} FollowAbsolute(fs: Fs, at: seq<Name>, todo: OsPath)
    ensures Walk(fs, at, todo).Follow? ==> Walkable(Walk(fs, at, todo).to, true)
    decreases |todo|
  {
    if todo != [] {
      var next := JoinOne(at, todo[0]);
      match fs(next)
      case Plain => FollowAbsolute(fs, next, todo[1..]);
      case Link(Ok(target)) => NormalizeAbsolute(Splice(at, target, todo[1..]));
      case _ =>
    }
  }

  /** The answer exists, has no symlink among its prefixes, and is its own answer. */
  lemma CanonicalIsPhysical(fs: Fs, path: OsPath, p: seq<Name>)
    requires Arrives(fs, path, p)
    ensures Physical(fs, p, 1)
    ensures Rooted(path) ==> Physical(fs, p, 0)
    ensures fs([]).Plain? ==> Arrives(fs, Full(p), p)
  {
    var n: nat :| n <= MAX_SYMLINK_HOPS && ArrivesIn(fs, path, n, p);
    if Rooted(path) { NormalizeAbsolute(path); }
    ChainTidy(fs, At(Normalize(path)), Rooted(path), n);
    var last := After(Steps(fs), At(Normalize(path)), n).value;
    ArrivedPhysical(fs, [], last.path);
    if Rooted(path) || fs([]).Plain? { assert p[..0] == []; }
    if fs([]).Plain? { PhysicalIsFixpoint(fs, p); }
  }

  lemma PhysicalIsFixpoint(fs: Fs, p: seq<Name>)
    requires Physical(fs, p, 1) && fs([]).Plain?
    ensures Arrives(fs, Full(p), p)
  {
    FullIsNormal(p);
    PhysicalArrives(fs, p, 0);
    assert p[..0] == [] && Full(p)[0] == RootDir;
    assert Walk(fs, [], Full(p)) == Walk(fs, [], Full(p)[1..]);
    assert ArrivesIn(fs, Full(p), 0, p);
  }

  // ----- what canonicalising means -----

  /** Names at the end of an absolute path stay at its end. */
  lemma NormalizeNames(p: OsPath, q: seq<Name>)
    requires Rooted(p)
    ensures Normalize(p + Names(q)) == Normalize(p) + Names(q)
  {
    PushAppend([], p, Names(q));
    NormalizeAbsolute(p);
    var out := PushAll([], p);
    assert out == Normalize(p) by { PushAbsolute([RootDir], p[1..]); }
    PushTidy(out, Names(q));
  }

  /** A symlink met on the way leads to the same place with the names behind it. */
  lemma {:induction false} WalkTail(fs: Fs, at: seq<Name>, todo: OsPath, q: seq<Name>)
    ensures Walk(fs, at, todo + Names(q)) ==
            match Walk(fs, at, todo)
            case Stop(Arrived(c)) => Walk(fs, c, Names(q))
            case Stop(e) => Stop(e)
            case Follow(Broken(e)) => Follow(Broken(e))
            case Follow(At(path)) => Follow(At(path + Names(q)))
    decreases |todo|
  {
    if todo == [] {
      assert todo + Names(q) == Names(q);
    } else {
      assert (todo + Names(q))[1..] == todo[1..] + Names(q) && (todo + Names(q))[0] == todo[0];
      var next := JoinOne(at, todo[0]);
      match fs(next)
      case Plain => WalkTail(fs, next, todo[1..], q);
      case Link(Ok(target)) => SpliceTail(at, target, todo[1..], q);
      case _ =>
    }
  }

  lemma SpliceTail(at: seq<Name>, target: OsPath, rest: OsPath, q: seq<Name>)
    ensures Normalize(Splice(at, target, rest + Names(q))) == Normalize(Splice(at, target, rest)) + Names(q)
  {
    var whole := Splice(at, target, rest);
    assert Splice(at, target, rest + Names(q)) == whole + Names(q);
    NormalizeNames(whole, q);
  }

  /** A walk through a physical path goes on from it. */
  lemma WalkThrough(fs: Fs, c: seq<Name>, q: seq<Name>)
    requires Physical(fs, c, 0)
    ensures Walk(fs, [], Full(c) + Names(q)) == Walk(fs, c, Names(q))
  {
    assert c[..0] == [];
    PhysicalArrives(fs, c, 0);
    assert Full(c)[0] == RootDir;
    assert Walk(fs, [], Full(c)) == Walk(fs, [], Full(c)[1..]);
    WalkTail(fs, [], Full(c), q);
  }

  /** Names behind a place. */
  function Behind(q: seq<Name>): Place -> Place {
    (p: Place) => match p case At(path) => At(path + Names(q)) case Broken(e) => Broken(e)
  }

  /** The chain of a path with names behind it follows the chain of the path. */
  lemma ChainTail(fs: Fs, path: OsPath, q: seq<Name>, n: nat)
    requires After(Steps(fs), At(path), n).Some?
    ensures After(Steps(fs), At(path + Names(q)), n) == Some(Behind(q)(After(Steps(fs), At(path), n).value))
  {
    forall a, b | Steps(fs)(a) == Follow(b) ensures Steps(fs)(Behind(q)(a)) == Follow(Behind(q)(b)) {
      if a.At? { WalkTail(fs, [], a.path, q); }
    }
    AfterMap(Steps(fs), Behind(q), At(path), n);
  }

  /**
   Canonicalising in two parts: if an absolute path arrives at c, then the path with names
   behind it arrives exactly where c with these names does, the symlinks of both parts adding up.
   */
  lemma Composition(fs: Fs, p: OsPath, q: seq<Name>, m: nat, c: seq<Name>, n: nat, e: seq<Name>)
    requires Rooted(p) && ArrivesIn(fs, p, m, c)
    ensures ArrivesIn(fs, p + Names(q), m + n, e) <==> ArrivesIn(fs, Full(c) + Names(q), n, e)
  {
    var step, start := Steps(fs), At(Normalize(p));
    NormalizeNames(p, q);
    NormalizeNames(Full(c), q);
    FullIsNormal(c);
    var last := After(step, start, m).value;
    ChainTail(fs, Normalize(p), q, m);
    WalkTail(fs, [], last.path, q);
    ArrivesPhysical(fs, p, m, c);
    WalkThrough(fs, c, q);
    SameStep(step, At(last.path + Names(q)), At(Full(c) + Names(q)), n, Arrived(e));
    EndsShift(step, At(Normalize(p) + Names(q)), m, n, Arrived(e));
  }

  lemma ArrivesPhysical(fs: Fs, p: OsPath, m: nat, c: seq<Name>)
    requires Rooted(p) && ArrivesIn(fs, p, m, c)
    ensures Physical(fs, c, 0)
  {
    NormalizeAbsolute(p);
    ChainTidy(fs, At(Normalize(p)), true, m);
    ArrivedPhysical(fs, [], After(Steps(fs), At(Normalize(p)), m).value.path);
    assert c[..0] == [];
  }

  /** The target of a link in `at`, read there: an absolute one from the root, a relative one from `at`. */
  function LinkText(at: seq<Name>, target: OsPath): OsPath { if Rooted(target) then target else Full(at) + target }

  /** The path through a link in a physical directory arrives where its target, with the same names behind, does. */
  lemma LinkLeads(fs: Fs, at: seq<Name>, n: Name, target: OsPath, q: seq<Name>, k: nat, e: seq<Name>)
    requires Physical(fs, at, 0) && fs(at + [n]) == Link(Ok(target))
    ensures ArrivesIn(fs, Full(at + [n]) + Names(q), k + 1, e) <==> ArrivesIn(fs, LinkText(at, target) + Names(q), k, e)
  {
    var whole := [n] + q;
    assert Full(at + [n]) + Names(q) == Full(at) + Names(whole);
    NormalizeNames(Full(at), whole);
    FullIsNormal(at);
    WalkThrough(fs, at, whole);
    assert Names(whole)[0] == Normal(n) && Names(whole)[1..] == Names(q);
    assert Walk(fs, at, Names(whole)) == Follow(At(Normalize(Splice(at, target, Names(q)))));
    assert Splice(at, target, Names(q)) == LinkText(at, target) + Names(q);
    OneHop(Steps(fs), At(Full(at) + Names(whole)), At(Normalize(LinkText(at, target) + Names(q))), k, Arrived(e));
  }

  /** What cannot be stat'ed or read as a link ends it with the operating system's error. */
  lemma ErrorEnds(fs: Fs, at: seq<Name>, n: Name, q: seq<Name>, e: OsError)
    requires Physical(fs, at, 0)
    ensures fs(at + [n]) == Failed(e) ==> EndsAt(Steps(fs), At(Normalize(Full(at + [n]) + Names(q))), 0, Missing(e))
    ensures fs(at + [n]) == Link(Err(e)) ==> EndsAt(Steps(fs), At(Normalize(Full(at + [n]) + Names(q))), 1, BadLink(e))
  {
    var whole := [n] + q;
    assert Full(at + [n]) + Names(q) == Full(at) + Names(whole);
    NormalizeNames(Full(at), whole);
    FullIsNormal(at);
    WalkThrough(fs, at, whole);
    assert Names(whole)[0] == Normal(n) && Names(whole)[1..] == Names(q);
    var start := At(Full(at) + Names(whole));
    assert After(Steps(fs), start, 0) == Some(start);
    if fs(at + [n]) == Link(Err(e)) {
      assert After(Steps(fs), start, 1) == Some(Broken(e));
    }
  }

  // ----- confinement -----

  /** confine_to_root: exactly the canonical paths that have the canonical root as component prefix. */
  method ConfineToRoot(fs: Fs, root: OsPath, path: OsPath) returns (r: Result<seq<Name>, HelperError>)
    ensures r.Ok? ==> Arrives(fs, path, r.value) && exists base :: Arrives(fs, root, base) && base <= r.value
    ensures forall p, base :: Arrives(fs, path, p) && Arrives(fs, root, base) ==>
              r == if base <= p then Ok(p) else Err(PathEscapeRejected)
  {
    var canonical := Canonicalize(fs, path);
    if canonical.Err? { return Err(canonical.error); }
    var base := Canonicalize(fs, root);
    if base.Err? { return Err(base.error); }
    if !(base.value <= canonical.value) { return Err(PathEscapeRejected); }
    return Ok(canonical.value);
  }
}
