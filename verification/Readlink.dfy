/** The helper's readlink command (tuxstack-fs-helper/src/path.rs): token in, canonical token out. */
module Readlink {
  import opened Common
  import opened Helper
  import opened VfsPath
  import opened Tokens
  import opened Chains
  import B = Base64
  import C = Canonical

  // ----- operating-system paths as components -----

  predicate Plain(pieces: seq<Bytes>) { forall i :: 0 <= i < |pieces| ==> SLASH !in pieces[i] && 0 !in pieces[i] }

  /** The components of the pieces between separators; empty pieces and `.` vanish. */
  function FromPieces(pieces: seq<Bytes>): C.OsPath
    requires Plain(pieces)
  {
    if pieces == [] then []
    else
      var front, piece := FromPieces(pieces[..|pieces| - 1]), pieces[|pieces| - 1];
      if piece == [] || piece == [DOT] then front
      else if piece == [DOT, DOT] then front + [C.ParentDir]
      else front + [C.Normal(piece)]
  }

  lemma {:induction false} SplitPlain(b: Bytes)
    requires 0 !in b
    ensures Plain(Split(b))
  {
    if b != [] { SplitPlain(b[..|b| - 1]); }
  }

  function Parse(b: Bytes): C.OsPath
    requires 0 !in b
  {
    SplitPlain(b);
    (if IsAbsolute(b) then [C.RootDir] else []) + FromPieces(Split(b))
  }

  // ----- which canonical paths get a token that leads back -----

  /** The canonical path is the root's text or continues it at a component boundary. */
  predicate Under(root: Bytes, p: seq<Name>) { PathBytes(p) == root || ComponentBelow(root, PathBytes(p)) }

  lemma CanonicalPieces(p: seq<Name>)
    requires p != []
    ensures Split(PathBytes(p)) == [[]] + p
  {
    var parts: seq<Bytes> := [[]] + p;
    forall i | 0 <= i < |parts| ensures SLASH !in parts[i] {
      if i > 0 { assert FileComponent(p[i - 1]); }
    }
    SplitJoin(parts);
  }

  lemma SuffixOf(x: Bytes, p: seq<Bytes>, a: seq<Bytes>, b: seq<Bytes>)
    requires a + b == [x] + p && a != []
    ensures |b| <= |p| && b == p[|p| - |b|..] && a == [x] + p[..|p| - |b|]
  {
    var whole := [x] + p;
    assert whole[|a|..] == b && whole[..|a|] == a;
    assert whole[|a|..] == p[|a| - 1..];
  }

  lemma SlashFirst(b: Bytes)
    requires b != [] && b[0] == SLASH
    ensures Split(b)[0] == []
  {
    assert b == [] + [SLASH] + b[1..];
    SplitAppend([], b[1..]);
  }

  /** Text whose pieces are all file names is a valid relative path. */
  lemma NamesAreRelative(relative: Bytes, tail: seq<Name>)
    requires relative != [] && 0 !in relative && Split(relative) == tail
    ensures ValidRelative(relative)
  {
    forall i | 0 <= i < |Split(relative)| ensures Component(Split(relative)[i]) { assert FileComponent(tail[i]); }
    if relative[0] == SLASH { SlashFirst(relative); }
  }

  /** Cutting a canonical path at a separator cuts its components. */
  lemma CutAtSlash(head: Bytes, relative: Bytes, p: seq<Name>)
    requires p != [] && PathBytes(p) == head + [SLASH] + relative
    ensures var n := |Split(relative)|;
            n <= |p| && Split(relative) == p[|p| - n..] && Split(head) == [[]] + p[..|p| - n]
  {
    CanonicalPieces(p);
    SplitAppend(head, relative);
    SuffixOf([], p, Split(head), Split(relative));
  }

  lemma {:induction false} PathNulFree(parts: seq<Bytes>)
    requires forall i :: 0 <= i < |parts| ==> 0 !in parts[i]
    ensures 0 !in JoinSlash(parts)
  {
    if |parts| > 1 { PathNulFree(parts[..|parts| - 1]); }
  }

  lemma CanonicalNulFree(p: seq<Name>)
    ensures 0 !in PathBytes(p)
  {
    var parts: seq<Bytes> := [[]] + p;
    forall i | 0 <= i < |parts| ensures 0 !in parts[i] {
      if i > 0 { assert FileComponent(p[i - 1]); }
    }
    PathNulFree(parts);
  }

  /** Below the root there is a token. */
  lemma BelowHasToken(root: Bytes, p: seq<Name>)
    requires ComponentBelow(root, PathBytes(p))
    ensures TokenUnderRoot(root, PathBytes(p)).Ok?
  {
    var path := PathBytes(p);
    CanonicalNulFree(p);
    if p != [] {
      var slash := EndsWithSlash(root);
      var head := if slash then root[..|root| - 1] else root;
      var relative := if slash then path[|root|..] else path[|root| + 1..];
      BelowText(root, path, head, relative);
      CutAtSlash(head, relative, p);
      var tail: seq<Name> := p[|p| - |Split(relative)|..];
      NamesAreRelative(relative, tail);
    }
  }

  lemma BelowText(root: Bytes, path: Bytes, head: Bytes, relative: Bytes)
    requires ComponentBelow(root, path)
    requires head == if EndsWithSlash(root) then root[..|root| - 1] else root
    requires relative == if EndsWithSlash(root) then path[|root|..] else path[|root| + 1..]
    ensures relative != [] && path == head + [SLASH] + relative
    ensures 0 !in path ==> 0 !in relative
    ensures TokenUnderRoot(root, path) == EncodeRelative(relative)
  {
    SplitAt(path, |root|);
    var rest := path[|root|..];
    assert rest[0] == path[|root|];
    if EndsWithSlash(root) {
      assert root == head + [SLASH];
    } else {
      HeadTail(rest);
      assert rest[1..] == relative;
    }
  }

  lemma {:induction false} JoinAppend(a: seq<Bytes>, c: seq<Bytes>)
    requires a != [] && c != []
    ensures JoinSlash(a + c) == JoinSlash(a) + [SLASH] + JoinSlash(c)
  {
    var last := c[|c| - 1];
    FrontOfConcat(a, c);
    if |c| == 1 {
      assert a + c[..0] == a;
    } else {
      JoinAppend(a, c[..|c| - 1]);
      Concat4(JoinSlash(a) + [SLASH], JoinSlash(c[..|c| - 1]), [SLASH], last);
    }
  }

  lemma FirstByte(p: seq<Name>)
    requires p != []
    ensures JoinSlash(p) != [] && JoinSlash(p)[0] != SLASH
  {
    assert FileComponent(p[0]);
    if |p| > 1 {
      assert p == p[..1] + p[1..] && p[..1] == [p[0]];
      JoinAppend(p[..1], p[1..]);
      assert JoinSlash(p[..1]) == p[0];
    }
    assert JoinSlash(p)[0] == p[0][0];
  }

  /** The text of a path and of a longer path. */
  lemma LongerText(b: seq<Name>, p: seq<Name>)
    requires b < p
    ensures PathBytes(p) == (if b == [] then [] else PathBytes(b)) + [SLASH] + JoinSlash(p[|b|..])
    ensures JoinSlash(p[|b|..]) != [] && JoinSlash(p[|b|..])[0] != SLASH
  {
    var rest: seq<Name> := p[|b|..];
    var parts: seq<Bytes> := [[]] + b;
    FirstByte(rest);
    assert [[]] + p == parts + rest;
    JoinAppend(parts, rest);
    assert b == [] ==> parts == [[]];
  }

  lemma PrefixIsBelow(b: seq<Name>, p: seq<Name>)
    requires b < p
    ensures ComponentBelow(PathBytes(b), PathBytes(p))
  {
    LongerText(b, p);
    if b != [] { NoSlashAtEnd(b); }
  }

  lemma NoSlashAtEnd(b: seq<Name>)
    requires b != []
    ensures !EndsWithSlash(PathBytes(b))
  {
    var parts: seq<Bytes> := [[]] + b;
    var last := b[|b| - 1];
    assert FileComponent(last) && parts[|parts| - 1] == last;
    assert last[|last| - 1] in last;
  }

  lemma RootPieces()
    ensures Split([SLASH]) == [[], []]
  {
    assert [SLASH] == [] + [SLASH] + [];
    SplitAppend([], []);
  }

  lemma TextInjective(b: seq<Name>, p: seq<Name>)
    requires PathBytes(b) == PathBytes(p)
    ensures b == p
  {
    RootPieces();
    if p != [] {
      CanonicalPieces(p);
      assert ([[]] + p)[1..] == p && FileComponent(p[0]);
    }
    if b != [] {
      CanonicalPieces(b);
      assert ([[]] + b)[1..] == b && FileComponent(b[0]);
    }
    assert Split([SLASH])[1..] == [[]];
  }

  lemma BelowIsPrefix(b: seq<Name>, p: seq<Name>)
    requires ComponentBelow(PathBytes(b), PathBytes(p)) && b != []
    ensures b <= p
  {
    var root, path := PathBytes(b), PathBytes(p);
    NoSlashAtEnd(b);
    var relative := path[|root| + 1..];
    BelowText(root, path, root, relative);
    if p != [] {
      CutAtSlash(root, relative, p);
      CanonicalPieces(b);
      var n := |p| - |Split(relative)|;
      assert ([[]] + b)[1..] == b && ([[]] + p[..n])[1..] == p[..n];
    }
  }

  /** Whether a path is under a canonical root is a question of components. */
  lemma UnderIsPrefix(b: seq<Name>, p: seq<Name>)
    ensures Under(PathBytes(b), p) <==> b <= p
  {
    if b <= p {
      if b != p { PrefixIsBelow(b, p); }
    } else if PathBytes(p) == PathBytes(b) {
      TextInjective(b, p);
    } else if ComponentBelow(PathBytes(b), PathBytes(p)) {
      BelowIsPrefix(b, p);
    }
  }

  /** A relative path is valid exactly when it is empty or file names with single separators between them. */
  lemma RelativeIsNames(r: Bytes)
    ensures ValidRelative(r) <==> r == [] || exists names: seq<Name> :: names != [] && r == JoinSlash(names)
  {
    if ValidRelative(r) && r != [] {
      SplitPlain(r);
      forall i | 0 <= i < |Split(r)| ensures FileComponent(Split(r)[i]) { assert Component(Split(r)[i]); }
      var names: seq<Name> := Split(r);
      JoinSplit(r);
      assert r == JoinSlash(names);
    }
    forall names: seq<Name> | names != [] && r == JoinSlash(names) ensures ValidRelative(r) {
      forall i | 0 <= i < |names| ensures SLASH !in names[i] && 0 !in names[i] { assert FileComponent(names[i]); }
      SplitJoin(names);
      PathNulFree(names);
      FirstByte(names);
      NamesAreRelative(r, names);
    }
  }

  // ----- the command -----

  /**
   run_readlink. The canonical path is not confined and the root is used as given: the token
   that is sent leads back to the canonical path exactly when that path is under the root's
   text. When the root is itself a canonical path, UnderIsPrefix says that this means below it.
   */
  method RunReadlink(fs: C.Fs, root: Bytes, token: Bytes) returns (r: Result<Bytes, HelperError>)
    requires 0 !in root
    ensures ResolveToken(root, token).Err? ==> r == Err(ResolveToken(root, token).error)
    ensures r.Ok? ==> 0 !in ResolveToken(root, token).value
    ensures r.Ok? ==> exists p: seq<Name> :: C.Arrives(fs, Parse(ResolveToken(root, token).value), p)
                                  && r == TokenUnderRoot(root, PathBytes(p))
    ensures ResolveToken(root, token).Ok? ==>
              && 0 !in ResolveToken(root, token).value
              && forall p: seq<Name> :: C.Arrives(fs, Parse(ResolveToken(root, token).value), p) ==>
                   && r == TokenUnderRoot(root, PathBytes(p))
                   && (r.Ok? && ResolveToken(root, r.value) == Ok(PathBytes(p)) <==> Under(root, p))
  {
    var path := ResolveToken(root, token);
    if path.Err? { return Err(path.error); }
    assert 0 !in path.value;
    var canonical := C.Canonicalize(fs, Parse(path.value));
    if canonical.Err? { return Err(canonical.error); }
    r := TokenUnderRoot(root, PathBytes(canonical.value));
    LeadsBack(root, canonical.value);
  }

  lemma LeadsBack(root: Bytes, p: seq<Name>)
    ensures var r := TokenUnderRoot(root, PathBytes(p));
            r.Ok? && ResolveToken(root, r.value) == Ok(PathBytes(p)) <==> Under(root, p)
  {
    var r := TokenUnderRoot(root, PathBytes(p));
    if r.Ok? { TokenUnderRootExact(root, PathBytes(p)); }
    if ComponentBelow(root, PathBytes(p)) { BelowHasToken(root, p); }
  }

  // ----- a token for another file -----

  /** Reading the text of a canonical path gives its components. */
  lemma ParseText(p: seq<Name>)
    ensures 0 !in PathBytes(p) && Parse(PathBytes(p)) == C.Full(p)
  {
    CanonicalNulFree(p);
    if p == [] {
      RootPieces();
      SplitPlain([SLASH]);
      var none: seq<Bytes> := [[]];
      assert Split([SLASH])[..1] == none && none[..0] == [];
      assert FromPieces(none) == [];
    } else {
      CanonicalPieces(p);
      SplitPlain(PathBytes(p));
      NamesFromPieces(p);
      LongerText([], p);
    }
  }

  lemma {:induction false} NamesFromPieces(p: seq<Name>)
    requires Plain([[]] + p)
    ensures C.Full(p) == [C.RootDir] + FromPieces([[]] + p)
  {
    var pieces: seq<Bytes> := [[]] + p;
    if p == [] {
      assert pieces[..0] == [];
    } else {
      var front: seq<Name> := p[..|p| - 1];
      assert pieces[..|pieces| - 1] == [[]] + front && FileComponent(p[|p| - 1]);
      NamesFromPieces(front);
      assert C.Full(p) == C.Full(front) + [C.Normal(p[|p| - 1])];
    }
  }

  function Glued(a: Name, b: Name): Name {
    assert a[0] in a && (a + b)[0] == a[0] && (a + b)[1] == if |a| > 1 then a[1] else b[0];
    a + b
  }

  /** /a/x is a link to /ab; everything else exists and is no link. */
  function Elsewhere(a: Name, x: Name, b: Name): C.Fs {
    (p: seq<Name>) => if p == [a, x] then C.Link(Ok(C.Full([Glued(a, b)]))) else C.Plain
  }

  lemma LinkLeadsElsewhere(a: Name, x: Name, b: Name)
    ensures C.Arrives(Elsewhere(a, x, b), C.Full([a, x]), [Glued(a, b)])
  {
    var fs, start, goal := Elsewhere(a, x, b), C.Full([a, x]), [Glued(a, b)];
    C.FullIsNormal([a, x]);
    C.FullIsNormal(goal);
    assert start[1..] == [C.Normal(a), C.Normal(x)] && start[1..][1..] == [C.Normal(x)] && [C.Normal(x)][1..] == [];
    assert [] + [a] == [a] && [a] + [x] == [a, x];
    assert C.Walk(fs, [a], [C.Normal(x)]) == Follow(C.At(C.Normalize(C.Full(goal) + [])));
    assert C.Walk(fs, [], [C.Normal(a), C.Normal(x)]) == C.Walk(fs, [a], [C.Normal(x)]);
    assert C.Full(goal) + [] == C.Full(goal);
    C.PhysicalArrives(fs, goal, 0);
    assert goal[..0] == [] && C.Full(goal)[0] == C.RootDir;
    assert C.Walk(fs, [], C.Full(goal)) == C.Walk(fs, [], C.Full(goal)[1..]);
    assert After(C.Steps(fs), C.At(start), 0) == Some(C.At(start));
    assert After(C.Steps(fs), C.At(start), 1) == Some(C.At(C.Full(goal)));
    assert C.ArrivesIn(fs, start, 1, goal);
  }

  /** Asked for /a/x below the root /a, the command sends the token of /a/b, though the link leads to /ab. */
  lemma SendsAnotherFile(a: Name, x: Name, b: Name)
    ensures var root, goal := PathBytes([a]), [Glued(a, b)];
            && EncodeRelative(x).Ok? && ResolveToken(root, EncodeRelative(x).value) == Ok(PathBytes([a, x]))
            && 0 !in PathBytes([a, x]) && C.Arrives(Elsewhere(a, x, b), Parse(PathBytes([a, x])), goal)
            && !Under(root, goal) && TokenUnderRoot(root, PathBytes(goal)).Ok?
            && ResolveToken(root, TokenUnderRoot(root, PathBytes(goal)).value) == Ok(PathBytes([a, b]))
  {
    var root, goal := PathBytes([a]), [Glued(a, b)];
    OneName(x);
    OneName(b);
    TokenRoundTrip(x);
    TokenRoundTrip(b);
    TwoNames(a, x);
    TwoNames(a, b);
    ParseText([a, x]);
    LinkLeadsElsewhere(a, x, b);
    assert [a][0] == goal[0] ==> |a| == |Glued(a, b)|;
    UnderIsPrefix([a], goal);
    OneText(a);
    OneText(Glued(a, b));
    Concat3([SLASH], a, b);
    B.Prefix(root, b);
    assert b[0] in b;
  }

  lemma OneName(x: Name)
    ensures ValidRelative(x)
  {
    SplitNoSlash(x);
    assert x[0] in x;
  }

  lemma OneText(a: Name)
    ensures PathBytes([a]) == [SLASH] + a
  {
    LongerText([], [a]);
    assert [a][0..] == [a];
  }

  lemma TwoNames(a: Name, x: Name)
    ensures PathBytes([a, x]) == JoinRoot(PathBytes([a]), x)
  {
    NoSlashAtEnd([a]);
    assert [a] <= [a, x] && [a, x][1..] == [x];
    LongerText([a], [a, x]);
  }
}
