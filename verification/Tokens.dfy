/**
 Path tokens (tuxstack-fs-protocol/src/lib.rs) and their use by the helper
 (tuxstack-fs-helper/src/path.rs). Operating-system paths are byte strings here.
 */
module Tokens {
  import opened Common
  import opened VfsPath
  import opened Helper
  import B = Base64

  /** "v1:" */
  const VERSION: Bytes := [0x76, 0x31, 0x3A]

  predicate Component(b: Bytes) { b != [] && b != [DOT] && b != [DOT, DOT] }

  /** validate_relative. */
  predicate ValidRelative(r: Bytes) {
    r == [] || (r[0] != SLASH && 0 !in r && forall i :: 0 <= i < |Split(r)| ==> Component(Split(r)[i]))
  }

  /** FilesystemPathToken::encode_relative. */
  function EncodeRelative(r: Bytes): Result<Bytes, HelperError> {
    if ValidRelative(r) then Ok(VERSION + B.Encode(r)) else Err(InvalidToken)
  }

  /** FilesystemPathToken::decode_relative. */
  function DecodeRelative(token: Bytes): Result<Bytes, HelperError> {
    if !(VERSION <= token) then Err(InvalidToken)
    else match B.Decode(token[|VERSION|..])
      case Err(_) => Err(InvalidToken)
      case Ok(r) => if ValidRelative(r) then Ok(r) else Err(InvalidToken)
  }

  /** Tokens round-trip: a relative path has a token exactly when it is valid, and gets it back. */
  lemma TokenRoundTrip(r: Bytes)
    ensures EncodeRelative(r).Ok? <==> ValidRelative(r)
    ensures EncodeRelative(r).Ok? ==> DecodeRelative(EncodeRelative(r).value) == Ok(r)
  {
    B.RoundTrip(r);
    B.Prefix(VERSION, B.Encode(r));
  }

  /** The text of a token, and what a decoded one can be. */
  lemma TokenText(r: Bytes, token: Bytes)
    ensures EncodeRelative(r).Ok? ==> EncodeRelative(r).value == Ascii("v1:") + B.Encode(r)
    ensures DecodeRelative(token).Ok? ==>
              && Ascii("v1:") <= token && ValidRelative(DecodeRelative(token).value)
              && B.Decode(token[3..]) == Ok(DecodeRelative(token).value)
  {
    VersionText();
  }

  lemma VersionText()
    ensures VERSION == Ascii("v1:")
  {
  }

  // ----- joining onto the browse root -----

  predicate EndsWithSlash(b: Bytes) { b != [] && b[|b| - 1] == SLASH }

  function JoinRoot(root: Bytes, relative: Bytes): Bytes {
    if relative == [] then root
    else if EndsWithSlash(root) then root + relative
    else root + [SLASH] + relative
  }

  function ResolveToken(root: Bytes, token: Bytes): Result<Bytes, HelperError> {
    match DecodeRelative(token)
    case Err(e) => Err(e)
    case Ok(r) => Ok(JoinRoot(root, r))
  }

  function ChildToken(parent: Bytes, name: Bytes): Result<Bytes, HelperError> {
    EncodeRelative(if parent == [] then name else parent + [SLASH] + name)
  }

  /** A name gets a child token exactly when it is one path component (or both sides are empty). */
  lemma ChildTokenExists(parent: Bytes, name: Bytes)
    requires ValidRelative(parent) && SLASH !in name
    ensures ChildToken(parent, name).Ok? <==> FileComponent(name) || (parent == [] && name == [])
  {
    SplitNoSlash(name);
    if parent == [] {
      assert Split(name)[0] == name;
      if name != [] { assert name[0] in name; }
    } else {
      var whole := parent + [SLASH] + name;
      SplitAppend(parent, name);
      assert Split(whole) == Split(parent) + [name];
      assert Split(whole)[|Split(parent)|] == name;
      assert whole[0] == parent[0] && (0 in whole <==> 0 in name);
      if FileComponent(name) {
        forall i | 0 <= i < |Split(whole)| ensures Component(Split(whole)[i]) {
          if i < |Split(parent)| { assert Component(Split(parent)[i]); }
        }
      }
    }
  }

  /** Resolving a child token gives the parent's resolved path extended by exactly the name. */
  lemma ChildTokenResolves(root: Bytes, parent: Bytes, name: Bytes)
    requires ValidRelative(parent) && FileComponent(name)
    ensures ChildToken(parent, name).Ok? && EncodeRelative(parent).Ok?
    ensures ResolveToken(root, EncodeRelative(parent).value) == Ok(JoinRoot(root, parent))
    ensures ResolveToken(root, ChildToken(parent, name).value) == Ok(JoinRoot(JoinRoot(root, parent), name))
  {
    ChildTokenExists(parent, name);
    TokenRoundTrip(parent);
    var relative := if parent == [] then name else parent + [SLASH] + name;
    TokenRoundTrip(relative);
    if parent != [] {
      var base := JoinRoot(root, parent);
      NoTrailingSlash(parent);
      assert base[|base| - 1] == parent[|parent| - 1];
      if EndsWithSlash(root) {
        Concat3(root, parent, [SLASH]);
        Concat3(root, parent + [SLASH], name);
      } else {
        Concat3(root + [SLASH], parent, [SLASH]);
        Concat3(root + [SLASH], parent + [SLASH], name);
      }
    }
  }

  lemma NoTrailingSlash(r: Bytes)
    requires ValidRelative(r) && r != []
    ensures r[|r| - 1] != SLASH
  {
    assert r[|r| - 1] == SLASH ==> Split(r) == Split(r[..|r| - 1]) + [[]];
    assert Component(Split(r)[|Split(r)| - 1]);
  }

  // ----- back from an absolute path -----

  function TokenUnderRoot(root: Bytes, path: Bytes): Result<Bytes, HelperError> {
    if path == root then EncodeRelative([])
    else if root <= path then
      var rest := path[|root|..];
      EncodeRelative(if rest[0] == SLASH then rest[1..] else rest)
    else Err(PathEscapeRejected)
  }

  /** What remains of the path starts a new component below the root. */
  predicate ComponentBelow(root: Bytes, path: Bytes) {
    && root < path
    && if EndsWithSlash(root) then path[|root|] != SLASH
       else path[|root|] == SLASH && |path| > |root| + 1
  }

  /**
   token_under_root strips a byte prefix. Its token leads back to the path exactly when the path
   is the root itself or continues it at a component boundary.
   */
  lemma TokenUnderRootExact(root: Bytes, path: Bytes)
    requires TokenUnderRoot(root, path).Ok?
    ensures ResolveToken(root, TokenUnderRoot(root, path).value) == Ok(path) <==>
              path == root || ComponentBelow(root, path)
  {
    if path == root {
      TokenRoundTrip([]);
    } else {
      var rest := path[|root|..];
      var relative := if rest[0] == SLASH then rest[1..] else rest;
      TokenRoundTrip(relative);
      var tail := if relative == [] then [] else if EndsWithSlash(root) then relative else [SLASH] + relative;
      assert JoinRoot(root, relative) == root + tail;
      assert path == root + rest;
      Cancel(root, tail, rest);
      TailIsRest(EndsWithSlash(root), rest, relative, tail);
      assert root < path && path[|root|] == rest[0] && |path| == |root| + |rest|;
      assert TokenUnderRoot(root, path) == EncodeRelative(relative);
      assert ResolveToken(root, EncodeRelative(relative).value) == Ok(root + tail);
    }
  }

  lemma TailIsRest(slash: bool, rest: Bytes, relative: Bytes, tail: Bytes)
    requires rest != [] && relative == if rest[0] == SLASH then rest[1..] else rest
    requires tail == if relative == [] then [] else if slash then relative else [SLASH] + relative
    ensures tail == rest <==> if slash then rest[0] != SLASH else rest[0] == SLASH && |rest| > 1
  {
    HeadTail(rest);
  }

  lemma Cancel<T>(a: seq<T>, b: seq<T>, c: seq<T>)
    ensures a + b == a + c <==> b == c
  {
    assert (a + b)[|a|..] == b && (a + c)[|a|..] == c;
  }

  /** /ab is not below /a, yet it gets the token of /a/b. */
  lemma SiblingGetsChildToken()
    ensures var root, sibling, child := [SLASH, 0x61], [SLASH, 0x61, 0x62], [SLASH, 0x61, SLASH, 0x62];
            && TokenUnderRoot(root, sibling).Ok?
            && ResolveToken(root, TokenUnderRoot(root, sibling).value) == Ok(child) != Ok(sibling)
  {
    var root, sibling := [SLASH, 0x61], [SLASH, 0x61, 0x62];
    assert sibling[2..] == [0x62];
    SplitNoSlash([0x62]);
    assert ValidRelative([0x62]);
    TokenRoundTrip([0x62]);
    assert root + [SLASH] + [0x62] == [SLASH, 0x61, SLASH, 0x62];
  }
}
