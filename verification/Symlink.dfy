/** Symlink rewriting and chain resolution (tuxstack-vfs/src/symlink.rs). */
module Symlink {
  import opened Common
  import opened VfsPath
  import opened Chains

  // ----- resolving one target -----

  function Pieces(target: Bytes): seq<Bytes> {
    if IsAbsolute(target) then Split(target)[1..] else Split(target)
  }

  /** The path a target denotes when read from a link in `parent`. */
  function Resolve(parent: VirtualPath, target: Bytes): Result<VirtualPath, VfsError> {
    var start := if IsAbsolute(target) then [] else parent;
    match Walk(start, Pieces(target))
    case Err(e) => Err(e)
    case Ok(p) => (WalkValid(start, Pieces(target)); FromComponents(p))
  }

  method ResolveTarget(parent: VirtualPath, target: LinkTarget) returns (r: Result<VirtualPath, VfsError>)
    ensures r == Resolve(parent, target)
  {
    var components: seq<Bytes> := if IsAbsolute(target) then [] else parent;
    var pieces := Pieces(target);
    WalkValid(components, pieces);
    for i := 0 to |pieces|
      invariant ValidNames(components)
      invariant Walk(if IsAbsolute(target) then [] else parent, pieces) == Walk(components, pieces[i..])
    {
      var raw := pieces[i];
      assert pieces[i..][1..] == pieces[i + 1..];
      if raw == [] || raw == [DOT] { continue; }
      if raw == [DOT, DOT] {
        if components == [] { return Err(SymlinkEscape); }
        components := components[..|components| - 1];
      } else {
        var name := FileName(raw);
        if name.Err? { return Err(name.error); }
        components := components + [name.value];
      }
    }
    r := FromComponents(components);
  }

  /** For an absolute target, resolving and parsing as a path are the same. */
  lemma ResolveAbsolute(parent: VirtualPath, target: LinkTarget)
    requires IsAbsolute(target)
    ensures Resolve(parent, target) == AbsolutePath(target)
  {
  }

  // ----- rewriting -----

  /** The relative spelling of `goal` for a link whose parent is `depth` deep. */
  function Relative(depth: nat, goal: seq<Bytes>): Bytes {
    if depth == 0 && goal == [] then [DOT] else JoinSlash(DotDots(depth) + goal)
  }

  lemma NoSlash(depth: nat, goal: seq<Bytes>)
    requires ValidNames(goal)
    ensures forall i :: 0 <= i < depth + |goal| ==>
              var c := (DotDots(depth) + goal)[i]; c != [] && SLASH !in c && 0 !in c
  {
    forall i | 0 <= i < depth + |goal|
      ensures var c := (DotDots(depth) + goal)[i]; c != [] && SLASH !in c && 0 !in c
    {
      if i >= depth { assert ValidName(goal[i - depth]); }
    }
  }

  lemma {:induction false} JoinShape(parts: seq<Bytes>)
    requires parts != []
    requires forall i :: 0 <= i < |parts| ==> parts[i] != [] && SLASH !in parts[i] && 0 !in parts[i]
    ensures JoinSlash(parts) != [] && JoinSlash(parts)[0] != SLASH && 0 !in JoinSlash(parts)
  {
    assert parts[|parts| - 1] != [];
    if |parts| > 1 {
      JoinShape(parts[..|parts| - 1]);
    } else {
      assert parts[0][0] in parts[0];
    }
  }

  /** The relative spelling is relative and leads from the parent to the goal. */
  lemma RelativeResolves(parent: VirtualPath, goal: VirtualPath)
    ensures !IsAbsolute(Relative(|parent|, goal)) && 0 !in Relative(|parent|, goal)
    ensures Resolve(parent, Relative(|parent|, goal)) == Ok(goal)
  {
    var parts := DotDots(|parent|) + goal;
    if parts == [] {
      SplitNoSlash([DOT]);
      assert Walk([], [[DOT]]) == Walk([], [[DOT]][1..]);
    } else {
      NoSlash(|parent|, goal);
      JoinShape(parts);
      SplitJoin(parts);
      WalkAppend(parent, DotDots(|parent|), goal);
      WalkUp(parent);
      WalkNames([], goal);
      assert [] + goal == goal;
    }
  }

  lemma JoinPush(parts: seq<Bytes>, part: Bytes)
    ensures JoinSlash(parts + [part]) == if parts == [] then part else JoinSlash(parts) + [SLASH] + part
  {
    assert (parts + [part])[..|parts|] == parts;
  }

  /** One more `..`. */
  lemma UpsPush(n: nat)
    ensures JoinSlash(DotDots(n + 1)) == (if n == 0 then [] else JoinSlash(DotDots(n)) + [SLASH]) + [DOT, DOT]
    ensures JoinSlash(DotDots(0)) == []
  {
    JoinPush(DotDots(n), [DOT, DOT]);
    assert DotDots(n + 1) == DotDots(n) + [[DOT, DOT]];
  }

  /** The first loop: one `..` for each level of the parent. */
  method SpellUps(depth: nat) returns (rewritten: Bytes)
    ensures rewritten == JoinSlash(DotDots(depth)) && (depth > 0 ==> rewritten != [])
  {
    rewritten := [];
    for i := 0 to depth
      invariant rewritten == JoinSlash(DotDots(i)) && (i > 0 ==> rewritten != [])
    {
      UpsPush(i);
      if rewritten != [] { rewritten := rewritten + [SLASH]; }
      rewritten := rewritten + [DOT, DOT];
    }
  }

  /** The second loop: the names of the goal. */
  method SpellRelative(depth: nat, goal: VirtualPath) returns (rewritten: Bytes)
    ensures rewritten == Relative(depth, goal)
  {
    ghost var ups := DotDots(depth);
    rewritten := SpellUps(depth);
    assert ups + goal[..0] == ups;
    for i := 0 to |goal|
      invariant rewritten == JoinSlash(ups + goal[..i]) && (depth + i > 0 ==> rewritten != [])
    {
      JoinPush(ups + goal[..i], goal[i]);
      TakeSnoc(goal, i);
      Concat3(ups, goal[..i], [goal[i]]);
      if rewritten != [] { rewritten := rewritten + [SLASH]; }
      rewritten := rewritten + goal[i];
    }
    TakeAll(goal);
    if rewritten == [] { rewritten := [DOT]; }
  }

  /** rewrite_symlink: absolute targets are spelled relative to the link's own directory. */
  function Rewrite(link: VirtualPath, target: LinkTarget): Result<LinkTarget, VfsError> {
    if link == [] then Err(InvalidInput)
    else match Resolve(Parent(link).value, target)
      case Err(e) => Err(e)
      case Ok(goal) => if !IsAbsolute(target) then Ok(target) else MakeTarget(Relative(|link| - 1, goal))
  }

  /**
   Whenever rewriting succeeds, the result is relative and denotes, from the link's own
   directory, the path the original target denoted. It succeeds exactly when the link is not
   the root, the target does not escape, and the relative spelling fits.
   */
  lemma RewriteMeaning(link: VirtualPath, target: LinkTarget)
    ensures link == [] ==> Rewrite(link, target) == Err(InvalidInput)
    ensures link != [] ==>
              var parent := Parent(link).value;
              var goal, r := Resolve(parent, target), Rewrite(link, target);
              && (goal.Err? ==> r == Err(goal.error))
              && (goal.Ok? ==>
                    && (r.Ok? <==> !IsAbsolute(target) || |Relative(|parent|, goal.value)| <= MAX_PATH_BYTES)
                    && (r.Err? ==> r.error == PathTooLong)
                    && (!IsAbsolute(target) ==> r == Ok(target)))
              && (r.Ok? ==> !IsAbsolute(r.value) && Resolve(parent, r.value) == goal)
  {
    if link != [] {
      var parent := Parent(link).value;
      var goal := Resolve(parent, target);
      if goal.Ok? && IsAbsolute(target) { RelativeResolves(parent, goal.value); }
    }
  }

  method RewriteSymlink(link: VirtualPath, target: LinkTarget) returns (r: Result<LinkTarget, VfsError>)
    ensures r == Rewrite(link, target)
  {
    var p := Parent(link);
    if p.None? { return Err(InvalidInput); }
    var parent := p.value;
    var goal := ResolveTarget(parent, target);
    if goal.Err? { return Err(goal.error); }
    if !IsAbsolute(target) { return Ok(target); }
    ResolveAbsolute(parent, target);
    var normalized := FromAbsolute(target);
    assert normalized == goal; // so the `?` on the parse never fires
    var rewritten := SpellRelative(|parent|, normalized.value);
    r := MakeTarget(rewritten);
  }

  // ----- chains -----

  /** What `read_link` answers for a path: an error, "not a link", or a target. */
  type LinkReader = VirtualPath -> Result<Option<LinkTarget>, VfsError>

  type Outcome = Result<VirtualPath, VfsError>

  function NextHop(read: LinkReader, at: VirtualPath): Hop<VirtualPath, Outcome> {
    match read(at)
    case Err(e) => Stop(Err(e))
    case Ok(None) => Stop(Ok(at))
    case Ok(Some(target)) =>
      match Parent(at)
      case None => Stop(Err(InvalidInput))
      case Some(parent) =>
        match Resolve(parent, target)
        case Err(e) => Stop(Err(e))
        case Ok(to) => Follow(to)
  }

  /** From a directory so many levels up and then down these names. */
  ghost predicate LeadsBy(parent: seq<Bytes>, c: Climb, to: seq<Bytes>) {
    c.ups <= |parent| && to == parent[..|parent| - c.ups] + c.names
  }

  /**
   Where a link leads: an absolute target to the path it spells, a relative one from the link's
   own directory, as many levels up and then down as its text says; the root is no link.
   */
  lemma HopLeads(read: LinkReader, at: VirtualPath, target: LinkTarget, to: VirtualPath)
    requires read(at) == Ok(Some(target)) && NextHop(read, at) == Follow(to)
    ensures at != []
    ensures IsAbsolute(target) ==> AbsolutePath(target) == Ok(to)
    ensures !IsAbsolute(target) ==>
              LeadsBy(at[..|at| - 1], Net(Split(target)), to)
  {
    var parent := Parent(at).value;
    assert Resolve(parent, target) == Ok(to);
    if IsAbsolute(target) { ResolveAbsolute(parent, target); } else { RelativeLeads(parent, target, to); }
  }

  lemma RelativeLeads(parent: VirtualPath, target: LinkTarget, to: VirtualPath)
    requires !IsAbsolute(target) && Resolve(parent, target) == Ok(to)
    ensures LeadsBy(parent, Net(Split(target)), to)
  {
    NetLeads(parent, Split(target), to);
  }

  lemma NetLeads(parent: VirtualPath, pieces: seq<Bytes>, to: seq<Bytes>)
    requires Walk(parent, pieces) == Ok(to)
    ensures LeadsBy(parent, Net(pieces), to)
  {
    WalkNet(parent, pieces);
  }

  /** What is no link ends the chain where it is, and an error ends it with that error. */
  lemma HopStops(read: LinkReader, at: VirtualPath)
    ensures read(at) == Ok(None) ==> NextHop(read, at) == Stop(Ok(at))
    ensures read(at).Err? ==> NextHop(read, at) == Stop(Err(read(at).error))
    ensures forall target :: read(at) == Ok(Some(target)) && at != [] && Resolve(Parent(at).value, target).Ok? ==>
              NextHop(read, at).Follow?
  {
  }

  function Hops(read: LinkReader): VirtualPath -> Hop<VirtualPath, Outcome> {
    (at: VirtualPath) => NextHop(read, at)
  }

  /**
   resolve_symlink_chain. It returns an outcome exactly when the chain, followed without any
   memory of visited paths, ends with that outcome in fewer than `maxDepth` hops; every other
   chain, cyclic or merely too long, is a SymlinkLoop.
   */
  method ResolveChain(start: VirtualPath, maxDepth: nat, read: LinkReader) returns (r: Outcome)
    ensures forall n: nat, s :: n < maxDepth && EndsAt(Hops(read), start, n, s) ==> r == s
    ensures r == Err(SymlinkLoop) || exists n: nat :: n < maxDepth && EndsAt(Hops(read), start, n, r)
  {
    if maxDepth == 0 { return Err(SymlinkLoop); }
    var end := FollowChain(Hops(read), start, maxDepth);
    return if end.Some? then end.value else Err(SymlinkLoop);
  }
}
