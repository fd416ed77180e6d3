/**
 The dynamic namespace (tuxstack-vfs/src/namespace.rs): providers mounted at paths, friendly
 aliases, and the synthetic directories between them. Provider answers are a parameter.
 */
module Namespace {
  import opened Common
  import opened VfsPath
  import opened Routing
  import opened Order
  import opened Symlink

  datatype FileType = Directory | RegularFile | SymbolicLink | Special

  datatype Metadata = Metadata(nodeId: Bytes, fileType: FileType, size: nat, mode: nat, generation: nat)

  datatype Entry = Entry(name: Bytes, metadata: Metadata)

  /** What the mounted providers answer. */
  datatype World = World(
    getattr: (ProviderId, VirtualPath) -> Result<Metadata, VfsError>,
    readDir: (ProviderId, VirtualPath) -> Result<seq<Entry>, VfsError>,
    readLink: (ProviderId, VirtualPath) -> Result<LinkTarget, VfsError>)

  datatype Mounted = Mounted(key: Bytes, provider: ProviderId)

  type Mounts = map<VirtualPath, Mounted>
  type Aliases = map<VirtualPath, LinkTarget>

  datatype Resolved = Resolved(mounted: Mounted, mountPath: VirtualPath, relative: VirtualPath)

  // ----- what each path means -----

  function AliasMetadata(path: VirtualPath, target: LinkTarget): Metadata {
    Metadata(PathBytes(path), SymbolicLink, |target|, 511, 0)
  }

  function SyntheticMetadata(path: VirtualPath): Metadata {
    Metadata(PathBytes(path), Directory, 0, 365, 0)
  }

  /** The root, or a proper prefix of some mount; aliases alone make no directory. */
  predicate Synthetic(mounts: Mounts, path: VirtualPath) {
    path == [] || exists m :: m in mounts && path <= m && m != path
  }

  function Stat(mounts: Mounts, aliases: Aliases, world: World, path: VirtualPath): Result<Metadata, VfsError> {
    if path in aliases then Ok(AliasMetadata(path, aliases[path]))
    else match Longest(mounts.Keys, path)
      case Some(d) => (SubPath(path, |d|, |path|); world.getattr(mounts[d].provider, path[|d|..|path|]))
      case None => if Synthetic(mounts, path) then Ok(SyntheticMetadata(path)) else Err(NotFound)
  }

  function LookupIn(mounts: Mounts, aliases: Aliases, world: World, parent: VirtualPath,
                    name: Bytes): Result<Metadata, VfsError>
    requires ValidName(name)
  {
    match Join(parent, name)
    case Err(e) => Err(e)
    case Ok(p) => Stat(mounts, aliases, world, p)
  }

  /**
   What getattr must answer: an alias is a symlink as long as its target; a path with a mounted
   prefix is what the provider at the deepest one says of the rest of the path; the root and
   what lies above a mount is a directory; nothing else exists.
   */
  ghost predicate Answers(
    mounts: Mounts, aliases: Aliases, world: World, path: VirtualPath, r: Result<Metadata, VfsError>)
  {
    if path in aliases then
      r.Ok? && r.value.fileType == SymbolicLink && r.value.size == |aliases[path]| && r.value.nodeId == PathBytes(path)
    else if exists d: VirtualPath :: Deepest(mounts.Keys, path, d) then
      forall d: VirtualPath, rest: VirtualPath :: Deepest(mounts.Keys, path, d) && d + rest == path ==>
        r == world.getattr(mounts[d].provider, rest)
    else if path == [] || exists m :: m in mounts && path < m then
      r.Ok? && r.value.fileType == Directory && r.value.nodeId == PathBytes(path)
    else r == Err(NotFound)
  }

  lemma StatAnswers(mounts: Mounts, aliases: Aliases, world: World, path: VirtualPath)
    ensures Answers(mounts, aliases, world, path, Stat(mounts, aliases, world, path))
  {
    LongestIsDeepest(mounts.Keys, path);
    var found := Longest(mounts.Keys, path);
    if found.Some? {
      var d := found.value;
      assert Deepest(mounts.Keys, path, d);
      forall e: VirtualPath, rest: VirtualPath | Deepest(mounts.Keys, path, e) && e + rest == path
        ensures e == d && rest == path[|d|..|path|]
      {
        assert e == path[..|e|] && d == path[..|d|];
      }
    } else {
      assert forall m :: m in mounts && path <= m && m != path <==> m in mounts && path < m;
    }
  }

  // ----- the children of a synthetic directory -----

  type Children = map<Bytes, Metadata>

  /** The loop body over mounts: a direct child asks its provider, a deeper one is a directory. */
  function AddMount(mounts: Mounts, world: World, path: VirtualPath, m: VirtualPath,
                    children: Children): Result<Children, VfsError>
    requires m in mounts
  {
    if Parent(m) == Some(path) then
      match world.getattr(mounts[m].provider, [])
      case Ok(meta) => Ok(children[m[|m| - 1] := meta])
      case Err(e) => Err(e)
    else if path <= m && |m| > |path| then
      var child := m[|path|];
      SubPath(m, 0, |path| + 1);
      Ok(if child in children then children else children[child := SyntheticMetadata(m[0..|path| + 1])])
    else Ok(children)
  }

  ghost predicate Below(path: VirtualPath, name: Bytes, m: VirtualPath) {
    path <= m && |m| > |path| && m[|path|] == name
  }

  /** The row of `name` is right for the mounts in `seen`, whatever the order they were seen in. */
  ghost predicate Row(mounts: Mounts, world: World, path: VirtualPath, seen: set<VirtualPath>, children: Children,
                      name: Bytes)
  {
    && (name in children <==> exists m :: m in seen && Below(path, name, m))
    && (name in children ==>
          && ValidPath(path + [name])
          && if path + [name] in seen
             then path + [name] in mounts && world.getattr(mounts[path + [name]].provider, []) == Ok(children[name])
             else children[name] == SyntheticMetadata(path + [name]))
  }

  ghost predicate ChildrenOf(mounts: Mounts, world: World, path: VirtualPath, seen: set<VirtualPath>,
                             children: Children)
  {
    forall name :: Row(mounts, world, path, seen, children, name)
  }

  lemma ChildPath(path: VirtualPath, name: Bytes, m: VirtualPath)
    requires Below(path, name, m)
    ensures path + [name] == m[0..|path| + 1] && ValidPath(path + [name])
    ensures Parent(m) == Some(path) <==> m == path + [name]
  {
    SubPath(m, 0, |path| + 1);
    assert m[..|path|] == path;
    assert m == m[..|m| - 1] + [m[|m| - 1]];
  }

  lemma SeenMore(path: VirtualPath, seen: set<VirtualPath>, m: VirtualPath, name: Bytes)
    ensures (exists x :: x in seen + {m} && Below(path, name, x)) <==>
            (exists x :: x in seen && Below(path, name, x)) || Below(path, name, m)
  {
    if Below(path, name, m) { assert m in seen + {m}; }
    if x :| x in seen && Below(path, name, x) { assert x in seen + {m}; }
  }

  /** A name that `m` says nothing about keeps its row. */
  lemma OtherRow(mounts: Mounts, world: World, path: VirtualPath, seen: set<VirtualPath>, m: VirtualPath,
                 children: Children, after: Children, name: Bytes)
    requires Row(mounts, world, path, seen, children, name) && !Below(path, name, m)
    requires (name in after <==> name in children) && (name in children ==> after[name] == children[name])
    ensures Row(mounts, world, path, seen + {m}, after, name)
  {
    SeenMore(path, seen, m, name);
    var p := path + [name];
    assert path <= p && p[|path|] == name;
    assert p != m;
  }

  /** The row of a directly mounted child is its provider's answer. */
  lemma DirectRow(mounts: Mounts, world: World, path: VirtualPath, seen: set<VirtualPath>, m: VirtualPath,
                  after: Children, name: Bytes)
    requires m in mounts && m == path + [name]
    requires name in after && world.getattr(mounts[m].provider, []) == Ok(after[name])
    ensures Row(mounts, world, path, seen + {m}, after, name)
  {
    SeenMore(path, seen, m, name);
    assert path <= m && m[|path|] == name;
    assert Below(path, name, m);
  }

  /** A deeper mount makes its first step a directory unless something is there already. */
  lemma DeeperRow(mounts: Mounts, world: World, path: VirtualPath, seen: set<VirtualPath>, m: VirtualPath,
                  children: Children, name: Bytes)
    requires Row(mounts, world, path, seen, children, name) && Below(path, name, m) && m != path + [name]
    ensures ValidPath(path + [name])
    ensures Row(mounts, world, path, seen + {m},
                if name in children then children else children[name := SyntheticMetadata(path + [name])], name)
  {
    SeenMore(path, seen, m, name);
    ChildPath(path, name, m);
    var p: VirtualPath := path + [name];
    assert path <= p && p[|path|] == name;
    assert Below(path, name, p);
  }

  lemma AddMountRow(mounts: Mounts, world: World, path: VirtualPath, seen: set<VirtualPath>, m: VirtualPath,
                    children: Children, name: Bytes)
    requires Row(mounts, world, path, seen, children, name) && m in mounts
    requires AddMount(mounts, world, path, m, children).Ok?
    ensures Row(mounts, world, path, seen + {m}, AddMount(mounts, world, path, m, children).value, name)
  {
    var after := AddMount(mounts, world, path, m, children).value;
    if Parent(m) == Some(path) {
      var last := m[|m| - 1];
      assert m == path + [last];
      if name == last {
        DirectRow(mounts, world, path, seen, m, after, name);
      } else {
        assert m[|path|] == last;
        OtherRow(mounts, world, path, seen, m, children, after, name);
      }
    } else if Below(path, name, m) {
      ChildPath(path, name, m);
      DeeperRow(mounts, world, path, seen, m, children, name);
    } else {
      OtherRow(mounts, world, path, seen, m, children, after, name);
    }
  }

  lemma AddMountKeeps(mounts: Mounts, world: World, path: VirtualPath, seen: set<VirtualPath>, m: VirtualPath,
                      children: Children)
    requires ChildrenOf(mounts, world, path, seen, children) && m in mounts
    requires AddMount(mounts, world, path, m, children).Ok?
    ensures ChildrenOf(mounts, world, path, seen + {m}, AddMount(mounts, world, path, m, children).value)
  {
    var after := AddMount(mounts, world, path, m, children).value;
    forall name ensures Row(mounts, world, path, seen + {m}, after, name) {
      AddMountRow(mounts, world, path, seen, m, children, name);
    }
  }

  function DirectAliases(aliases: Aliases, path: VirtualPath): set<VirtualPath> {
    set a | a in aliases && Parent(a) == Some(path)
  }

  /** Aliases in the directory replace whatever the mounts put under the same name. */
  ghost predicate AliasedRow(aliases: Aliases, path: VirtualPath, seen: set<VirtualPath>, base: Children,
                             children: Children, name: Bytes)
  {
    if path + [name] in seen
    then
      && path + [name] in aliases && name in children
      && children[name] == AliasMetadata(path + [name], aliases[path + [name]])
    else (name in children <==> name in base) && (name in base ==> children[name] == base[name])
  }

  ghost predicate AliasedChildren(aliases: Aliases, path: VirtualPath, seen: set<VirtualPath>, base: Children,
                                  children: Children)
  {
    forall name :: AliasedRow(aliases, path, seen, base, children, name)
  }

  lemma ReplaceRows(aliases: Aliases, path: VirtualPath, seen: set<VirtualPath>, base: Children, children: Children,
                    a: VirtualPath)
    requires AliasedChildren(aliases, path, seen, base, children) && a in aliases && Parent(a) == Some(path)
    ensures AliasedChildren(aliases, path, seen + {a}, base, children[a[|a| - 1] := AliasMetadata(a, aliases[a])])
  {
    var last := a[|a| - 1];
    var after := children[last := AliasMetadata(a, aliases[a])];
    assert a == path + [last];
    forall name ensures AliasedRow(aliases, path, seen + {a}, base, after, name) {
      assert AliasedRow(aliases, path, seen, base, children, name);
      assert path + [name] == a ==> name == a[|path|];
    }
  }

  /** The finished table holds exactly what lookup answers. */
  ghost predicate Agrees(mounts: Mounts, aliases: Aliases, world: World, path: VirtualPath, children: Children) {
    && (forall name :: name in children ==> ValidName(name))
    && (forall name :: ValidName(name) ==> (name in children <==> LookupIn(mounts, aliases, world, path, name).Ok?))
    && (forall name :: ValidName(name) && name in children ==>
          LookupIn(mounts, aliases, world, path, name) == Ok(children[name]))
  }

  lemma UncoveredChild(mounts: Mounts, path: VirtualPath, child: VirtualPath)
    requires Longest(mounts.Keys, path).None? && |child| == |path| + 1 && path <= child
    ensures Longest(mounts.Keys, child) == if child in mounts then Some(child) else None
  {
    assert Parent(child).value == path;
  }

  lemma ChildAgrees(mounts: Mounts, aliases: Aliases, world: World, path: VirtualPath, base: Children,
                    children: Children, name: Bytes)
    requires Longest(mounts.Keys, path).None? && ValidName(name)
    requires ChildrenOf(mounts, world, path, mounts.Keys, base)
    requires forall m :: m in mounts && Parent(m) == Some(path) ==> world.getattr(mounts[m].provider, []).Ok?
    requires AliasedChildren(aliases, path, DirectAliases(aliases, path), base, children)
    ensures name in children <==> LookupIn(mounts, aliases, world, path, name).Ok?
    ensures name in children ==> LookupIn(mounts, aliases, world, path, name) == Ok(children[name])
  {
    var direct := DirectAliases(aliases, path);
    var p := path + [name];
    assert p[..|p| - 1] == path;
    assert Row(mounts, world, path, mounts.Keys, base, name);
    assert AliasedRow(aliases, path, direct, base, children, name);
    if ByteLen(p) > MAX_PATH_BYTES {
      assert !ValidPath(p) && name !in base && p !in direct;
    } else {
      UncoveredChild(mounts, path, p);
      assert p in direct <==> p in aliases;
      if p !in aliases {
        if p in mounts {
          assert Below(path, name, p) && Parent(p) == Some(path);
          assert p[|p|..|p|] == [];
        } else {
          SyntheticChild(mounts, path, name);
        }
      }
    }
  }

  lemma SyntheticChild(mounts: Mounts, path: VirtualPath, name: Bytes)
    requires ValidPath(path + [name]) && path + [name] !in mounts
    ensures Synthetic(mounts, path + [name]) <==> exists m :: m in mounts && Below(path, name, m)
  {
    var p: VirtualPath := path + [name];
    if m :| m in mounts && Below(path, name, m) {
      ChildPath(path, name, m);
      assert p <= m && m != p;
    }
    if m :| m in mounts && p <= m && m != p {
      assert m[..|p|] == p;
      assert m[..|path|] == path && m[|path|] == name;
      assert Below(path, name, m);
    }
  }

  // ----- the namespace object -----

  class NamespaceProvider {
    var mounts: Mounts
    var aliases: Aliases

    /** Nothing is mounted on or aliased to the namespace root, and alias targets are absolute. */
    ghost predicate Valid()
      reads this
    {
      [] !in mounts && [] !in aliases && forall a :: a in aliases ==> IsAbsolute(aliases[a])
    }

    constructor ()
      ensures Valid() && mounts == map[] && aliases == map[]
    {
      mounts := map[];
      aliases := map[];
    }

    method Mount(path: VirtualPath, key: Bytes, provider: ProviderId) returns (r: Result<(), VfsError>)
      requires Valid()
      modifies this
      ensures Valid() && aliases == old(aliases)
      ensures path == [] ==> r == Err(InvalidInput) && mounts == old(mounts)
      ensures path != [] ==> r == Ok(()) && mounts == old(mounts)[path := Mounted(key, provider)]
    {
      if path == [] { return Err(InvalidInput); }
      mounts := mounts[path := Mounted(key, provider)];
      return Ok(());
    }

    method Alias(path: VirtualPath, target: LinkTarget) returns (r: Result<(), VfsError>)
      requires Valid()
      modifies this
      ensures Valid() && mounts == old(mounts)
      ensures path == [] || !IsAbsolute(target) ==> r == Err(InvalidInput) && aliases == old(aliases)
      ensures path != [] && IsAbsolute(target) ==> r == Ok(()) && aliases == old(aliases)[path := target]
    {
      if path == [] || !IsAbsolute(target) { return Err(InvalidInput); }
      aliases := aliases[path := target];
      return Ok(());
    }

    /** Removes one mount, and every alias at or below it. */
    method Unmount(path: VirtualPath)
      requires Valid()
      modifies this
      ensures Valid() && mounts == old(mounts) - {path}
      ensures aliases == map a | a in old(aliases) && !(path <= a) :: old(aliases)[a]
    {
      mounts := mounts - {path};
      aliases := map a | a in aliases && !(path <= a) :: aliases[a];
    }

    method Clear()
      modifies this
      ensures Valid() && mounts == map[] && aliases == map[]
    {
      mounts := map[];
      aliases := map[];
    }

    /** The maximum over the hash map, in any iteration order, is the longest prefix. */
    method ProviderAt(path: VirtualPath) returns (r: Option<Resolved>)
      ensures r.None? <==> Longest(mounts.Keys, path).None?
      ensures r.Some? ==>
                && r.value.mountPath == Longest(mounts.Keys, path).value
                && r.value.mounted == mounts[r.value.mountPath]
                && r.value.mountPath + r.value.relative == path
    {
      var best: Option<VirtualPath> := None;
      var left := mounts.Keys;
      ghost var seen: set<VirtualPath> := {};
      while left != {}
        invariant seen + left == mounts.Keys
        invariant BestSoFar(seen, path, best)
        decreases |left|
      {
        var m: VirtualPath :| m in left;
        BestStep(seen, path, best, m);
        left, seen := left - {m}, seen + {m};
        if m <= path && (best.None? || |best.value| <= |m|) { best := Some(m); }
      }
      assert seen == mounts.Keys;
      LongestIsDeepest(mounts.Keys, path);
      if best.None? { return None; }
      DeepestUnique(mounts.Keys, path, best.value, Longest(mounts.Keys, path).value);
      return Some(Resolved(mounts[best.value], best.value, StripPrefix(path, best.value).value));
    }

    /** getattr. */
    method GetAttr(world: World, path: VirtualPath) returns (r: Result<Metadata, VfsError>)
      ensures r == Stat(mounts, aliases, world, path) && Answers(mounts, aliases, world, path, r)
    {
      StatAnswers(mounts, aliases, world, path);
      if path in aliases { return Ok(AliasMetadata(path, aliases[path])); }
      var route := ProviderAt(path);
      if route.Some? {
        assert route.value.relative == path[|route.value.mountPath|..|path|];
        return world.getattr(route.value.mounted.provider, route.value.relative);
      }
      if Synthetic(mounts, path) { return Ok(SyntheticMetadata(path)); }
      return Err(NotFound);
    }

    method Lookup(world: World, parent: VirtualPath, name: Bytes) returns (r: Result<Metadata, VfsError>)
      requires ValidName(name)
      ensures r == LookupIn(mounts, aliases, world, parent, name)
      ensures if ValidPath(parent + [name]) then Answers(mounts, aliases, world, parent + [name], r)
              else r == Err(PathTooLong)
    {
      var p := Join(parent, name);
      if p.Err? { return Err(p.error); }
      r := GetAttr(world, p.value);
    }

    method MountChildren(world: World, path: VirtualPath) returns (r: Result<Children, VfsError>)
      ensures r.Ok? <==>
                forall m :: m in mounts && Parent(m) == Some(path) ==> world.getattr(mounts[m].provider, []).Ok?
      ensures r.Ok? ==> ChildrenOf(mounts, world, path, mounts.Keys, r.value)
    {
      var children: Children := map[];
      var left := mounts.Keys;
      ghost var seen: set<VirtualPath> := {};
      assert forall name :: Row(mounts, world, path, seen, children, name);
      while left != {}
        invariant seen + left == mounts.Keys
        invariant ChildrenOf(mounts, world, path, seen, children)
        invariant forall m :: m in seen && Parent(m) == Some(path) ==> world.getattr(mounts[m].provider, []).Ok?
        decreases |left|
      {
        var m: VirtualPath :| m in left;
        var next := AddMount(mounts, world, path, m, children);
        if next.Err? { return Err(next.error); }
        AddMountKeeps(mounts, world, path, seen, m, children);
        children := next.value;
        left, seen := left - {m}, seen + {m};
      }
      assert seen == mounts.Keys;
      return Ok(children);
    }

    method AliasChildren(path: VirtualPath, base: Children) returns (children: Children)
      requires Valid()
      ensures AliasedChildren(aliases, path, DirectAliases(aliases, path), base, children)
    {
      children := base;
      var left := aliases.Keys;
      ghost var seen: set<VirtualPath> := {};
      while left != {}
        invariant seen <= DirectAliases(aliases, path) <= seen + left && left <= aliases.Keys
        invariant AliasedChildren(aliases, path, seen, base, children)
        decreases |left|
      {
        var a: VirtualPath :| a in left;
        if Parent(a) == Some(path) {
          ReplaceRows(aliases, path, seen, base, children, a);
          children := children[a[|a| - 1] := AliasMetadata(a, aliases[a])];
          seen := seen + {a};
        }
        left := left - {a};
      }
      assert seen == DirectAliases(aliases, path);
    }

    /**
     read_dir. On a synthetic directory that no mount covers, a successful listing holds
     exactly the names lookup accepts, once each in byte order, with the metadata lookup gives.
     It succeeds exactly when every provider mounted directly below answers for its root.
     */
    method ReadDir(world: World, path: VirtualPath) returns (r: Result<seq<Entry>, VfsError>)
      requires Valid()
      ensures Longest(mounts.Keys, path).Some? ==>
                var d := Longest(mounts.Keys, path).value;
                exists rest: VirtualPath :: d + rest == path && r == world.readDir(mounts[d].provider, rest)
      ensures Longest(mounts.Keys, path).None? && path != [] && !(exists m :: m in mounts && path < m) ==>
                r == Err(NotDirectory)
      ensures Longest(mounts.Keys, path).None? && (path == [] || exists m :: m in mounts && path < m) ==>
                && (r.Ok? <==>
                      forall m :: m in mounts && Parent(m) == Some(path) ==>
                        world.getattr(mounts[m].provider, []).Ok?)
                && (r.Ok? ==>
                      exists children: Children ::
                        Agrees(mounts, aliases, world, path, children) && Lists(r.value, children))
    {
      assert forall m :: m in mounts && path <= m && m != path <==> m in mounts && path < m;
      var route := ProviderAt(path);
      if route.Some? { return world.readDir(route.value.mounted.provider, route.value.relative); }
      if !Synthetic(mounts, path) { return Err(NotDirectory); }
      var base := MountChildren(world, path);
      if base.Err? { return Err(base.error); }
      var children := AliasChildren(path, base.value);
      ChildrenValid(mounts, aliases, world, path, base.value, children);
      forall name | ValidName(name)
        ensures name in children <==> LookupIn(mounts, aliases, world, path, name).Ok?
        ensures name in children ==> LookupIn(mounts, aliases, world, path, name) == Ok(children[name])
      {
        ChildAgrees(mounts, aliases, world, path, base.value, children, name);
      }
      assert Agrees(mounts, aliases, world, path, children);
      var entries := Collect(children);
      return Ok(entries);
    }

    /**
     read_link. Alias targets are namespace paths; a relative provider link is passed through;
     an absolute one is anchored at its own mount.
     */
    method ReadLink(world: World, path: VirtualPath) returns (r: Result<LinkTarget, VfsError>)
      ensures path in aliases ==> r == Ok(aliases[path])
      ensures path !in aliases && Longest(mounts.Keys, path).None? ==> r == Err(InvalidInput)
      ensures path !in aliases && Longest(mounts.Keys, path).Some? ==>
                var d := Longest(mounts.Keys, path).value;
                exists rest: VirtualPath :: d + rest == path && r == Anchor(d, world.readLink(mounts[d].provider, rest))
    {
      if path in aliases { return Ok(aliases[path]); }
      var route := ProviderAt(path);
      if route.None? { return Err(InvalidInput); }
      var target := world.readLink(route.value.mounted.provider, route.value.relative);
      r := AnchorTarget(route.value.mountPath, target);
    }
  }

  lemma ChildrenValid(mounts: Mounts, aliases: Aliases, world: World, path: VirtualPath, base: Children,
                      children: Children)
    requires ChildrenOf(mounts, world, path, mounts.Keys, base)
    requires AliasedChildren(aliases, path, DirectAliases(aliases, path), base, children)
    ensures forall name :: name in children ==> ValidName(name)
  {
    forall name | name in children ensures ValidName(name) {
      assert Row(mounts, world, path, mounts.Keys, base, name);
      assert AliasedRow(aliases, path, DirectAliases(aliases, path), base, children, name);
      var p := path + [name];
      assert ValidPath(p);
      assert p[|path|] == name;
    }
  }

  // ----- the sorted listing -----

  /** Exactly the table's rows, with strictly increasing names. */
  ghost predicate Lists(entries: seq<Entry>, children: Children) {
    && (forall i, j :: 0 <= i < j < |entries| ==>
          Leq(entries[i].name, entries[j].name) && entries[i].name != entries[j].name)
    && (forall i :: 0 <= i < |entries| ==>
          entries[i].name in children && entries[i].metadata == children[entries[i].name])
    && (forall name :: name in children ==> exists i :: 0 <= i < |entries| && entries[i].name == name)
  }

  method SortedNames(keys: set<Bytes>) returns (names: seq<Bytes>)
    ensures SortedBy(Leq, names) && multiset(names) == multiset(keys)
  {
    LeqPreorder();
    names := [];
    var left := keys;
    ghost var seen: set<Bytes> := {};
    while left != {}
      invariant seen + left == keys && seen !! left
      invariant SortedBy(Leq, names) && multiset(names) == multiset(seen)
      decreases |left|
    {
      var name: Bytes :| name in left;
      InsertSorted(Leq, name, names);
      InsertMultiset(Leq, name, names);
      names := Insert(Leq, name, names);
      left, seen := left - {name}, seen + {name};
    }
    assert seen == keys;
  }

  /** Iterating the ordered map. */
  method Collect(children: Children) returns (entries: seq<Entry>)
    ensures Lists(entries, children)
  {
    var names := SortedNames(children.Keys);
    NoRepeats(names, children.Keys);
    entries := seq(|names|, i requires 0 <= i < |names| && names[i] in children => Entry(names[i], children[names[i]]));
    forall name | name in children ensures exists i :: 0 <= i < |entries| && entries[i].name == name {
      var i :| 0 <= i < |names| && names[i] == name;
      assert entries[i].name == name;
    }
  }

  lemma NoRepeats(names: seq<Bytes>, keys: set<Bytes>)
    requires multiset(names) == multiset(keys)
    ensures forall i, j :: 0 <= i < j < |names| ==> names[i] != names[j]
    ensures forall name :: name in names <==> name in keys
  {
    forall name ensures name in names <==> name in keys {
      assert name in names <==> name in multiset(names);
    }
    forall i, j | 0 <= i < j < |names| ensures names[i] != names[j] {
      if names[i] == names[j] { Repeats(names, i, j); }
    }
  }

  // ----- anchoring -----

  /** An absolute provider target, moved below the mount it came from. */
  function Anchor(mount: VirtualPath, target: Result<LinkTarget, VfsError>): Result<LinkTarget, VfsError> {
    if target.Err? || !IsAbsolute(target.value) then target
    else match AbsolutePath(target.value)
      case Err(e) => Err(e)
      case Ok(inside) =>
        (AppendValid(mount, inside);
         match FromComponents(mount + inside)
         case Err(e) => Err(e)
         case Ok(whole) => MakeTarget(PathBytes(whole)))
  }

  /** Anchoring fails exactly for a provider error, a target that does not parse and a path that gets too long. */
  lemma AnchorExact(mount: VirtualPath, target: Result<LinkTarget, VfsError>)
    ensures Anchor(mount, target).Ok? <==>
              && target.Ok?
              && (IsAbsolute(target.value) ==>
                    AbsolutePath(target.value).Ok? && ValidPath(mount + AbsolutePath(target.value).value))
    ensures target.Ok? && !IsAbsolute(target.value) ==> Anchor(mount, target) == target
    ensures target.Err? ==> Anchor(mount, target) == target
  {
    if target.Ok? && IsAbsolute(target.value) && AbsolutePath(target.value).Ok? {
      var whole := mount + AbsolutePath(target.value).value;
      AppendValid(mount, AbsolutePath(target.value).value);
      if ValidPath(whole) {
        PathRoundTrip(whole);
        if whole != [] { PathBytesShape(whole); }
      }
    }
  }

  lemma AppendValid(p: VirtualPath, q: VirtualPath)
    ensures ValidNames(p + q)
  {
  }

  method AnchorTarget(mount: VirtualPath, target: Result<LinkTarget, VfsError>)
    returns (r: Result<LinkTarget, VfsError>)
    ensures r == Anchor(mount, target)
  {
    if target.Err? { return Err(target.error); }
    if !IsAbsolute(target.value) { return Ok(target.value); }
    var inside := FromAbsolute(target.value);
    if inside.Err? { return Err(inside.error); }
    AppendValid(mount, inside.value);
    var anchored := FromComponents(mount + inside.value);
    if anchored.Err? { return Err(anchored.error); }
    var bytes := AsBytes(anchored.value);
    r := MakeTarget(bytes);
  }

  /** An absolute provider link denotes, from anywhere, the same path below its own mount. */
  lemma AnchoredStaysInMount(mount: VirtualPath, target: LinkTarget, parent: VirtualPath)
    requires IsAbsolute(target) && Anchor(mount, Ok(target)).Ok?
    ensures AbsolutePath(target).Ok?
    ensures Resolve(parent, Anchor(mount, Ok(target)).value) == Ok(mount + AbsolutePath(target).value)
  {
    var inside := AbsolutePath(target).value;
    var whole: VirtualPath := mount + inside;
    PathRoundTrip(whole);
    var bytes := PathBytes(whole);
    if whole != [] { PathBytesShape(whole); }
    assert IsAbsolute(bytes);
    ResolveAbsolute(parent, bytes);
  }

  /**
   A relative provider link passes through unchanged; from a directory of its mount (or, for a
   link that is the mount itself, from the directory above) it stays at or below the mount
   exactly when its text ends below it.
   */
  lemma RelativeStaysExactly(d: VirtualPath, parent: VirtualPath, target: LinkTarget)
    requires !IsAbsolute(target) && Resolve(parent, target).Ok? && (d <= parent || parent <= d)
    ensures Anchor(d, Ok(target)) == Ok(target)
    ensures d <= Resolve(parent, target).value <==> EndsBelow(d, |parent|, Split(target))
  {
    EndsBelowExactly(d, parent, Split(target));
  }

  /** `..` can lead out of the mount. */
  lemma RelativeCanLeaveMount(a: Bytes, b: Bytes)
    requires ValidName(a) && ValidName(b) && a != b
    ensures ValidPath([a]) && ValidPath([b]) && ValidTarget([DOT, DOT, SLASH] + b)
    ensures Anchor([a], Ok([DOT, DOT, SLASH] + b)) == Ok([DOT, DOT, SLASH] + b)
    ensures Resolve([a], [DOT, DOT, SLASH] + b) == Ok([b]) && !([a] <= [b])
  {
    assert Weight([a][..0]) == 0 && Weight([b][..0]) == 0;
    UpAndDown(a, b);
  }

  lemma UpAndDown(a: Bytes, b: Bytes)
    requires ValidName(b)
    ensures Split([DOT, DOT, SLASH] + b) == [[DOT, DOT], b]
    ensures Walk([a], [[DOT, DOT], b]) == Ok([b])
  {
    assert [DOT, DOT, SLASH] + b == [DOT, DOT] + [SLASH] + b;
    SplitAppend([DOT, DOT], b);
    SplitNoSlash([DOT, DOT]);
    SplitNoSlash(b);
    assert [[DOT, DOT], b][1..] == [b] && [a][..0] == [];
    WalkNames([], [b]);
    assert [] + [b] == [b];
  }
}
