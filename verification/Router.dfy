/**
 Deepest-prefix routing: the reference definition used by both the container path router
 (tuxstack-vfs/src/router.rs) and the namespace, and the router itself.
 */
module Routing {
  import opened Common
  import opened VfsPath

  /** A provider is known by identity; its answers are the environment's. */
  type ProviderId = nat

  /** `d` is the deepest of `prefixes` that is a component prefix of `path`. */
  ghost predicate Deepest(prefixes: set<VirtualPath>, path: VirtualPath, d: VirtualPath) {
    d in prefixes && d <= path && forall e :: e in prefixes && e <= path ==> |e| <= |d|
  }

  lemma DeepestUnique(prefixes: set<VirtualPath>, path: VirtualPath, d: VirtualPath, e: VirtualPath)
    requires Deepest(prefixes, path, d) && Deepest(prefixes, path, e)
    ensures d == e
  {
    assert d == path[..|d|] && e == path[..|e|];
  }

  /** The running maximum over a growing set of prefixes. */
  ghost predicate BestSoFar(seen: set<VirtualPath>, path: VirtualPath, best: Option<VirtualPath>) {
    match best
    case Some(d) => Deepest(seen, path, d)
    case None => forall e :: e in seen ==> !(e <= path)
  }

  lemma BestStep(seen: set<VirtualPath>, path: VirtualPath, best: Option<VirtualPath>, m: VirtualPath)
    requires BestSoFar(seen, path, best)
    ensures BestSoFar(seen + {m}, path, if m <= path && (best.None? || |best.value| <= |m|) then Some(m) else best)
  {
  }

  /** The reference search: drop components from the end until a prefix is found. */
  function Longest(prefixes: set<VirtualPath>, path: VirtualPath): (r: Option<VirtualPath>)
    ensures r.Some? ==> r.value in prefixes && r.value <= path
    decreases |path|
  {
    if path in prefixes then Some(path)
    else match Parent(path)
      case None => None
      case Some(up) => Longest(prefixes, up)
  }

  lemma {:induction false} LongestIsDeepest(prefixes: set<VirtualPath>, path: VirtualPath)
    ensures Longest(prefixes, path).Some? ==> Deepest(prefixes, path, Longest(prefixes, path).value)
    ensures Longest(prefixes, path).None? ==> forall e :: e in prefixes ==> !(e <= path)
    decreases |path|
  {
    if path !in prefixes {
      if path != [] {
        var up := Parent(path).value;
        LongestIsDeepest(prefixes, up);
        forall e | e in prefixes && e <= path ensures e <= up {
          assert e == path[..|e|] && path[..|path|] == path;
        }
      } else {
        forall e | e in prefixes ensures !(e <= path) {
          assert e != [];
        }
      }
    }
  }
}

module Router {
  import opened Common
  import opened VfsPath
  import opened Routing
  import opened Order

  datatype ContainerMount = ContainerMount(
    destination: VirtualPath, key: string, root: VirtualPath, provider: ProviderId)

  datatype Route = Route(key: string, path: VirtualPath, provider: ProviderId, mount: Option<ContainerMount>)

  /** Deeper destinations first, then byte order. */
  predicate MountOrder(a: ContainerMount, b: ContainerMount) {
    |b.destination| < |a.destination|
    || (|b.destination| == |a.destination| && Leq(PathBytes(a.destination), PathBytes(b.destination)))
  }

  lemma MountPreorder()
    ensures TotalPreorder(MountOrder)
  {
    forall x, y ensures MountOrder(x, y) || MountOrder(y, x) {
      LeqTotal(PathBytes(x.destination), PathBytes(y.destination));
    }
    forall x, y, z | MountOrder(x, y) && MountOrder(y, z) ensures MountOrder(x, z) {
      if |x.destination| == |z.destination| {
        LeqTransitive(PathBytes(x.destination), PathBytes(y.destination), PathBytes(z.destination));
      }
    }
  }

  function Destinations(mounts: seq<ContainerMount>): set<VirtualPath> { set m | m in mounts :: m.destination }

  function At(d: VirtualPath): ContainerMount -> bool { (m: ContainerMount) => m.destination == d }

  /** Every list keeps, per destination, the mount that came first in the input. */
  ghost predicate Serves(input: seq<ContainerMount>, path: VirtualPath, m: ContainerMount) {
    && Deepest(Destinations(input), path, m.destination)
    && Filter(At(m.destination), input) != []
    && m == Filter(At(m.destination), input)[0]
  }

  /** The route through a mount that is a prefix of the path. */
  function Through(m: ContainerMount, path: VirtualPath): (r: Result<Route, VfsError>)
    requires m.destination <= path
    ensures r.Ok? ==> r.value.path == m.root + path[|m.destination|..] && r.value.mount == Some(m)
    ensures r.Ok? ==> r.value.key == m.key && r.value.provider == m.provider
    ensures r.Err? ==> r.error == PathTooLong
    ensures r.Ok? <==> ByteLen(m.root + path[|m.destination|..]) <= MAX_PATH_BYTES
  {
    var remainder := StripPrefix(path, m.destination).value;
    assert remainder == path[|m.destination|..];
    match FromComponents(m.root + remainder)
    case Ok(p) => Ok(Route(m.key, p, m.provider, Some(m)))
    case Err(e) => Err(e)
  }

  class ContainerPathRouter {
    const mounts: seq<ContainerMount>
    const rootfsKey: string
    const rootfs: ProviderId
    /** The list the router was built from. */
    ghost const input: seq<ContainerMount>

    ghost predicate Valid() {
      mounts == Sort(MountOrder, input) && forall m :: m in input ==> m.destination != []
    }

    constructor (key: string, rootfs: ProviderId, ms: seq<ContainerMount>)
      requires forall m :: m in ms ==> m.destination != []
      ensures Valid() && input == ms && this.rootfsKey == key && this.rootfs == rootfs
    {
      this.rootfsKey := key;
      this.rootfs := rootfs;
      this.mounts := Sort(MountOrder, ms);
      this.input := ms;
    }

    /**
     The first match of the sorted list is the deepest component prefix, taken from the mount
     that came first in the input.
     */
    method FindMount(path: VirtualPath) returns (found: Option<ContainerMount>)
      requires Valid()
      ensures found.Some? <==> Longest(Destinations(input), path).Some?
      ensures found.Some? ==> Serves(input, path, found.value)
    {
      MountPreorder();
      SortSorts(MountOrder, input);
      SortMembers(MountOrder, input);
      for i := 0 to |mounts|
        invariant forall k :: 0 <= k < i ==> !(mounts[k].destination <= path)
      {
        if mounts[i].destination <= path {
          FirstMatchServes(path, i);
          return Some(mounts[i]);
        }
      }
      forall d | d in Destinations(input) ensures !(d <= path) {
        var m :| m in input && m.destination == d;
        assert m in mounts;
      }
      return None;
    }

    /** The provider path is the provider root followed by the rest of the container path. */
    method RoutePath(path: VirtualPath) returns (r: Result<Route, VfsError>)
      requires Valid()
      ensures Longest(Destinations(input), path).None? ==> r == Ok(Route(rootfsKey, path, rootfs, None))
      ensures Longest(Destinations(input), path).Some? ==>
                exists m :: Serves(input, path, m) && r == Through(m, path)
    {
      var found := FindMount(path);
      if found.Some? {
        return Through(found.value, path);
      }
      return Ok(Route(rootfsKey, path, rootfs, None));
    }

    lemma FirstMatchServes(path: VirtualPath, i: nat)
      requires Valid() && TotalPreorder(MountOrder) && SortedBy(MountOrder, mounts)
      requires forall x :: x in mounts <==> x in input
      requires i < |mounts| && mounts[i].destination <= path
      requires forall k :: 0 <= k < i ==> !(mounts[k].destination <= path)
      ensures Serves(input, path, mounts[i])
      ensures Longest(Destinations(input), path).Some?
    {
      var m := mounts[i];
      var d := m.destination;
      assert d in Destinations(input);
      forall e | e in Destinations(input) && e <= path ensures |e| <= |d| {
        var x :| x in input && x.destination == e;
        var j :| 0 <= j < |mounts| && mounts[j] == x;
        assert i <= j;
      }
      FilterFirst(At(d), mounts, i);
      forall x, y | x in input && y in input && At(d)(x) && At(d)(y) ensures MountOrder(x, y) {
        LeqTotal(PathBytes(d), PathBytes(d));
      }
      SortStable(MountOrder, At(d), input);
      LongestIsDeepest(Destinations(input), path);
    }
  }

  /** ContainerPathRouter::new refuses a mount on the container root. */
  method NewRouter(key: string, rootfs: ProviderId, ms: seq<ContainerMount>)
    returns (r: Result<ContainerPathRouter, VfsError>)
    ensures r.Ok? <==> forall m :: m in ms ==> m.destination != []
    ensures r.Ok? ==> r.value.Valid() && r.value.input == ms
    ensures r.Err? ==> r.error == InvalidInput
  {
    if exists m :: m in ms && m.destination == [] { return Err(InvalidInput); }
    var router := new ContainerPathRouter(key, rootfs, ms);
    return Ok(router);
  }

  /** With distinct destinations the serving mount does not depend on the input order. */
  lemma OrderIrrelevant(a: seq<ContainerMount>, b: seq<ContainerMount>, path: VirtualPath, m: ContainerMount,
                        n: ContainerMount)
    requires multiset(a) == multiset(b)
    requires forall x, y :: x in a && y in a && x.destination == y.destination ==> x == y
    requires Serves(a, path, m) && Serves(b, path, n)
    ensures m == n
  {
    forall x ensures x in a <==> x in b {
      assert x in a <==> x in multiset(a);
      assert x in b <==> x in multiset(b);
    }
    assert Destinations(a) == Destinations(b);
    DeepestUnique(Destinations(a), path, m.destination, n.destination);
    FilterMembers(At(m.destination), a);
    FilterMembers(At(n.destination), b);
    assert m in Filter(At(m.destination), a) && n in Filter(At(n.destination), b);
  }
}
