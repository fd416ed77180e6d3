/**
 The moments of a namespace rebuild (tuxstack-daemon/src/state.rs, rebuild_namespace) as the
 filesystem callbacks can see them: the mount table and the alias table are cleared and filled
 one lock section at a time, and a callback may read either table between any two of them.
 Rebuilds themselves take turns.
 */
module Rebuilding {
  import opened Common
  import opened VfsPath
  import opened Routing
  import opened Namespace
  import opened Resources
  import opened Runs

  /** Between rebuilds; the mounts cleared; or filling, with this many resources of the plan handled. */
  datatype Phase = Settled | Cleared | Filling(handled: nat)

  datatype State = State(mounts: Mounts, aliases: Aliases, plan: seq<Attachment>, phase: Phase)

  datatype Step =
    | ClearMounts(plan: seq<Attachment>)
    | ClearAliases
    | MountNext
    | AliasNext(item: nat, name: nat)
    | Finish

  function Handled(s: State): nat {
    match s.phase
    case Settled => |s.plan|
    case Cleared => 0
    case Filling(n) => n
  }

  /** The alias for a name of an item of the plan, if it has one. */
  function AliasOf(plan: seq<Attachment>, item: nat, name: nat): Option<VirtualPath>
    requires item < |plan| && name < |plan[item].names|
  {
    var r := plan[item].resource;
    match Label(r, plan[item].names[name])
    case None => None
    case Some(shown) => Linked()(r, shown)
  }

  predicate Enabled(s: State, step: Step) {
    match step
    case ClearMounts(_) => s.phase.Settled?
    case ClearAliases => s.phase.Cleared?
    case MountNext => s.phase.Filling? && s.phase.handled < |s.plan|
    case AliasNext(i, k) =>
      && s.phase == Filling(|s.plan|) && i < |s.plan| && k < |s.plan[i].names|
      && ResourcePath(s.plan[i].resource).Ok? && AliasOf(s.plan, i, k).Some?
    case Finish => s.phase == Filling(|s.plan|)
  }

  function Apply(s: State, step: Step): State
    requires Enabled(s, step)
  {
    match step
    case ClearMounts(plan) => State(map[], s.aliases, plan, Cleared)
    case ClearAliases => s.(aliases := map[], phase := Filling(0))
    case MountNext =>
      var a := s.plan[s.phase.handled];
      var p := Named()(a.resource);
      var mounts := if p.Some? then s.mounts[p.value := Mounted(KeyOf(a.resource), a.provider)] else s.mounts;
      s.(mounts := mounts, phase := Filling(s.phase.handled + 1))
    case AliasNext(i, k) =>
      var p := ResourcePath(s.plan[i].resource).value;
      TextIsTarget(p);
      s.(aliases := s.aliases[AliasOf(s.plan, i, k).value := PathBytes(p)])
    case Finish => s.(phase := Settled)
  }

  lemma TextIsTarget(p: VirtualPath)
    ensures ValidTarget(PathBytes(p))
  {
    PathRoundTrip(p);
    if p != [] { PathBytesShape(p); }
  }

  function Next(s: State, step: Step): Option<State> { if Enabled(s, step) then Some(Apply(s, step)) else None }

  function Start(): State { State(map[], map[], [], Settled) }

  // ----- what holds at every moment -----

  ghost predicate IsLabelPath(link: Linking, a: VirtualPath, r: Resource, name: Bytes) {
    Label(r, name).Some? && link(r, Label(r, name).value) == Some(a)
  }

  /** Every alias is a label of a container or an image. */
  ghost predicate Labelled(link: Linking, aliases: Aliases) {
    forall a :: a in aliases ==> exists r, name :: IsLabelPath(link, a, r, name)
  }

  /** Exactly the resources handled so far are mounted. */
  ghost predicate Consistent(path: Naming, link: Linking, s: State) {
    Handled(s) <= |s.plan| && Attached(path, s.mounts, s.plan[..Handled(s)]) && Labelled(link, s.aliases)
  }

  lemma AttachNext(path: Naming, mounts: Mounts, plan: seq<Attachment>, n: nat)
    requires Separates(path) && n < |plan| && Attached(path, mounts, plan[..n])
    ensures var a := plan[n];
            var after := if path(a.resource).Some?
                         then mounts[path(a.resource).value := Mounted(KeyOf(a.resource), a.provider)] else mounts;
            Attached(path, after, plan[..n + 1])
  {
    AttachOne(path, mounts, plan[..n], plan[n]);
    TakeSnoc(plan, n);
  }

  lemma LabelNext(link: Linking, aliases: Aliases, a: VirtualPath, target: LinkTarget, r: Resource, name: Bytes)
    requires Labelled(link, aliases) && IsLabelPath(link, a, r, name)
    ensures Labelled(link, aliases[a := target])
  {
    var after := aliases[a := target];
    forall b | b in after ensures exists r, name :: IsLabelPath(link, b, r, name) {
      if b == a { assert IsLabelPath(link, b, r, name); }
    }
  }

  lemma StepKeeps(s: State, step: Step)
    requires Consistent(Named(), Linked(), s) && Enabled(s, step)
    ensures Consistent(Named(), Linked(), Apply(s, step))
  {
    match step
    case MountNext =>
      NamedSeparates();
      AttachNext(Named(), s.mounts, s.plan, s.phase.handled);
    case AliasNext(i, k) =>
      var p := ResourcePath(s.plan[i].resource).value;
      TextIsTarget(p);
      LabelNext(Linked(), s.aliases, AliasOf(s.plan, i, k).value, PathBytes(p), s.plan[i].resource, s.plan[i].names[k]);
    case ClearMounts(plan) => assert plan[..0] == [];
    case _ =>
  }

  lemma RunConsistent(steps: seq<Step>, n: nat)
    requires Legal(Next, Start(), steps) && n <= |steps|
    ensures Consistent(Named(), Linked(), StateAt(Next, Start(), steps, n))
  {
    var inv := (s: State) => Consistent(Named(), Linked(), s);
    forall s, a | inv(s) && Next(s, a).Some? ensures inv(Next(s, a).value) { StepKeeps(s, a); }
    AlwaysHolds(Next, Start(), inv, steps, n);
  }

  lemma {:induction false} ProviderIsListed(listed: seq<Attachment>, r: Resource)
    requires ProviderOf(listed, r).Some?
    ensures exists i ::
              0 <= i < |listed| && listed[i].resource == r && listed[i].provider == ProviderOf(listed, r).value
  {
    var last := |listed| - 1;
    if listed[last].resource == r {
      assert listed[last].provider == ProviderOf(listed, r).value;
    } else {
      var front := listed[..last];
      ProviderIsListed(front, r);
      var i :| 0 <= i < |front| && front[i].resource == r && front[i].provider == ProviderOf(front, r).value;
      assert listed[i] == front[i];
    }
  }

  lemma ListedInPlan(plan: seq<Attachment>, n: nat, r: Resource)
    requires n <= |plan|
    ensures ProviderOf(plan[..n], r).Some? ==>
              exists i :: 0 <= i < |plan| && plan[i].resource == r && plan[i].provider == ProviderOf(plan[..n], r).value
  {
    if ProviderOf(plan[..n], r).Some? {
      ProviderIsListed(plan[..n], r);
      var i :| 0 <= i < n && plan[..n][i].resource == r && plan[..n][i].provider == ProviderOf(plan[..n], r).value;
      assert plan[i] == plan[..n][i];
    }
  }

  /** Who serves a path at or below the path of `r`: nobody, or the provider the plan lists for `r`. */
  ghost predicate OwnOrNone(s: State, r: Resource, at: VirtualPath)
    requires ResourcePath(r).Ok?
  {
    var found := Longest(s.mounts.Keys, at);
    found.Some? ==>
      && found == Some(ResourcePath(r).value) && s.mounts[found.value].key == KeyOf(r)
      && exists i ::
           && 0 <= i < |s.plan| && s.plan[i].resource == r
           && s.plan[i].provider == s.mounts[found.value].provider
  }

  lemma ServedByOwn(s: State, r: Resource, at: VirtualPath)
    requires Consistent(Named(), Linked(), s) && ResourcePath(r).Ok? && ResourcePath(r).value <= at
    ensures OwnOrNone(s, r, at)
    ensures Longest(s.mounts.Keys, at).Some? <==> ProviderOf(s.plan[..Handled(s)], r).Some?
  {
    OwnProvider(s.mounts, s.plan[..Handled(s)], r, at);
    ListedInPlan(s.plan, Handled(s), r);
  }

  /** No label lies at or below a resource's path. */
  ghost predicate Apart(path: Naming, link: Linking) {
    forall a, t, name, r :: IsLabelPath(link, a, t, name) && path(r).Some? ==> !(path(r).value <= a)
  }

  lemma NamedApart()
    ensures Apart(Named(), Linked())
  {
    forall a, t, name, r | IsLabelPath(Linked(), a, t, name) && Named()(r).Some?
      ensures !(Named()(r).value <= a)
    {
      AliasShadowsExactly(t, Label(t, name).value, a, r);
    }
  }

  lemma NotAnAlias(path: Naming, link: Linking, aliases: Aliases, r: Resource, at: VirtualPath)
    requires Apart(path, link) && Labelled(link, aliases) && path(r).Some? && path(r).value <= at
    ensures at !in aliases
  {
    assert at in aliases ==> exists t, name :: IsLabelPath(link, at, t, name);
  }

  /**
   At every moment of every sequence of rebuilds, a path at or below a resource's path is no
   alias, and is served by that resource's own provider or by none; between rebuilds it is
   served exactly when the resource is in the plan.
   */
  lemma NeverAnotherProvider(steps: seq<Step>, n: nat, r: Resource, at: VirtualPath)
    requires Legal(Next, Start(), steps) && n <= |steps| && ResourcePath(r).Ok? && ResourcePath(r).value <= at
    ensures var s := StateAt(Next, Start(), steps, n);
            && at !in s.aliases && OwnOrNone(s, r, at)
            && (s.phase.Settled? ==> (Longest(s.mounts.Keys, at).Some? <==> ProviderOf(s.plan, r).Some?))
  {
    var s := StateAt(Next, Start(), steps, n);
    RunConsistent(steps, n);
    ServedByOwn(s, r, at);
    NamedApart();
    NotAnAlias(Named(), Linked(), s.aliases, r, at);
    TakeAll(s.plan);
  }
}
