/** Docker resources in the namespace (tuxstack-daemon/src/state.rs). */
module Resources {
  import opened Common
  import opened VfsPath
  import opened FuseName
  import opened Routing
  import opened Namespace
  import opened Symlink

  datatype Resource = Container(id: Bytes) | Image(id: Bytes) | Volume(id: Bytes)

  const CONTAINERS: Bytes := [0x63, 0x6F, 0x6E, 0x74, 0x61, 0x69, 0x6E, 0x65, 0x72, 0x73]
  const IMAGES: Bytes := [0x69, 0x6D, 0x61, 0x67, 0x65, 0x73]
  const VOLUMES: Bytes := [0x76, 0x6F, 0x6C, 0x75, 0x6D, 0x65, 0x73]
  const BY_ID: Bytes := [0x2E, 0x62, 0x79, 0x2D, 0x69, 0x64]

  /** The directory of a resource kind: /containers/.by-id, /images/.by-id or /volumes. */
  function Home(r: Resource): (p: VirtualPath)
    ensures 1 <= |p| <= 2 && Weight(p) <= 18
  {
    match r
    case Container(_) => (HomesValid(); [CONTAINERS, BY_ID])
    case Image(_) => (HomesValid(); [IMAGES, BY_ID])
    case Volume(_) => (HomesValid(); [VOLUMES])
  }

  lemma HomesValid()
    ensures ValidPath([CONTAINERS, BY_ID]) && Weight([CONTAINERS, BY_ID]) == 18
    ensures ValidPath([IMAGES, BY_ID]) && Weight([IMAGES, BY_ID]) == 14
    ensures ValidPath([VOLUMES]) && Weight([VOLUMES]) == 8
  {
    OneWeight(CONTAINERS);
    OneWeight(IMAGES);
    OneWeight(VOLUMES);
    OneWeight(BY_ID);
    WeightAppend([CONTAINERS], [BY_ID]);
    WeightAppend([IMAGES], [BY_ID]);
    assert [CONTAINERS] + [BY_ID] == [CONTAINERS, BY_ID];
    assert [IMAGES] + [BY_ID] == [IMAGES, BY_ID];
  }

  lemma ContainersText()
    ensures CONTAINERS == Ascii("containers")
  {
  }

  lemma ImagesText()
    ensures IMAGES == Ascii("images")
  {
  }

  lemma VolumesText()
    ensures VOLUMES == Ascii("volumes")
  {
  }

  lemma ByIdText()
    ensures BY_ID == Ascii(".by-id")
  {
  }

  /** The directories as text: /containers/.by-id, /images/.by-id and /volumes. */
  lemma HomesText(id: Bytes)
    ensures PathBytes(Home(Container(id))) == [SLASH] + Ascii("containers") + [SLASH] + Ascii(".by-id")
    ensures PathBytes(Home(Image(id))) == [SLASH] + Ascii("images") + [SLASH] + Ascii(".by-id")
    ensures PathBytes(Home(Volume(id))) == [SLASH] + Ascii("volumes")
  {
    ContainersText();
    ImagesText();
    VolumesText();
    ByIdText();
    TwoNamesText(CONTAINERS, BY_ID);
    TwoNamesText(IMAGES, BY_ID);
    OneNameText(VOLUMES);
  }

  lemma OneNameText(a: Bytes)
    ensures PathBytes([a]) == [SLASH] + a
  {
    var parts: seq<Bytes> := [[], a];
    assert parts[..1] == [[]] && [[]] + [a] == parts;
    assert JoinSlash(parts) == [] + [SLASH] + a;
  }

  lemma TwoNamesText(a: Bytes, b: Bytes)
    ensures PathBytes([a, b]) == [SLASH] + a + [SLASH] + b
  {
    var parts: seq<Bytes> := [[], a, b];
    assert [[]] + [a, b] == parts && parts[..2] == [[], a] && parts[..2][..1] == [[]];
    assert JoinSlash(parts[..2]) == [] + [SLASH] + a;
  }

  lemma OneWeight(b: Bytes)
    ensures Weight([b]) == |b| + 1
  {
    assert Weight([b][..0]) == 0;
  }

  function EncodedPath(parent: VirtualPath, value: Bytes): Result<VirtualPath, VfsError> {
    match Encode(value)
    case Err(e) => Err(e)
    case Ok(encoded) =>
      match FileName(encoded)
      case Err(e) => Err(e)
      case Ok(name) => Join(parent, name)
  }

  lemma EncodedPathShape(parent: VirtualPath, value: Bytes)
    requires Weight(parent) <= 18
    ensures EncodedPath(parent, value).Ok? <==> 0 !in value && value != [] && |Encode(value).value| <= MAX_NAME_BYTES
    ensures EncodedPath(parent, value).Ok? ==> EncodedPath(parent, value).value == parent + [Encode(value).value]
  {
    if 0 !in value {
      EncodedIsFileName(value);
      var e := Encode(value).value;
      OneWeight(e);
      WeightAppend(parent, [e]);
    }
  }

  /** resource_namespace_path: the kind's directory and the encoded identity. */
  function ResourcePath(r: Resource): Result<VirtualPath, VfsError> { EncodedPath(Home(r), r.id) }

  /** A resource has a path exactly when its identity is non-empty, NUL-free and encodes to 255 bytes or less. */
  lemma ResourcePathShape(r: Resource)
    ensures ResourcePath(r).Ok? <==>
              0 !in r.id && r.id != [] && |Encode(r.id).value| <= MAX_NAME_BYTES
    ensures ResourcePath(r).Ok? ==> ResourcePath(r).value == Home(r) + [Encode(r.id).value]
  {
    EncodedPathShape(Home(r), r.id);
  }

  /** Paths of distinct resources are never prefixes of one another. */
  lemma PrefixFree(r: Resource, s: Resource)
    requires ResourcePath(r).Ok? && ResourcePath(s).Ok?
    requires ResourcePath(r).value <= ResourcePath(s).value
    ensures r == s
  {
    ResourcePathShape(r);
    ResourcePathShape(s);
    var p, q := ResourcePath(r).value, ResourcePath(s).value;
    assert p[0] == q[0];
    assert Home(r)[0] == p[0] && Home(s)[0] == q[0];
    assert |CONTAINERS| == 10 && |IMAGES| == 6 && |VOLUMES| == 7;
    assert Home(r) == Home(s);
    assert p[|p| - 1] == q[|p| - 1];
    EncodeInjective(r.id, s.id);
  }

  // ----- attaching -----

  /** A listed resource with its provider and, for images and containers, its friendly names. */
  datatype Attachment = Attachment(resource: Resource, provider: ProviderId, names: seq<Bytes>)

  function KindText(r: Resource): Bytes {
    match r
    case Container(_) => Ascii("container:")
    case Image(_) => Ascii("image:")
    case Volume(_) => Ascii("volume:")
  }

  function KeyOf(r: Resource): Bytes { KindText(r) + r.id }

  /** Distinct resources have distinct keys. */
  lemma KeyTells(r: Resource, s: Resource)
    requires KeyOf(r) == KeyOf(s)
    ensures r == s
  {
    assert KindText(r)[0] == AsciiByte(if r.Container? then 'c' else if r.Image? then 'i' else 'v');
    assert KindText(s)[0] == AsciiByte(if s.Container? then 'c' else if s.Image? then 'i' else 'v');
    assert AsciiByte('c') == 0x63 && AsciiByte('i') == 0x69 && AsciiByte('v') == 0x76;
    assert KeyOf(r)[0] == KindText(r)[0] && KeyOf(s)[0] == KindText(s)[0];
    var n := |KindText(r)|;
    assert KeyOf(r)[n..] == r.id && KeyOf(s)[n..] == s.id;
  }

  /** The provider most recently listed for `r`. */
  function ProviderOf(listed: seq<Attachment>, r: Resource): Option<ProviderId> {
    if listed == [] then None
    else if listed[|listed| - 1].resource == r then Some(listed[|listed| - 1].provider)
    else ProviderOf(listed[..|listed| - 1], r)
  }

  type Naming = Resource -> Option<VirtualPath>

  /** Distinct resources have paths that are not prefixes of one another. */
  ghost predicate Separates(path: Naming) {
    forall r, s :: path(r).Some? && path(s).Some? && path(r).value <= path(s).value ==> r == s
  }

  /** Each listed resource with a path is mounted there with its own provider, and nothing else is mounted. */
  ghost predicate Attached(path: Naming, mounts: Mounts, listed: seq<Attachment>) {
    && (forall r :: path(r).Some? && ProviderOf(listed, r).Some? ==>
          path(r).value in mounts && mounts[path(r).value] == Mounted(KeyOf(r), ProviderOf(listed, r).value))
    && (forall p :: p in mounts ==> exists r :: path(r) == Some(p) && ProviderOf(listed, r).Some?)
  }

  lemma ProviderOfSnoc(listed: seq<Attachment>, a: Attachment, r: Resource)
    ensures ProviderOf(listed + [a], r) == if r == a.resource then Some(a.provider) else ProviderOf(listed, r)
  {
    assert (listed + [a])[..|listed|] == listed;
  }

  lemma AttachOne(path: Naming, mounts: Mounts, listed: seq<Attachment>, a: Attachment)
    requires Separates(path) && Attached(path, mounts, listed)
    ensures path(a.resource).Some? ==>
              Attached(path, mounts[path(a.resource).value := Mounted(KeyOf(a.resource), a.provider)], listed + [a])
    ensures path(a.resource).None? ==> Attached(path, mounts, listed + [a])
  {
    var all := listed + [a];
    var after := if path(a.resource).Some?
                 then mounts[path(a.resource).value := Mounted(KeyOf(a.resource), a.provider)] else mounts;
    forall r | path(r).Some? && ProviderOf(all, r).Some?
      ensures path(r).value in after && after[path(r).value] == Mounted(KeyOf(r), ProviderOf(all, r).value)
    {
      ProviderOfSnoc(listed, a, r);
    }
    forall q | q in after ensures exists r :: path(r) == Some(q) && ProviderOf(all, r).Some? {
      ProviderOfSnoc(listed, a, a.resource);
      if Some(q) != path(a.resource) {
        var r :| path(r) == Some(q) && ProviderOf(listed, r).Some?;
        ProviderOfSnoc(listed, a, r);
      }
    }
  }

  lemma OwnProviderBy(path: Naming, mounts: Mounts, listed: seq<Attachment>, r: Resource, at: VirtualPath)
    requires Separates(path) && Attached(path, mounts, listed) && path(r).Some? && path(r).value <= at
    ensures Longest(mounts.Keys, at) == if ProviderOf(listed, r).Some? then path(r) else None
  {
    var p := path(r).value;
    forall q | q in mounts && q <= at ensures q == p && ProviderOf(listed, r).Some? {
      var s :| path(s) == Some(q) && ProviderOf(listed, s).Some?;
      assert q == at[..|q|] && p == at[..|p|];
      assert q <= p || p <= q;
    }
    LongestIsDeepest(mounts.Keys, at);
  }

  /** The daemon's naming. */
  function Named(): Naming {
    (r: Resource) => match ResourcePath(r) case Ok(p) => Some(p) case Err(_) => None
  }

  lemma NamedSeparates()
    ensures Separates(Named())
  {
    forall r, s | Named()(r).Some? && Named()(s).Some? && Named()(r).value <= Named()(s).value ensures r == s {
      PrefixFree(r, s);
    }
  }

  // ----- friendly names -----

  function TrimSlashes(b: Bytes): Bytes { if b != [] && b[0] == SLASH then TrimSlashes(b[1..]) else b }

  const UNTAGGED: Bytes := Ascii("<none>:<none>")

  /** What a name is shown as; some names and all names of volumes are not shown. */
  function Label(r: Resource, name: Bytes): Option<Bytes> {
    match r
    case Container(_) => if TrimSlashes(name) == [] then None else Some(TrimSlashes(name))
    case Image(_) => if name == UNTAGGED then None else Some(name)
    case Volume(_) => None
  }

  /** A container is shown without leading slashes, an image under every tag but the placeholder, a volume never. */
  lemma {:induction false} LabelExact(id: Bytes, name: Bytes)
    ensures Label(Image(id), name) == if name == Ascii("<none>:<none>") then None else Some(name)
    ensures Label(Volume(id), name) == None
    ensures Label(Container(id), name).None? <==> forall i :: 0 <= i < |name| ==> name[i] == SLASH
    ensures Label(Container(id), name).Some? ==>
              var t := Label(Container(id), name).value;
              && |t| <= |name| && t == name[|name| - |t|..] && t[0] != SLASH
              && forall i :: 0 <= i < |name| - |t| ==> name[i] == SLASH
    decreases |name|
  {
    if name != [] && name[0] == SLASH {
      LabelExact(id, name[1..]);
      assert forall i :: 0 < i < |name| ==> name[i] == name[1..][i - 1];
    }
  }

  /** /containers or /images. */
  function Shelf(r: Resource): (p: VirtualPath)
    ensures Weight(p) <= 18 && |p| == 1
  {
    HomesValid();
    SubPath(Home(r), 0, 1);
    WeightAppend(Home(r)[0..1], Home(r)[1..]);
    assert Home(r) == Home(r)[0..1] + Home(r)[1..];
    Home(r)[0..1]
  }

  function AliasPath(r: Resource, shown: Bytes): Result<VirtualPath, VfsError> { EncodedPath(Shelf(r), shown) }

  type Linking = (Resource, Bytes) -> Option<VirtualPath>

  function Linked(): Linking {
    (r: Resource, shown: Bytes) => match AliasPath(r, shown) case Ok(p) => Some(p) case Err(_) => None
  }

  /** Each alias is a label of a listed resource and holds that resource's path. */
  ghost predicate Friendly(path: Naming, link: Linking, aliases: Aliases, listed: seq<Attachment>) {
    forall a :: a in aliases ==> exists r, name :: IsAlias(path, link, listed, r, name, a, aliases[a])
  }

  ghost predicate IsAlias(
    path: Naming, link: Linking, listed: seq<Attachment>, r: Resource, name: Bytes, a: VirtualPath, target: LinkTarget)
  {
    && path(r).Some? && ProviderOf(listed, r).Some? && target == PathBytes(path(r).value)
    && Label(r, name).Some? && link(r, Label(r, name).value) == Some(a)
  }

  /** A name that is shown, none before it having failed to encode. */
  ghost predicate Offered(path: Naming, link: Linking, item: Attachment, j: nat) {
    && j < |item.names| && path(item.resource).Some? && Label(item.resource, item.names[j]).Some?
    && forall k :: 0 <= k <= j && Label(item.resource, item.names[k]).Some? ==>
         link(item.resource, Label(item.resource, item.names[k]).value).Some?
  }

  ghost predicate Shown(path: Naming, link: Linking, aliases: Aliases, item: Attachment, n: nat) {
    forall j: nat :: j < n && Offered(path, link, item, j) ==>
      link(item.resource, Label(item.resource, item.names[j]).value).value in aliases
  }

  /** Every offered name of the listed resources has an alias. */
  ghost predicate AllShown(path: Naming, link: Linking, aliases: Aliases, listed: seq<Attachment>) {
    forall i :: 0 <= i < |listed| ==> Shown(path, link, aliases, listed[i], |listed[i].names|)
  }

  lemma {:induction false} ListedHasProvider(listed: seq<Attachment>, i: nat)
    requires i < |listed|
    ensures ProviderOf(listed, listed[i].resource).Some?
    decreases |listed|
  {
    if i < |listed| - 1 { ListedHasProvider(listed[..|listed| - 1], i); }
  }

  lemma AliasOne(path: Naming, link: Linking, aliases: Aliases, listed: seq<Attachment>, item: Attachment, j: nat,
                 a: VirtualPath, target: LinkTarget)
    requires Friendly(path, link, aliases, listed) && Shown(path, link, aliases, item, j) && j < |item.names|
    requires IsAlias(path, link, listed, item.resource, item.names[j], a, target)
    ensures Friendly(path, link, aliases[a := target], listed) && Shown(path, link, aliases[a := target], item, j + 1)
  {
    var after := aliases[a := target];
    forall b | b in after ensures exists r, name :: IsAlias(path, link, listed, r, name, b, after[b]) {
      if b == a { assert IsAlias(path, link, listed, item.resource, item.names[j], b, after[b]); }
    }
  }

  /** A name that is not shown, or the first that does not encode, adds nothing. */
  lemma SkipName(path: Naming, link: Linking, aliases: Aliases, item: Attachment, j: nat)
    requires Shown(path, link, aliases, item, j) && j < |item.names|
    ensures Label(item.resource, item.names[j]).None? ==> Shown(path, link, aliases, item, j + 1)
    ensures Label(item.resource, item.names[j]).Some?
            && link(item.resource, Label(item.resource, item.names[j]).value).None? ==>
              Shown(path, link, aliases, item, |item.names|)
  {
  }

  /** The aliases of one resource; an unencodable name ends them. */
  method AliasItem(ns: NamespaceProvider, ghost listed: seq<Attachment>, item: Attachment, at: VirtualPath)
    requires ns.Valid() && Friendly(Named(), Linked(), ns.aliases, listed)
    requires Named()(item.resource) == Some(at) && at != [] && ProviderOf(listed, item.resource).Some?
    modifies ns
    ensures ns.Valid() && ns.mounts == old(ns.mounts) && old(ns.aliases).Keys <= ns.aliases.Keys
    ensures Friendly(Named(), Linked(), ns.aliases, listed)
    ensures Shown(Named(), Linked(), ns.aliases, item, |item.names|)
  {
    PathRoundTrip(at);
    PathBytesShape(at);
    ghost var path, link := Named(), Linked();
    for j := 0 to |item.names|
      invariant ns.Valid() && ns.mounts == old(ns.mounts) && old(ns.aliases).Keys <= ns.aliases.Keys
      invariant Friendly(path, link, ns.aliases, listed) && Shown(path, link, ns.aliases, item, j)
    {
      SkipName(path, link, ns.aliases, item, j);
      var shown := Label(item.resource, item.names[j]);
      if shown.None? { continue; }
      var a := AliasPath(item.resource, shown.value);
      if a.Err? { return; }
      EncodedPathShape(Shelf(item.resource), shown.value);
      AliasOne(path, link, ns.aliases, listed, item, j, a.value, PathBytes(at));
      var _ := ns.Alias(a.value, PathBytes(at));
    }
  }

  /** The mounts; resources without a path are skipped. */
  method MountAll(ns: NamespaceProvider, listed: seq<Attachment>)
    requires ns.Valid() && ns.mounts == map[]
    modifies ns
    ensures ns.Valid() && ns.aliases == old(ns.aliases) && Attached(Named(), ns.mounts, listed)
  {
    NamedSeparates();
    for i := 0 to |listed|
      invariant ns.Valid() && ns.aliases == old(ns.aliases) && Attached(Named(), ns.mounts, listed[..i])
    {
      var a := listed[i];
      AttachOne(Named(), ns.mounts, listed[..i], a);
      TakeSnoc(listed, i);
      var p := ResourcePath(a.resource);
      if p.Ok? {
        ResourcePathShape(a.resource);
        var _ := ns.Mount(p.value, KeyOf(a.resource), a.provider);
      }
    }
    TakeAll(listed);
  }

  lemma ShownMore(path: Naming, link: Linking, before: Aliases, after: Aliases, listed: seq<Attachment>, i: nat)
    requires i < |listed| && AllShown(path, link, before, listed[..i]) && before.Keys <= after.Keys
    requires Shown(path, link, after, listed[i], |listed[i].names|)
    ensures AllShown(path, link, after, listed[..i + 1])
  {
    var done := listed[..i + 1];
    forall k | 0 <= k < |done| ensures Shown(path, link, after, done[k], |done[k].names|) {
      if k < i { assert Shown(path, link, before, listed[..i][k], |listed[..i][k].names|); }
    }
  }

  method AliasAll(ns: NamespaceProvider, listed: seq<Attachment>)
    requires ns.Valid() && ns.aliases == map[]
    modifies ns
    ensures ns.Valid() && ns.mounts == old(ns.mounts)
    ensures Friendly(Named(), Linked(), ns.aliases, listed) && AllShown(Named(), Linked(), ns.aliases, listed)
  {
    ghost var path, link := Named(), Linked();
    for i := 0 to |listed|
      invariant ns.Valid() && ns.mounts == old(ns.mounts)
      invariant Friendly(path, link, ns.aliases, listed) && AllShown(path, link, ns.aliases, listed[..i])
    {
      ghost var before := ns.aliases;
      var p := ResourcePath(listed[i].resource);
      if p.Ok? {
        ResourcePathShape(listed[i].resource);
        ListedHasProvider(listed, i);
        AliasItem(ns, listed, listed[i], p.value);
      }
      ShownMore(path, link, before, ns.aliases, listed, i);
    }
    TakeAll(listed);
  }

  /** rebuild_namespace: everything is dropped, then the mounts and the aliases of the plan are made. */
  method Rebuild(ns: NamespaceProvider, listed: seq<Attachment>)
    requires ns.Valid()
    modifies ns
    ensures ns.Valid() && Attached(Named(), ns.mounts, listed)
    ensures Friendly(Named(), Linked(), ns.aliases, listed) && AllShown(Named(), Linked(), ns.aliases, listed)
  {
    ns.Clear();
    MountAll(ns, listed);
    AliasAll(ns, listed);
  }

  // ----- where friendly names lead -----

  lemma RelativeFits(goal: VirtualPath)
    requires Weight(goal) <= 274
    ensures |Relative(1, goal)| <= MAX_PATH_BYTES
  {
    var parts := DotDots(1) + goal;
    WeightAppend(DotDots(1), goal);
    OneWeight([DOT, DOT]);
    assert DotDots(1) == [[DOT, DOT]];
    JoinLength(parts);
  }

  /** What the adapter answers for an alias is a relative link that leads to its resource's own path. */
  lemma AliasLeadsHome(r: Resource, shown: Bytes, a: VirtualPath)
    requires ResourcePath(r).Ok? && AliasPath(r, shown) == Ok(a)
    ensures ValidTarget(PathBytes(ResourcePath(r).value))
    ensures var sent := Rewrite(a, PathBytes(ResourcePath(r).value));
            && sent.Ok? && !IsAbsolute(sent.value) && a != []
            && Resolve(Parent(a).value, sent.value) == Ok(ResourcePath(r).value)
  {
    var p := ResourcePath(r).value;
    EncodedPathShape(Shelf(r), shown);
    ResourcePathShape(r);
    WeightAppend(Home(r), [Encode(r.id).value]);
    OneWeight(Encode(r.id).value);
    PathRoundTrip(p);
    PathBytesShape(p);
    RewriteMeaning(a, PathBytes(p));
    ResolveAbsolute(Parent(a).value, PathBytes(p));
    RelativeFits(p);
  }

  /** After a rebuild every alias leads, through the adapter, to the path of a listed resource that bears the name. */
  lemma FriendlyLeadsHome(aliases: Aliases, listed: seq<Attachment>, a: VirtualPath)
    requires Friendly(Named(), Linked(), aliases, listed) && a in aliases
    ensures exists r, name ::
              && IsAlias(Named(), Linked(), listed, r, name, a, aliases[a])
              && a != [] && Rewrite(a, aliases[a]).Ok?
              && Resolve(Parent(a).value, Rewrite(a, aliases[a]).value) == ResourcePath(r)
  {
    var r, name :| IsAlias(Named(), Linked(), listed, r, name, a, aliases[a]);
    AliasLeadsHome(r, Label(r, name).value, a);
  }

  lemma {:induction false} SafeNamesEncodeAsThemselves(name: Bytes)
    requires forall i :: 0 <= i < |name| ==> name[i] < 0x80 && Safe([name[i]])
    ensures EncodeAll(name) == name
  {
    if name != [] {
      assert Safe([name[0]]) && name[..1] == [name[0]];
      assert CharLen(name) == 1 && CharLen([name[0]]) == 1;
      SafeNamesEncodeAsThemselves(name[1..]);
      HeadTail(name);
    }
  }

  /** A container named ".by-id" would be shown above every container's own path. */
  lemma ByIdHidesContainers(id: Bytes)
    requires ResourcePath(Container(id)).Ok?
    ensures AliasPath(Container(id), BY_ID).Ok?
    ensures AliasPath(Container(id), BY_ID).value < ResourcePath(Container(id)).value
  {
    SafeNamesEncodeAsThemselves(BY_ID);
    EncodedPathShape(Shelf(Container(id)), BY_ID);
    AliasShadowsExactly(Container(id), BY_ID, AliasPath(Container(id), BY_ID).value, Container(id));
  }

  /**
   No alias takes or lies below a resource's path. The one alias that lies above some, and so
   hides them from a walk, is the name ".by-id" of a container or image.
   */
  lemma AliasShadowsExactly(r: Resource, shown: Bytes, a: VirtualPath, s: Resource)
    requires !r.Volume? && AliasPath(r, shown) == Ok(a) && ResourcePath(s).Ok?
    ensures a != ResourcePath(s).value && !(ResourcePath(s).value <= a)
    ensures a <= ResourcePath(s).value <==> shown == BY_ID && Home(r) == Home(s)
  {
    var p, e := ResourcePath(s).value, Encode(shown).value;
    EncodedPathShape(Shelf(r), shown);
    ResourcePathShape(s);
    SafeNamesEncodeAsThemselves(BY_ID);
    if e == BY_ID { EncodeInjective(shown, BY_ID); }
    assert a[0] == Home(r)[0] && a[1] == e && |a| == 2;
    assert p[0] == Home(s)[0];
    assert |CONTAINERS| == 10 && |IMAGES| == 6 && |VOLUMES| == 7;
    if !s.Volume? { assert p[1] == BY_ID && |p| == 3; }
    if Home(r) == Home(s) { assert p[..2] == Home(s) && (e == BY_ID ==> a == Home(r)); }
  }

  /**
   Every path at or below a resource's path is served by that resource's own provider, at the
   rest of the path; for an unlisted resource no provider answers at all.
   */
  lemma OwnProvider(mounts: Mounts, listed: seq<Attachment>, r: Resource, at: VirtualPath)
    requires Attached(Named(), mounts, listed) && ResourcePath(r).Ok? && ResourcePath(r).value <= at
    ensures Longest(mounts.Keys, at) == if ProviderOf(listed, r).Some? then Some(ResourcePath(r).value) else None
    ensures ProviderOf(listed, r).Some? ==>
              && ResourcePath(r).value in mounts
              && mounts[ResourcePath(r).value] == Mounted(KeyOf(r), ProviderOf(listed, r).value)
  {
    NamedSeparates();
    assert Named()(r) == Some(ResourcePath(r).value);
    OwnProviderBy(Named(), mounts, listed, r, at);
  }

  /** resource_path: the answer is the resource's own provider, and "below a provider root" never happens. */
  method LocateResource(ns: NamespaceProvider, listed: seq<Attachment>, r: Resource)
    returns (found: Result<Option<Resolved>, VfsError>)
    requires ns.Valid() && Attached(Named(), ns.mounts, listed)
    ensures found.Err? <==> ResourcePath(r).Err?
    ensures found.Ok? ==> (found.value.Some? <==> ProviderOf(listed, r).Some?)
    ensures found.Ok? && found.value.Some? ==>
              && found.value.value.relative == []
              && found.value.value.mounted == Mounted(KeyOf(r), ProviderOf(listed, r).value)
  {
    var p := ResourcePath(r);
    if p.Err? { return Err(p.error); }
    OwnProvider(ns.mounts, listed, r, p.value);
    var at := ns.ProviderAt(p.value);
    return Ok(at);
  }
}
