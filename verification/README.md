# TuxStack: a verified model of the filesystem, protocol and cache core

TuxStack shows Docker containers, images and volumes as a read-only FUSE filesystem. This project
models the code that decides what a path means, which provider answers, which number an object
gets, which message a client sees and which bytes a digest covers, and proves what that code
promises for every input, every run and every interleaving.

| file | component |
|---|---|
| `Common.dfy`, `Order.dfy`, `Chains.dfy`, `Runs.dfy`, `Units.dfy` | result types, byte order and stable sorting, iterating a deterministic step, runs of a transition system, translating text unit by unit |
| `VirtualPath.dfy`, `Symlink.dfy`, `FuseName.dfy` | byte paths with their limits, symlink rewriting and chains, the reversible name codec |
| `Router.dfy`, `Namespace.dfy`, `Resources.dfy`, `Rebuilding.dfy` | deepest-prefix routing, mounts, aliases and synthetic directories, where Docker resources live, the moments of a rebuild |
| `Inodes.dfy`, `Adapter.dfy`, `Replies.dfy`, `Handles.dfy` | the inode table, the FUSE callbacks and their node cache over it, what they reply, the generation-tagged handle table |
| `Fips180.dfy`, `Sha256Constants.dfy`, `Sha256Example.dfy`, `Sha256.dfy` | FIPS 180-4 SHA-256 as a reference, what its constants and byte orders mean, its published example, and the streaming hasher that refines it |
| `Helper.dfy`, `Base64.dfy`, `Tokens.dfy`, `Listing.dfy`, `Canonical.dfy`, `Readlink.dfy` | the helper's byte fields, path tokens, paged listing, canonicalisation, confinement and the readlink command |
| `Connection.dfy` | the per-client loop of the daemon with its subscription tasks and outbound queue |
| `Coordinator.dfy`, `EventMonitor.dfy` | single-flight requests and the debounced event monitor |

`dafny verify dfyconfig.toml` checks everything.

## How the code is represented

- Bytes are 8-bit vectors and 32-bit words are 32-bit vectors. 64-bit counters are natural numbers
  with the wrap-around or the overflow check written out. A packed handle ID is a number.
- Code that updates tables, buffers or loop variables is a class or a method with loops, proved
  against functions on values; the theorems are then lemmas about those functions. Iterating a hash
  map or a directory is picking elements in an arbitrary order.
- Concurrent parts (the FUSE callbacks, the rebuild of the namespace, a client connection, the request
  coordinator) are transition systems: one step per lock section, provider answer, send or task action, in any interleaving. What a
  callback holds between two lock sections, and who holds the coordinator's lock, is part of the state.
  Whether a send gets through or a window has closed is part of the step. The node cache and the variables
  of the connection's main loop are also classes, whose methods perform exactly those steps.
- Providers, `read_link`, `lstat`, event classification and directory order are parameters.
- Error messages are dropped; error kinds are kept.

## Where the code falls short of its own description

- `InodeTable::delete` on an inode that is already deleted can drop the hardlink index entry of a newer
  inode. `Inodes.DoubleDeleteSplitsHardlink` shows a run; `Inodes.ApplyKeeps` says exactly which call does
  it, and `Inodes.RunIndexed` that it cannot happen when no inode is deleted twice.
- `RequestCoordinator` says the entry is removed when the future completes. The guard uses `try_lock`:
  later calls find the finished flight and receive its old value exactly when the lock was taken at the
  moment the leader returned (`Coordinator.StaleExactly`). `Coordinator.GuardMissesLock` is such a run: a
  count holds the lock.
- Two producers of one key can run at once (`Coordinator.ForgetAllowsTwoProducers`). It happens exactly in
  the runs in which a running flight's entry is removed, by `forget`, `clear` or a leader's guard, and a call
  for its key becomes leader while it still runs (`Coordinator.ExclusiveRunsExactly`; step by step,
  `Coordinator.ExclusiveStep`).
- `token_under_root` strips a byte prefix, so `/ab` under root `/a` gets the token of `/a/b`
  (`Tokens.SiblingGetsChildToken`); `Tokens.TokenUnderRootExact` says when the token leads back.
- The `list` command underflows for `--limit 0` when a name is left to show (`Listing.CutPanics`).
- Only absolute provider links are anchored at their mount; a relative one can leave it
  (`Namespace.RelativeCanLeaveMount`). It stays exactly when its text does not climb above the mount, or
  the names after its lowest point spell the missing end of the mount's path
  (`Namespace.RelativeStaysExactly`).
- `decode_base64` accepts whitespace, `=` anywhere and stray low bits, so it is not injective
  (`Base64.DecodeNotInjective`); encoding gives an accepted input back exactly when the input is canonical
  (`Base64.DecodeThenEncode`).
- The `readlink` command neither confines the canonical path nor canonicalises the root before it makes a
  token: for a link `/a/x` to `/ab` under the root `/a` it sends the token of `/a/b`
  (`Readlink.SendsAnotherFile`). `Readlink.RunReadlink` says when the token leads back.
- `getattr` caches whatever generation the provider reports under the old inode; the next lookup of the
  same path then gets a second inode (`Adapter.RefreshSplitsInode`). A cached node leads back to its inode
  exactly while its generation is the one the inode was created with
  (`Adapter.CachedNodeLeadsBackExactly`).
- An alias named `.by-id` would hide the resources below that directory (`Resources.ByIdHidesContainers`);
  no other alias can (`Resources.AliasShadowsExactly`). The code does not exclude the name; Docker does, since
  container names and image references start with a letter or a digit.

## Model

| member | source | states |
|---|---|---|
| `StreamingSha256.HashChunks` | crates/tuxstack-fs-helper/src/hash.rs:39-55 | however the file is cut into reads, the result is the FIPS 180-4 SHA-256 digest of the whole content (contents under 2^61 bytes) |
| `StreamingSha256.Sha256Hasher.Update` | crates/tuxstack-fs-helper/src/hash.rs:93-117 | the absorbed message grows by exactly the given bytes, wherever block boundaries fall; the state is the hash of the whole blocks and the buffer is the rest |
| `StreamingSha256.Sha256Hasher.Finish` | crates/tuxstack-fs-helper/src/hash.rs:163-176 | for every message the digest of the padded message with the bit count modulo 2^64, hence the section 6.2 digest for every message FIPS 180-4 covers |
| `StreamingSha256.Sha256Hasher.PadZeros` | crates/tuxstack-fs-helper/src/hash.rs:166-168 | the padding loop terminates after the smallest number of zero bytes that leaves eight bytes in the block (section 5.1.1) |
| `StreamingSha256.Sha256Hasher.Compress` | crates/tuxstack-fs-helper/src/hash.rs:119-161 | one call is the section 6.2.2 compression of the state with the block |
| `StreamingSha256.Schedule` | crates/tuxstack-fs-helper/src/hash.rs:120-131 | the array holds the section 6.2.2 message schedule, whose terms the code adds in another order |
| `StreamingSha256.RoundStep` | crates/tuxstack-fs-helper/src/hash.rs:133-151 | one pass over the eight local variables is one round of section 6.2.2 |
| `StreamingSha256.RotationsAreSigmas` | crates/tuxstack-fs-helper/src/hash.rs:125-136 | the machine rotations are the section 4.1.2 functions |
| `StreamingSha256.Sha256Hasher.constructor` | crates/tuxstack-fs-helper/src/hash.rs:81-91 | a new hasher has absorbed nothing and holds the section 5.3.3 initial value |
| `Sha256Constants.ConstantsAreCubeRoots` | crates/tuxstack-fs-helper/src/hash.rs:69-78 | each of the 64 round constants is the first 32 bits of the fractional part of the cube root of the i-th prime (section 4.2.2) |
| `Sha256Constants.FirstPrimes` | crates/tuxstack-fs-helper/src/hash.rs:69-78 | the table of primes used for that increases and holds exactly the primes below 312 |
| `Sha256Constants.InitialValueIsSquareRoots` | crates/tuxstack-fs-helper/src/hash.rs:83-86 | the initial value is the fractional parts of the square roots of the first eight primes (section 5.3.3) |
| `Sha256Constants.WordValue` | crates/tuxstack-fs-helper/src/hash.rs:121-123 | word t of a block is the big-endian number in bytes 4t to 4t + 3 |
| `Sha256Constants.WordBytesValue` | crates/tuxstack-fs-helper/src/hash.rs:171-175 | the four bytes of a word, most significant first, have its value |
| `Sha256Constants.LengthBytesValue` | crates/tuxstack-fs-helper/src/hash.rs:169 | the eight bytes of the length field, most significant first, make up the length |
| `Sha256Example.DigestOfAbc` | crates/tuxstack-fs-helper/src/hash.rs:163-176 | the digest of "abc" is the published one, through all 64 rounds of the published computation |
| `VfsPath.FileName` | crates/tuxstack-vfs/src/path.rs:16-36 | accepts exactly the non-empty NUL-free, slash-free names of at most 255 bytes other than `.` and `..` |
| `VfsPath.SubPath` | crates/tuxstack-vfs/src/path.rs:145-167 | every contiguous part of a path is a valid path, so the `expect`s of parent and strip_prefix never fire |
| `VfsPath.FromComponents` | crates/tuxstack-vfs/src/path.rs:107-123 | succeeds exactly within the 16 KiB limit |
| `VfsPath.LimitIsOnText` | crates/tuxstack-vfs/src/path.rs:107-123 | the limit is 16384 bytes of text |
| `VfsPath.StripPrefix` | crates/tuxstack-vfs/src/path.rs:158-167 | exists exactly for component prefixes, and prefix and remainder make up the path |
| `VfsPath.WalkChecked` | crates/tuxstack-vfs/src/path.rs:93-104 | the limit re-checked at every component never rejects a path whose text is within the limit |
| `VfsPath.FromAbsolute` | crates/tuxstack-vfs/src/path.rs:75-105 | parsing is the unchecked component walk followed by one limit check |
| `VfsPath.AsBytes` | crates/tuxstack-vfs/src/path.rs:169-179 | the loop writes every component after one separator |
| `VfsPath.PathRoundTrip` | crates/tuxstack-vfs/src/path.rs:75-179 | printing and parsing a path gives it back, in exactly byte_len bytes |
| `Symlink.ResolveTarget` | crates/tuxstack-vfs/src/symlink.rs:43-67 | the push/pop loop computes the path the target denotes from the parent, or the first error |
| `Symlink.ResolveAbsolute` | crates/tuxstack-vfs/src/symlink.rs:43-67 | for absolute targets resolving and parsing agree, errors included |
| `Symlink.RelativeResolves` | crates/tuxstack-vfs/src/symlink.rs:22-38 | as many `..` as the parent is deep, then the goal, is relative and resolves to the goal |
| `Symlink.RewriteMeaning` | crates/tuxstack-vfs/src/symlink.rs:9-39 | a successful result is relative and denotes what the original target denoted; success and every error kind characterised exactly |
| `Symlink.RewriteSymlink` | crates/tuxstack-vfs/src/symlink.rs:9-39 | the byte-by-byte code computes that rewriting |
| `Symlink.ResolveChain` | crates/tuxstack-vfs/src/symlink.rs:72-98 | returns an outcome exactly when the bare chain ends with it in fewer than max_depth hops; everything else is a loop |
| `Symlink.HopLeads` | crates/tuxstack-vfs/src/symlink.rs:83-97 | an absolute link leads to the path it spells, a relative one from the link's own directory as many levels up and then down as its text says |
| `Symlink.HopStops` | crates/tuxstack-vfs/src/symlink.rs:83-97 | what is no link ends the chain there, an error ends it, and a resolvable link is always followed |
| `Chains.RevisitNeverEnds` | crates/tuxstack-vfs/src/symlink.rs:84-88 | a chain that is twice at one place never ends, so the visited set rejects no chain that would have ended |
| `Chains.FollowChain` | crates/tuxstack-vfs/src/symlink.rs:83-97 | the bounded loop with a visited set answers as the bare chain does |
| `FuseName.RoundTrip` | crates/tuxstack-vfs/src/path.rs:219-280 | decode(encode(n)) == n for every NUL-free byte string, and the encoding is well-formed UTF-8 |
| `FuseName.EncodeInjective` | crates/tuxstack-vfs/src/path.rs:219-250 | distinct names have distinct encodings |
| `FuseName.EncodedShape` | crates/tuxstack-vfs/src/path.rs:219-323 | an encoding has no control byte, no NUL and none of `/`, `:`, `@` and backslash, is neither `.` nor `..`, and is empty only for the empty name |
| `FuseName.KeptExactly` | crates/tuxstack-vfs/src/path.rs:301-303 | a character is written as it is unless its code point is a control character or one of the five reserved ones; then all its bytes are escaped |
| `FuseName.EncodesSimply` | crates/tuxstack-vfs/src/path.rs:230-248 | the encoding is the one that escapes a byte at a time wherever no character starts, so the grouping into malformed runs does not matter |
| `FuseName.CharacterIsScalar` | crates/tuxstack-vfs/src/path.rs:230-240 | what counts as a character is a Unicode scalar value in its only UTF-8 form |
| `FuseName.ScalarIsCharacter` | crates/tuxstack-vfs/src/path.rs:230-240 | every Unicode scalar value counts as a character |
| `FuseName.EncodedIsFileName` | crates/tuxstack-vfs/src/path.rs:16-36 | an encoding is a file name exactly when the name is non-empty and the encoding has at most 255 bytes |
| `FuseName.EncodeName` | crates/tuxstack-vfs/src/path.rs:219-250 | the cursor loop over valid stretches and directly escaped malformed runs computes the unit-by-unit encoding |
| `FuseName.BadIsBad` | crates/tuxstack-vfs/src/path.rs:243-246 | a malformed run is never by itself a character, so escaping its bytes is its encoding |
| `Units.TranslateByStretch` | crates/tuxstack-vfs/src/path.rs:230-248 | neither how far each validated stretch reaches nor the separate escaping of a malformed run changes the result |
| `FuseName.DecodeName` | crates/tuxstack-vfs/src/path.rs:252-280 | the index loop computes the recursive decoding and only slices at character boundaries |
| `FuseName.PlainDecodes` | crates/tuxstack-vfs/src/path.rs:270-277 | text without escapes stands for itself, whatever follows |
| `FuseName.BadEscapes` | crates/tuxstack-vfs/src/path.rs:257-268 | an escape that is cut short, has a bad digit or stands for NUL is refused wherever it is |
| `Routing.LongestIsDeepest` | crates/tuxstack-vfs/src/namespace.rs:124-128 | dropping components until a mount is met finds the deepest component prefix, or shows there is none |
| `Routing.DeepestUnique` | crates/tuxstack-vfs/src/router.rs:94-101 | two deepest prefixes of one path are equal, so ties never matter and router and namespace agree |
| `Router.ContainerPathRouter.FindMount` | crates/tuxstack-vfs/src/router.rs:97-102 | the first match of the sorted list is the deepest prefix, served by the mount that came first in the input |
| `Router.ContainerPathRouter.RoutePath` | crates/tuxstack-vfs/src/router.rs:97-130 | the route goes through that mount, or to the root filesystem when no mount is a prefix |
| `Router.Through` | crates/tuxstack-vfs/src/router.rs:103-120 | key and provider of the mount, and the provider root followed by the remainder, within the path limit |
| `Router.NewRouter` | crates/tuxstack-vfs/src/router.rs:60-88 | refuses exactly the lists with a mount on the container root |
| `Router.OrderIrrelevant` | crates/tuxstack-vfs/src/router.rs:71-81 | with distinct destinations the serving mount does not depend on the input order |
| `Namespace.NamespaceProvider.Mount` | crates/tuxstack-vfs/src/namespace.rs:57-77 | adds or replaces one mount, never at the root |
| `Namespace.NamespaceProvider.Alias` | crates/tuxstack-vfs/src/namespace.rs:79-90 | adds or replaces one alias with an absolute target, never at the root |
| `Namespace.NamespaceProvider.Unmount` | crates/tuxstack-vfs/src/namespace.rs:92-102 | removes one mount and exactly the aliases at or below it |
| `Namespace.NamespaceProvider.ProviderAt` | crates/tuxstack-vfs/src/namespace.rs:116-137 | the maximum over the map in any iteration order is the longest mounted prefix; mount path and relative path make up the path |
| `Namespace.NamespaceProvider.GetAttr` | crates/tuxstack-vfs/src/namespace.rs:171-186 | an alias is a symlink as long as its target; under a mounted prefix the provider at the deepest one is asked for the rest of the path; the root and what lies above a mount is a directory; nothing else exists |
| `Namespace.NamespaceProvider.Lookup` | crates/tuxstack-vfs/src/namespace.rs:207-214 | the same for the parent's path extended by the name, or PathTooLong |
| `Namespace.NamespaceProvider.ReadDir` | crates/tuxstack-vfs/src/namespace.rs:223-279 | on an uncovered synthetic directory a listing holds exactly the names lookup accepts, once, in order, with lookup's metadata; success exactly when every direct child's provider answers |
| `Namespace.ChildAgrees` | crates/tuxstack-vfs/src/namespace.rs:171-272 | name by name, the collected children and lookup agree |
| `Namespace.AddMountKeeps` | crates/tuxstack-vfs/src/namespace.rs:245-261 | the child table is right for the mounts seen so far, in whatever order they are seen |
| `Namespace.NamespaceProvider.ReadLink` | crates/tuxstack-vfs/src/namespace.rs:281-309 | aliases give their target, relative provider links pass through, absolute ones are anchored |
| `Namespace.AnchoredStaysInMount` | crates/tuxstack-vfs/src/namespace.rs:297-308 | an anchored absolute link resolves, from any directory, to its target below its own mount |
| `Namespace.AnchorExact` | crates/tuxstack-vfs/src/namespace.rs:292-308 | anchoring fails exactly for a provider error, a target that does not parse or a path that gets too long |
| `VfsPath.WalkNet` | crates/tuxstack-vfs/src/symlink.rs:43-67 | a resolved target keeps all but the climbed components of its start and adds its remaining names |
| `Namespace.RelativeStaysExactly` | crates/tuxstack-vfs/src/namespace.rs:292-295 | a relative provider link stays in its mount exactly when its text does not climb above it or spells the missing end again |
| `Namespace.RelativeCanLeaveMount` | crates/tuxstack-vfs/src/namespace.rs:292-295 | a family of relative provider links that resolve outside their mount |
| `Resources.ResourcePathShape` | crates/tuxstack-daemon/src/state.rs:919-940 | a resource has a path exactly when its identity is non-empty, NUL-free and encodes to at most 255 bytes |
| `Resources.HomesText` | crates/tuxstack-daemon/src/state.rs:922-932 | resources live below /containers/.by-id, /images/.by-id and /volumes |
| `Resources.KeyTells` | crates/tuxstack-daemon/src/state.rs:492-536 | distinct resources have distinct provider keys |
| `Resources.LabelExact` | crates/tuxstack-daemon/src/state.rs:493-555 | containers are shown without leading slashes, images under every tag but the placeholder, volumes never |
| `Resources.PrefixFree` | crates/tuxstack-daemon/src/state.rs:919-940 | the paths of distinct resources are never prefixes of one another |
| `Resources.Rebuild` | crates/tuxstack-daemon/src/state.rs:388-407 | after a rebuild exactly the listed resources are mounted, each at its own path with its own key and provider; every alias belongs to a listed resource and holds its path, and every offered name has one |
| `Resources.AliasItem` | crates/tuxstack-daemon/src/state.rs:493-501 | the aliases of one resource, up to the first name that does not encode |
| `Resources.AliasLeadsHome` | crates/tuxstack-daemon/src/state.rs:549-555 | what the adapter answers for an alias is relative and leads to the resource's own path |
| `Resources.FriendlyLeadsHome` | crates/tuxstack-daemon/src/state.rs:403-406 | so after a rebuild every alias leads to the path of a listed resource bearing the name |
| `Resources.AliasShadowsExactly` | crates/tuxstack-daemon/src/state.rs:919-940 | no alias takes or lies below a resource path; it lies above one exactly when the name is `.by-id` in the same directory |
| `Resources.ByIdHidesContainers` | crates/tuxstack-daemon/src/state.rs:549-555 | a container shown as `.by-id` would lie above every container path |
| `Rebuilding.NeverAnotherProvider` | crates/tuxstack-daemon/src/state.rs:388-407 | at every moment of every sequence of rebuilds, seen lock section by lock section, a path at or below a resource's path is no alias and is served by that resource's own provider or by none; between rebuilds it is served exactly when the resource is listed |
| `Rebuilding.RunConsistent` | crates/tuxstack-vfs/src/namespace.rs:104-114 | exactly the resources handled so far are mounted, although mounts and aliases are cleared under separate locks |
| `Resources.OwnProvider` | crates/tuxstack-daemon/src/state.rs:305-331 | every path at or below a resource's path is served by that resource's provider; an unlisted resource by none |
| `Resources.LocateResource` | crates/tuxstack-daemon/src/state.rs:272-303 | the resource's own provider is found at its root, so "resolved below a provider root" never happens |
| `Inodes.RunInvariant` | crates/tuxstack-vfs/src/inode.rs:59-185 | after any operations keys and live aliases are mutually inverse, the hardlink index points at live carriers of the key, and the counter exceeds every number issued |
| `Inodes.ApplyKeeps` | crates/tuxstack-vfs/src/inode.rs:77-185 | every operation keeps the invariant, and keeps every live hardlinked inode indexed exactly when it does not drop a newer inode's entry |
| `Inodes.DeleteKeeps` | crates/tuxstack-vfs/src/inode.rs:166-179 | the same for delete, naming the guard |
| `Inodes.RunIndexed` | crates/tuxstack-vfs/src/inode.rs:92-123 | when no inode is deleted twice every live hardlinked inode stays indexed |
| `Inodes.DoubleDeleteSplitsHardlink` | crates/tuxstack-vfs/src/inode.rs:170-177 | a second delete un-indexes a newer inode and the next name of the same file gets another number |
| `Inodes.DeletedNeverReturned` | crates/tuxstack-vfs/src/inode.rs:163-165 | whatever happens after a delete, no lookup returns the deleted number again |
| `Inodes.Monotone` | crates/tuxstack-vfs/src/inode.rs:107-124 | numbers are never recycled and a deletion is never undone |
| `Inodes.LookupOutcomes` | crates/tuxstack-vfs/src/inode.rs:77-125 | a lookup binds its key and no other, returns a live number, and fails only when numbers run out; the deleted and stale branches are never taken |
| `Inodes.AddAliasOutcome` | crates/tuxstack-vfs/src/inode.rs:127-142 | add_alias binds the name to a live inode unless another one has it, and nothing else changes |
| `Inodes.RenameOutcome` | crates/tuxstack-vfs/src/inode.rs:144-161 | rename moves a bound name to a free one on the same inode |
| `Inodes.DeleteOutcome` | crates/tuxstack-vfs/src/inode.rs:166-179 | delete unbinds exactly the names of that inode and leaves the other records alone |
| `Inodes.LookupsCounted` | crates/tuxstack-vfs/src/inode.rs:77-185 | each lookup that returns an inode counts one and forget takes back |
| `Inodes.RunCanonical` | crates/tuxstack-vfs/src/inode.rs:144-161 | the canonical name of a live record is always one of its names |
| `Inodes.InodeTable.Obtain` | crates/tuxstack-vfs/src/inode.rs:77-125 | inode_for on the three maps is the specified step |
| `Inodes.InodeTable.AddAliasTo` | crates/tuxstack-vfs/src/inode.rs:127-142 | add_alias is the specified step and keeps the invariant |
| `Inodes.InodeTable.RenameAliasOf` | crates/tuxstack-vfs/src/inode.rs:144-161 | rename_alias is the specified step and keeps the invariant |
| `Inodes.InodeTable.DeleteInode` | crates/tuxstack-vfs/src/inode.rs:166-179 | delete drains the aliases out of the key map and keeps the record |
| `Inodes.InodeTable.ForgetLookups` | crates/tuxstack-vfs/src/inode.rs:181-185 | only the lookup count changes |
| `Adapter.RunSafe` | crates/tuxstack-vfs/src/adapter.rs:190-511 | in every interleaving of callbacks: each cached path and each path a callback holds for an inode is the path of an alias of that live inode; every reply (entry, attributes, link, open, listing rows) is right and names cached inodes; an inode is missing from the cache only while a callback is about to store it |
| `Adapter.StepSafe` | crates/tuxstack-vfs/src/adapter.rs:190-511 | each lock section and each provider answer keeps all of that |
| `Adapter.SharedInode` | crates/tuxstack-vfs/src/adapter.rs:199-227 | two keys share an inode exactly when the provider gave both the same node ID and the same generation when they were first seen |
| `Adapter.RunShares` | crates/tuxstack-vfs/src/adapter.rs:199-227 | at every moment of every run |
| `Adapter.TwoNames` | crates/tuxstack-vfs/src/adapter.rs:208-220 | the run that looks two names up: one inode if node ID and generation agree, two otherwise |
| `Adapter.ObtainHolds` | crates/tuxstack-vfs/src/adapter.rs:216-220 | the inode lock of cache_node: the new inode is not cached yet, and its store is pending |
| `Adapter.StoreKeeps` | crates/tuxstack-vfs/src/adapter.rs:221-225 | the node lock of cache_node: the stored path names the inode, and the row or reply built from it is right |
| `Adapter.WriteBackKeeps` | crates/tuxstack-vfs/src/adapter.rs:331-346 | getattr writes back the path it read before the provider call, which still names the inode whatever other callbacks did meanwhile |
| `Adapter.CachedNodeLeadsBackExactly` | crates/tuxstack-vfs/src/adapter.rs:331-346 | the path and generation of a cached node are bound to its inode, and the next lookup seeing them returns it, exactly when the generation is that of the inode's hardlink key |
| `Adapter.RefreshSplitsInode` | crates/tuxstack-vfs/src/adapter.rs:331-346 | a run in which getattr sees another generation and the next lookup of the path gets a second inode |
| `Adapter.QuietCacheIsComplete` | crates/tuxstack-vfs/src/adapter.rs:216-226 | with no store pending, the cache holds exactly the inodes handed out |
| `Adapter.FuseAdapter.BeginCall` | crates/tuxstack-vfs/src/adapter.rs:190-197 | the read section of each callback is its first step |
| `Adapter.FuseAdapter.LockInodes` | crates/tuxstack-vfs/src/adapter.rs:199-220 | the inode section of cache_node, on the inode table object, is its step |
| `Adapter.FuseAdapter.LockNodes` | crates/tuxstack-vfs/src/adapter.rs:221-226 | the node section of cache_node and what lookup or readdir does next is its step |
| `Adapter.FuseAdapter.LockNodesForRefresh` | crates/tuxstack-vfs/src/adapter.rs:336-346 | the node section of getattr is its step |
| `Adapter.FuseAdapter.ParentInode` | crates/tuxstack-vfs/src/adapter.rs:488-496 | the search, in any iteration order, gives a cached node with the parent's path if there is one, else the root |
| `Adapter.ReadLinkThroughAdapter` | crates/tuxstack-vfs/src/adapter.rs:354-370 | only a cached symlink is asked for; what the kernel gets is relative; an alias leads to its target, an absolute provider link below its own mount, a relative one stays in its mount exactly when its text ends below it |
| `Replies.RunHonest` | crates/tuxstack-vfs/src/adapter.rs:290-511 | in every run each callback replies to its own call with what the provider told that very callback; a listing has a row for each entry told, in order |
| `Replies.RunSourced` | crates/tuxstack-vfs/src/adapter.rs:199-227 | everything in the node cache was said by the provider about that very path |
| `Replies.CachesLatest` | crates/tuxstack-vfs/src/adapter.rs:221-225 | the cache holds for each inode what was stored last |
| `Replies.OpeningExact` | crates/tuxstack-vfs/src/adapter.rs:190-197 | each call asks about the cached path exactly when the node exists and has the right type, and otherwise fails with the error of its reason |
| `Replies.FailsOnlyFor` | crates/tuxstack-vfs/src/adapter.rs:290-511 | a step makes its callback fail exactly for a provider error, an unusable link, a path too long or inode numbers running out |
| `Handles.IssuedIdMeaning` | crates/tuxstack-vfs/src/handle.rs:62-95 | an issued ID finds exactly its handle until removal, then nothing until its slot has been emptied a multiple of 2^32 times; exact condition for the later alias |
| `Handles.LiveIdsDistinct` | crates/tuxstack-vfs/src/handle.rs:62-74 | live IDs are distinct |
| `Handles.UnpackPack` | crates/tuxstack-vfs/src/handle.rs:120-126 | unpack inverts pack on 32-bit parts |
| `Handles.OpenHandleTable.Insert` | crates/tuxstack-vfs/src/handle.rs:62-74 | fails exactly when full; otherwise a new issue, every live handle untouched, indices within 32 bits |
| `Handles.OpenHandleTable.Get` | crates/tuxstack-vfs/src/handle.rs:76-84 | answers by slot and generation |
| `Handles.OpenHandleTable.Remove` | crates/tuxstack-vfs/src/handle.rs:86-95 | empties exactly the slot of a valid ID and retires the ID |
| `Handles.NewTable` | crates/tuxstack-vfs/src/handle.rs:48-60 | accepts exactly the limits that fit the packed index |
| `Base64.RoundTrip` | crates/tuxstack-fs-protocol/src/lib.rs:217-278 | decode(encode(b)) == b for all byte strings, in 4 * ceil(n / 3) characters (section 4 of RFC 4648) |
| `Base64.EncodeBase64` | crates/tuxstack-fs-protocol/src/lib.rs:217-238 | the chunk loop encodes chunk by chunk |
| `Base64.DecodeBase64` | crates/tuxstack-fs-protocol/src/lib.rs:240-278 | the quad loop decodes quad by quad after dropping whitespace, with both error kinds |
| `Base64.AlphabetTable` | crates/tuxstack-fs-protocol/src/lib.rs:217-238 | the 64 letters of section 4 of RFC 4648 in order |
| `Base64.WhitespaceIgnored` | crates/tuxstack-fs-protocol/src/lib.rs:240-245 | space, tab, line feed, form feed and carriage return are ignored wherever they are |
| `Base64.ForeignRefused` | crates/tuxstack-fs-protocol/src/lib.rs:246-262 | an accepted input has no character outside the alphabet but padding and whitespace |
| `Base64.ChunkRoundTrip` | crates/tuxstack-fs-protocol/src/lib.rs:219-276 | one to three bytes survive regrouping into six-bit digits and back |
| `Base64.DecodeThenEncode` | crates/tuxstack-fs-protocol/src/lib.rs:217-278 | encoding what an accepted input decodes to gives the input back exactly when it is canonical: no whitespace, padding only as the last one or two characters, unused bits zero |
| `Base64.EncodeCanonical` | crates/tuxstack-fs-protocol/src/lib.rs:217-238 | every encoding is canonical |
| `Base64.DecodeNotInjective` | crates/tuxstack-fs-protocol/src/lib.rs:262-275 | two different inputs decode alike |
| `Tokens.TokenRoundTrip` | crates/tuxstack-fs-protocol/src/lib.rs:139-209 | a relative path has a token exactly when it is valid, and the token decodes to it |
| `Tokens.TokenText` | crates/tuxstack-fs-protocol/src/lib.rs:136-160 | a token is `v1:` and the base64 of a valid relative path, and nothing else decodes |
| `Readlink.RelativeIsNames` | crates/tuxstack-fs-protocol/src/lib.rs:180-209 | a relative path is valid exactly when it is empty or file names with single separators between them |
| `Tokens.ChildTokenExists` | crates/tuxstack-fs-helper/src/path.rs:46-55 | a slash-free name gets a child token exactly when it is one path component, or the token is the root's own |
| `Tokens.ChildTokenResolves` | crates/tuxstack-fs-helper/src/path.rs:29-55 | resolving a child token gives the parent's resolved path extended by exactly the name |
| `Tokens.TokenUnderRootExact` | crates/tuxstack-fs-helper/src/path.rs:59-79 | the token leads back to the path exactly when the path is the root or continues it at a component boundary |
| `Tokens.SiblingGetsChildToken` | crates/tuxstack-fs-helper/src/path.rs:62-70 | a sibling that shares the byte prefix gets a child's token |
| `Listing.ListAll` | crates/tuxstack-fs-helper/src/list.rs:39-98 | following next_cursor over an unchanged directory, read in any order each time, ends with the sorted names, each once, without `.`, `..`, hidden names unless asked for, and in the root without proc, sys, dev, run and .tuxstack |
| `Order.LeqIsDictionaryOrder` | crates/tuxstack-fs-helper/src/list.rs:73 | the order is dictionary order on bytes |
| `Listing.ListPage` | crates/tuxstack-fs-helper/src/list.rs:39-98 | a call shows one page of the sorted visible names after the cursor |
| `Listing.ContinueAfter` | crates/tuxstack-fs-helper/src/list.rs:65-73 | continuing after the k-th name shows exactly the names after it |
| `Listing.NextPage` | crates/tuxstack-fs-helper/src/list.rs:75-98 | a page is as long as the limit allows, extends the names so far without gap or repeat, and lacks a cursor only at the end |
| `Listing.CutPanics` | crates/tuxstack-fs-helper/src/list.rs:75-79 | the page arithmetic underflows exactly for limit zero with names left |
| `Canonical.Canonicalize` | crates/tuxstack-fs-helper/src/path.rs:112-151 | always stops; succeeds with p exactly when at most 40 symlink splices arrive at p; reports a loop exactly when 40 hops end nowhere |
| `Canonical.WalkOnce` | crates/tuxstack-fs-helper/src/path.rs:116-146 | one pass over the components is one step of that chain |
| `Canonical.CanonicalIsPhysical` | crates/tuxstack-fs-helper/src/path.rs:108-151 | the answer exists, has no symlink among its prefixes, and is its own answer |
| `Canonical.Composition` | crates/tuxstack-fs-helper/src/path.rs:112-151 | a path with names behind it arrives exactly where its first part's answer with these names does, the symlinks of both adding up |
| `Canonical.LinkLeads` | crates/tuxstack-fs-helper/src/path.rs:122-145 | a path through a link arrives exactly where the link's target, read from the root or from the link's directory, does with the same names behind |
| `Canonical.ErrorEnds` | crates/tuxstack-fs-helper/src/path.rs:119-133 | the first component that cannot be stat'ed, or read as a link, ends it with that error |
| `Canonical.NormalizePath` | crates/tuxstack-fs-helper/src/path.rs:86-106 | the loop computes the lexical normal form: names after at most one root |
| `Canonical.LexicalParent` | crates/tuxstack-fs-helper/src/path.rs:91-95 | wherever a name is followed by `..` both vanish, whatever comes before, whatever comes after and whatever the name denotes |
| `Canonical.LexicalLaws` | crates/tuxstack-fs-helper/src/path.rs:86-106 | `.` vanishes, `..` at the root stays there, an absolute part starts afresh |
| `Canonical.ConfineToRoot` | crates/tuxstack-fs-helper/src/path.rs:156-167 | returns exactly the canonical paths that have the canonical root as component prefix |
| `Readlink.RunReadlink` | crates/tuxstack-fs-helper/src/path.rs:173-182 | the token sent leads back to the canonical path exactly when that path is the root's text or continues it at a component boundary |
| `Readlink.SendsAnotherFile` | crates/tuxstack-fs-helper/src/path.rs:173-182 | for all names a, x, b: a link `/a/x` to `/ab` under the root `/a` gets the token of `/a/b` |
| `Readlink.LeadsBack` | crates/tuxstack-fs-helper/src/path.rs:59-79 | the same for any root and any canonical path, existence of the token included |
| `Readlink.UnderIsPrefix` | crates/tuxstack-fs-helper/src/path.rs:59-79 | for a root that is itself a canonical path this means being below it component by component |
| `Connection.TaskCost` | crates/tuxstack-daemon/src/ipc.rs:1243-1292 | accepts exactly 1 to 16 non-blank members, or a terminal with a non-blank container, dimensions from 1 to 4096 and usable options; the cost is the number of members |
| `Connection.FindId` | crates/tuxstack-daemon/src/ipc.rs:280-283 | the search terminates at the first unused ID in wrapping order, never 0 |
| `Connection.RunBounded` | crates/tuxstack-daemon/src/ipc.rs:175-336 | at every moment of every run at most 64 requests and 32 subscriptions are active and the task counter is the sum of the live costs, at most 32 |
| `Connection.RunTableExact` | crates/tuxstack-daemon/src/ipc.rs:189-316 | before the ID counter wraps, the table holds exactly the subscriptions accepted, not unsubscribed and not reported done, the counter is the sum of their costs, and both are empty when there is none |
| `Connection.RunRequestsExact` | crates/tuxstack-daemon/src/ipc.rs:185-246 | a request ID is active exactly when a task was started for it whose done-message has not been taken |
| `Connection.ClosedExactly` | crates/tuxstack-daemon/src/ipc.rs:196-336 | a hang-up and a failed acceptance close the loop, nothing else does, and a closed loop takes nothing |
| `Connection.ReleaseKeeps` | crates/tuxstack-daemon/src/ipc.rs:189-194 | giving a cost back never saturates |
| `Connection.MessagesFramed` | crates/tuxstack-daemon/src/ipc.rs:773-853 | at every moment of every run each subscription's messages are Subscribed, events, then at most one SubscriptionEnded that is last; terminal output only after Running, only the end after Exited or Failed |
| `Connection.SendsExactly` | crates/tuxstack-daemon/src/ipc.rs:294-312 | each step adds to a subscription's messages exactly what it sends for it |
| `Connection.SaysExactly` | crates/tuxstack-daemon/src/ipc.rs:1054-1225 | a task can say exactly what the client's protocol allows next |
| `Connection.RunOrdered` | crates/tuxstack-daemon/src/ipc.rs:1054-1225 | the messages of every subscription match the phase its task is in |
| `Connection.IdsDistinct` | crates/tuxstack-daemon/src/ipc.rs:280-284 | no ID is used twice within the first 2^64 - 2 subscriptions of a connection |
| `Connection.ClientLoop.OnSubscribe` | crates/tuxstack-daemon/src/ipc.rs:252-313 | refuses exactly for an invalid request or a reached limit, else performs the accepting step with an unused nonzero ID |
| `Connection.ClientLoop.OnRequest` | crates/tuxstack-daemon/src/ipc.rs:200-246 | starts a task exactly for a nonzero inactive ID below the limit |
| `Connection.ClientLoop.OnRequestDone` | crates/tuxstack-daemon/src/ipc.rs:185-188 | the done-message of a request frees its ID |
| `Connection.ClientLoop.OnSubscriptionDone` | crates/tuxstack-daemon/src/ipc.rs:189-194 | the done-message of a subscription removes it and returns its cost |
| `Connection.ClientLoop.OnUnsubscribe` | crates/tuxstack-daemon/src/ipc.rs:314-326 | removes the subscription, returns its cost and answers |
| `Connection.ClientLoop.Remove` | crates/tuxstack-daemon/src/ipc.rs:315-316 | table and counter change together |
| `Coordinator.PlainRunsAreExclusive` | crates/docker-core/src/cache/coordinator.rs:165-193 | without forget, clear or leader cancellation at most one producer per key is running at any moment, whoever gets the lock |
| `Coordinator.ExclusiveStep` | crates/docker-core/src/cache/coordinator.rs:165-234 | on an exclusive state a step keeps exclusivity exactly when it does not start a flight of a key that has one running |
| `Coordinator.ExclusiveRunsExactly` | crates/docker-core/src/cache/coordinator.rs:165-234 | a run is exclusive at every moment exactly when no running flight loses its entry and a call for its key becomes leader while it still runs |
| `Coordinator.LostItsEntry` | crates/docker-core/src/cache/coordinator.rs:197-234 | a running flight without an entry lost it to forget, clear or a guard while it was running |
| `Coordinator.JoinedGetsItsFlight` | crates/docker-core/src/cache/coordinator.rs:173-178 | in every run, forget and cancellation included, a joined caller returns the value of the flight it found |
| `Coordinator.ProducedValue` | crates/docker-core/src/cache/coordinator.rs:185-193 | a flight keeps the value its producer completed it with, and its callers return that value |
| `Coordinator.EntriesExactly` | crates/docker-core/src/cache/coordinator.rs:197-234 | forget, clear and a guard remove exactly their entries, and only a new leader adds one |
| `Coordinator.StaleExactly` | crates/docker-core/src/cache/coordinator.rs:223-234 | after a leader returned, any later call for the key finds the finished flight exactly when the lock was taken at that moment |
| `Coordinator.GuardMissesLock` | crates/docker-core/src/cache/coordinator.rs:223-234 | a plain run in which a count holds the lock as the leader returns, and a later call joins the finished flight |
| `Coordinator.StaleForever` | crates/docker-core/src/cache/coordinator.rs:223-234 | an entry left behind stays for the rest of the run unless forget or clear removes it |
| `Coordinator.ForgetAllowsTwoProducers` | crates/docker-core/src/cache/coordinator.rs:197-199 | a run with forget in which two producers of one key are running |
| `EventMonitor.RunMonitor` | crates/docker-core/src/cache/events.rs:254-341 | on every input sequence the loop sends, turn by turn, what the reference run sends, and stops at exactly the first input that ends it |
| `EventMonitor.RunReady` | crates/docker-core/src/cache/events.rs:254-360 | in every run, at every moment, the notifications and then the pending batch stand for consecutive stretches of exactly the classified events so far; each notification summarises its stretch and carries the reconnect flag exactly when a stream failure lies between the previous notification and it |
| `EventMonitor.EndedRunNotifiesAll` | crates/docker-core/src/cache/events.rs:297-341 | when the loop ends every classified event is in exactly one notification and the bursts sum to their number |
| `EventMonitor.TurnSends` | crates/docker-core/src/cache/events.rs:262-360 | a tick, a failure and cancellation send whatever is pending, an event sends it first if its window has closed, nothing else sends |
| `EventMonitor.KindsReported` | crates/docker-core/src/cache/events.rs:372-397 | a notification reports exactly the kinds that occurred, each once, in the fixed order |
| `EventMonitor.SummaryCarries` | crates/docker-core/src/cache/events.rs:80-100 | the first 256 distinct container changes, truncated exactly when there were more, and the number of events |
| `EventMonitor.BurstsConserved` | crates/docker-core/src/cache/events.rs:372-397 | the bursts add up to the number of events notified |
| `EventMonitor.PendingBatch.Add` | crates/docker-core/src/cache/events.rs:80-100 | the batch always holds the kinds, the first 256 distinct container changes in order, and truncated exactly when there were more |
| `EventMonitor.PendingBatch.constructor` | crates/docker-core/src/cache/events.rs:67-78 | a new batch describes its one event |
| `EventMonitor.FirstSeenDistinct` | crates/docker-core/src/cache/events.rs:87-99 | the reference list has no repeats and holds exactly the container changes that occurred |
| `EventMonitor.Monitor.Flush` | crates/docker-core/src/cache/events.rs:372-397 | sends the pending batch, if any, as one notification with the current flag |
| `EventMonitor.Monitor.Accept` | crates/docker-core/src/cache/events.rs:277-295 | a late window is flushed and the flag lowered before the event is kept; no event is lost |
| `EventMonitor.Monitor.Fail` | crates/docker-core/src/cache/events.rs:297-330 | the batch is flushed with the old flag, then the flag is raised |
| `EventMonitor.Monitor.Timer` | crates/docker-core/src/cache/events.rs:333-360 | the flag is lowered only by a tick that flushed something |
| `EventMonitor.Monitor.Turn` | crates/docker-core/src/cache/events.rs:262-338 | each select arm performs exactly the reference turn for its input and says whether the loop ends |

## Left out

- ListPage: emitting the entries and their metadata is I/O and not modelled; the page is its names and cursor.
- Pack: shift-and-or of two 32-bit parts is written as arithmetic on numbers, which is the same function on that range.
- Docker calls, SQLite, CBOR and JSON, Tokio, the FUSE library, Qt and all file and network I/O.
- The adapter's `open` stops at the provider's answer, and `read`, `release`, `getxattr` and the offset of `readdir` are not steps; the handle table has its own model.
- Physical resolution of `..` in the helper: `normalize` collapses it as text, and no comparison with POSIX is made.
- The namespace's open, read and close routes and `refresh`: each is settled by reading one branch.
- `with_collision_suffix` and its FNV hash: uniqueness would be a property of the hash, not of the code.
- `expired_ids`, access times, TTL caches, debounce durations, backoff and jitter: clocks are abstracted to nondeterministic steps.
- The event classifier: a fixed table of names; the monitor is proved for any classification.
- The per-container terminal session limit: the check and the registration are separated by awaits, so it is not an invariant.
- Reuse of a subscription ID after 2^64 - 1 acceptances: `MessagesFramed` speaks of accepted subscriptions, not of IDs, and covers it; routing of terminal input by ID does not appear in the model.
- Client-side connection generations, the terminal preference editor, the CLI and the GUI.
