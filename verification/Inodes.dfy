/** The inode table (tuxstack-vfs/src/inode.rs). */
module Inodes {
  import opened Common
  import opened VfsPath
  import opened Runs

  const ROOT_INODE: nat := 1
  const MAX_U64: nat := 0xFFFF_FFFF_FFFF_FFFF

  /** Which daemon, resource kind, resource and provider a node belongs to. */
  datatype Owner = Owner(daemon: Bytes, kind: Bytes, resource: Bytes, provider: Bytes)

  datatype NodeKey = NodeKey(owner: Owner, path: VirtualPath, generation: nat)

  datatype HardlinkKey = HardlinkKey(owner: Owner, nodeId: Bytes, generation: nat)

  /** VirtualNodeKey::root: kind "root", provider "namespace". */
  const ROOT_KEY: NodeKey := NodeKey(
    Owner([], [0x72, 0x6F, 0x6F, 0x74], [], [0x6E, 0x61, 0x6D, 0x65, 0x73, 0x70, 0x61, 0x63, 0x65]), [], 0)

  datatype Record = Record(
    canonical: NodeKey, hardlink: Option<HardlinkKey>, aliases: set<NodeKey>, deleted: bool, lookups: nat)

  /** The three maps and the counter, as one value. */
  datatype Table = Table(
    byKey: map<NodeKey, nat>, byHardlink: map<HardlinkKey, nat>, byInode: map<nat, Record>, next: nat)

  function SatAdd(n: nat): nat { if n >= MAX_U64 then MAX_U64 else n + 1 }

  // ----- the operations on values -----

  function NewTable(): Table {
    Table(map[ROOT_KEY := ROOT_INODE], map[],
          map[ROOT_INODE := Record(ROOT_KEY, None, {ROOT_KEY}, false, 1)], ROOT_INODE + 1)
  }

  /** Looking up a known key counts the lookup. */
  function Touch(t: Table, inode: nat): (Table, Result<nat, VfsError>) {
    if inode !in t.byInode then (t, Ok(inode))
    else if t.byInode[inode].deleted then (t, Err(NotFound))
    else
      var rec := t.byInode[inode];
      (t.(byInode := t.byInode[inode := rec.(lookups := SatAdd(rec.lookups))]), Ok(inode))
  }

  /** A new name for a live hardlinked inode. */
  function Attach(t: Table, key: NodeKey, inode: nat): Table
    requires inode in t.byInode
  {
    var rec := t.byInode[inode];
    t.(byKey := t.byKey[key := inode],
       byInode := t.byInode[inode := rec.(aliases := rec.aliases + {key}, lookups := SatAdd(rec.lookups))])
  }

  function Allocate(t: Table, key: NodeKey, hardlink: Option<HardlinkKey>): (Table, Result<nat, VfsError>) {
    if t.next >= MAX_U64 then (t, Err(Unavailable))
    else
      (Table(t.byKey[key := t.next],
             if hardlink.Some? then t.byHardlink[hardlink.value := t.next] else t.byHardlink,
             t.byInode[t.next := Record(key, hardlink, {key}, false, 1)],
             t.next + 1),
       Ok(t.next))
  }

  function InodeFor(t: Table, key: NodeKey, hardlink: Option<HardlinkKey>): (Table, Result<nat, VfsError>) {
    if key in t.byKey then Touch(t, t.byKey[key])
    else if hardlink.Some? && hardlink.value in t.byHardlink then
      var inode := t.byHardlink[hardlink.value];
      if inode !in t.byInode then (t, Err(Stale))
      else if !t.byInode[inode].deleted then (Attach(t, key, inode), Ok(inode))
      else Allocate(t, key, hardlink)
    else Allocate(t, key, hardlink)
  }

  function AddAlias(t: Table, inode: nat, alias: NodeKey): (Table, Result<(), VfsError>) {
    if inode !in t.byInode || t.byInode[inode].deleted then (t, Err(NotFound))
    else if alias in t.byKey then (t, if t.byKey[alias] == inode then Ok(()) else Err(InvalidInput))
    else
      var rec := t.byInode[inode];
      (t.(byKey := t.byKey[alias := inode],
          byInode := t.byInode[inode := rec.(aliases := rec.aliases + {alias})]), Ok(()))
  }

  function RenameAlias(t: Table, from: NodeKey, to: NodeKey): (Table, Result<nat, VfsError>) {
    if to in t.byKey then (t, Err(InvalidInput))
    else if from !in t.byKey then (t, Err(NotFound))
    else
      var inode := t.byKey[from];
      if inode !in t.byInode then (t.(byKey := t.byKey - {from}), Err(Stale))
      else
        var rec := t.byInode[inode];
        var canonical := if rec.canonical == from then to else rec.canonical;
        (t.(byKey := (t.byKey - {from})[to := inode],
            byInode := t.byInode[inode := rec.(aliases := rec.aliases - {from} + {to}, canonical := canonical)]),
         Ok(inode))
  }

  function Delete(t: Table, inode: nat): (Table, Result<(), VfsError>) {
    if inode == ROOT_INODE then (t, Err(InvalidInput))
    else if inode !in t.byInode then (t, Err(NotFound))
    else
      var rec := t.byInode[inode];
      (t.(byKey := t.byKey - rec.aliases,
          byHardlink := if rec.hardlink.Some? then t.byHardlink - {rec.hardlink.value} else t.byHardlink,
          byInode := t.byInode[inode := rec.(deleted := true, aliases := {})]), Ok(()))
  }

  function Forget(t: Table, inode: nat, count: nat): Table {
    if inode !in t.byInode then t
    else
      var rec := t.byInode[inode];
      t.(byInode := t.byInode[inode := rec.(lookups := if count <= rec.lookups then rec.lookups - count else 0)])
  }

  // ----- the invariant of every reachable table -----

  ghost predicate Live(t: Table, inode: nat) { inode in t.byInode && !t.byInode[inode].deleted }

  /** A key is bound exactly to the live record that lists it. */
  ghost predicate KeysInverse(t: Table) {
    && (forall k :: k in t.byKey ==> Live(t, t.byKey[k]) && k in t.byInode[t.byKey[k]].aliases)
    && (forall i, k :: i in t.byInode && k in t.byInode[i].aliases ==> k in t.byKey && t.byKey[k] == i)
  }

  /** The hardlink index points only at live records that carry the key. */
  ghost predicate HardlinksSound(t: Table) {
    forall h :: h in t.byHardlink ==> Live(t, t.byHardlink[h]) && t.byInode[t.byHardlink[h]].hardlink == Some(h)
  }

  /** Numbers in use are below the counter, and the root is alive. */
  ghost predicate NumbersBounded(t: Table) {
    && Live(t, ROOT_INODE) && t.next <= MAX_U64
    && forall i :: i in t.byInode ==> ROOT_INODE <= i < t.next
  }

  ghost predicate Inv(t: Table) {
    KeysInverse(t) && HardlinksSound(t) && NumbersBounded(t)
  }

  /** Every live hardlinked record is indexed: the converse of HardlinksSound. */
  ghost predicate Indexed(t: Table) {
    forall i :: Live(t, i) && t.byInode[i].hardlink.Some? ==>
      var h := t.byInode[i].hardlink.value;
      h in t.byHardlink && t.byHardlink[h] == i
  }

  lemma InodeForKeeps(t: Table, key: NodeKey, hardlink: Option<HardlinkKey>)
    requires Inv(t)
    ensures Inv(InodeFor(t, key, hardlink).0)
    ensures Indexed(t) ==> Indexed(InodeFor(t, key, hardlink).0)
  {
    if key !in t.byKey && !(hardlink.Some? && hardlink.value in t.byHardlink) {
      AllocateKeeps(t, key, hardlink);
      if Indexed(t) { AllocateIndexes(t, key, hardlink); }
    }
  }

  lemma AllocateKeeps(t: Table, key: NodeKey, hardlink: Option<HardlinkKey>)
    requires Inv(t) && key !in t.byKey && (hardlink.Some? ==> hardlink.value !in t.byHardlink)
    ensures Inv(Allocate(t, key, hardlink).0)
  {
    assert t.next !in t.byInode;
  }

  lemma AllocateIndexes(t: Table, key: NodeKey, hardlink: Option<HardlinkKey>)
    requires Inv(t) && Indexed(t) && (hardlink.Some? ==> hardlink.value !in t.byHardlink)
    ensures Indexed(Allocate(t, key, hardlink).0)
  {
    assert t.next !in t.byInode;
  }

  lemma AddAliasKeeps(t: Table, inode: nat, alias: NodeKey)
    requires Inv(t)
    ensures Inv(AddAlias(t, inode, alias).0)
    ensures Indexed(t) ==> Indexed(AddAlias(t, inode, alias).0)
  {
  }

  lemma RenameKeeps(t: Table, from: NodeKey, to: NodeKey)
    requires Inv(t)
    ensures Inv(RenameAlias(t, from, to).0)
    ensures Indexed(t) ==> Indexed(RenameAlias(t, from, to).0)
  {
  }

  /** Deleting a deleted inode whose hardlink key has since been taken by a newer inode. */
  predicate DropsForeignIndex(t: Table, inode: nat) {
    && inode != ROOT_INODE && inode in t.byInode && t.byInode[inode].deleted
    && t.byInode[inode].hardlink.Some? && t.byInode[inode].hardlink.value in t.byHardlink
  }

  lemma DeleteKeeps(t: Table, inode: nat)
    requires Inv(t)
    ensures Inv(Delete(t, inode).0)
    ensures Indexed(t) ==> (Indexed(Delete(t, inode).0) <==> !DropsForeignIndex(t, inode))
  {
    var u := Delete(t, inode).0;
    if inode in t.byInode {
      forall i, k | i in u.byInode && k in u.byInode[i].aliases ensures k in u.byKey && u.byKey[k] == i {
        assert k in t.byInode[i].aliases && t.byKey[k] == i;
        assert k in t.byInode[inode].aliases ==> t.byKey[k] == inode;
      }
    }
    if DropsForeignIndex(t, inode) {
      var h := t.byInode[inode].hardlink.value;
      var newer := t.byHardlink[h];
      assert newer != inode && Live(Delete(t, inode).0, newer);
    }
  }

  // ----- whole runs -----

  datatype Op =
    | Obtain(key: NodeKey, hardlink: Option<HardlinkKey>)
    | Alias(inode: nat, key: NodeKey)
    | Rename(from: NodeKey, to: NodeKey)
    | Remove(inode: nat)
    | Release(inode: nat, count: nat)

  function Apply(t: Table, op: Op): Table {
    match op
    case Obtain(k, h) => InodeFor(t, k, h).0
    case Alias(i, k) => AddAlias(t, i, k).0
    case Rename(a, b) => RenameAlias(t, a, b).0
    case Remove(i) => Delete(t, i).0
    case Release(i, n) => Forget(t, i, n)
  }

  function Next(t: Table, op: Op): Option<Table> { Some(Apply(t, op)) }

  /** Every operation can be called at any time. */
  lemma {:induction false} AlwaysLegal(ops: seq<Op>, n: nat)
    requires n <= |ops|
    ensures Moment(Next, NewTable(), ops, n).Some?
  {
    if n > 0 { AlwaysLegal(ops, n - 1); }
  }

  /** A new table after the first n operations. */
  function At(ops: seq<Op>, n: nat): Table
    requires n <= |ops|
  {
    AlwaysLegal(ops, |ops|);
    StateAt(Next, NewTable(), ops, n)
  }

  lemma AtStep(ops: seq<Op>, n: nat)
    requires n < |ops|
    ensures At(ops, 0) == NewTable() && At(ops, n + 1) == Apply(At(ops, n), ops[n])
  {
    AlwaysLegal(ops, n);
    AlwaysLegal(ops, n + 1);
  }

  lemma ForgetKeeps(t: Table, inode: nat, count: nat)
    requires Inv(t)
    ensures Inv(Forget(t, inode, count))
    ensures Indexed(t) ==> Indexed(Forget(t, inode, count))
  {
  }

  predicate Breaks(t: Table, op: Op) { op.Remove? && DropsForeignIndex(t, op.inode) }

  /** Every operation keeps the invariant; the index stays complete exactly when no foreign entry is dropped. */
  lemma ApplyKeeps(t: Table, op: Op)
    requires Inv(t)
    ensures Inv(Apply(t, op))
    ensures Indexed(t) ==> (Indexed(Apply(t, op)) <==> !Breaks(t, op))
  {
    match op
    case Obtain(k, h) => InodeForKeeps(t, k, h);
    case Alias(i, k) => AddAliasKeeps(t, i, k);
    case Rename(a, b) => RenameKeeps(t, a, b);
    case Remove(i) => DeleteKeeps(t, i);
    case Release(i, n) => ForgetKeeps(t, i, n);
  }

  /** The invariant holds after any sequence of operations on a new table. */
  lemma RunInvariant(ops: seq<Op>, n: nat)
    requires n <= |ops|
    ensures Inv(At(ops, n))
  {
    AlwaysLegal(ops, |ops|);
    forall t, op | Inv(t) ensures Inv(Apply(t, op)) { ApplyKeeps(t, op); }
    AlwaysHolds(Next, NewTable(), Inv, ops, n);
  }

  /** No inode is deleted twice in the run. */
  predicate DeletesOnce(ops: seq<Op>) {
    forall i, j :: 0 <= i < j < |ops| && ops[i].Remove? && ops[j].Remove? ==> ops[i].inode != ops[j].inode
  }

  lemma DeletedBefore(t: Table, op: Op, inode: nat)
    requires Inv(t) && op != Remove(inode) && inode in Apply(t, op).byInode && Apply(t, op).byInode[inode].deleted
    ensures inode in t.byInode && t.byInode[inode].deleted
  {
  }

  /** A record is deleted only by a Remove of its number earlier in the run. */
  lemma {:induction false} DeletedWasRemoved(ops: seq<Op>, n: nat, inode: nat)
    requires n <= |ops| && inode in At(ops, n).byInode && At(ops, n).byInode[inode].deleted
    ensures exists i :: 0 <= i < n && ops[i] == Remove(inode)
  {
    if n > 0 {
      var before, op := At(ops, n - 1), ops[n - 1];
      AtStep(ops, n - 1);
      RunInvariant(ops, n - 1);
      if op != Remove(inode) {
        DeletedBefore(before, op, inode);
        DeletedWasRemoved(ops, n - 1, inode);
      }
    }
  }

  lemma NeverBreaks(ops: seq<Op>, n: nat)
    requires n < |ops| && DeletesOnce(ops)
    ensures !Breaks(At(ops, n), ops[n])
  {
    if Breaks(At(ops, n), ops[n]) { DeletedWasRemoved(ops, n, ops[n].inode); }
  }

  lemma IndexedStep(ops: seq<Op>, n: nat)
    requires n < |ops| && DeletesOnce(ops) && Indexed(At(ops, n))
    ensures Indexed(At(ops, n + 1))
  {
    RunInvariant(ops, n);
    AtStep(ops, n);
    NeverBreaks(ops, n);
    ApplyKeeps(At(ops, n), ops[n]);
  }

  /** With each inode deleted at most once, every live hardlinked inode stays indexed. */
  lemma {:induction false} RunIndexed(ops: seq<Op>, n: nat)
    requires n <= |ops| && DeletesOnce(ops)
    ensures Indexed(At(ops, n))
  {
    if n == 0 {
      assert At(ops, 0) == NewTable();
    } else {
      RunIndexed(ops, n - 1);
      IndexedStep(ops, n - 1);
    }
  }

  /** A second delete of inode 2 drops the index entry of inode 3, and the next name gets inode 4. */
  lemma DoubleDeleteSplitsHardlink(k2: NodeKey, k3: NodeKey, k4: NodeKey, h: HardlinkKey)
    requires k2 != ROOT_KEY && k3 != ROOT_KEY && k4 != ROOT_KEY && k2 != k3 && k3 != k4 && k2 != k4
    ensures var t := At([Obtain(k2, Some(h)), Remove(2), Obtain(k3, Some(h)), Remove(2)], 4);
            && Live(t, 3) && t.byInode[3].hardlink == Some(h) && !Indexed(t)
            && InodeFor(t, k4, Some(h)).1 == Ok(4)
  {
    var ops := [Obtain(k2, Some(h)), Remove(2), Obtain(k3, Some(h)), Remove(2)];
    AtStep(ops, 0);
    AtStep(ops, 1);
    AtStep(ops, 2);
    AtStep(ops, 3);
    var c := At(ops, 3);
    assert c.byInode[2].deleted && c.byInode[3] == Record(k3, Some(h), {k3}, false, 1) && c.byHardlink == map[h := 3];
    assert Live(At(ops, 4), 3);
  }

  lemma ApplyMonotone(t: Table, op: Op, i: nat)
    requires Inv(t) && i in t.byInode
    ensures t.next <= Apply(t, op).next
    ensures i in Apply(t, op).byInode && (t.byInode[i].deleted ==> Apply(t, op).byInode[i].deleted)
  {
  }

  /** Numbers are never recycled: what was once issued stays issued, and a deleted number stays deleted. */
  ghost predicate Kept(t: Table, u: Table) {
    && (Inv(t) ==> Inv(u) && t.next <= u.next)
    && forall i :: Inv(t) && i in t.byInode ==> i in u.byInode && (t.byInode[i].deleted ==> u.byInode[i].deleted)
  }

  lemma KeptStep(t: Table, u: Table, op: Op)
    requires Kept(t, u)
    ensures Kept(t, Apply(u, op))
  {
    if Inv(t) {
      ApplyKeeps(u, op);
      forall i | i in t.byInode
        ensures i in Apply(u, op).byInode && (t.byInode[i].deleted ==> Apply(u, op).byInode[i].deleted)
      {
        ApplyMonotone(u, op, i);
      }
      ApplyMonotone(u, op, ROOT_INODE);
    }
  }

  lemma Monotone(ops: seq<Op>, m: nat, n: nat)
    requires m <= n <= |ops|
    ensures Kept(At(ops, m), At(ops, n))
  {
    AlwaysLegal(ops, |ops|);
    forall t, u, op | Kept(t, u) ensures Kept(t, Apply(u, op)) { KeptStep(t, u, op); }
    AlwaysRelates(Next, NewTable(), Kept, ops, m, n);
  }

  /**
   Whatever happens after an inode is deleted, no lookup returns it again: the number returned
   is a live one, either already bound to this key or this hardlink, or brand new.
   */
  lemma DeletedNeverReturned(ops: seq<Op>, m: nat, n: nat, inode: nat, key: NodeKey, hardlink: Option<HardlinkKey>)
    requires m <= n <= |ops| && inode in At(ops, m).byInode && At(ops, m).byInode[inode].deleted
    ensures InodeFor(At(ops, n), key, hardlink).1 != Ok(inode)
  {
    RunInvariant(ops, m);
    Monotone(ops, m, n);
    LookupOutcomes(At(ops, n), key, hardlink);
  }

  /** In a reachable table neither the `deleted` nor the `Stale` branch of inode_for is taken. */
  lemma LookupOutcomes(t: Table, key: NodeKey, hardlink: Option<HardlinkKey>)
    requires Inv(t)
    ensures var (u, r) := InodeFor(t, key, hardlink);
            && (r.Ok? ==> Live(u, r.value) && u.byKey == t.byKey[key := r.value] && r.value < u.next)
            && (r.Err? ==> r == Err(Unavailable) && u == t && t.next == MAX_U64)
            && (key in t.byKey ==> r == Ok(t.byKey[key]))
            && (key !in t.byKey && r.Ok? && r.value < t.next ==>
                  hardlink.Some? && t.byInode[r.value].hardlink == hardlink)
  {
    if key in t.byKey { assert t.byKey[key := t.byKey[key]] == t.byKey; }
  }

  /** Which names the other operations bind and unbind, and when they refuse; every other name keeps its inode. */
  lemma AddAliasOutcome(t: Table, inode: nat, alias: NodeKey)
    requires Inv(t)
    ensures var (u, r) := AddAlias(t, inode, alias);
            && (r.Ok? <==> Live(t, inode) && (alias in t.byKey ==> t.byKey[alias] == inode))
            && (r.Ok? ==> u.byKey == t.byKey[alias := inode])
            && (r.Ok? ==> u.byInode[inode].aliases == t.byInode[inode].aliases + {alias})
            && (r.Err? ==> u == t && r.error == if Live(t, inode) then InvalidInput else NotFound)
  {
    var (u, r) := AddAlias(t, inode, alias);
    if r.Ok? && alias in t.byKey { assert t.byKey[alias := inode] == t.byKey; }
  }

  lemma RenameOutcome(t: Table, from: NodeKey, to: NodeKey)
    requires Inv(t)
    ensures var (u, r) := RenameAlias(t, from, to);
            && (r.Ok? <==> from in t.byKey && to !in t.byKey)
            && (r.Ok? ==> r.value == t.byKey[from] && u.byKey == (t.byKey - {from})[to := r.value])
            && (r.Ok? ==> u.byInode[r.value].aliases == t.byInode[r.value].aliases - {from} + {to})
            && (r.Err? ==> u == t && r.error == if to in t.byKey then InvalidInput else NotFound)
  {
  }

  lemma DeleteOutcome(t: Table, inode: nat)
    requires Inv(t)
    ensures var (u, r) := Delete(t, inode);
            && (r.Ok? <==> inode != ROOT_INODE && inode in t.byInode)
            && (r.Ok? ==> !Live(u, inode) && forall k :: k in u.byKey <==> k in t.byKey && t.byKey[k] != inode)
            && (forall k :: k in u.byKey ==> u.byKey[k] == t.byKey[k])
            && (forall i :: i in t.byInode && i != inode ==> i in u.byInode && u.byInode[i] == t.byInode[i])
            && (r.Err? ==> u == t && r.error == if inode == ROOT_INODE then InvalidInput else NotFound)
  {
  }

  /** How often the kernel knows an inode: each lookup that returns it counts one, forget takes back. */
  lemma LookupsCounted(t: Table, key: NodeKey, hardlink: Option<HardlinkKey>, inode: nat, count: nat)
    requires Inv(t) && inode in t.byInode && t.byInode[inode].lookups < MAX_U64
    ensures var (u, r) := InodeFor(t, key, hardlink);
            inode in u.byInode && u.byInode[inode].lookups == t.byInode[inode].lookups + if r == Ok(inode) then 1 else 0
    ensures var u := Forget(t, inode, count);
            && inode in u.byInode && u.byInode[inode].deleted == t.byInode[inode].deleted
            && u.byInode[inode].lookups ==
               if count <= t.byInode[inode].lookups then t.byInode[inode].lookups - count else 0
  {
    assert t.next !in t.byInode;
  }

  /** The canonical name of a live record is one of its names. */
  ghost predicate CanonicalNamed(t: Table) {
    forall i :: Live(t, i) ==> t.byInode[i].canonical in t.byInode[i].aliases
  }

  lemma ApplyCanonical(t: Table, op: Op)
    requires Inv(t) && CanonicalNamed(t)
    ensures CanonicalNamed(Apply(t, op))
  {
    assert t.next !in t.byInode;
  }

  lemma RunCanonical(ops: seq<Op>, n: nat)
    requires n <= |ops|
    ensures CanonicalNamed(At(ops, n))
  {
    AlwaysLegal(ops, |ops|);
    forall t, op | Inv(t) && CanonicalNamed(t) ensures Inv(Apply(t, op)) && CanonicalNamed(Apply(t, op)) {
      ApplyKeeps(t, op);
      ApplyCanonical(t, op);
    }
    AlwaysHolds(Next, NewTable(), t => Inv(t) && CanonicalNamed(t), ops, n);
  }

  /** Records only gain names: numbers, hardlink keys and deletions are as before. */
  ghost predicate Grows(t: Table, u: Table) {
    forall i :: i in t.byInode ==>
      && i in u.byInode && t.byInode[i].aliases <= u.byInode[i].aliases
      && u.byInode[i].deleted == t.byInode[i].deleted && u.byInode[i].hardlink == t.byInode[i].hardlink
  }

  /** A lookup only adds: at most one record, and one name for it. */
  lemma ObtainGrows(t: Table, key: NodeKey, hardlink: Option<HardlinkKey>)
    requires Inv(t)
    ensures var (u, r) := InodeFor(t, key, hardlink);
            && Grows(t, u)
            && (r.Err? ==> u == t)
            && (r.Ok? ==>
                  && u.byInode.Keys == t.byInode.Keys + {r.value} && !u.byInode[r.value].deleted
                  && key in u.byInode[r.value].aliases
                  && (key !in t.byKey ==> u.byInode[r.value].hardlink == hardlink))
  {
    assert t.next !in t.byInode;
  }

  // ----- the table object -----

  method Drain(keys: map<NodeKey, nat>, aliases: set<NodeKey>) returns (r: map<NodeKey, nat>)
    ensures r == keys - aliases
  {
    r := keys;
    var left := aliases;
    ghost var gone: set<NodeKey> := {};
    while left != {}
      invariant gone + left == aliases && r == keys - gone
      decreases |left|
    {
      var alias :| alias in left;
      r := r - {alias};
      left, gone := left - {alias}, gone + {alias};
    }
    assert gone == aliases;
  }

  class InodeTable {
    var byKey: map<NodeKey, nat>
    var byHardlink: map<HardlinkKey, nat>
    var byInode: map<nat, Record>
    var nextInode: nat

    ghost function Value(): Table
      reads this
    {
      Table(byKey, byHardlink, byInode, nextInode)
    }

    ghost predicate Valid()
      reads this
    {
      Inv(Value())
    }

    constructor ()
      ensures Valid() && Value() == NewTable()
    {
      byKey := map[ROOT_KEY := ROOT_INODE];
      byHardlink := map[];
      byInode := map[ROOT_INODE := Record(ROOT_KEY, None, {ROOT_KEY}, false, 1)];
      nextInode := ROOT_INODE + 1;
    }

    method Obtain(key: NodeKey, hardlink: Option<HardlinkKey>) returns (r: Result<nat, VfsError>)
      requires Valid()
      modifies this
      ensures Valid()
      ensures (Value(), r) == InodeFor(old(Value()), key, hardlink)
    {
      InodeForKeeps(Value(), key, hardlink);
      if key in byKey {
        var inode := byKey[key];
        if inode in byInode {
          var rec := byInode[inode];
          if rec.deleted { return Err(NotFound); }
          byInode := byInode[inode := rec.(lookups := SatAdd(rec.lookups))];
        }
        return Ok(inode);
      }
      if hardlink.Some? && hardlink.value in byHardlink {
        var inode := byHardlink[hardlink.value];
        if inode !in byInode { return Err(Stale); }
        var rec := byInode[inode];
        if !rec.deleted {
          byInode := byInode[inode := rec.(aliases := rec.aliases + {key}, lookups := SatAdd(rec.lookups))];
          byKey := byKey[key := inode];
          return Ok(inode);
        }
      }
      var inode := nextInode;
      if nextInode >= MAX_U64 { return Err(Unavailable); }
      nextInode := nextInode + 1;
      byKey := byKey[key := inode];
      if hardlink.Some? { byHardlink := byHardlink[hardlink.value := inode]; }
      byInode := byInode[inode := Record(key, hardlink, {key}, false, 1)];
      return Ok(inode);
    }

    method AddAliasTo(inode: nat, alias: NodeKey) returns (r: Result<(), VfsError>)
      requires Valid()
      modifies this
      ensures Valid()
      ensures (Value(), r) == AddAlias(old(Value()), inode, alias)
    {
      AddAliasKeeps(Value(), inode, alias);
      if inode !in byInode { return Err(NotFound); }
      var rec := byInode[inode];
      if rec.deleted { return Err(NotFound); }
      if alias in byKey {
        return if byKey[alias] == inode then Ok(()) else Err(InvalidInput);
      }
      byInode := byInode[inode := rec.(aliases := rec.aliases + {alias})];
      byKey := byKey[alias := inode];
      return Ok(());
    }

    method RenameAliasOf(from: NodeKey, to: NodeKey) returns (r: Result<nat, VfsError>)
      requires Valid()
      modifies this
      ensures Valid()
      ensures (Value(), r) == RenameAlias(old(Value()), from, to)
    {
      RenameKeeps(Value(), from, to);
      if to in byKey { return Err(InvalidInput); }
      if from !in byKey { return Err(NotFound); }
      var inode := byKey[from];
      byKey := byKey - {from};
      if inode !in byInode { return Err(Stale); }
      var rec := byInode[inode];
      rec := rec.(aliases := rec.aliases - {from} + {to});
      if rec.canonical == from { rec := rec.(canonical := to); }
      byInode := byInode[inode := rec];
      byKey := byKey[to := inode];
      return Ok(inode);
    }

    method DeleteInode(inode: nat) returns (r: Result<(), VfsError>)
      requires Valid()
      modifies this
      ensures Valid()
      ensures (Value(), r) == Delete(old(Value()), inode)
    {
      DeleteKeeps(Value(), inode);
      if inode == ROOT_INODE { return Err(InvalidInput); }
      if inode !in byInode { return Err(NotFound); }
      var rec := byInode[inode];
      byInode := byInode[inode := rec.(deleted := true, aliases := {})];
      byKey := Drain(byKey, rec.aliases);
      if rec.hardlink.Some? { byHardlink := byHardlink - {rec.hardlink.value}; }
      return Ok(());
    }

    method ForgetLookups(inode: nat, count: nat)
      requires Valid()
      modifies this
      ensures Valid()
      ensures Value() == Forget(old(Value()), inode, count)
    {
      ForgetKeeps(Value(), inode, count);
      if inode in byInode {
        var rec := byInode[inode];
        byInode := byInode[inode := rec.(lookups := if count <= rec.lookups then rec.lookups - count else 0)];
      }
    }
  }
}
