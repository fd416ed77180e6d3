/** The generation-tagged open-handle table (tuxstack-vfs/src/handle.rs). */
module Handles {
  import opened Common

  type HandleId = nat

  /** Shift-and-or of a 32-bit generation and a 32-bit index. */
  function Pack(index: nat, generation: nat): HandleId { generation * TWO_32 + index }

  function Unpack(id: HandleId): (nat, nat) { (id % TWO_32, id / TWO_32 % TWO_32) }

  lemma UnpackPack(index: nat, generation: nat)
    requires index < TWO_32 && generation < TWO_32
    ensures Unpack(Pack(index, generation)) == (index, generation)
  {
    assert Pack(index, generation) == generation * 0x1_0000_0000 + index;
  }

  /** A slot together with how often it has been emptied names one insertion. */
  datatype Issue = Issue(slot: nat, round: nat)

  /** The bookkeeping that the table's fields and its history must agree on. */
  ghost predicate Consistent<H(!new)>(slots: seq<Option<H>>, free: seq<nat>, generations: seq<nat>, len: nat,
                                      rounds: seq<nat>, issued: map<Issue, H>, max: nat)
  {
    && 0 < max < TWO_32 && |slots| <= max
    && |generations| == |slots| == |rounds| && len + |free| == |slots|
    && (forall i :: 0 <= i < |slots| ==> generations[i] == rounds[i] % TWO_32)
    && (forall k :: 0 <= k < |free| ==> free[k] < |slots| && slots[free[k]].None?)
    && (forall j, k :: 0 <= j < k < |free| ==> free[j] != free[k])
    && (forall s :: s in issued ==> s.slot < |slots| && s.round <= rounds[s.slot])
    && (forall i :: 0 <= i < |slots| ==>
          if slots[i].Some? then Issue(i, rounds[i]) in issued && issued[Issue(i, rounds[i])] == slots[i].value
          else Issue(i, rounds[i]) !in issued)
  }

  /** The ID handed out for an insertion. */
  function IdOf(s: Issue): HandleId { Pack(s.slot, s.round % TWO_32) }

  /** What the table answers for an ID. */
  function Find<H>(slots: seq<Option<H>>, generations: seq<nat>, id: HandleId): Result<H, VfsError> {
    var (index, generation) := Unpack(id);
    if index >= |generations| || generations[index] != generation then Err(BadHandle)
    else if index >= |slots| || slots[index].None? then Err(BadHandle)
    else Ok(slots[index].value)
  }

  /** Equal remainders of two counts less than 2^32 apart mean equal counts. */
  lemma SameRound(c: nat, r: nat)
    requires c <= r < c + TWO_32
    ensures c % TWO_32 == r % TWO_32 <==> c == r
  {
    assert r % 0x1_0000_0000 == c % 0x1_0000_0000 ==> (r - c) % 0x1_0000_0000 == 0;
  }

  /**
   An issued ID finds exactly the handle it was issued for while its slot has not been emptied
   since; after that it finds nothing, until the slot has been emptied a multiple of 2^32 times
   since and is in use again, when it finds the handle of that later insertion.
   */
  lemma IssuedIdMeaning<H(!new)>(slots: seq<Option<H>>, free: seq<nat>, generations: seq<nat>, len: nat,
                                 rounds: seq<nat>, issued: map<Issue, H>, max: nat, s: Issue)
    requires Consistent(slots, free, generations, len, rounds, issued, max) && s in issued
    ensures var now := rounds[s.slot];
            && (now == s.round && slots[s.slot].Some? ==> Find(slots, generations, IdOf(s)) == Ok(issued[s]))
            && (s.round < now < s.round + TWO_32 ==> Find(slots, generations, IdOf(s)) == Err(BadHandle))
            && (Find(slots, generations, IdOf(s)).Ok? <==> now % TWO_32 == s.round % TWO_32 && slots[s.slot].Some?)
            && (Find(slots, generations, IdOf(s)).Ok? ==>
                  Find(slots, generations, IdOf(s)) == Ok(issued[Issue(s.slot, now)]))
    ensures rounds[s.slot] == s.round ==> slots[s.slot].Some?
  {
    var now := rounds[s.slot];
    UnpackPack(s.slot, s.round % TWO_32);
    if now < s.round + TWO_32 { SameRound(s.round, now); }
  }

  /** Live IDs are distinct. */
  lemma LiveIdsDistinct<H(!new)>(slots: seq<Option<H>>, free: seq<nat>, generations: seq<nat>, len: nat,
                                 rounds: seq<nat>, issued: map<Issue, H>, max: nat, i: nat, j: nat)
    requires Consistent(slots, free, generations, len, rounds, issued, max)
    requires i < |slots| && j < |slots| && Pack(i, generations[i]) == Pack(j, generations[j])
    ensures i == j
  {
    UnpackPack(i, generations[i]);
    UnpackPack(j, generations[j]);
  }

  /** A handle in a slot just appended. */
  lemma AppendKeeps<H(!new)>(slots: seq<Option<H>>, generations: seq<nat>, len: nat,
                             rounds: seq<nat>, issued: map<Issue, H>, max: nat, handle: H)
    requires Consistent(slots, [], generations, len, rounds, issued, max) && len < max
    ensures Issue(|slots|, 0) !in issued
    ensures Consistent(slots + [Some(handle)], [], generations + [0], len + 1, rounds + [0],
                       issued[Issue(|slots|, 0) := handle], max)
  {
  }

  /** A handle in the slot vacated last. */
  lemma ReuseKeeps<H(!new)>(slots: seq<Option<H>>, free: seq<nat>, generations: seq<nat>, len: nat,
                            rounds: seq<nat>, issued: map<Issue, H>, max: nat, handle: H)
    requires Consistent(slots, free, generations, len, rounds, issued, max) && free != []
    ensures var index := free[|free| - 1];
            && index < |slots| && slots[index].None? && Issue(index, rounds[index]) !in issued
            && Consistent(slots[index := Some(handle)], free[..|free| - 1], generations, len + 1, rounds,
                          issued[Issue(index, rounds[index]) := handle], max)
  {
  }

  class OpenHandleTable<H(!new)> {
    /** The slab: entries and the stack of vacated indices, most recent last. */
    var slots: seq<Option<H>>
    var free: seq<nat>
    var len: nat
    var generations: seq<nat>
    const maxHandles: nat
    /** How often each slot has been emptied, and every insertion ever made. */
    ghost var rounds: seq<nat>
    ghost var issued: map<Issue, H>

    ghost predicate Valid()
      reads this
    {
      Consistent(slots, free, generations, len, rounds, issued, maxHandles)
    }

    constructor (max: nat)
      requires 0 < max < TWO_32
      ensures Valid() && maxHandles == max && issued == map[] && len == 0
    {
      slots, free, len, generations := [], [], 0, [];
      maxHandles := max;
      rounds, issued := [], map[];
    }

    /** Inserting keeps every live handle where it is and records a new issue. */
    method Insert(handle: H) returns (r: Result<HandleId, VfsError>)
      requires Valid()
      modifies this
      ensures Valid()
      ensures r.Err? <==> old(len) >= maxHandles
      ensures r.Err? ==>
                r.error == TooManyHandles && issued == old(issued) && slots == old(slots) && rounds == old(rounds)
      ensures r.Ok? ==> exists s :: s !in old(issued) && issued == old(issued)[s := handle] && r.value == IdOf(s)
                                    && s.slot < |slots| && rounds[s.slot] == s.round && len == old(len) + 1
      ensures |old(slots)| <= |slots|
      ensures forall i :: 0 <= i < |old(slots)| ==>
                rounds[i] == old(rounds)[i] && (old(slots)[i].Some? ==> slots[i] == old(slots)[i])
    {
      if len >= maxHandles { return Err(TooManyHandles); }
      var index;
      if free == [] {
        AppendKeeps(slots, generations, len, rounds, issued, maxHandles, handle);
        index := |slots|;
        slots := slots + [Some(handle)];
        rounds := rounds + [0];
      } else {
        ReuseKeeps(slots, free, generations, len, rounds, issued, maxHandles, handle);
        index := free[|free| - 1];
        free := free[..|free| - 1];
        slots := slots[index := Some(handle)];
      }
      len := len + 1;
      if index >= |generations| { generations := generations + [0]; }
      ghost var s := Issue(index, rounds[index]);
      issued := issued[s := handle];
      return Ok(Pack(index, generations[index]));
    }

    method Get(id: HandleId) returns (r: Result<H, VfsError>)
      requires Valid()
      ensures r == Find(slots, generations, id)
    {
      var (index, generation) := Unpack(id);
      if index >= |generations| || generations[index] != generation { return Err(BadHandle); }
      if slots[index].None? { return Err(BadHandle); }
      return Ok(slots[index].value);
    }

    /** Removing empties one slot, retires its ID and leaves every other live handle alone. */
    method Remove(id: HandleId) returns (r: Result<H, VfsError>)
      requires Valid()
      modifies this
      ensures Valid() && issued == old(issued) && |slots| == |old(slots)|
      ensures r == Find(old(slots), old(generations), id)
      ensures r.Err? ==> slots == old(slots) && rounds == old(rounds)
      ensures r.Ok? ==> var index := Unpack(id).0;
                        && index < |slots| && slots == old(slots)[index := None]
                        && rounds == old(rounds)[index := old(rounds)[index] + 1] && len + 1 == old(len)
    {
      var (index, generation) := Unpack(id);
      if index >= |generations| || generations[index] != generation || slots[index].None? { return Err(BadHandle); }
      var handle := slots[index].value;
      ghost var now := rounds[index];
      VacantNotListed(index);
      slots := slots[index := None];
      free := free + [index];
      len := len - 1;
      generations := generations[index := if generations[index] + 1 == TWO_32 then 0 else generations[index] + 1];
      rounds := rounds[index := rounds[index] + 1];
      NextRound(now);
      return Ok(handle);
    }

    lemma VacantNotListed(index: nat)
      requires Valid() && index < |slots| && slots[index].Some?
      ensures index !in free && len > 0
    {
      LiveCounted(slots, free, index);
    }
  }

  /** OpenHandleTable::new: the limit must fit the packed index. */
  method NewTable<H(!new)>(max: nat) returns (r: Result<OpenHandleTable<H>, VfsError>)
    ensures r.Ok? <==> 0 < max < TWO_32
    ensures r.Ok? ==> r.value.Valid() && r.value.maxHandles == max && r.value.len == 0
    ensures r.Err? ==> r.error == InvalidInput
  {
    if max == 0 || max >= TWO_32 { return Err(InvalidInput); }
    var table := new OpenHandleTable<H>(max);
    return Ok(table);
  }

  lemma NextRound(c: nat)
    ensures (c + 1) % TWO_32 == if c % TWO_32 + 1 == TWO_32 then 0 else c % TWO_32 + 1
  {
    assert (c + 1) % 0x1_0000_0000 == if c % 0x1_0000_0000 + 1 == 0x1_0000_0000 then 0 else c % 0x1_0000_0000 + 1;
  }

  /** Fewer free indices than slots when some slot is in use. */
  lemma LiveCounted<H(!new)>(slots: seq<Option<H>>, free: seq<nat>, index: nat)
    requires index < |slots| && slots[index].Some?
    requires forall k :: 0 <= k < |free| ==> free[k] < |slots| && slots[free[k]].None?
    requires forall j, k :: 0 <= j < k < |free| ==> free[j] != free[k]
    ensures index !in free && |free| < |slots|
  {
    DistinctSize(free);
    assert Elements(free) <= Below(|slots|) - {index};
    SubsetSize(Elements(free), Below(|slots|) - {index});
  }

  function Below(n: nat): (r: set<nat>)
    ensures |r| == n && forall x: nat :: x in r <==> x < n
  {
    if n == 0 then {} else Below(n - 1) + {n - 1}
  }

  function Elements(s: seq<nat>): (r: set<nat>)
    ensures forall x :: x in r <==> x in s
  {
    if s == [] then {} else Elements(s[..|s| - 1]) + {s[|s| - 1]}
  }

  lemma {:induction false} DistinctSize(s: seq<nat>)
    requires forall j, k :: 0 <= j < k < |s| ==> s[j] != s[k]
    ensures |Elements(s)| == |s|
  {
    if s != [] { DistinctSize(s[..|s| - 1]); }
  }
}
