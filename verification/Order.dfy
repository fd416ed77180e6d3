/** Byte-string order and stable sorting, the order used for names, mounts and directory entries. */
module Order {
  import opened Common

  /** Lexicographic order on byte strings, a proper prefix coming first. */
  predicate Leq(a: Bytes, b: Bytes) {
    a == [] || (b != [] && (a[0] < b[0] || (a[0] == b[0] && Leq(a[1..], b[1..]))))
  }

  lemma {:induction false} LeqTotal(a: Bytes, b: Bytes)
    ensures Leq(a, b) || Leq(b, a)
  {
    if a != [] && b != [] && a[0] == b[0] { LeqTotal(a[1..], b[1..]); }
  }

  lemma {:induction false} LeqTransitive(a: Bytes, b: Bytes, c: Bytes)
    requires Leq(a, b) && Leq(b, c)
    ensures Leq(a, c)
  {
    if a != [] && a[0] == b[0] && b[0] == c[0] { LeqTransitive(a[1..], b[1..], c[1..]); }
  }

  lemma {:induction false} LeqAntisymmetric(a: Bytes, b: Bytes)
    requires Leq(a, b) && Leq(b, a)
    ensures a == b
  {
    if a != [] {
      LeqAntisymmetric(a[1..], b[1..]);
      assert a == [a[0]] + a[1..] && b == [b[0]] + b[1..];
    }
  }

  /** Dictionary order: the shorter comes first where one starts with the other, else the first difference decides. */
  lemma {:induction false} LeqIsDictionaryOrder(a: Bytes, b: Bytes)
    ensures a <= b ==> Leq(a, b)
    ensures b < a ==> !Leq(a, b)
    ensures forall i :: 0 <= i < |a| && i < |b| && a[..i] == b[..i] && a[i] != b[i] ==> (Leq(a, b) <==> a[i] < b[i])
  {
    if a != [] && b != [] {
      LeqIsDictionaryOrder(a[1..], b[1..]);
      if a <= b { assert a[1..] <= b[1..]; }
      if b < a { assert b[1..] < a[1..]; }
      forall i | 0 <= i < |a| && i < |b| && a[..i] == b[..i] && a[i] != b[i] ensures Leq(a, b) <==> a[i] < b[i] {
        if i > 0 {
          assert a[..i][0] == b[..i][0] && a[1..][..i - 1] == a[..i][1..] && b[1..][..i - 1] == b[..i][1..];
          assert a[1..][i - 1] == a[i] && b[1..][i - 1] == b[i];
        }
      }
    }
  }

  // ----- stable sorting by a total preorder -----

  ghost predicate TotalPreorder<T(!new)>(leq: (T, T) -> bool) {
    && (forall x, y :: leq(x, y) || leq(y, x))
    && (forall x, y, z :: leq(x, y) && leq(y, z) ==> leq(x, z))
  }

  predicate SortedBy<T>(leq: (T, T) -> bool, s: seq<T>) {
    forall i, j :: 0 <= i < j < |s| ==> leq(s[i], s[j])
  }

  /** Inserts after every element that is not above `x`. */
  function Insert<T>(leq: (T, T) -> bool, x: T, s: seq<T>): seq<T> {
    if s == [] then [x]
    else if leq(s[|s| - 1], x) then s + [x]
    else Insert(leq, x, s[..|s| - 1]) + [s[|s| - 1]]
  }

  function Sort<T>(leq: (T, T) -> bool, s: seq<T>): seq<T> {
    if s == [] then [] else Insert(leq, s[|s| - 1], Sort(leq, s[..|s| - 1]))
  }

  lemma {:induction false} InsertMultiset<T>(leq: (T, T) -> bool, x: T, s: seq<T>)
    ensures multiset(Insert(leq, x, s)) == multiset(s) + multiset{x}
  {
    if s != [] {
      assert s == s[..|s| - 1] + [s[|s| - 1]];
      InsertMultiset(leq, x, s[..|s| - 1]);
    }
  }

  lemma {:induction false} InsertSorted<T(!new)>(leq: (T, T) -> bool, x: T, s: seq<T>)
    requires TotalPreorder(leq) && SortedBy(leq, s)
    ensures SortedBy(leq, Insert(leq, x, s))
  {
    if s != [] && !leq(s[|s| - 1], x) {
      var front, last := s[..|s| - 1], s[|s| - 1];
      InsertSorted(leq, x, front);
      InsertMultiset(leq, x, front);
      var r := Insert(leq, x, front);
      forall i | 0 <= i < |r| ensures leq(r[i], last) {
        assert r[i] in multiset(r);
        assert r[i] in multiset(front) || r[i] == x;
        if r[i] in front { var k :| 0 <= k < |front| && front[k] == r[i]; }
      }
    }
  }

  lemma {:induction false} SortSorts<T(!new)>(leq: (T, T) -> bool, s: seq<T>)
    requires TotalPreorder(leq)
    ensures SortedBy(leq, Sort(leq, s)) && multiset(Sort(leq, s)) == multiset(s)
  {
    if s != [] {
      assert s == s[..|s| - 1] + [s[|s| - 1]];
      SortSorts(leq, s[..|s| - 1]);
      InsertSorted(leq, s[|s| - 1], Sort(leq, s[..|s| - 1]));
      InsertMultiset(leq, s[|s| - 1], Sort(leq, s[..|s| - 1]));
    }
  }

  lemma SortMembers<T(!new)>(leq: (T, T) -> bool, s: seq<T>)
    requires TotalPreorder(leq)
    ensures forall x :: x in Sort(leq, s) <==> x in s
  {
    SortSorts(leq, s);
    forall x ensures x in Sort(leq, s) <==> x in s {
      assert x in Sort(leq, s) <==> x in multiset(Sort(leq, s));
      assert x in s <==> x in multiset(s);
    }
  }

  function Filter<T>(keep: T -> bool, s: seq<T>): seq<T> {
    if s == [] then []
    else if keep(s[|s| - 1]) then Filter(keep, s[..|s| - 1]) + [s[|s| - 1]]
    else Filter(keep, s[..|s| - 1])
  }

  lemma {:induction false} FilterMembers<T>(keep: T -> bool, s: seq<T>)
    ensures forall x :: x in Filter(keep, s) <==> x in s && keep(x)
  {
    if s != [] { FilterMembers(keep, s[..|s| - 1]); }
  }

  lemma {:induction false} FilterNone<T>(keep: T -> bool, s: seq<T>)
    requires forall i :: 0 <= i < |s| ==> !keep(s[i])
    ensures Filter(keep, s) == []
  {
    if s != [] { FilterNone(keep, s[..|s| - 1]); }
  }

  /** The first kept element is the first element of the filtered list. */
  lemma {:induction false} FilterFirst<T>(keep: T -> bool, s: seq<T>, k: nat)
    requires k < |s| && keep(s[k]) && forall i :: 0 <= i < k ==> !keep(s[i])
    ensures Filter(keep, s) != [] && Filter(keep, s)[0] == s[k]
  {
    if k == |s| - 1 {
      FilterNone(keep, s[..k]);
    } else {
      FilterFirst(keep, s[..|s| - 1], k);
    }
  }

  lemma {:induction false} InsertStable<T>(leq: (T, T) -> bool, keep: T -> bool, x: T, s: seq<T>)
    requires forall y :: y in s && keep(y) && keep(x) ==> leq(y, x)
    ensures Filter(keep, Insert(leq, x, s)) == Filter(keep, s + [x])
  {
    assert (s + [x])[..|s|] == s;
    if s == [] {
      assert s + [x] == [x];
    } else if !leq(s[|s| - 1], x) {
      var front, last := s[..|s| - 1], s[|s| - 1];
      InsertStable(leq, keep, x, front);
      assert (front + [x])[..|front|] == front;
      var r := Insert(leq, x, front);
      assert (r + [last])[..|r|] == r;
      assert last in s;
    }
  }

  /** Elements that compare equal keep their input order. */
  lemma {:induction false} SortStable<T(!new)>(leq: (T, T) -> bool, keep: T -> bool, s: seq<T>)
    requires TotalPreorder(leq)
    requires forall x, y :: x in s && y in s && keep(x) && keep(y) ==> leq(x, y)
    ensures Filter(keep, Sort(leq, s)) == Filter(keep, s)
  {
    if s != [] {
      var front, last := s[..|s| - 1], s[|s| - 1];
      SortStable(leq, keep, front);
      SortMembers(leq, front);
      InsertStable(leq, keep, last, Sort(leq, front));
      var sorted := Sort(leq, front);
      assert (sorted + [last])[..|sorted|] == sorted;
    }
  }

  // ----- strictly increasing lists -----

  predicate IncreasingBy<T(==)>(leq: (T, T) -> bool, s: seq<T>) {
    forall i, j :: 0 <= i < j < |s| ==> leq(s[i], s[j]) && s[i] != s[j]
  }

  predicate Increasing(s: seq<Bytes>) { IncreasingBy(Leq, s) }

  ghost predicate Antisymmetric<T(!new)>(leq: (T, T) -> bool) {
    forall x, y :: leq(x, y) && leq(y, x) ==> x == y
  }

  lemma FrontMembers<T>(leq: (T, T) -> bool, s: seq<T>, x: T)
    requires s != [] && IncreasingBy(leq, s)
    ensures x in s[..|s| - 1] <==> x in s && x != s[|s| - 1]
  {
    if x in s && x != s[|s| - 1] {
      var k :| 0 <= k < |s| && s[k] == x;
      assert s[..|s| - 1][k] == x;
    }
  }

  /** Increasing lists of the same members end alike. */
  lemma SameLast<T(!new)>(leq: (T, T) -> bool, s: seq<T>, t: seq<T>)
    requires IncreasingBy(leq, s) && IncreasingBy(leq, t) && Antisymmetric(leq) && s != [] && t != []
    requires s[|s| - 1] in t && t[|t| - 1] in s
    ensures s[|s| - 1] == t[|t| - 1]
  {
    var i :| 0 <= i < |t| && t[i] == s[|s| - 1];
    var j :| 0 <= j < |s| && s[j] == t[|t| - 1];
  }

  lemma {:induction false} IncreasingByUnique<T(!new)>(leq: (T, T) -> bool, s: seq<T>, t: seq<T>)
    requires IncreasingBy(leq, s) && IncreasingBy(leq, t) && Antisymmetric(leq)
    requires forall x :: x in s <==> x in t
    ensures s == t
  {
    assert t != [] ==> t[0] in t;
    assert s != [] ==> s[0] in s;
    if s != [] {
      var u, v := s[..|s| - 1], t[..|t| - 1];
      assert s[|s| - 1] in s && t[|t| - 1] in t;
      SameLast(leq, s, t);
      forall x ensures x in u <==> x in v {
        FrontMembers(leq, s, x);
        FrontMembers(leq, t, x);
      }
      IncreasingByUnique(leq, u, v);
      assert s == u + [s[|s| - 1]] && t == v + [t[|t| - 1]];
    }
  }

  /** An increasing list is determined by its members. */
  lemma IncreasingUnique(s: seq<Bytes>, t: seq<Bytes>)
    requires Increasing(s) && Increasing(t) && forall x :: x in s <==> x in t
    ensures s == t
  {
    forall x, y | Leq(x, y) && Leq(y, x) ensures x == y { LeqAntisymmetric(x, y); }
    IncreasingByUnique(Leq, s, t);
  }

  /** Sorting a list without repeats gives an increasing list of the same members. */
  lemma SortIncreasing(s: seq<Bytes>)
    requires forall i, j :: 0 <= i < j < |s| ==> s[i] != s[j]
    ensures Increasing(Sort(Leq, s)) && forall x :: x in Sort(Leq, s) <==> x in s
  {
    LeqPreorder();
    SortSorts(Leq, s);
    SortMembers(Leq, s);
    var t := Sort(Leq, s);
    forall i, j | 0 <= i < j < |t| ensures t[i] != t[j] {
      if t[i] == t[j] {
        Repeats(t, i, j);
        OnlyOnce(s, t[i]);
      }
    }
  }

  lemma {:induction false} OnlyOnce<T>(s: seq<T>, x: T)
    requires forall i, j :: 0 <= i < j < |s| ==> s[i] != s[j]
    ensures multiset(s)[x] <= 1
  {
    if s != [] {
      OnlyOnce(s[..|s| - 1], x);
      assert s == s[..|s| - 1] + [s[|s| - 1]];
      if s[|s| - 1] == x { assert x !in s[..|s| - 1]; }
    }
  }

  lemma {:induction false} FilterNoRepeats<T>(keep: T -> bool, s: seq<T>)
    requires forall i, j :: 0 <= i < j < |s| ==> s[i] != s[j]
    ensures forall i, j :: 0 <= i < j < |Filter(keep, s)| ==> Filter(keep, s)[i] != Filter(keep, s)[j]
  {
    if s != [] {
      FilterNoRepeats(keep, s[..|s| - 1]);
      FilterMembers(keep, s[..|s| - 1]);
      assert s[|s| - 1] !in s[..|s| - 1];
    }
  }

  /** An element at two places counts twice. */
  lemma Repeats<T>(s: seq<T>, i: nat, j: nat)
    requires i < j < |s| && s[i] == s[j]
    ensures multiset(s)[s[i]] >= 2
  {
    assert s == s[..i] + [s[i]] + s[i + 1..j] + [s[j]] + s[j + 1..];
  }

  lemma LeqPreorder()
    ensures TotalPreorder(Leq)
  {
    forall x, y ensures Leq(x, y) || Leq(y, x) { LeqTotal(x, y); }
    forall x, y, z | Leq(x, y) && Leq(y, z) ensures Leq(x, z) { LeqTransitive(x, y, z); }
  }
}
