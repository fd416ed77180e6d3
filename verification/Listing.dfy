/** One directory, listed page by page (tuxstack-fs-helper/src/list.rs). */
module Listing {
  import opened Common
  import opened Order
  import B = Base64

  /** What the container runtime and the helper itself put into the root directory. */
  const RUNTIME: set<Bytes> := {Ascii("proc"), Ascii("sys"), Ascii("dev"), Ascii("run"), Ascii(".tuxstack")}

  datatype Flags = Flags(isBrowseRoot: bool, showHidden: bool, limit: Option<nat>)

  /** Panics stands for the arithmetic underflow of `page_limit - 1`. */
  datatype ListError = InvalidCursor | Panics

  datatype Page = Page(names: seq<Bytes>, truncated: bool, nextCursor: Option<Bytes>)

  predicate Hidden(flags: Flags, name: Bytes) {
    || name == [DOT] || name == [DOT, DOT]
    || (flags.isBrowseRoot && name in RUNTIME)
    || (!flags.showHidden && name != [] && name[0] == DOT)
  }

  /** Shown on a page that continues after `cursor`. */
  predicate Shown(flags: Flags, cursor: Option<Bytes>, name: Bytes) {
    !Hidden(flags, name) && (cursor.Some? ==> !Leq(name, cursor.value))
  }

  function Keep(flags: Flags, cursor: Option<Bytes>): Bytes -> bool { (name: Bytes) => Shown(flags, cursor, name) }

  /** The visible names of a directory, in byte order. */
  function Names(flags: Flags, cursor: Option<Bytes>, items: seq<Bytes>): seq<Bytes> {
    Sort(Leq, Filter(Keep(flags, cursor), items))
  }

  /** One page of an already filtered and sorted list; `mark` writes the cursor. */
  function Cut(mark: Bytes -> Bytes, limit: Option<nat>, names: seq<Bytes>): Result<Page, ListError> {
    var size := if limit.Some? && limit.value < |names| then limit.value else |names|;
    if |names| > size && size == 0 then Err(Panics)
    else Ok(Page(names[..size], |names| > size, if |names| > size then Some(mark(names[size - 1])) else None))
  }

  /** The command: filter while reading, sort, then cut one page off the front. */
  method ListPage(flags: Flags, cursor: Option<Bytes>, items: seq<Bytes>) returns (r: Result<Page, ListError>)
    ensures cursor.Some? && B.Decode(cursor.value).Err? ==> r == Err(InvalidCursor)
    ensures cursor.Some? && B.Decode(cursor.value).Ok? ==>
              r == Cut(B.Encode, flags.limit, Names(flags, Some(B.Decode(cursor.value).value), items))
    ensures cursor.None? ==> r == Cut(B.Encode, flags.limit, Names(flags, None, items))
  {
    var raw: Option<Bytes> := None;
    if cursor.Some? {
      var decoded := B.DecodeBase64(cursor.value);
      if decoded.Err? { return Err(InvalidCursor); }
      raw := Some(decoded.value);
    }
    var names: seq<Bytes> := [];
    for i := 0 to |items|
      invariant names == Filter(Keep(flags, raw), items[..i])
    {
      TakeSnoc(items, i);
      if Shown(flags, raw, items[i]) { names := names + [items[i]]; }
    }
    TakeAll(items);
    r := Cut(B.Encode, flags.limit, Sort(Leq, names));
  }

  /** The page fails exactly for limit zero with something left to show. */
  lemma CutPanics(mark: Bytes -> Bytes, limit: Option<nat>, names: seq<Bytes>)
    ensures Cut(mark, limit, names).Err? <==> limit == Some(0) && names != []
  {
  }

  ghost predicate Distinct(s: seq<Bytes>) { forall i, j :: 0 <= i < j < |s| ==> s[i] != s[j] }

  /** Two readings of one directory: the same distinct names in any order. */
  ghost predicate SameDirectory(a: seq<Bytes>, b: seq<Bytes>) {
    Distinct(a) && Distinct(b) && forall x :: x in a <==> x in b
  }

  lemma NamesIncreasing(flags: Flags, cursor: Option<Bytes>, items: seq<Bytes>)
    requires Distinct(items)
    ensures Increasing(Names(flags, cursor, items))
    ensures forall x :: x in Names(flags, cursor, items) <==> x in items && Shown(flags, cursor, x)
  {
    FilterNoRepeats(Keep(flags, cursor), items);
    FilterMembers(Keep(flags, cursor), items);
    SortIncreasing(Filter(Keep(flags, cursor), items));
  }

  /** Continuing after the k-th name shows exactly the names after it, however the directory was read. */
  lemma ContinueAfter(flags: Flags, items: seq<Bytes>, again: seq<Bytes>, k: nat)
    requires SameDirectory(items, again)
    requires 0 < k <= |Names(flags, None, items)|
    ensures Names(flags, Some(Names(flags, None, items)[k - 1]), again) == Names(flags, None, items)[k..]
  {
    var all := Names(flags, None, items);
    var c := all[k - 1];
    NamesIncreasing(flags, None, items);
    NamesIncreasing(flags, Some(c), again);
    var rest := Names(flags, Some(c), again);
    forall x ensures x in rest <==> x in all[k..] {
      TailMembers(all, k, x);
    }
    IncreasingUnique(rest, all[k..]);
  }

  /** In an increasing list the members after position k are those above the k-th. */
  lemma TailMembers(s: seq<Bytes>, k: nat, x: Bytes)
    requires Increasing(s) && 0 < k <= |s|
    ensures x in s[k..] <==> x in s && !Leq(x, s[k - 1])
  {
    if x in s {
      var i :| 0 <= i < |s| && s[i] == x;
      if i < k {
        LeqTotal(x, x);
        assert Leq(x, s[k - 1]);
        assert forall j :: k <= j < |s| ==> s[i] != s[j];
      } else {
        if Leq(x, s[k - 1]) { LeqAntisymmetric(x, s[k - 1]); }
        assert s[k..][i - k] == x;
      }
    }
  }

  lemma FirstReading(flags: Flags, items: seq<Bytes>, again: seq<Bytes>)
    requires SameDirectory(items, again)
    ensures Names(flags, None, items) == Names(flags, None, again)
  {
    NamesIncreasing(flags, None, items);
    NamesIncreasing(flags, None, again);
    IncreasingUnique(Names(flags, None, items), Names(flags, None, again));
  }

  /** `names` are the first names of `all`, and the cursor marks the last of them. */
  ghost predicate Progress(mark: Bytes -> Bytes, all: seq<Bytes>, names: seq<Bytes>, cursor: Option<Bytes>) {
    && names <= all
    && if names == [] then cursor.None? else cursor == Some(mark(names[|names| - 1]))
  }

  /** A page cut after the names so far extends them; one without a cursor completes them. */
  lemma NextPage(mark: Bytes -> Bytes, limit: Option<nat>, all: seq<Bytes>, names: seq<Bytes>)
    requires limit != Some(0) && names <= all
    ensures Cut(mark, limit, all[|names|..]).Ok?
    ensures var page := Cut(mark, limit, all[|names|..]).value;
            && (page.nextCursor.Some? ==> page.names != [] && Progress(mark, all, names + page.names, page.nextCursor))
            && (page.nextCursor.None? ==> names + page.names == all)
            && (page.truncated <==> page.nextCursor.Some?)
            && |page.names| == (if limit.Some? && limit.value < |all| - |names| then limit.value else |all| - |names|)
  {
    var k := |names|;
    var page := Cut(mark, limit, all[k..]).value;
    var n := |page.names|;
    assert names == all[..k];
    assert page.names == all[k..][..n] && all[k..][..n] == all[k..k + n];
    assert names + page.names == all[..k + n];
    TakeAll(all);
  }

  /** One call of the command during such a traversal cuts the page after the names so far. */
  method Continue(flags: Flags, items: seq<Bytes>, ghost dir: seq<Bytes>, names: seq<Bytes>, cursor: Option<Bytes>)
    returns (page: Page)
    requires flags.limit != Some(0) && SameDirectory(dir, items)
    requires Progress(B.Encode, Names(flags, None, dir), names, cursor)
    ensures Cut(B.Encode, flags.limit, Names(flags, None, dir)[|names|..]) == Ok(page)
  {
    ghost var all, k := Names(flags, None, dir), |names|;
    if cursor.Some? {
      assert names[k - 1] == all[k - 1];
      B.RoundTrip(all[k - 1]);
      ContinueAfter(flags, dir, items, k);
    } else {
      FirstReading(flags, dir, items);
      TakeAll(all);
    }
    var r := ListPage(flags, cursor, items);
    CutPanics(B.Encode, flags.limit, all[k..]);
    page := r.value;
  }

  /**
   A client that follows next_cursor over an unchanged directory: it stops, and the pages it
   got are together the sorted visible names, each exactly once. `reading(n)` is the order in
   which the n-th call happens to see the directory.
   */
  method ListAll(flags: Flags, dir: seq<Bytes>, reading: nat -> seq<Bytes>) returns (names: seq<Bytes>)
    requires flags.limit != Some(0)
    requires forall n :: SameDirectory(dir, reading(n))
    ensures names == Names(flags, None, dir) && Increasing(names)
    ensures forall x :: x in names <==>
              && x in dir && x != [DOT] && x != [DOT, DOT]
              && (flags.showHidden || !([DOT] <= x))
              && (flags.isBrowseRoot ==>
                    x !in {Ascii("proc"), Ascii("sys"), Ascii("dev"), Ascii("run"), Ascii(".tuxstack")})
  {
    ghost var all := Names(flags, None, dir);
    assert SameDirectory(dir, reading(0));
    NamesIncreasing(flags, None, dir);
    names := [];
    var cursor: Option<Bytes> := None;
    var calls := 0;
    while true
      invariant Progress(B.Encode, all, names, cursor)
      decreases |all| - |names|
    {
      assert SameDirectory(dir, reading(calls));
      var page := Continue(flags, reading(calls), dir, names, cursor);
      NextPage(B.Encode, flags.limit, all, names);
      names := names + page.names;
      cursor := page.nextCursor;
      calls := calls + 1;
      if cursor.None? { break; }
    }
  }
}
