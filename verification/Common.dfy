/** Value types shared by every component model. */
module Common {

  /** Raw bytes: file names, paths, tokens and messages are byte strings, not text. */
  type byte = bv8
  type Bytes = seq<byte>

  datatype Option<+T> = None | Some(value: T)

  /** The Ok/Err result of a fallible operation of the original. */
  datatype Result<+T, +E> = Ok(value: T) | Err(error: E)

  /** VfsError, without the human-readable messages. */
  datatype VfsError =
    | NotFound
    | NotDirectory
    | IsDirectory
    | SpecialFile
    | ReadOnly
    | InvalidInput
    | NameTooLong
    | PathTooLong
    | InvalidEncoding
    | TooManyHandles
    | BadHandle
    | Stale
    | SymlinkLoop
    | SymlinkEscape
    | Unavailable
    | Io

  /** The bytes of an ASCII string. */
  function Ascii(s: string): Bytes { seq(|s|, i requires 0 <= i < |s| => AsciiByte(s[i])) }

  function AsciiByte(c: char): byte { if c < 128 as char then c as int as byte else 0x3F }

  const SLASH: byte := 0x2F
  const DOT: byte := 0x2E
  const PERCENT: byte := 0x25

  const TWO_32: nat := 0x1_0000_0000
  const TWO_64: nat := 0x1_0000_0000_0000_0000

  /** The value kept by a wrapping 64-bit counter. */
  function Wrap64(n: nat): (r: nat)
    ensures r < TWO_64
    ensures n < TWO_64 ==> r == n
  {
    n % 0x1_0000_0000_0000_0000
  }

  lemma WrapAdd(a: nat, b: nat)
    ensures Wrap64(Wrap64(a) + b) == Wrap64(a + b)
  {
  }

  lemma WrapTimes8(a: nat)
    ensures Wrap64(8 * Wrap64(a)) == Wrap64(8 * a)
  {
  }

  lemma DropDrop<T>(s: seq<T>, a: nat, b: nat)
    requires a + b <= |s|
    ensures s[a..][b..] == s[a + b..]
  {
  }

  lemma TakeSnoc<T>(s: seq<T>, i: nat)
    requires i < |s|
    ensures s[..i + 1] == s[..i] + [s[i]]
  {
  }

  lemma TakeAll<T>(s: seq<T>)
    ensures s[..|s|] == s && s[0..] == s
  {
  }

  lemma HeadTail<T>(s: seq<T>)
    requires s != []
    ensures s == [s[0]] + s[1..]
  {
  }

  lemma SliceDrop<T>(s: seq<T>, a: nat, b: nat)
    requires a <= b <= |s|
    ensures s[..b][a..] == s[a..][..b - a] && s[..b][..a] == s[..a]
  {
  }

  lemma SplitAt<T>(s: seq<T>, a: nat)
    requires a <= |s|
    ensures s == s[..a] + s[a..]
  {
  }

  lemma ThreeParts<T>(s: seq<T>, lo: nat, hi: nat)
    requires lo <= hi <= |s|
    ensures s == s[..lo] + s[lo..hi] + s[hi..]
  {
    SplitAt(s, hi);
    SplitAt(s[..hi], lo);
    SliceDrop(s, lo, hi);
  }

  lemma Concat3<T>(a: seq<T>, b: seq<T>, c: seq<T>)
    ensures a + (b + c) == a + b + c
  {
  }

  lemma FrontOfConcat<T>(a: seq<T>, b: seq<T>)
    requires b != []
    ensures (a + b)[..|a + b| - 1] == a + b[..|b| - 1] && (a + b)[|a + b| - 1] == b[|b| - 1]
  {
  }

  lemma UpdateLast<T>(a: seq<T>, b: seq<T>, x: T)
    requires b != []
    ensures (a + b)[|a + b| - 1 := x] == a + b[|b| - 1 := x]
  {
  }

  lemma Concat4<T>(a: seq<T>, b: seq<T>, c: seq<T>, d: seq<T>)
    ensures a + b + c + d == a + (b + c + d)
  {
  }

  /** Concatenation of a list of chunks, in order. */
  function Flatten<T>(chunks: seq<seq<T>>): seq<T> {
    if chunks == [] then [] else chunks[0] + Flatten(chunks[1..])
  }

  lemma {:induction false} FlattenSnoc<T>(chunks: seq<seq<T>>, last: seq<T>)
    ensures Flatten(chunks + [last]) == Flatten(chunks) + last
  {
    if chunks == [] {
      assert [] + [last] == [last];
      assert [last][1..] == [];
    } else {
      FlattenSnoc(chunks[1..], last);
      assert (chunks + [last])[1..] == chunks[1..] + [last];
    }
  }

  lemma {:induction false} SubsetSize<T>(a: set<T>, b: set<T>)
    requires a <= b
    ensures |a| <= |b|
  {
    if a != {} {
      var x :| x in a;
      SubsetSize(a - {x}, b - {x});
    }
  }

  /** Output already produced, in front of the result of the rest. */
  function Prepend<E>(head: Bytes, r: Result<Bytes, E>): Result<Bytes, E> {
    match r
    case Ok(rest) => Ok(head + rest)
    case Err(e) => Err(e)
  }

  lemma PrependLaws<E>(a: Bytes, b: Bytes, r: Result<Bytes, E>)
    ensures Prepend([], r) == r
    ensures Prepend(a, Prepend(b, r)) == Prepend(a + b, r)
  {
    if r.Ok? {
      Concat3(a, b, r.value);
      assert [] + r.value == r.value;
    }
  }
}
