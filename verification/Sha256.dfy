/** The helper's hand-written streaming SHA-256 (tuxstack-fs-helper/src/hash.rs). */
module StreamingSha256 {
  import opened Common
  import opened Fips180

  /** The machine rotations of the code are the ROTR combinations of the standard. */
  lemma RotationsAreSigmas(x: bv32)
    ensures x.RotateRight(2) ^ x.RotateRight(13) ^ x.RotateRight(22) == BigSigma0(x)
    ensures x.RotateRight(6) ^ x.RotateRight(11) ^ x.RotateRight(25) == BigSigma1(x)
    ensures x.RotateRight(7) ^ x.RotateRight(18) ^ (x >> 3) == SmallSigma0(x)
    ensures x.RotateRight(17) ^ x.RotateRight(19) ^ (x >> 10) == SmallSigma1(x)
  {
  }

  /** The code adds the four schedule terms in the opposite order. */
  lemma Add4Reversed(a: bv32, b: bv32, c: bv32, d: bv32)
    ensures Add4(a, b, c, d) == Add4(d, c, b, a)
  {
  }

  method ScheduleWord(w16: bv32, w15: bv32, w7: bv32, w2: bv32) returns (r: bv32)
    ensures r == NextWord(w2, w7, w15, w16)
  {
    RotationsAreSigmas(w15);
    RotationsAreSigmas(w2);
    var s0 := w15.RotateRight(7) ^ w15.RotateRight(18) ^ (w15 >> 3);
    var s1 := w2.RotateRight(17) ^ w2.RotateRight(19) ^ (w2 >> 10);
    Add4Reversed(w16, s0, w7, s1);
    r := Add4(w16, s0, w7, s1);
  }

  /** Words 16 to 63, each from four earlier ones. */
  method Expand(ghost block: Bytes, w: array<bv32>)
    requires |block| == 64 && w.Length == 64 && forall t :: 0 <= t < 16 ==> w[t] == W(block, t)
    modifies w
    ensures forall t :: 0 <= t < 64 ==> w[t] == W(block, t)
  {
    for i := 16 to 64
      invariant forall t :: 0 <= t < i ==> w[t] == W(block, t)
    {
      var next := ScheduleWord(w[i - 16], w[i - 15], w[i - 7], w[i - 2]);
      assert next == W(block, i);
      w[i] := next;
    }
  }

  /** Words 0..63 of the message schedule of `block`. */
  method Schedule(block: Bytes) returns (w: array<bv32>)
    requires |block| == 64
    ensures fresh(w) && w.Length == 64
    ensures forall t :: 0 <= t < 64 ==> w[t] == W(block, t)
  {
    w := new bv32[64](_ => 0);
    for i := 0 to 16
      invariant forall t :: 0 <= t < i ==> w[t] == W(block, t)
    {
      w[i] := BlockWord(block, i);
    }
    Expand(block, w);
  }

  method FirstTemporary(v: Vars, k: bv32, w: bv32) returns (t1: bv32)
    ensures t1 == T1(v, k, w)
  {
    RotationsAreSigmas(v.e);
    var s1 := v.e.RotateRight(6) ^ v.e.RotateRight(11) ^ v.e.RotateRight(25);
    var ch := (v.e & v.f) ^ ((!v.e) & v.g);
    t1 := Add5(v.h, s1, ch, k, w);
  }

  method SecondTemporary(v: Vars) returns (t2: bv32)
    ensures t2 == T2(v)
  {
    RotationsAreSigmas(v.a);
    var s0 := v.a.RotateRight(2) ^ v.a.RotateRight(13) ^ v.a.RotateRight(22);
    var maj := (v.a & v.b) ^ (v.a & v.c) ^ (v.b & v.c);
    t2 := Add(s0, maj);
  }

  /** The body of the round loop, on the eight local variables. */
  method RoundStep(v: Vars, k: bv32, w: bv32) returns (r: Vars)
    ensures r == Round(v, k, w)
  {
    var Vars(a, b, c, d, e, f, g, h) := v;
    var t1 := FirstTemporary(v, k, w);
    var t2 := SecondTemporary(v);
    h := g;
    g := f;
    f := e;
    e := Add(d, t1);
    d := c;
    c := b;
    b := a;
    a := Add(t1, t2);
    r := Vars(a, b, c, d, e, f, g, h);
  }

  /** The 64 rounds on local copies of the hash words. */
  method RunRounds(start: Vars, ghost block: Bytes, w: array<bv32>) returns (v: Vars)
    requires |block| == 64 && w.Length == 64
    requires forall t :: 0 <= t < 64 ==> w[t] == W(block, t)
    ensures v == Rounds(start, block, 64)
  {
    v := start;
    for i := 0 to 64
      invariant v == Rounds(start, block, i)
    {
      v := RoundStep(v, K(i), w[i]);
    }
  }

  class Sha256Hasher {
    /** The eight hash words. */
    var state: Vars
    const buffer: array<byte>
    var bufferLen: nat
    var total: nat
    /** The whole blocks compressed into `state` so far. */
    ghost var blocks: Bytes

    ghost predicate StateAbsorbed()
      reads this
    {
      |blocks| % 64 == 0 && state == HashBlocks(blocks)
    }

    ghost predicate Buffering()
      reads this, buffer
    {
      StateAbsorbed() && buffer.Length == 64 && bufferLen < 64
    }

    /** Every byte given to Update so far. */
    ghost function Message(): Bytes
      requires buffer.Length == 64 && bufferLen <= 64
      reads this, buffer
    {
      blocks + buffer[..bufferLen]
    }

    ghost predicate Valid()
      reads this, buffer
    {
      Buffering() && total == Wrap64(|Message()|)
    }

    constructor ()
      ensures Valid() && fresh(buffer)
      ensures Message() == []
    {
      state := Vars(0x6a09e667, 0xbb67ae85, 0x3c6ef372, 0xa54ff53a,
                    0x510e527f, 0x9b05688c, 0x1f83d9ab, 0x5be0cd19);
      buffer := new byte[64](_ => 0);
      bufferLen := 0;
      total := 0;
      blocks := [];
    }

    /** Appends `data` to the message, wherever the cut falls inside a block. */
    method Update(data: Bytes)
      requires Valid()
      modifies this, buffer
      ensures Valid()
      ensures Message() == old(Message()) + data
    {
      ghost var all := Message() + data;
      WrapAdd(|Message()|, |data|);
      total := Wrap64(total + |data|);
      assert total == Wrap64(|all|);
      var rest := data;
      if bufferLen > 0 {
        rest := FillBuffer(data, all);
      }
      rest := AbsorbBlocks(rest, all);
      if rest != [] {
        Keep(rest, all);
      }
    }

    method CopyAt(at: nat, data: Bytes)
      requires at + |data| <= buffer.Length
      modifies buffer
      ensures buffer[..at + |data|] == old(buffer[..at]) + data
    {
      forall i | 0 <= i < |data| { buffer[at + i] := data[i]; }
    }

    /** Leaves the last, partial block in the buffer. */
    method Keep(rest: Bytes, ghost all: Bytes)
      requires Buffering() && bufferLen == 0 && |rest| < 64
      requires all == Message() + rest
      modifies this`bufferLen, buffer
      ensures Buffering() && Message() == all
    {
      assert all == blocks + rest;
      CopyAt(0, rest);
      bufferLen := |rest|;
    }

    /** Copies as much of `data` as the buffer has room for. */
    method TopUp(data: Bytes, ghost all: Bytes) returns (rest: Bytes)
      requires buffer.Length == 64 && bufferLen < 64 && all == Message() + data
      modifies this`bufferLen, buffer
      ensures bufferLen <= 64 && all == Message() + rest && (rest != [] ==> bufferLen == 64)
    {
      var space := 64 - bufferLen;
      var take := if space <= |data| then space else |data|;
      CopyAt(bufferLen, data[..take]);
      bufferLen := bufferLen + take;
      rest := data[take..];
      SplitAt(data, take);
      Concat4(blocks, old(buffer[..bufferLen]), data[..take], rest);
      Concat3(blocks, old(buffer[..bufferLen]), data[..take]);
    }

    /** Tops up a partly filled buffer and compresses it once it is full. */
    method FillBuffer(data: Bytes, ghost all: Bytes) returns (rest: Bytes)
      requires Buffering() && bufferLen > 0 && all == Message() + data
      modifies this`bufferLen, this`blocks, this`state, buffer
      ensures Buffering()
      ensures all == Message() + rest
      ensures rest != [] ==> bufferLen == 0
    {
      rest := TopUp(data, all);
      if bufferLen == 64 {
        assert buffer[..] == buffer[..64];
        AbsorbBlock(buffer[..]);
        bufferLen := 0;
      }
    }

    /** Compresses the whole blocks at the front of `data`; `all` is the message with `data`. */
    method AbsorbBlocks(data: Bytes, ghost all: Bytes) returns (rest: Bytes)
      requires Buffering() && all == Message() + data
      requires data != [] ==> bufferLen == 0
      modifies this`blocks, this`state
      ensures Buffering() && all == Message() + rest
      ensures rest != [] ==> bufferLen == 0
      ensures |rest| < 64
      ensures rest == [] ==> Message() == all
    {
      rest := data;
      while |rest| >= 64
        invariant Buffering() && all == Message() + rest
        invariant rest != [] ==> bufferLen == 0
      {
        AbsorbBlock(rest[..64]);
        SplitAt(rest, 64);
        rest := rest[64..];
      }
    }

    method AbsorbBlock(block: Bytes)
      requires StateAbsorbed() && |block| == 64
      modifies this`blocks, this`state
      ensures StateAbsorbed()
      ensures blocks == old(blocks) + block
    {
      Compress(block);
      blocks := blocks + block;
      assert blocks[..|blocks| - 64] == old(blocks);
      assert blocks[|blocks| - 64..] == block;
    }

    /**
     The digest of everything absorbed. The length field is the bit count modulo 2^64;
     for every message the standard covers this is the standard's digest.
     */
    method Finish() returns (out: Bytes)
      requires Valid()
      modifies this, buffer
      ensures out == DigestBytes(HashBlocks(PadWith(old(Message()), Wrap64(8 * |old(Message())|))))
      ensures 8 * |old(Message())| < TWO_64 ==> out == Sha256(old(Message()))
    {
      var bitLen := Wrap64(8 * total);
      WrapTimes8(|Message()|);
      ghost var m := Message();
      Update([0x80]);
      PadZeros(m);
      Update(BigEndian64(bitLen));
      assert Message() == PadWith(m, bitLen);
      WholeBlocks(|blocks|, bufferLen, |PadWith(m, bitLen)|);
      assert Message() == blocks;
      out := StateBytes();
    }

    /** The fill level tells where the padding stands: 56 exactly when eight bytes are left. */
    static lemma FillLevel(whole: nat, len: nat, n: nat, k: nat)
      requires whole % 64 == 0 && len < 64 && whole + len == n + 1 + k
      ensures LeavesEightBytes(n, k) <==> len == 56
    {
    }

    /** One more zero byte. */
    method PadZero(ghost m: Bytes, ghost k: nat)
      requires Valid() && Message() == m + [0x80] + Zeros(k)
      modifies this, buffer
      ensures Valid() && Message() == m + [0x80] + Zeros(k + 1)
    {
      Update([0]);
      assert Zeros(k) + [0] == Zeros(k + 1);
    }

    /** The padding loop: it stops at the first point that leaves eight bytes in the block. */
    method PadZeros(ghost m: Bytes)
      requires Valid() && Message() == m + [0x80]
      modifies this, buffer
      ensures Valid() && Message() == m + [0x80] + Zeros(ZeroCount(|m|))
    {
      ghost var k := 0;
      while bufferLen != 56
        invariant Valid() && k <= ZeroCount(|m|)
        invariant Message() == m + [0x80] + Zeros(k)
        decreases ZeroCount(|m|) - k
      {
        FillLevel(|blocks|, bufferLen, |m|, k);
        PadZero(m, k);
        k := k + 1;
      }
      FillLevel(|blocks|, bufferLen, |m|, k);
    }

    static lemma WholeBlocks(whole: nat, len: nat, all: nat)
      requires whole % 64 == 0 && len < 64 && whole + len == all && all % 64 == 0
      ensures len == 0
    {
    }

    method StateBytes() returns (out: Bytes)
      ensures out == DigestBytes(state)
    {
      out := BigEndian32(state.a) + BigEndian32(state.b) + BigEndian32(state.c) + BigEndian32(state.d)
           + BigEndian32(state.e) + BigEndian32(state.f) + BigEndian32(state.g) + BigEndian32(state.h);
    }

    method Compress(block: Bytes)
      requires |block| == 64
      modifies this`state
      ensures state == Fips180.Compress(old(state), block)
    {
      var w := Schedule(block);
      var v := RunRounds(state, block, w);
      state := Vars(Add(state.a, v.a), Add(state.b, v.b), Add(state.c, v.c), Add(state.d, v.d),
                    Add(state.e, v.e), Add(state.f, v.f), Add(state.g, v.g), Add(state.h, v.h));
    }
  }

  /** The read loop of the `hash` command: any cut of the file gives the digest of the whole file. */
  method HashChunks(chunks: seq<Bytes>) returns (digest: Bytes)
    ensures 8 * |Flatten(chunks)| < TWO_64 ==> digest == Sha256(Flatten(chunks))
  {
    var hasher := new Sha256Hasher();
    for i := 0 to |chunks|
      invariant hasher.Valid() && fresh(hasher) && fresh(hasher.buffer)
      invariant hasher.Message() == Flatten(chunks[..i])
    {
      hasher.Update(chunks[i]);
      TakeSnoc(chunks, i);
      FlattenSnoc(chunks[..i], chunks[i]);
    }
    TakeAll(chunks);
    digest := hasher.Finish();
  }
}
