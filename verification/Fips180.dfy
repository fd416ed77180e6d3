/**
 The secure hash standard FIPS 180-4 for SHA-256, written from the standard's own
 equations (sections 2.2.2, 4.1.2, 4.2.2, 5.1.1, 5.2.1, 5.3.3 and 6.2). It is the
 reference that the streaming hasher is proved to refine.
 */
module Fips180 {
  import opened Common

  /** The working variables a..h; also the shape of a hash value H0..H7. */
  datatype Vars = Vars(a: bv32, b: bv32, c: bv32, d: bv32, e: bv32, f: bv32, g: bv32, h: bv32)

  // Section 4.2.2, eight to a row.
  const ROUND_CONSTANTS: seq<seq<bv32>> := [
    [0x428a2f98, 0x71374491, 0xb5c0fbcf, 0xe9b5dba5, 0x3956c25b, 0x59f111f1, 0x923f82a4, 0xab1c5ed5],
    [0xd807aa98, 0x12835b01, 0x243185be, 0x550c7dc3, 0x72be5d74, 0x80deb1fe, 0x9bdc06a7, 0xc19bf174],
    [0xe49b69c1, 0xefbe4786, 0x0fc19dc6, 0x240ca1cc, 0x2de92c6f, 0x4a7484aa, 0x5cb0a9dc, 0x76f988da],
    [0x983e5152, 0xa831c66d, 0xb00327c8, 0xbf597fc7, 0xc6e00bf3, 0xd5a79147, 0x06ca6351, 0x14292967],
    [0x27b70a85, 0x2e1b2138, 0x4d2c6dfc, 0x53380d13, 0x650a7354, 0x766a0abb, 0x81c2c92e, 0x92722c85],
    [0xa2bfe8a1, 0xa81a664b, 0xc24b8b70, 0xc76c51a3, 0xd192e819, 0xd6990624, 0xf40e3585, 0x106aa070],
    [0x19a4c116, 0x1e376c08, 0x2748774c, 0x34b0bcb5, 0x391c0cb3, 0x4ed8aa4a, 0x5b9cca4f, 0x682e6ff3],
    [0x748f82ee, 0x78a5636f, 0x84c87814, 0x8cc70208, 0x90befffa, 0xa4506ceb, 0xbef9a3f7, 0xc67178f2]]

  function K(t: nat): bv32
    requires t < 64
  {
    ROUND_CONSTANTS[t / 8][t % 8]
  }

  // Section 5.3.3.
  const IV: Vars := Vars(0x6a09e667, 0xbb67ae85, 0x3c6ef372, 0xa54ff53a,
                         0x510e527f, 0x9b05688c, 0x1f83d9ab, 0x5be0cd19)

  // Addition modulo 2^32 (section 2.2.2), for two, four and five terms.
  function Add(a: bv32, b: bv32): bv32 { a + b }
  function Add4(a: bv32, b: bv32, c: bv32, d: bv32): bv32 { a + b + c + d }
  function Add5(a: bv32, b: bv32, c: bv32, d: bv32, e: bv32): bv32 { a + b + c + d + e }

  // Section 4.1.2, with ROTR^n(x) written out as (x >> n) | (x << 32 - n) (section 2.2.2).
  function Ch(x: bv32, y: bv32, z: bv32): bv32 { (x & y) ^ (!x & z) }
  function Maj(x: bv32, y: bv32, z: bv32): bv32 { (x & y) ^ (x & z) ^ (y & z) }
  function BigSigma0(x: bv32): bv32 { ((x >> 2) | (x << 30)) ^ ((x >> 13) | (x << 19)) ^ ((x >> 22) | (x << 10)) }
  function BigSigma1(x: bv32): bv32 { ((x >> 6) | (x << 26)) ^ ((x >> 11) | (x << 21)) ^ ((x >> 25) | (x << 7)) }
  function SmallSigma0(x: bv32): bv32 { ((x >> 7) | (x << 25)) ^ ((x >> 18) | (x << 14)) ^ (x >> 3) }
  function SmallSigma1(x: bv32): bv32 { ((x >> 17) | (x << 15)) ^ ((x >> 19) | (x << 13)) ^ (x >> 10) }

  /** Section 5.2.1: word t of a 64-byte block, big-endian. */
  function BlockWord(block: Bytes, t: nat): bv32
    requires |block| == 64 && t < 16
  {
    (block[4 * t] as bv32 << 24) | (block[4 * t + 1] as bv32 << 16)
    | (block[4 * t + 2] as bv32 << 8) | (block[4 * t + 3] as bv32)
  }

  /** Section 6.2.2, step 1: one expanded schedule word. */
  function NextWord(w2: bv32, w7: bv32, w15: bv32, w16: bv32): bv32 {
    Add4(SmallSigma1(w2), w7, SmallSigma0(w15), w16)
  }

  /** Section 6.2.2, step 1: the message schedule. */
  function W(block: Bytes, t: nat): bv32
    requires |block| == 64 && t < 64
  {
    if t < 16 then BlockWord(block, t)
    else NextWord(W(block, t - 2), W(block, t - 7), W(block, t - 15), W(block, t - 16))
  }

  // Section 6.2.2, step 3: one round.
  function T1(v: Vars, k: bv32, w: bv32): bv32 { Add5(v.h, BigSigma1(v.e), Ch(v.e, v.f, v.g), k, w) }
  function T2(v: Vars): bv32 { Add(BigSigma0(v.a), Maj(v.a, v.b, v.c)) }

  function Round(v: Vars, k: bv32, w: bv32): Vars {
    var t1 := T1(v, k, w);
    var t2 := T2(v);
    Vars(Add(t1, t2), v.a, v.b, v.c, Add(v.d, t1), v.e, v.f, v.g)
  }

  function Rounds(v: Vars, block: Bytes, t: nat): Vars
    requires |block| == 64 && t <= 64
  {
    if t == 0 then v else Round(Rounds(v, block, t - 1), K(t - 1), W(block, t - 1))
  }

  /** Section 6.2.2, step 4: the intermediate hash value. */
  function AddVars(x: Vars, y: Vars): Vars {
    Vars(Add(x.a, y.a), Add(x.b, y.b), Add(x.c, y.c), Add(x.d, y.d),
         Add(x.e, y.e), Add(x.f, y.f), Add(x.g, y.g), Add(x.h, y.h))
  }

  function Compress(hash: Vars, block: Bytes): Vars
    requires |block| == 64
  {
    AddVars(hash, Rounds(hash, block, 64))
  }

  /** The hash value after all whole blocks of `m`, in order. */
  function HashBlocks(m: Bytes): Vars
    requires |m| % 64 == 0
  {
    if m == [] then IV else Compress(HashBlocks(m[..|m| - 64]), m[|m| - 64..])
  }

  predicate LeavesEightBytes(n: nat, z: nat) { (n + 1 + z) % 64 == 56 }

  /** Section 5.1.1: the smallest number of zero bytes that leaves 8 bytes in the last block. */
  function ZeroCount(n: nat): (z: nat)
    ensures LeavesEightBytes(n, z)
    ensures forall z': nat :: z' < z ==> !LeavesEightBytes(n, z')
  {
    (119 - n % 64) % 64
  }

  function Zeros(n: nat): Bytes { seq(n, _ => 0 as byte) }

  function BigEndian64(n: nat): Bytes
    requires n < TWO_64
  {
    var w := n as bv64;
    [ ((w >> 56) & 0xFF) as byte, ((w >> 48) & 0xFF) as byte, ((w >> 40) & 0xFF) as byte, ((w >> 32) & 0xFF) as byte,
      ((w >> 24) & 0xFF) as byte, ((w >> 16) & 0xFF) as byte, ((w >> 8) & 0xFF) as byte, (w & 0xFF) as byte ]
  }

  /** The message, a one bit, zero bits and a 64-bit length field. */
  function PadWith(m: Bytes, bits: nat): (p: Bytes)
    requires bits < TWO_64
    ensures |p| % 64 == 0 && m <= p
  {
    m + [0x80] + Zeros(ZeroCount(|m|)) + BigEndian64(bits)
  }

  /** Section 5.1.1: the padded message, defined for messages shorter than 2^64 bits. */
  function Pad(m: Bytes): Bytes
    requires 8 * |m| < TWO_64
  {
    PadWith(m, 8 * |m|)
  }

  function BigEndian32(w: bv32): Bytes {
    [ ((w >> 24) & 0xFF) as byte, ((w >> 16) & 0xFF) as byte, ((w >> 8) & 0xFF) as byte, (w & 0xFF) as byte ]
  }

  function DigestBytes(v: Vars): Bytes {
    BigEndian32(v.a) + BigEndian32(v.b) + BigEndian32(v.c) + BigEndian32(v.d)
    + BigEndian32(v.e) + BigEndian32(v.f) + BigEndian32(v.g) + BigEndian32(v.h)
  }

  /** Section 6.2: the SHA-256 message digest. */
  function Sha256(m: Bytes): Bytes
    requires 8 * |m| < TWO_64
  {
    DigestBytes(HashBlocks(Pad(m)))
  }
}
