/**
 SHA-256 as the recursive definition of FIPS 180-4 (sections 4.1.2, 5.1.1, 5.3.3 and 6.2.2),
 and the loops that compute it in place.
 */
module Sha256 {
  import opened Bytes
  import opened Capsule
  import opened Primes

  type Word = u32

  /******* Constants *******/

  const KEYS: seq<seq<u32>> := [
    [0x428a2f98, 0x71374491, 0xb5c0fbcf, 0xe9b5dba5, 0x3956c25b, 0x59f111f1, 0x923f82a4, 0xab1c5ed5],
    [0xd807aa98, 0x12835b01, 0x243185be, 0x550c7dc3, 0x72be5d74, 0x80deb1fe, 0x9bdc06a7, 0xc19bf174],
    [0xe49b69c1, 0xefbe4786, 0x0fc19dc6, 0x240ca1cc, 0x2de92c6f, 0x4a7484aa, 0x5cb0a9dc, 0x76f988da],
    [0x983e5152, 0xa831c66d, 0xb00327c8, 0xbf597fc7, 0xc6e00bf3, 0xd5a79147, 0x06ca6351, 0x14292967],
    [0x27b70a85, 0x2e1b2138, 0x4d2c6dfc, 0x53380d13, 0x650a7354, 0x766a0abb, 0x81c2c92e, 0x92722c85],
    [0xa2bfe8a1, 0xa81a664b, 0xc24b8b70, 0xc76c51a3, 0xd192e819, 0xd6990624, 0xf40e3585, 0x106aa070],
    [0x19a4c116, 0x1e376c08, 0x2748774c, 0x34b0bcb5, 0x391c0cb3, 0x4ed8aa4a, 0x5b9cca4f, 0x682e6ff3],
    [0x748f82ee, 0x78a5636f, 0x84c87814, 0x8cc70208, 0x90befffa, 0xa4506ceb, 0xbef9a3f7, 0xc67178f2]]

  function Key(t: nat): u32
    requires t < 64
  {
    KEYS[t / 8][t % 8]
  }

  const INITIAL: seq<u32> := [
    0x6a09e667, 0xbb67ae85, 0x3c6ef372, 0xa54ff53a, 0x510e527f, 0x9b05688c, 0x1f83d9ab, 0x5be0cd19]

  const TWO32 := 0x1_0000_0000

  /** `x` is the integer part and the first 32 fractional bits of the cube root of `p`. */
  predicate CubeRoot(p: nat, x: nat) {
    x * x * x <= p * TWO32 * TWO32 * TWO32 < (x + 1) * (x + 1) * (x + 1)
  }

  predicate SquareRoot(p: nat, x: nat) {
    x * x <= p * TWO32 * TWO32 < (x + 1) * (x + 1)
  }

  /** The integer part of the cube root of a prime of the table. */
  function IntegerPart(p: nat): nat {
    if p < 8 then 1 else if p < 27 then 2 else if p < 64 then 3 else if p < 125 then 4 else if p < 216 then 5 else 6
  }

  lemma FirstKeys(t: nat)
    requires 0 <= t < 24
    ensures CubeRoot(Prime(t), IntegerPart(Prime(t)) * TWO32 + Key(t))
  {
    match t
    case 0 => case 1 => case 2 => case 3 => case 4 => case 5 => case 6 => case 7 =>
    case 8 => case 9 => case 10 => case 11 => case 12 => case 13 => case 14 => case 15 =>
    case 16 => case 17 => case 18 => case 19 => case 20 => case 21 => case 22 => case 23 =>
  }

  lemma MiddleKeys(t: nat)
    requires 24 <= t < 48
    ensures CubeRoot(Prime(t), IntegerPart(Prime(t)) * TWO32 + Key(t))
  {
    match t
    case 24 => case 25 => case 26 => case 27 => case 28 => case 29 => case 30 => case 31 =>
    case 32 => case 33 => case 34 => case 35 => case 36 => case 37 => case 38 => case 39 =>
    case 40 => case 41 => case 42 => case 43 => case 44 => case 45 => case 46 => case 47 =>
  }

  lemma LastKeys(t: nat)
    requires 48 <= t < 64
    ensures CubeRoot(Prime(t), IntegerPart(Prime(t)) * TWO32 + Key(t))
  {
    match t
    case 48 => case 49 => case 50 => case 51 => case 52 => case 53 => case 54 => case 55 =>
    case 56 => case 57 => case 58 => case 59 => case 60 => case 61 => case 62 => case 63 =>
  }

  /** Section 4.2.2: the round constants are the first 32 bits of the fractional parts of the cube roots of the first 64 primes. */
  lemma KeysAreCubeRoots(t: nat)
    requires t < 64
    ensures CubeRoot(Prime(t), IntegerPart(Prime(t)) * TWO32 + Key(t))
  {
    if t < 24 {
      FirstKeys(t);
    } else if t < 48 {
      MiddleKeys(t);
    } else {
      LastKeys(t);
    }
  }

  /** Section 5.3.3: the initial hash value is made of the square roots of the first eight primes. */
  lemma InitialIsSquareRoots(t: nat)
    requires t < 8
    ensures SquareRoot(Prime(t), (t / 2 + 1) * TWO32 + INITIAL[t])
  {
    match t
    case 0 => case 1 => case 2 => case 3 => case 4 => case 5 => case 6 => case 7 =>
  }

  /******* Padding (section 5.1.1) *******/

  /** The low `k` bytes of `n`, most significant first. */
  function Be(k: nat, n: nat): (r: Bytes)
    ensures |r| == k
  {
    seq(k, i requires 0 <= i < k => ByteOf(n, k - 1 - i))
  }

  /** The fewest zero bytes that bring the padded message to a multiple of 64 bytes. */
  function ZeroCount(length: nat): nat {
    (119 - length % 64) % 64
  }

  const TWO64 := 0x1_0000_0000_0000_0000

  function Padded(m: Bytes): Bytes {
    m + [0x80] + Zeros(ZeroCount(|m|)) + Be(8, 8 * |m| % TWO64)
  }

  lemma ZeroCountBy(q: nat, r: nat)
    requires r < 64
    ensures ZeroCount(64 * q + r) == if r <= 55 then 55 - r else 119 - r
  {
    assert (64 * q + r) % 64 == r;
  }

  /** The padded message is the shortest whole number of blocks with room for the mark and the length. */
  lemma PaddingIsMinimal(m: Bytes, blocks: nat)
    ensures |Padded(m)| % 64 == 0
    ensures |m| + 9 <= 64 * blocks ==> |Padded(m)| <= 64 * blocks
  {
    hide ZeroCount;
    var r, q := |m| % 64, |m| / 64;
    ZeroCountBy(q, r);
    assert |Padded(m)| == 64 * q + r + 9 + ZeroCount(64 * q + r);
    assert |Padded(m)| == 64 * (if r <= 55 then q + 1 else q + 2);
  }

  lemma BeIsInjective(k: nat, a: nat, b: nat)
    requires Be(k, a) == Be(k, b) && a < Pow256(k) && b < Pow256(k)
    ensures a == b
  {
    forall i | 0 <= i < k
      ensures Le(k, a)[i] == Le(k, b)[i]
    {
      assert Be(k, a)[k - 1 - i] == Be(k, b)[k - 1 - i];
    }
    assert Le(k, a) == Le(k, b);
    FromLeOfLe(k, a);
    FromLeOfLe(k, b);
  }

  /** No two messages of fewer than 2^61 bytes are padded alike. */
  lemma PaddingIsInjective(a: Bytes, b: Bytes)
    requires |a| < 0x2000_0000_0000_0000 && |b| < 0x2000_0000_0000_0000
    requires Padded(a) == Padded(b)
    ensures a == b
  {
    hide Be, ZeroCount;
    var n := |Padded(a)| - 8;
    assert Padded(a)[n..] == Be(8, 8 * |a|);
    assert Padded(b)[n..] == Be(8, 8 * |b|);
    IntegerWidths();
    BeIsInjective(8, 8 * |a|, 8 * |b|);
    assert Padded(a)[..|a|] == a && Padded(b)[..|b|] == b;
  }

  /******* The hash computation (section 6.2.2) *******/

  function WrappingAdd(x: Word, y: Word): Word { (x + y) % TWO32 }

  // Section 4.1.2, on the bits of a word.

  function Ch(x: Word, y: Word, z: Word): Word {
    var (a, b, c) := (x as bv32, y as bv32, z as bv32);
    ((a & b) ^ (!a & c)) as Word
  }

  function Maj(x: Word, y: Word, z: Word): Word {
    var (a, b, c) := (x as bv32, y as bv32, z as bv32);
    ((a & b) ^ (a & c) ^ (b & c)) as Word
  }

  function BigSigma0(x: Word): Word {
    var b := x as bv32;
    (b.RotateRight(2) ^ b.RotateRight(13) ^ b.RotateRight(22)) as Word
  }

  function BigSigma1(x: Word): Word {
    var b := x as bv32;
    (b.RotateRight(6) ^ b.RotateRight(11) ^ b.RotateRight(25)) as Word
  }

  function SmallSigma0(x: Word): Word {
    var b := x as bv32;
    (b.RotateRight(7) ^ b.RotateRight(18) ^ (b >> 3)) as Word
  }

  function SmallSigma1(x: Word): Word {
    var b := x as bv32;
    (b.RotateRight(17) ^ b.RotateRight(19) ^ (b >> 10)) as Word
  }

  /** The message schedule of a block of sixteen words. */
  function Schedule(m: seq<Word>, t: nat): Word
    requires |m| == 16
  {
    if t < 16 then m[t]
    else WrappingAdd(WrappingAdd(WrappingAdd(SmallSigma1(Schedule(m, t - 2)), Schedule(m, t - 7)),
                                 SmallSigma0(Schedule(m, t - 15))), Schedule(m, t - 16))
  }

  datatype Vars = Vars(a: Word, b: Word, c: Word, d: Word, e: Word, f: Word, g: Word, h: Word)

  function Round(v: Vars, k: Word, w: Word): Vars {
    var t1 := WrappingAdd(WrappingAdd(WrappingAdd(WrappingAdd(v.h, BigSigma1(v.e)), Ch(v.e, v.f, v.g)), k), w);
    var t2 := WrappingAdd(BigSigma0(v.a), Maj(v.a, v.b, v.c));
    Vars(WrappingAdd(t1, t2), v.a, v.b, v.c, WrappingAdd(v.d, t1), v.e, v.f, v.g)
  }

  /** The working variables after `t` rounds. */
  function Rounds(m: seq<Word>, v: Vars, t: nat): Vars
    requires |m| == 16 && t <= 64
  {
    if t == 0 then v else Round(Rounds(m, v, t - 1), Key(t - 1), Schedule(m, t - 1))
  }

  function Add(x: Vars, y: Vars): Vars {
    Vars(WrappingAdd(x.a, y.a), WrappingAdd(x.b, y.b), WrappingAdd(x.c, y.c), WrappingAdd(x.d, y.d),
         WrappingAdd(x.e, y.e), WrappingAdd(x.f, y.f), WrappingAdd(x.g, y.g), WrappingAdd(x.h, y.h))
  }

  /** The big-endian word at place `i`. */
  function WordAt(s: Bytes, i: nat): Word
    requires i + 4 <= |s|
  {
    var n: nat := s[i];
    ((n * 256 + s[i + 1]) * 256 + s[i + 2]) * 256 + s[i + 3]
  }

  function Block(s: Bytes, n: nat): (m: seq<Word>)
    requires 64 * n + 64 <= |s|
    ensures |m| == 16 && forall i :: 0 <= i < 16 ==> m[i] == WordAt(s, 64 * n + 4 * i)
  {
    seq(16, i requires 0 <= i < 16 => WordAt(s, 64 * n + 4 * i))
  }

  function InitialVars(): Vars {
    Vars(INITIAL[0], INITIAL[1], INITIAL[2], INITIAL[3],
         INITIAL[4], INITIAL[5], INITIAL[6], INITIAL[7])
  }

  /** The hash value after the first `n` blocks. */
  function HashValue(s: Bytes, n: nat): Vars
    requires 64 * n <= |s|
  {
    if n == 0 then InitialVars()
    else Add(HashValue(s, n - 1), Rounds(Block(s, n - 1), HashValue(s, n - 1), 64))
  }

  function WordBytes(w: Word): (r: Bytes)
    ensures |r| == 4
  {
    Be(4, w)
  }

  function VarsBytes(v: Vars): (r: Bytes)
    ensures |r| == 32
  {
    WordBytes(v.a) + WordBytes(v.b) + WordBytes(v.c) + WordBytes(v.d)
    + WordBytes(v.e) + WordBytes(v.f) + WordBytes(v.g) + WordBytes(v.h)
  }

  function Hash(m: Bytes): Digest {
    PaddingIsMinimal(m, 0);
    VarsBytes(HashValue(Padded(m), |Padded(m)| / 64))
  }

  /******* The loops *******/

  lemma PadStops(length: nat, zeros: nat)
    requires zeros <= ZeroCount(length)
    ensures (length + 9 + zeros) % 64 == 0 <==> zeros == ZeroCount(length)
  {
    var q, r := length / 64, length % 64;
    ZeroCountBy(q, r);
    assert length + 9 + zeros == 64 * q + (r + 9 + zeros);
  }

  method Pad(input: Bytes) returns (padded: Bytes)
    requires |input| <= ISIZE_MAX
    ensures padded == Padded(input)
  {
    hide ZeroCount;
    var bitLen := |input| % TWO64 * 8 % TWO64;
    padded := input + [0x80];
    ghost var zeros := 0;
    PadStops(|input|, 0);
    while (|padded| + 8) % 64 != 0
      invariant zeros <= ZeroCount(|input|)
      invariant padded == input + [0x80] + Zeros(zeros)
      invariant (|padded| + 8) % 64 == 0 <==> zeros == ZeroCount(|input|)
      decreases ZeroCount(|input|) - zeros
    {
      assert Zeros(zeros) + [0] == Zeros(zeros + 1);
      padded := padded + [0];
      zeros := zeros + 1;
      PadStops(|input|, zeros);
    }
    padded := padded + Be(8, bitLen);
  }

  lemma ModSum(x: nat, y: nat)
    ensures (x % TWO32 + y) % TWO32 == (x + y) % TWO32
  {
    assert x == x / TWO32 * TWO32 + x % TWO32;
    assert (x % TWO32 + y + x / TWO32 * TWO32) % TWO32 == (x % TWO32 + y) % TWO32;
  }

  lemma SumOfFour(a: Word, b: Word, c: Word, d: Word)
    ensures WrappingAdd(WrappingAdd(WrappingAdd(a, b), c), d) == (a + b + c + d) % TWO32
  {
    ModSum(a + b, c);
    ModSum(a + b + c, d);
  }

  method ExpandSchedule(chunk: Bytes, ghost m: seq<Word>, w: array<Word>)
    requires |chunk| == 64 && w.Length == 64 && |m| == 16
    requires forall i :: 0 <= i < 16 ==> m[i] == WordAt(chunk, 4 * i)
    modifies w
    ensures forall t :: 0 <= t < 64 ==> w[t] == Schedule(m, t)
  {
    hide WrappingAdd, SmallSigma0, SmallSigma1, WordAt;
    for i := 0 to 16
      invariant forall t :: 0 <= t < i ==> w[t] == Schedule(m, t)
    {
      w[i] := WordAt(chunk, 4 * i);
    }
    for i := 16 to 64
      invariant forall t :: 0 <= t < i ==> w[t] == Schedule(m, t)
    {
      var s0 := SmallSigma0(w[i - 15]);
      var s1 := SmallSigma1(w[i - 2]);
      SumOfFour(w[i - 16], s0, w[i - 7], s1);
      SumOfFour(s1, w[i - 7], s0, w[i - 16]);
      w[i] := WrappingAdd(WrappingAdd(WrappingAdd(w[i - 16], s0), w[i - 7]), s1);
    }
  }

  /** One block: the working variables run through 64 rounds and are added to the state. */
  method Compress(chunk: Bytes, ghost m: seq<Word>, state: array<Word>)
    requires |chunk| == 64 && state.Length == 8 && |m| == 16
    requires forall i :: 0 <= i < 16 ==> m[i] == WordAt(chunk, 4 * i)
    modifies state
    ensures VarsIn(state) == Add(old(VarsIn(state)), Rounds(m, old(VarsIn(state)), 64))
  {
    hide WrappingAdd, SmallSigma0, SmallSigma1, WordAt, BigSigma0, BigSigma1, Ch, Maj, Key, Schedule;
    var w := new Word[64];
    ExpandSchedule(chunk, m, w);
    var a, b, c, d := state[0], state[1], state[2], state[3];
    var e, f, g, h := state[4], state[5], state[6], state[7];
    for i := 0 to 64
      invariant Vars(a, b, c, d, e, f, g, h) == Rounds(m, VarsIn(state), i)
      invariant VarsIn(state) == old(VarsIn(state))
    {
      var sum1 := BigSigma1(e);
      var ch := Ch(e, f, g);
      var temp1 := WrappingAdd(WrappingAdd(WrappingAdd(WrappingAdd(h, sum1), ch), Key(i)), w[i]);
      var sum0 := BigSigma0(a);
      var maj := Maj(a, b, c);
      var temp2 := WrappingAdd(sum0, maj);
      h := g;
      g := f;
      f := e;
      e := WrappingAdd(d, temp1);
      d := c;
      c := b;
      b := a;
      a := WrappingAdd(temp1, temp2);
    }
    state[0] := WrappingAdd(state[0], a);
    state[1] := WrappingAdd(state[1], b);
    state[2] := WrappingAdd(state[2], c);
    state[3] := WrappingAdd(state[3], d);
    state[4] := WrappingAdd(state[4], e);
    state[5] := WrappingAdd(state[5], f);
    state[6] := WrappingAdd(state[6], g);
    state[7] := WrappingAdd(state[7], h);
  }

  function VarsIn(state: array<Word>): Vars
    requires state.Length == 8
    reads state
  {
    Vars(state[0], state[1], state[2], state[3], state[4], state[5], state[6], state[7])
  }

  /** The digest of the standard, for every input a slice can hold. */
  method Sha256(input: Bytes) returns (out: Digest)
    requires |input| <= ISIZE_MAX
    ensures out == Hash(input)
  {
    hide Rounds, Add, WordAt, Padded, WordBytes;
    var padded := Pad(input);
    PaddingIsMinimal(input, 0);
    var state := new Word[8](i requires 0 <= i < 8 => INITIAL[i]);
    for n := 0 to |padded| / 64
      invariant VarsIn(state) == HashValue(padded, n)
    {
      SliceWords(padded, n);
      Compress(padded[64 * n..64 * n + 64], Block(padded, n), state);
    }
    var bytes := [];
    for i := 0 to 8
      invariant |bytes| == 4 * i
      invariant bytes == StateBytes(state[..i])
    {
      assert state[..i + 1] == state[..i] + [state[i]];
      bytes := bytes + WordBytes(state[i]);
    }
    out := bytes;
    StateBytesOfVars(state[..], VarsIn(state));
    assert state[..8] == state[..];
  }

  function StateBytes(words: seq<Word>): Bytes {
    if |words| == 0 then [] else StateBytes(words[..|words| - 1]) + WordBytes(words[|words| - 1])
  }

  lemma StateBytesOfVars(words: seq<Word>, v: Vars)
    requires words == [v.a, v.b, v.c, v.d, v.e, v.f, v.g, v.h]
    ensures StateBytes(words) == VarsBytes(v)
  {
    hide WordBytes;
    assert words[..7] == [v.a, v.b, v.c, v.d, v.e, v.f, v.g];
    assert [v.a, v.b, v.c, v.d, v.e, v.f, v.g][..6] == [v.a, v.b, v.c, v.d, v.e, v.f];
    assert [v.a, v.b, v.c, v.d, v.e, v.f][..5] == [v.a, v.b, v.c, v.d, v.e];
    assert [v.a, v.b, v.c, v.d, v.e][..4] == [v.a, v.b, v.c, v.d];
    assert [v.a, v.b, v.c, v.d][..3] == [v.a, v.b, v.c];
    assert [v.a, v.b, v.c][..2] == [v.a, v.b];
    assert [v.a, v.b][..1] == [v.a];
    assert StateBytes([v.a]) == WordBytes(v.a);
    assert StateBytes([v.a, v.b, v.c]) == WordBytes(v.a) + WordBytes(v.b) + WordBytes(v.c);
    assert StateBytes([v.a, v.b, v.c, v.d]) == WordBytes(v.a) + WordBytes(v.b) + WordBytes(v.c) + WordBytes(v.d);
    assert StateBytes([v.a, v.b, v.c, v.d, v.e, v.f]) == StateBytes([v.a, v.b, v.c, v.d]) + WordBytes(v.e) + WordBytes(v.f);
  }

  lemma SliceWords(s: Bytes, n: nat)
    requires 64 * n + 64 <= |s|
    ensures forall i :: 0 <= i < 16 ==> Block(s, n)[i] == WordAt(s[64 * n..64 * n + 64], 4 * i)
  {
    var chunk := s[64 * n..64 * n + 64];
    forall i | 0 <= i < 16
      ensures Block(s, n)[i] == WordAt(chunk, 4 * i)
    {
      assert chunk[4 * i] == s[64 * n + 4 * i];
    }
  }
}
