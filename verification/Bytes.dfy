/**
 Byte strings, little-endian integers, UTF-8 text and the two primitive objects every
 codec of the repository is written with: a growing buffer and a reading cursor.

 Encoders are specified in tail-passing style: `PutX(v, t)` is the encoding of `v`
 followed by the bytes `t`. Decoders are specified on the unread bytes: `GetX(s)` is the
 decoded value with the bytes left after it.
 */
module Bytes {
  import opened Wrappers

  type byte = x: int | 0 <= x < 0x100
  type u8 = byte
  type u16 = x: int | 0 <= x < 0x1_0000
  type u32 = x: int | 0 <= x < 0x1_0000_0000
  type u64 = x: int | 0 <= x < 0x1_0000_0000_0000_0000
  type i32 = x: int | -0x8000_0000 <= x < 0x8000_0000
  // The modelled platform has 64-bit addresses.
  type usize = u64

  const U32_MAX := 0xFFFF_FFFF
  const U64_MAX := 0xFFFF_FFFF_FFFF_FFFF

  type Bytes = seq<byte>

  // A Rust vector or slice never exceeds isize::MAX elements.
  const ISIZE_MAX := 0x7FFF_FFFF_FFFF_FFFF
  type Vec<T> = s: seq<T> | |s| <= ISIZE_MAX witness []

  /******* UTF-8 text *******/

  predicate Continuation(b: byte) {
    0x80 <= b <= 0xBF
  }

  /** Length of the well-formed scalar encoding that starts `s`, or 0 when there is none. */
  function ScalarLen(s: Bytes): (n: nat)
    ensures n <= |s|
  {
    if |s| == 0 then 0
    else if s[0] < 0x80 then 1
    else if |s| >= 2 && 0xC2 <= s[0] <= 0xDF && Continuation(s[1]) then 2
    else if |s| >= 3 && 0xE0 <= s[0] <= 0xEF && Continuation(s[1]) && Continuation(s[2])
            && (s[0] == 0xE0 ==> 0xA0 <= s[1]) && (s[0] == 0xED ==> s[1] <= 0x9F) then 3
    else if |s| >= 4 && 0xF0 <= s[0] <= 0xF4 && Continuation(s[1]) && Continuation(s[2]) && Continuation(s[3])
            && (s[0] == 0xF0 ==> 0x90 <= s[1]) && (s[0] == 0xF4 ==> s[1] <= 0x8F) then 4
    else 0
  }

  /** Scalar encodings follow one another from place `i` to the end. */
  predicate ScansFrom(s: Bytes, i: nat)
    requires i <= |s|
    decreases |s| - i
  {
    i == |s| || (ScalarLen(s[i..]) > 0 && ScansFrom(s, i + ScalarLen(s[i..])))
  }

  // The bounded quantifier keeps the verifier from unrolling the scan of every string.
  predicate Utf8(s: Bytes) {
    forall i :: 0 <= i < 1 ==> ScansFrom(s, i)
  }

  /** A Rust `String`: bytes that are well-formed UTF-8. */
  type Str = s: Bytes | Utf8(s) witness []

  /** Length of the Unicode White_Space character that starts `s`, or 0. */
  function SpaceLen(s: Bytes): (n: nat)
    ensures n <= |s|
  {
    if |s| == 0 then 0
    else if 0x09 <= s[0] <= 0x0D || s[0] == 0x20 then 1
    else if |s| >= 2 && s[0] == 0xC2 && (s[1] == 0x85 || s[1] == 0xA0) then 2
    else if |s| < 3 then 0
    else if s[0] == 0xE1 && s[1] == 0x9A && s[2] == 0x80 then 3
    else if s[0] == 0xE2 && s[1] == 0x80 && (0x80 <= s[2] <= 0x8A || s[2] == 0xA8 || s[2] == 0xA9 || s[2] == 0xAF) then 3
    else if s[0] == 0xE2 && s[1] == 0x81 && s[2] == 0x9F then 3
    else if s[0] == 0xE3 && s[1] == 0x80 && s[2] == 0x80 then 3
    else 0
  }

  /** `s.trim().is_empty()` */
  predicate Blank(s: Bytes)
    decreases |s|
  {
    |s| == 0 || (SpaceLen(s) > 0 && Blank(s[SpaceLen(s)..]))
  }

  /** The first place where `a` and `b` part, `a` ending or having the smaller byte there. */
  predicate PartsBelow(a: Bytes, b: Bytes, k: nat) {
    k <= |a| && k < |b| && a[..k] == b[..k] && (k == |a| || a[k] < b[k])
  }

  /** Lexicographic byte order, the order of Rust strings and of fixed-size byte arrays. */
  predicate Less(a: Bytes, b: Bytes) {
    exists k :: 0 <= k < |b| && PartsBelow(a, b, k)
  }

  lemma LessTransitive(a: Bytes, b: Bytes, c: Bytes)
    requires Less(a, b) && Less(b, c)
    ensures Less(a, c)
  {
    var j :| 0 <= j < |b| && PartsBelow(a, b, j);
    var k :| 0 <= k < |c| && PartsBelow(b, c, k);
    if j <= k {
      assert a[..j] == b[..j] == b[..k][..j] == c[..j];
      assert j < k ==> b[j] == b[..k][j] == c[j];
      assert PartsBelow(a, c, j);
    } else {
      assert a[..k] == a[..j][..k] == b[..k];
      assert a[k] == a[..j][k] == b[k];
      assert PartsBelow(a, c, k);
    }
  }

  /** Length of the longest common prefix. */
  lemma {:induction false} CommonPrefix(a: Bytes, b: Bytes) returns (k: nat)
    ensures k <= |a| && k <= |b| && a[..k] == b[..k]
    ensures k == |a| || k == |b| || a[k] != b[k]
  {
    k := 0;
    while k < |a| && k < |b| && a[k] == b[k]
      invariant k <= |a| && k <= |b| && a[..k] == b[..k]
    {
      k := k + 1;
    }
  }

  lemma LessTotal(a: Bytes, b: Bytes)
    ensures Less(a, b) || a == b || Less(b, a)
  {
    var k := CommonPrefix(a, b);
    if k == |a| && k == |b| {
      assert a == a[..k] && b == b[..k];
    } else if k < |b| && (k == |a| || a[k] < b[k]) {
      assert PartsBelow(a, b, k);
    } else {
      assert PartsBelow(b, a, k);
    }
  }

  /******* Little-endian integers *******/

  function Pow256(k: nat): (p: nat)
    ensures p > 0
  {
    if k == 0 then 1 else 256 * Pow256(k - 1)
  }

  /** Byte `i` of `n`, counted from the least significant. */
  function ByteOf(n: nat, i: nat): byte {
    if i == 0 then n % 256 else ByteOf(n / 256, i - 1)
  }

  /** The low `k` bytes of `n`, least significant first. */
  function Le(k: nat, n: nat): (r: Bytes)
    ensures |r| == k
  {
    seq(k, i requires 0 <= i < k => ByteOf(n, i))
  }

  function FromLe(s: Bytes): nat {
    if |s| == 0 then 0 else s[0] + 256 * FromLe(s[1..])
  }

  lemma LeStep(k: nat, n: nat)
    requires k > 0
    ensures Le(k, n) == [n % 256] + Le(k - 1, n / 256)
  {
  }

  lemma {:induction false} FromLeOfLe(k: nat, n: nat)
    requires n < Pow256(k)
    ensures FromLe(Le(k, n)) == n
  {
    if k > 0 {
      LeStep(k, n);
      assert Le(k, n)[1..] == Le(k - 1, n / 256);
      FromLeOfLe(k - 1, n / 256);
    }
  }

  lemma {:induction false} LeOfFromLe(s: Bytes)
    ensures FromLe(s) < Pow256(|s|) && Le(|s|, FromLe(s)) == s
  {
    if |s| > 0 {
      LeOfFromLe(s[1..]);
      LeStep(|s|, FromLe(s));
      assert FromLe(s) % 256 == s[0] && FromLe(s) / 256 == FromLe(s[1..]);
      assert s == [s[0]] + s[1..];
    }
  }

  lemma IntegerWidths()
    ensures Pow256(1) == 0x100 && Pow256(2) == 0x1_0000 && Pow256(4) == 0x1_0000_0000
    ensures Pow256(8) == 0x1_0000_0000_0000_0000
  {
    assert Pow256(3) == 0x100_0000;
    assert Pow256(5) == 0x100_0000_0000;
    assert Pow256(6) == 0x1_0000_0000_0000;
    assert Pow256(7) == 0x100_0000_0000_0000;
  }

  function PutLe(k: nat, n: nat, t: Bytes): Bytes {
    Le(k, n) + t
  }

  /** Reads `k` bytes; `e` is the error for a short input. */
  function GetLe<E>(k: nat, s: Bytes, e: E): (r: Result<(nat, Bytes), E>)
    ensures r.Ok? ==> s == PutLe(k, r.value.0, r.value.1) && r.value.0 < Pow256(k)
    ensures forall n: nat, t {:trigger PutLe(k, n, t)} :: n < Pow256(k) && s == PutLe(k, n, t) ==> r == Ok((n, t))
  {
    if k <= |s| then
      LeOfFromLe(s[..k]);
      assert s == s[..k] + s[k..];
      assert forall n: nat, t :: n < Pow256(k) && s == PutLe(k, n, t) ==> n == FromLe(s[..k]) && t == s[k..] by {
        forall n: nat, t | n < Pow256(k) && s == PutLe(k, n, t)
          ensures n == FromLe(s[..k]) && t == s[k..]
        {
          FromLeOfLe(k, n);
          assert s[..k] == Le(k, n);
        }
      }
      Ok((FromLe(s[..k]), s[k..]))
    else
      Err(e)
  }

  function PutU8(x: nat, t: Bytes): Bytes { PutLe(1, x, t) }
  function PutU16(x: nat, t: Bytes): Bytes { PutLe(2, x, t) }
  function PutU32(x: nat, t: Bytes): Bytes { PutLe(4, x, t) }
  function PutU64(x: nat, t: Bytes): Bytes { PutLe(8, x, t) }

  function GetU8<E>(s: Bytes, e: E): (r: Result<(u8, Bytes), E>)
    ensures r.Ok? ==> s == PutU8(r.value.0, r.value.1)
    ensures forall x: u8, t {:trigger PutU8(x, t)} :: s == PutU8(x, t) ==> r == Ok((x, t))
  {
    IntegerWidths();
    GetLe(1, s, e)
  }

  function GetU16<E>(s: Bytes, e: E): (r: Result<(u16, Bytes), E>)
    ensures r.Ok? ==> s == PutU16(r.value.0, r.value.1)
    ensures forall x: u16, t {:trigger PutU16(x, t)} :: s == PutU16(x, t) ==> r == Ok((x, t))
  {
    IntegerWidths();
    GetLe(2, s, e)
  }

  function GetU32<E>(s: Bytes, e: E): (r: Result<(u32, Bytes), E>)
    ensures r.Ok? ==> s == PutU32(r.value.0, r.value.1)
    ensures forall x: u32, t {:trigger PutU32(x, t)} :: s == PutU32(x, t) ==> r == Ok((x, t))
  {
    IntegerWidths();
    GetLe(4, s, e)
  }

  function GetU64<E>(s: Bytes, e: E): (r: Result<(u64, Bytes), E>)
    ensures r.Ok? ==> s == PutU64(r.value.0, r.value.1)
    ensures forall x: u64, t {:trigger PutU64(x, t)} :: s == PutU64(x, t) ==> r == Ok((x, t))
  {
    IntegerWidths();
    GetLe(8, s, e)
  }

  /** Two's complement. */
  function PutI32(x: i32, t: Bytes): Bytes {
    PutU32(if x < 0 then x + 0x1_0000_0000 else x, t)
  }

  function GetI32<E>(s: Bytes, e: E): (r: Result<(i32, Bytes), E>)
    ensures r.Ok? ==> s == PutI32(r.value.0, r.value.1)
    ensures forall x: i32, t {:trigger PutI32(x, t)} :: s == PutI32(x, t) ==> r == Ok((x, t))
  {
    hide PutU32, GetU32;
    var (n, s1) :- GetU32(s, e);
    Ok((if n < 0x8000_0000 then n else n - 0x1_0000_0000, s1))
  }

  /******* Byte strings and text *******/

  function PutRaw(b: Bytes, t: Bytes): Bytes {
    b + t
  }

  /** The next `n` bytes; `e` is the error for a short input. */
  function GetRaw<E>(n: nat, s: Bytes, e: E): (r: Result<(Bytes, Bytes), E>)
    ensures r.Ok? ==> |r.value.0| == n && s == PutRaw(r.value.0, r.value.1)
    ensures forall b, t {:trigger PutRaw(b, t)} :: |b| == n && s == PutRaw(b, t) ==> r == Ok((b, t))
    ensures r.Ok? <==> n <= |s|
  {
    if n <= |s| then
      assert s == s[..n] + s[n..];
      assert forall b, t :: |b| == n && s == PutRaw(b, t) ==> b == s[..n] && t == s[n..] by {
        forall b, t | |b| == n && s == PutRaw(b, t)
          ensures b == s[..n] && t == s[n..]
        {
          assert (b + t)[..n] == b && (b + t)[n..] == t;
        }
      }
      Ok((s[..n], s[n..]))
    else
      Err(e)
  }

  /**
   The next `n` bytes of an input of `total` bytes of which `s` is left: a length may be so
   large that adding it to the place reached overflows, which is its own error.
   */
  function GetLong<E>(total: nat, n: u64, s: Bytes, short: E, over: E): (r: Result<(Bytes, Bytes), E>)
    ensures r.Ok? ==> |r.value.0| == n && s == PutRaw(r.value.0, r.value.1)
    ensures forall b, t {:trigger PutRaw(b, t)} :: total <= U64_MAX && |b| == n && s == PutRaw(b, t) ==> r == Ok((b, t))
  {
    if total - |s| + n > U64_MAX then Err(over) else GetRaw(n, s, short)
  }

  /** Length-prefixed bytes; the prefix is a u32. */
  function PutBytes(b: Bytes, t: Bytes): Bytes {
    PutU32(|b|, PutRaw(b, t))
  }

  function GetBytes<E>(s: Bytes, e: E): (r: Result<(Bytes, Bytes), E>)
    ensures r.Ok? ==> |r.value.0| <= U32_MAX && s == PutBytes(r.value.0, r.value.1)
    ensures forall b, t {:trigger PutBytes(b, t)} :: |b| <= U32_MAX && s == PutBytes(b, t) ==> r == Ok((b, t))
  {
    var (n, s1) :- GetU32(s, e);
    GetRaw(n, s1, e)
  }

  /** Length-prefixed text; `bad` is the error for bytes that are not UTF-8. */
  function GetString<E>(s: Bytes, short: E, bad: E): (r: Result<(Str, Bytes), E>)
    ensures r.Ok? ==> |r.value.0| <= U32_MAX && s == PutBytes(r.value.0, r.value.1)
    ensures forall b: Str, t {:trigger PutBytes(b, t)} :: |b| <= U32_MAX && s == PutBytes(b, t) ==> r == Ok((b, t))
  {
    var (b, s1) :- GetBytes(s, short);
    if Utf8(b) then Ok((b, s1)) else Err(bad)
  }

  /******* Repetition *******/

  /** The elements of `xs` from place `i` on, one after the other. */
  function PutFrom<T>(put: (T, Bytes) -> Bytes, xs: seq<T>, i: nat, t: Bytes): Bytes
    decreases |xs| - i
  {
    if i >= |xs| then t else put(xs[i], PutFrom(put, xs, i + 1, t))
  }

  function PutMany<T>(put: (T, Bytes) -> Bytes, xs: seq<T>, t: Bytes): Bytes {
    PutFrom(put, xs, 0, t)
  }

  /** `n` more elements after those in `done`. */
  function GetMore<T, E>(get: Bytes -> Result<(T, Bytes), E>, n: nat, done: seq<T>, s: Bytes): Result<(seq<T>, Bytes), E>
    decreases n
  {
    if n == 0 then Ok((done, s))
    else
      var (x, s1) :- get(s);
      GetMore(get, n - 1, done + [x], s1)
  }

  function GetMany<T, E>(get: Bytes -> Result<(T, Bytes), E>, n: nat, s: Bytes): Result<(seq<T>, Bytes), E> {
    GetMore(get, n, [], s)
  }

  lemma {:induction false} MoreLength<T, E>(get: Bytes -> Result<(T, Bytes), E>, n: nat, done: seq<T>, s: Bytes)
    ensures GetMore(get, n, done, s).Ok? ==> |GetMore(get, n, done, s).value.0| == |done| + n
    decreases n
  {
    if n > 0 && get(s).Ok? {
      MoreLength(get, n - 1, done + [get(s).value.0], get(s).value.1);
    }
  }

  predicate All<T>(p: T -> bool, xs: seq<T>) {
    forall i :: 0 <= i < |xs| ==> p(xs[i])
  }

  lemma TakeOneMore<T>(xs: seq<T>, i: nat)
    requires i < |xs|
    ensures xs[..i] + [xs[i]] == xs[..i + 1]
  {
  }

  lemma TakeAll<T>(xs: seq<T>)
    ensures xs[..|xs|] == xs
  {
  }

  lemma Extends<T>(xs: seq<T>, done: seq<T>, x: T)
    requires |done| < |xs| && xs[..|done| + 1] == done + [x]
    ensures xs[..|done|] == done && xs[|done|] == x
  {
    assert xs[..|done|] == xs[..|done| + 1][..|done|] == done;
    assert xs[|done|] == xs[..|done| + 1][|done|];
  }

  /** `get` reads back everything `put` writes for the values that `fits` admits. */
  ghost predicate ReadsBack<T(!new), E(!new)>(get: Bytes -> Result<(T, Bytes), E>, put: (T, Bytes) -> Bytes, fits: T -> bool) {
    forall x, t {:trigger put(x, t)} :: fits(x) ==> get(put(x, t)) == Ok((x, t))
  }

  /** `get` accepts nothing but what `put` writes for the values that `fits` admits. */
  ghost predicate ReadsOnly<T(!new), E(!new)>(get: Bytes -> Result<(T, Bytes), E>, put: (T, Bytes) -> Bytes, fits: T -> bool) {
    forall s {:trigger get(s)} :: get(s).Ok? ==> fits(get(s).value.0) && s == put(get(s).value.0, get(s).value.1)
  }

  lemma {:induction false} MoreReadBack<T(!new), E(!new)>(get: Bytes -> Result<(T, Bytes), E>, put: (T, Bytes) -> Bytes, fits: T -> bool, xs: seq<T>, i: nat, t: Bytes)
    requires ReadsBack(get, put, fits) && All(fits, xs) && i <= |xs|
    ensures GetMore(get, |xs| - i, xs[..i], PutFrom(put, xs, i, t)) == Ok((xs, t))
    decreases |xs| - i
  {
    if i < |xs| {
      TakeOneMore(xs, i);
      MoreReadBack(get, put, fits, xs, i + 1, t);
    } else {
      TakeAll(xs);
    }
  }

  lemma ManyReadBack<T(!new), E(!new)>(get: Bytes -> Result<(T, Bytes), E>, put: (T, Bytes) -> Bytes, fits: T -> bool, xs: seq<T>, t: Bytes)
    requires ReadsBack(get, put, fits) && All(fits, xs)
    ensures GetMany(get, |xs|, PutMany(put, xs, t)) == Ok((xs, t))
  {
    assert xs[..0] == [];
    MoreReadBack(get, put, fits, xs, 0, t);
  }

  lemma {:induction false} MoreReadOnly<T(!new), E(!new)>(get: Bytes -> Result<(T, Bytes), E>, put: (T, Bytes) -> Bytes, fits: T -> bool, n: nat, done: seq<T>, s: Bytes)
    requires ReadsOnly(get, put, fits) && All(fits, done)
    requires GetMore(get, n, done, s).Ok?
    ensures var (xs, t) := GetMore(get, n, done, s).value;
            && |xs| == |done| + n && xs[..|done|] == done && All(fits, xs)
            && s == PutFrom(put, xs, |done|, t)
    decreases n
  {
    if n > 0 {
      var (x, s1) := get(s).value;
      MoreReadOnly(get, put, fits, n - 1, done + [x], s1);
      Extends(GetMore(get, n, done, s).value.0, done, x);
    } else {
      TakeAll(done);
    }
  }

  lemma ManyReadOnly<T(!new), E(!new)>(get: Bytes -> Result<(T, Bytes), E>, put: (T, Bytes) -> Bytes, fits: T -> bool, n: nat, s: Bytes)
    requires ReadsOnly(get, put, fits)
    requires GetMany(get, n, s).Ok?
    ensures var (xs, t) := GetMany(get, n, s).value;
            |xs| == n && All(fits, xs) && s == PutMany(put, xs, t)
  {
    MoreReadOnly(get, put, fits, n, [], s);
  }
}
