/**
 The two mutable objects of every codec: the `Vec<u8>` an encoder appends to and the
 `Cursor` a decoder advances. Their methods are specified by the Put and Get functions.
 */
module Streams {
  import opened Wrappers
  import opened Bytes

  /** What a decoding method returns and leaves unread, given what its Get function says. */
  ghost predicate Follows<T, E>(spec: Result<(T, Bytes), E>, r: Result<T, E>, rest: Bytes) {
    match spec
    case Ok(v) => r == Ok(v.0) && rest == v.1
    case Err(e) => r == Err(e)
  }

  class Buffer {
    var bytes: Bytes

    constructor ()
      ensures bytes == []
    {
      bytes := [];
    }

    method PushRaw(b: Bytes)
      modifies this
      ensures bytes == old(bytes) + b
      ensures forall t :: bytes + t == old(bytes) + PutRaw(b, t)
    {
      bytes := bytes + b;
      assert forall t :: (old(bytes) + b) + t == old(bytes) + (b + t);
    }

    method PushLe(k: nat, x: nat)
      modifies this
      ensures forall t :: bytes + t == old(bytes) + PutLe(k, x, t)
    {
      bytes := bytes + Le(k, x);
      assert forall t :: (old(bytes) + Le(k, x)) + t == old(bytes) + (Le(k, x) + t);
    }

    method PushU8(x: u8)
      modifies this
      ensures forall t :: bytes + t == old(bytes) + PutU8(x, t)
    {
      PushLe(1, x);
    }

    method PushU16(x: u16)
      modifies this
      ensures forall t :: bytes + t == old(bytes) + PutU16(x, t)
    {
      PushLe(2, x);
    }

    method PushU32(x: u32)
      modifies this
      ensures forall t :: bytes + t == old(bytes) + PutU32(x, t)
    {
      PushLe(4, x);
    }

    method PushU64(x: u64)
      modifies this
      ensures forall t :: bytes + t == old(bytes) + PutU64(x, t)
    {
      PushLe(8, x);
    }

    method PushI32(x: i32)
      modifies this
      ensures forall t :: bytes + t == old(bytes) + PutI32(x, t)
    {
      PushU32(if x < 0 then x + 0x1_0000_0000 else x);
    }

    /** Length-prefixed bytes; fails, with nothing more written, when the length is not a u32. */
    method PushBytes(b: Bytes) returns (ok: bool)
      modifies this
      ensures ok <==> |b| <= U32_MAX
      ensures ok ==> forall t :: bytes + t == old(bytes) + PutBytes(b, t)
    {
      if |b| > U32_MAX {
        return false;
      }
      PushU32(|b|);
      PushRaw(b);
      ok := true;
    }
  }

  class Cursor {
    const bytes: Bytes
    var offset: nat

    ghost predicate Valid()
      reads this
    {
      offset <= |bytes| <= ISIZE_MAX
    }

    ghost function Rest(): Bytes
      requires Valid()
      reads this
    {
      bytes[offset..]
    }

    constructor (bytes: Bytes)
      requires |bytes| <= ISIZE_MAX
      ensures Valid() && Rest() == bytes && |this.bytes| == |bytes|
    {
      this.bytes := bytes;
      offset := 0;
    }

    /** A length below 2^32 cannot make `offset + n` overflow a usize. */
    method Take<E>(n: u32, e: E) returns (r: Result<Bytes, E>)
      requires Valid()
      modifies this
      ensures Valid() && Follows(GetRaw(n, old(Rest()), e), r, Rest())
    {
      var end := offset + n;
      if end > |bytes| {
        return Err(e);
      }
      r := Ok(bytes[offset..end]);
      assert r.value == Rest()[..n] && bytes[end..] == Rest()[n..];
      assert Rest() == PutRaw(r.value, bytes[end..]);
      offset := end;
    }

    method TakeLong<E>(n: u64, short: E, over: E) returns (r: Result<Vec<byte>, E>)
      requires Valid()
      modifies this
      ensures Valid() && Follows(GetLong(|bytes|, n, old(Rest()), short, over), r, Rest())
    {
      if offset + n > U64_MAX {
        return Err(over);
      }
      var end := offset + n;
      if end > |bytes| {
        return Err(short);
      }
      r := Ok(bytes[offset..end]);
      assert r.value == Rest()[..n] && bytes[end..] == Rest()[n..];
      assert Rest() == PutRaw(r.value, bytes[end..]);
      offset := end;
    }

    method U8<E>(e: E) returns (r: Result<u8, E>)
      requires Valid()
      modifies this
      ensures Valid() && Follows(GetU8(old(Rest()), e), r, Rest())
    {
      IntegerWidths();
      var b := Take(1, e);
      if b.Err? { return Err(b.error); }
      LeOfFromLe(b.value);
      r := Ok(FromLe(b.value));
      assert old(Rest()) == PutU8(r.value, Rest());
    }

    method U16<E>(e: E) returns (r: Result<u16, E>)
      requires Valid()
      modifies this
      ensures Valid() && Follows(GetU16(old(Rest()), e), r, Rest())
    {
      IntegerWidths();
      var b := Take(2, e);
      if b.Err? { return Err(b.error); }
      LeOfFromLe(b.value);
      r := Ok(FromLe(b.value));
      assert old(Rest()) == PutU16(r.value, Rest());
    }

    method U32<E>(e: E) returns (r: Result<u32, E>)
      requires Valid()
      modifies this
      ensures Valid() && Follows(GetU32(old(Rest()), e), r, Rest())
    {
      IntegerWidths();
      var b := Take(4, e);
      if b.Err? { return Err(b.error); }
      LeOfFromLe(b.value);
      r := Ok(FromLe(b.value));
      assert old(Rest()) == PutU32(r.value, Rest());
    }

    method U64<E>(e: E) returns (r: Result<u64, E>)
      requires Valid()
      modifies this
      ensures Valid() && Follows(GetU64(old(Rest()), e), r, Rest())
    {
      IntegerWidths();
      var b := Take(8, e);
      if b.Err? { return Err(b.error); }
      LeOfFromLe(b.value);
      r := Ok(FromLe(b.value));
      assert old(Rest()) == PutU64(r.value, Rest());
    }

    method I32<E>(e: E) returns (r: Result<i32, E>)
      requires Valid()
      modifies this
      ensures Valid() && Follows(GetI32(old(Rest()), e), r, Rest())
    {
      hide GetU32;
      var n := U32(e);
      if n.Err? { return Err(n.error); }
      var x: int := n.value;
      r := Ok(if x < 0x8000_0000 then x else x - 0x1_0000_0000);
    }

    method LengthPrefixed<E>(e: E) returns (r: Result<Bytes, E>)
      requires Valid()
      modifies this
      ensures Valid() && Follows(GetBytes(old(Rest()), e), r, Rest())
    {
      var n := U32(e);
      if n.Err? { return Err(n.error); }
      r := Take(n.value, e);
    }

    method Text<E>(short: E, bad: E) returns (r: Result<Str, E>)
      requires Valid()
      modifies this
      ensures Valid() && Follows(GetString(old(Rest()), short, bad), r, Rest())
    {
      var b := LengthPrefixed(short);
      if b.Err? { return Err(b.error); }
      if !Utf8(b.value) { return Err(bad); }
      r := Ok(b.value);
    }

    method IsFinished() returns (done: bool)
      requires Valid()
      ensures done <==> Rest() == []
    {
      done := offset == |bytes|;
    }
  }
}
