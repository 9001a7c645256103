/** The descriptor and tensor codecs as they run, over a growing buffer and a cursor. */
module TensorStreams {
  import opened Wrappers
  import opened Bytes
  import opened Streams
  import opened Capsule
  import opened Graphs
  import opened GraphCodec
  import opened Descriptors
  import opened Tensors

  /******* Shapes *******/

  method PushDims(out: Buffer, shape: seq<u64>)
    modifies out
    ensures forall t :: out.bytes + t == old(out.bytes) + PutMany(PutDim, shape, t)
  {
    hide PutU64;
    for i := 0 to |shape|
      invariant forall t :: old(out.bytes) + PutFrom(PutDim, shape, 0, t) == out.bytes + PutFrom(PutDim, shape, i, t)
    {
      out.PushU64(shape[i]);
    }
  }

  method ReadDims(c: Cursor, n: u8) returns (r: Result<Vec<u64>, Short>)
    requires c.Valid()
    modifies c
    ensures c.Valid() && Follows(GetDims(n, old(c.Rest())), r, c.Rest())
  {
    hide GetU64;
    var xs: seq<u64> := [];
    for i := 0 to n
      invariant c.Valid() && |xs| == i
      invariant GetMany(GetDim, n, old(c.Rest())) == GetMore(GetDim, n - i, xs, c.Rest())
    {
      var x := c.U64(Short);
      if x.Err? { return Err(x.error); }
      xs := xs + [x.value];
    }
    r := Ok(xs);
  }

  /** The product of the dimensions, None once a product on the way is too large. */
  method CountElements(shape: seq<u64>) returns (r: Option<u64>)
    ensures r.Some? <==> forall m :: 0 <= m <= |shape| ==> Product(shape[..m]) <= U64_MAX
    ensures r.Some? ==> r.value == Product(shape)
    ensures r == ElementCount(shape)
  {
    var count: u64 := 1;
    for i := 0 to |shape|
      invariant CountUpTo(shape, i) == Some(count)
    {
      CountUpToIsProduct(shape, i + 1);
      if count * shape[i] > U64_MAX {
        TooManyElements(shape, i + 1);
        return None;
      }
      count := count * shape[i];
    }
    CountUpToIsProduct(shape, |shape|);
    assert shape[..|shape|] == shape;
    r := Some(count);
  }

  lemma {:induction false} TooManyElements(shape: seq<u64>, n: nat)
    requires n <= |shape| && CountUpTo(shape, n).None?
    ensures ElementCount(shape).None?
    ensures exists m :: 0 <= m <= |shape| && Product(shape[..m]) > U64_MAX
    decreases |shape| - n
  {
    if n < |shape| {
      TooManyElements(shape, n + 1);
    } else {
      CountUpToIsProduct(shape, n);
    }
  }

  /******* The descriptor table *******/

  method PushDescriptor(out: Buffer, d: TensorDescriptor) returns (ok: bool)
    modifies out
    ensures ok <==> FitsDescriptor(d)
    ensures ok ==> forall t :: out.bytes + t == old(out.bytes) + PutDescriptor(d, t)
  {
    hide PutU8, PutU16, PutU32, PutU64, PutMany, DTypeTag;
    if |d.shape| > 255 {
      return false;
    }
    out.PushU32(d.id);
    out.PushU8(DTypeTag(d.dtype));
    out.PushU8(|d.shape|);
    out.PushU16(0);
    out.PushU64(d.byteLen);
    PushDims(out, d.shape);
    ok := true;
  }

  method PushDescriptors(out: Buffer, ds: seq<TensorDescriptor>) returns (ok: bool)
    modifies out
    ensures ok <==> All(FitsDescriptor, ds)
    ensures ok ==> forall t :: out.bytes + t == old(out.bytes) + PutMany(PutDescriptor, ds, t)
  {
    hide PutDescriptor, FitsDescriptor;
    for i := 0 to |ds|
      invariant forall k :: 0 <= k < i ==> FitsDescriptor(ds[k])
      invariant forall t :: old(out.bytes) + PutFrom(PutDescriptor, ds, 0, t) == out.bytes + PutFrom(PutDescriptor, ds, i, t)
    {
      var fits := PushDescriptor(out, ds[i]);
      if !fits {
        return false;
      }
    }
    ok := true;
  }

  /** Fails on exactly the tables too large for their counts; what it writes decodes to the table. */
  method EncodeDescriptors(ds: seq<TensorDescriptor>) returns (r: Result<Bytes, DescriptorError>)
    ensures r.Ok? <==> FitsTable(ds)
    ensures r.Ok? ==> r.value == EncodeTable(ds) && DecodeTable(r.value) == Ok(ds)
    ensures r.Err? ==> r.error == DescOverflow
  {
    hide PutU16, PutU32, PutMany, All, DecodeTable;
    if |ds| > U32_MAX { return Err(DescOverflow); }
    var out := new Buffer();
    out.PushRaw(TABLE_MAGIC);
    out.PushU16(TABLE_HEADER_LEN);
    out.PushU16(CURRENT.ir.major);
    out.PushU16(CURRENT.ir.minor);
    out.PushU32(|ds|);
    var ok := PushDescriptors(out, ds);
    if !ok { return Err(DescOverflow); }
    ghost var expected := EncodeTable(ds);
    assert out.bytes == out.bytes + [] == [] + expected == expected;
    r := Ok(out.bytes);
    TableExactly(r.value, ds);
  }

  method ReadDescriptor(c: Cursor) returns (r: Result<TensorDescriptor, DescriptorError>)
    requires c.Valid()
    modifies c
    ensures c.Valid() && Follows(GetDescriptor(old(c.Rest())), r, c.Rest())
  {
    hide GetU8, GetU16, GetU32, GetU64, GetDims, DTypeOf;
    var id := c.U32(DescTruncated);
    if id.Err? { return Err(id.error); }
    var tag := c.U8(DescTruncated);
    if tag.Err? { return Err(tag.error); }
    var dtype := DTypeOf(tag.value);
    if dtype.Err? { return Err(DescInvalidDType(tag.value)); }
    var rank := c.U8(DescTruncated);
    if rank.Err? { return Err(rank.error); }
    var reserved := c.U16(DescTruncated);
    if reserved.Err? { return Err(reserved.error); }
    if reserved.value != 0 { return Err(DescNonCanonical); }
    var byteLen := c.U64(DescTruncated);
    if byteLen.Err? { return Err(byteLen.error); }
    var shape := ReadDims(c, rank.value);
    if shape.Err? { return Err(DescTruncated); }
    r := Ok(TensorDescriptor(id.value, dtype.value, shape.value, byteLen.value));
  }

  method ReadTableHeader(c: Cursor) returns (r: Result<(Version, u32), DescriptorError>)
    requires c.Valid()
    modifies c
    ensures c.Valid() && Follows(GetTableHeader(old(c.Rest())), r, c.Rest())
  {
    hide GetRaw, GetU16, GetU32;
    var magic := c.Take(6, DescTruncated);
    if magic.Err? { return Err(magic.error); }
    if magic.value != TABLE_MAGIC { return Err(DescInvalidMagic); }
    var headerLen := c.U16(DescTruncated);
    if headerLen.Err? { return Err(headerLen.error); }
    if headerLen.value != TABLE_HEADER_LEN { return Err(DescInvalidHeader); }
    var major := c.U16(DescTruncated);
    if major.Err? { return Err(major.error); }
    var minor := c.U16(DescTruncated);
    if minor.Err? { return Err(minor.error); }
    var version := Version(major.value, minor.value);
    if !CURRENT.ir.CanRead(version) { return Err(DescUnsupportedVersion(version)); }
    var count := c.U32(DescTruncated);
    if count.Err? { return Err(count.error); }
    r := Ok((version, count.value));
  }

  method DecodeDescriptors(bytes: Vec<byte>) returns (r: Result<seq<TensorDescriptor>, DescriptorError>)
    ensures r == DecodeTable(bytes)
    ensures forall ds :: r == Ok(ds) <==> IsTable(bytes, ds)
  {
    hide GetTableHeader, GetDescriptor, IsTable;
    forall ds
      ensures DecodeTable(bytes) == Ok(ds) <==> IsTable(bytes, ds)
    {
      TableExactly(bytes, ds);
    }
    var c := new Cursor(bytes);
    var header := ReadTableHeader(c);
    if header.Err? { return Err(header.error); }
    var ds: seq<TensorDescriptor> := [];
    ghost var s1 := c.Rest();
    var n := header.value.1;
    for i := 0 to n
      invariant c.Valid() && |ds| == i
      invariant GetMany(GetDescriptor, n, s1) == GetMore(GetDescriptor, n - i, ds, c.Rest())
    {
      var d := ReadDescriptor(c);
      if d.Err? { return Err(d.error); }
      ds := ds + [d.value];
    }
    var done := c.IsFinished();
    if !done { return Err(DescNonCanonical); }
    r := Ok(ds);
  }

  /******* The descriptor frame *******/

  method PushFrameHeader(out: Buffer, h: FrameHeader)
    modifies out
    ensures forall t :: out.bytes + t == old(out.bytes) + PutFrameHeader(h, t)
  {
    hide PutU8, PutU16, PutU32, PutU64;
    out.PushRaw(FRAME_MAGIC);
    out.PushU16(FRAME_HEADER_LEN);
    out.PushU8(FrameTag(h.kind));
    out.PushU8(0);
    out.PushU16(FRAME_VERSION.major);
    out.PushU16(h.minor);
    out.PushU16(0);
    out.PushU32(h.formatLen);
    out.PushU64(h.payloadLen);
    out.PushU32(0);
  }

  method EncodeFrameBytes(f: DescriptorFrame) returns (r: Result<Bytes, DescriptorError>)
    ensures r == if FitsFrame(f) then Ok(EncodeFrame(f)) else Err(DescOverflow)
    ensures r.Ok? && |r.value| <= ISIZE_MAX ==> DecodeFrame(r.value) == Ok(f)
  {
    hide PutFrameHeader, DecodeFrame;
    if |f.format| > U32_MAX || |f.payload| > U64_MAX { return Err(DescOverflow); }
    var out := new Buffer();
    PushFrameHeader(out, FrameHeader(f.kind, FRAME_VERSION.minor, |f.format|, |f.payload|));
    out.PushRaw(f.format);
    out.PushRaw(f.payload);
    ghost var expected := EncodeFrame(f);
    assert out.bytes == out.bytes + [] == [] + expected == expected;
    r := Ok(out.bytes);
    if |r.value| <= ISIZE_MAX {
      FrameExactly(r.value, f);
    }
  }

  method ReadFrameLens(c: Cursor, kind: FrameKind, minor: u16) returns (r: Result<FrameHeader, DescriptorError>)
    requires c.Valid()
    modifies c
    ensures c.Valid() && Follows(GetFrameLens(kind, minor, old(c.Rest())), r, c.Rest())
  {
    hide GetU16, GetU32, GetU64;
    var reserved := c.U16(DescTruncated);
    if reserved.Err? { return Err(reserved.error); }
    if reserved.value != 0 { return Err(DescNonCanonical); }
    var formatLen := c.U32(DescTruncated);
    if formatLen.Err? { return Err(formatLen.error); }
    var payloadLen := c.U64(DescTruncated);
    if payloadLen.Err? { return Err(payloadLen.error); }
    var padding := c.U32(DescTruncated);
    if padding.Err? { return Err(padding.error); }
    if padding.value != 0 { return Err(DescNonCanonical); }
    r := Ok(FrameHeader(kind, minor, formatLen.value, payloadLen.value));
  }

  method ReadFrameHeader(c: Cursor) returns (r: Result<FrameHeader, DescriptorError>)
    requires c.Valid()
    modifies c
    ensures c.Valid() && Follows(GetFrameHeader(old(c.Rest())), r, c.Rest())
  {
    hide GetRaw, GetU8, GetU16, GetFrameLens;
    var magic := c.Take(6, DescTruncated);
    if magic.Err? { return Err(magic.error); }
    if magic.value != FRAME_MAGIC { return Err(DescInvalidMagic); }
    var headerLen := c.U16(DescTruncated);
    if headerLen.Err? { return Err(headerLen.error); }
    if headerLen.value != FRAME_HEADER_LEN { return Err(DescInvalidHeader); }
    var tag := c.U8(DescTruncated);
    if tag.Err? { return Err(tag.error); }
    if tag.value != 1 && tag.value != 2 { return Err(DescInvalidKind(tag.value)); }
    var reserved := c.U8(DescTruncated);
    if reserved.Err? { return Err(reserved.error); }
    if reserved.value != 0 { return Err(DescNonCanonical); }
    var major := c.U16(DescTruncated);
    if major.Err? { return Err(major.error); }
    var minor := c.U16(DescTruncated);
    if minor.Err? { return Err(minor.error); }
    var version := Version(major.value, minor.value);
    if !FRAME_VERSION.CanRead(version) { return Err(DescUnsupportedVersion(version)); }
    r := ReadFrameLens(c, if tag.value == 1 then TokenizerFrame else CodecFrame, minor.value);
  }

  method DecodeFrameBytes(bytes: Vec<byte>) returns (r: Result<DescriptorFrame, DescriptorError>)
    ensures r == DecodeFrame(bytes)
    ensures r.Ok? ==> |r.value.payload| <= ISIZE_MAX
  {
    hide GetFrameHeader, GetRaw, GetLong, Utf8;
    var c := new Cursor(bytes);
    var h := ReadFrameHeader(c);
    if h.Err? { return Err(h.error); }
    var format := c.Take(h.value.formatLen, DescTruncated);
    if format.Err? { return Err(format.error); }
    if !Utf8(format.value) { return Err(DescInvalidUtf8); }
    var payload := c.TakeLong(h.value.payloadLen, DescTruncated, DescOverflow);
    if payload.Err? { return Err(payload.error); }
    var done := c.IsFinished();
    if !done { return Err(DescNonCanonical); }
    r := Ok(DescriptorFrame(h.value.kind, format.value, payload.value));
  }

  /******* Tensors *******/

  method PushTensorTags(out: Buffer, h: TensorTags)
    modifies out
    ensures forall t :: out.bytes + t == old(out.bytes) + PutTensorTags(h, t)
  {
    hide PutU8, PutU32, DTypeTag;
    out.PushU32(h.id);
    out.PushU32(h.binding);
    out.PushU8(DTypeTag(h.dtype));
    out.PushU8(h.quantTag);
    out.PushU8(h.rank);
    out.PushU8(0);
  }

  method PushTensorSizes(out: Buffer, h: TensorSizes)
    modifies out
    ensures forall t :: out.bytes + t == old(out.bytes) + PutTensorSizes(h, t)
  {
    hide PutU32, PutU64, PutI32;
    out.PushU64(h.elements);
    out.PushU64(h.payloadLen);
    out.PushU32(h.scale);
    out.PushI32(h.zeroPoint);
    out.PushRaw(h.descriptorHash);
  }

  method PushTensorHeader(out: Buffer, h: TensorHeader)
    modifies out
    ensures forall t :: out.bytes + t == old(out.bytes) + PutTensorHeader(h, t)
  {
    hide PutU16, PutTensorTags, PutTensorSizes;
    out.PushRaw(TENSOR_MAGIC);
    out.PushU16(TENSOR_HEADER_LEN);
    out.PushU16(TENSOR_VERSION.major);
    out.PushU16(h.minor);
    PushTensorTags(out, h.tags);
    PushTensorSizes(out, h.sizes);
  }

  /** Succeeds on exactly the valid tensors of at most 255 dimensions. */
  method EncodeTensor(h: HashFn, t: NativeTensor) returns (r: Result<Bytes, TensorError>)
    ensures r.Ok? <==> Writable(t)
    ensures r.Ok? ==> r.value == EncodedTensor(h, t)
    ensures !ValidTensor(t) ==> Some(r.error) == Check(t)
    ensures ValidTensor(t) && !FitsDescriptor(t.descriptor) ==> r == Err(Descriptor(DescOverflow))
  {
    hide ValidTensor, ElementCount, EncodeTable, DecodeTable, QuantizationFields, PutTensorHeader, PutMany, PutRaw;
    var error := Check(t);
    if error.Some? { return Err(error.value); }
    var d := t.descriptor;
    var table := EncodeDescriptors([d]);
    OneDescriptor(d);
    if table.Err? { return Err(Descriptor(table.error)); }
    var elements := CountElements(d.shape);
    ValidCount(t);
    var (quantTag, scale, zeroPoint) := QuantizationFields(t.quantization);
    var head := TensorHeader(TENSOR_VERSION.minor,
      TensorTags(d.id, BindingField(t.graphValue), d.dtype, quantTag, |d.shape|),
      TensorSizes(elements.value, |t.payload|, scale, zeroPoint, h(table.value)));
    var out := new Buffer();
    PushTensorHeader(out, head);
    PushDims(out, d.shape);
    out.PushRaw(t.payload);
    ghost var expected := EncodedTensor(h, t);
    assert out.bytes == out.bytes + [] == [] + expected == expected;
    r := Ok(out.bytes);
  }

  lemma OneDescriptor(d: TensorDescriptor)
    ensures FitsTable([d]) <==> FitsDescriptor(d)
  {
    assert [d][0] == d;
  }

  lemma ValidCount(t: NativeTensor)
    requires ValidTensor(t)
    ensures ElementCount(t.descriptor.shape).Some? && |t.payload| == t.descriptor.byteLen
  {
  }

  method ReadTensorTags(c: Cursor) returns (r: Result<TensorTags, TensorError>)
    requires c.Valid()
    modifies c
    ensures c.Valid() && Follows(GetTensorTags(old(c.Rest())), r, c.Rest())
  {
    hide GetU8, GetU32, DTypeOf;
    var id := c.U32(TensorTruncated);
    if id.Err? { return Err(id.error); }
    var binding := c.U32(TensorTruncated);
    if binding.Err? { return Err(binding.error); }
    var tag := c.U8(TensorTruncated);
    if tag.Err? { return Err(tag.error); }
    var dtype := DTypeOf(tag.value);
    if dtype.Err? { return Err(TensorInvalidDType(tag.value)); }
    var quantTag := c.U8(TensorTruncated);
    if quantTag.Err? { return Err(quantTag.error); }
    var rank := c.U8(TensorTruncated);
    if rank.Err? { return Err(rank.error); }
    var reserved := c.U8(TensorTruncated);
    if reserved.Err? { return Err(reserved.error); }
    if reserved.value != 0 { return Err(TensorNonCanonical); }
    r := Ok(TensorTags(id.value, binding.value, dtype.value, quantTag.value, rank.value));
  }

  method ReadTensorSizes(c: Cursor) returns (r: Result<TensorSizes, TensorError>)
    requires c.Valid()
    modifies c
    ensures c.Valid() && Follows(GetTensorSizes(old(c.Rest())), r, c.Rest())
  {
    hide GetU32, GetU64, GetI32, GetRaw;
    var elements := c.U64(TensorTruncated);
    if elements.Err? { return Err(elements.error); }
    var payloadLen := c.U64(TensorTruncated);
    if payloadLen.Err? { return Err(payloadLen.error); }
    var scale := c.U32(TensorTruncated);
    if scale.Err? { return Err(scale.error); }
    var zeroPoint := c.I32(TensorTruncated);
    if zeroPoint.Err? { return Err(zeroPoint.error); }
    var hash := c.Take(32, TensorTruncated);
    if hash.Err? { return Err(hash.error); }
    r := Ok(TensorSizes(elements.value, payloadLen.value, scale.value, zeroPoint.value, hash.value));
  }

  method ReadTensorHeader(c: Cursor) returns (r: Result<TensorHeader, TensorError>)
    requires c.Valid()
    modifies c
    ensures c.Valid() && Follows(GetTensorHeader(old(c.Rest())), r, c.Rest())
  {
    hide GetRaw, GetU16, GetTensorTags, GetTensorSizes;
    var magic := c.Take(6, TensorTruncated);
    if magic.Err? { return Err(magic.error); }
    if magic.value != TENSOR_MAGIC { return Err(TensorInvalidMagic); }
    var headerLen := c.U16(TensorTruncated);
    if headerLen.Err? { return Err(headerLen.error); }
    if headerLen.value != TENSOR_HEADER_LEN { return Err(TensorInvalidHeader); }
    var major := c.U16(TensorTruncated);
    if major.Err? { return Err(major.error); }
    var minor := c.U16(TensorTruncated);
    if minor.Err? { return Err(minor.error); }
    var version := Version(major.value, minor.value);
    if !TENSOR_VERSION.CanRead(version) { return Err(TensorUnsupportedVersion(version)); }
    var tags := ReadTensorTags(c);
    if tags.Err? { return Err(tags.error); }
    var sizes := ReadTensorSizes(c);
    if sizes.Err? { return Err(sizes.error); }
    r := Ok(TensorHeader(minor.value, tags.value, sizes.value));
  }

  method AssembleTensor(h: HashFn, head: TensorHeader, shape: Vec<u64>, payload: Bytes) returns (r: Result<NativeTensor, TensorError>)
    requires |shape| <= 255
    ensures r == Assemble(h, head, shape, payload)
  {
    hide ValidTensor, ElementCount, EncodeTable, DecodeTable, QuantizationOf, Check;
    var quantization := QuantizationOf(head.tags.quantTag, head.sizes.scale, head.sizes.zeroPoint);
    if quantization.Err? { return Err(quantization.error); }
    var d := TensorDescriptor(head.tags.id, head.tags.dtype, shape, head.sizes.payloadLen);
    var t := NativeTensor(d, BindingOf(head.tags.binding), quantization.value, payload);
    var error := Check(t);
    if error.Some? { return Err(error.value); }
    OneDescriptor(d);
    var table := EncodeDescriptors([d]);
    if h(table.value) != head.sizes.descriptorHash { return Err(DescriptorIntegrityMismatch); }
    r := Ok(t);
  }

  method DecodeTensor(h: HashFn, bytes: Vec<byte>) returns (r: Result<NativeTensor, TensorError>)
    ensures r == DecodedTensor(h, bytes)
  {
    hide GetTensorHeader, GetDims, GetLong, ElementCount, Assemble;
    var c := new Cursor(bytes);
    var head := ReadTensorHeader(c);
    if head.Err? { return Err(head.error); }
    var shape := ReadDims(c, head.value.tags.rank);
    if shape.Err? { return Err(TensorTruncated); }
    var elements := CountElements(shape.value);
    if elements != Some(head.value.sizes.elements) { return Err(InvalidShape); }
    var payload := c.TakeLong(head.value.sizes.payloadLen, TensorTruncated, TensorOverflow);
    if payload.Err? { return Err(payload.error); }
    var done := c.IsFinished();
    if !done { return Err(TensorNonCanonical); }
    r := AssembleTensor(h, head.value, shape.value, payload.value);
  }
}
