/**
 The tensor descriptor table and the descriptor frame: what `descriptors.rs` writes and
 exactly which byte strings it reads back.
 */
module Descriptors {
  import opened Wrappers
  import opened Bytes
  import opened Capsule
  import opened Graphs
  import opened GraphCodec

  const TABLE_MAGIC: Bytes := [0x4E, 0x54, 0x53, 0x39, 0x37, 0x00]
  const TABLE_HEADER_LEN := 16
  const FRAME_MAGIC: Bytes := [0x4E, 0x44, 0x46, 0x39, 0x37, 0x00]
  const FRAME_HEADER_LEN := 32
  const FRAME_VERSION := Version(0, 1)

  datatype TensorDescriptor = TensorDescriptor(id: u32, dtype: DType, shape: Vec<u64>, byteLen: u64)

  datatype FrameKind = TokenizerFrame | CodecFrame

  datatype DescriptorFrame = DescriptorFrame(kind: FrameKind, format: Str, payload: Bytes)

  datatype DescriptorError =
    | DescTruncated
    | DescInvalidMagic
    | DescInvalidHeader
    | DescInvalidKind(raw: u8)
    | DescInvalidDType(raw: u8)
    | DescInvalidUtf8
    | DescUnsupportedVersion(version: Version)
    | DescNonCanonical
    | DescOverflow

  type ReadDesc<T> = Result<(T, Bytes), DescriptorError>

  /******* Shapes *******/

  // Dimensions are read alike by two decoders; the caller names the error of a short input.
  datatype Short = Short

  function PutDim(x: u64, t: Bytes): Bytes { PutU64(x, t) }

  function GetDim(s: Bytes): Result<(u64, Bytes), Short> { GetU64(s, Short) }

  predicate AnyDim(x: u64) { true }

  lemma DimCodec()
    ensures ReadsBack(GetDim, PutDim, AnyDim) && ReadsOnly(GetDim, PutDim, AnyDim)
  {
    hide PutU64, GetU64;
    forall x: u64, t
      ensures GetDim(PutDim(x, t)) == Ok((x, t))
    {
    }
  }

  function GetDims(n: u8, s: Bytes): (r: Result<(Vec<u64>, Bytes), Short>)
    ensures r.Ok? ==> |r.value.0| == n && s == PutMany(PutDim, r.value.0, r.value.1)
    ensures forall xs: Vec<u64>, t {:trigger PutMany(PutDim, xs, t)} :: |xs| == n && s == PutMany(PutDim, xs, t) ==> r == Ok((xs, t))
  {
    hide GetMany, PutMany, GetDim, PutDim;
    assert GetMany(GetDim, n, s).Ok? ==> |GetMany(GetDim, n, s).value.0| == n && s == PutMany(PutDim, GetMany(GetDim, n, s).value.0, GetMany(GetDim, n, s).value.1) by {
      if GetMany(GetDim, n, s).Ok? {
        DimCodec();
        ManyReadOnly(GetDim, PutDim, AnyDim, n, s);
      }
    }
    assert forall xs: Vec<u64>, t {:trigger PutMany(PutDim, xs, t)} :: |xs| == n && s == PutMany(PutDim, xs, t) ==> GetMany(GetDim, n, s) == Ok((xs, t)) by {
      DimCodec();
      forall xs: Vec<u64>, t | |xs| == n && s == PutMany(PutDim, xs, t)
        ensures GetMany(GetDim, n, s) == Ok((xs, t))
      {
        ManyReadBack(GetDim, PutDim, AnyDim, xs, t);
      }
    }
    var (xs, t) :- GetMany(GetDim, n, s);
    Ok((xs, t))
  }

  /******* The descriptor table *******/

  predicate FitsDescriptor(d: TensorDescriptor) {
    |d.shape| <= 255
  }

  function PutDescriptor(d: TensorDescriptor, t: Bytes): Bytes {
    if !FitsDescriptor(d) then t
    else PutU32(d.id, PutU8(DTypeTag(d.dtype), PutU8(|d.shape|, PutU16(0, PutU64(d.byteLen, PutMany(PutDim, d.shape, t))))))
  }

  function GetDescriptor(s: Bytes): ReadDesc<TensorDescriptor> {
    var (id, s1) :- GetU32(s, DescTruncated);
    var (tag, s2) :- GetU8(s1, DescTruncated);
    var dtype :- DTypeOf(tag).OrError(DescInvalidDType(tag));
    var (rank, s3) :- GetU8(s2, DescTruncated);
    var (reserved, s4) :- GetU16(s3, DescTruncated);
    if reserved != 0 then Err(DescNonCanonical)
    else
      var (byteLen, s5) :- GetU64(s4, DescTruncated);
      var (shape, s6) :- GetDims(rank, s5).OrError(DescTruncated);
      Ok((TensorDescriptor(id, dtype, shape, byteLen), s6))
  }

  lemma DescriptorCodec()
    ensures ReadsBack(GetDescriptor, PutDescriptor, FitsDescriptor)
    ensures ReadsOnly(GetDescriptor, PutDescriptor, FitsDescriptor)
  {
    hide PutU8, GetU8, PutU16, GetU16, PutU32, GetU32, PutU64, GetU64, PutMany, GetDims, DTypeTag, DTypeOf;
  }

  function PutTableHeader(version: Version, count: u32, t: Bytes): Bytes {
    PutRaw(TABLE_MAGIC, PutU16(TABLE_HEADER_LEN, PutU16(version.major, PutU16(version.minor, PutU32(count, t)))))
  }

  function GetTableHeader(s: Bytes): (r: ReadDesc<(Version, u32)>)
    ensures r.Ok? ==> s == PutTableHeader(r.value.0.0, r.value.0.1, r.value.1) && CURRENT.ir.CanRead(r.value.0.0)
    ensures forall v: Version, n: u32, t {:trigger PutTableHeader(v, n, t)} :: CURRENT.ir.CanRead(v) && s == PutTableHeader(v, n, t) ==> r == Ok(((v, n), t))
  {
    hide PutU16, GetU16, PutU32, GetU32, PutRaw, GetRaw;
    var (magic, s1) :- GetRaw(6, s, DescTruncated);
    if magic != TABLE_MAGIC then Err(DescInvalidMagic)
    else
      var (headerLen, s2) :- GetU16(s1, DescTruncated);
      if headerLen != TABLE_HEADER_LEN then Err(DescInvalidHeader)
      else
        var (major, s3) :- GetU16(s2, DescTruncated);
        var (minor, s4) :- GetU16(s3, DescTruncated);
        if !CURRENT.ir.CanRead(Version(major, minor)) then Err(DescUnsupportedVersion(Version(major, minor)))
        else
          var (count, s5) :- GetU32(s4, DescTruncated);
          Ok(((Version(major, minor), count), s5))
  }

  predicate FitsTable(ds: seq<TensorDescriptor>) {
    |ds| <= U32_MAX && All(FitsDescriptor, ds)
  }

  /** The table as a writer of the given format version leaves it. */
  function TableBytes(version: Version, ds: seq<TensorDescriptor>): Bytes
    requires FitsTable(ds)
  {
    PutTableHeader(version, |ds|, PutMany(PutDescriptor, ds, []))
  }

  function EncodeTable(ds: seq<TensorDescriptor>): Bytes
    requires FitsTable(ds)
  {
    TableBytes(CURRENT.ir, ds)
  }

  function DecodeTable(bytes: Bytes): Result<seq<TensorDescriptor>, DescriptorError> {
    var (header, s1) :- GetTableHeader(bytes);
    var (ds, s2) :- GetMany(GetDescriptor, header.1, s1);
    if s2 != [] then Err(DescNonCanonical) else Ok(ds)
  }

  /** A table of a readable version, holding these descriptors. */
  ghost predicate IsTable(bytes: Bytes, ds: seq<TensorDescriptor>) {
    FitsTable(ds) && exists version :: CURRENT.ir.CanRead(version) && bytes == TableBytes(version, ds)
  }

  /** Decoding accepts exactly the tables of the readable versions, and what is encoded reads back. */
  lemma TableExactly(bytes: Bytes, ds: seq<TensorDescriptor>)
    ensures DecodeTable(bytes) == Ok(ds) <==> IsTable(bytes, ds)
    ensures FitsTable(ds) ==> DecodeTable(EncodeTable(ds)) == Ok(ds)
  {
    hide GetTableHeader, PutTableHeader, GetMany, PutMany, GetDescriptor, PutDescriptor, FitsDescriptor;
    DescriptorCodec();
    if DecodeTable(bytes) == Ok(ds) {
      var (header, s1) := GetTableHeader(bytes).value;
      ManyReadOnly(GetDescriptor, PutDescriptor, FitsDescriptor, header.1, s1);
      assert bytes == TableBytes(header.0, ds);
    }
    if FitsTable(ds) {
      ManyReadBack(GetDescriptor, PutDescriptor, FitsDescriptor, ds, []);
    }
  }

  /******* The descriptor frame *******/

  function FrameTag(k: FrameKind): u8 {
    if k.TokenizerFrame? then 1 else 2
  }

  datatype FrameHeader = FrameHeader(kind: FrameKind, minor: u16, formatLen: u32, payloadLen: u64)

  function PutFrameLens(h: FrameHeader, t: Bytes): Bytes {
    PutU16(0, PutU32(h.formatLen, PutU64(h.payloadLen, PutU32(0, t))))
  }

  function PutFrameTail(h: FrameHeader, t: Bytes): Bytes {
    PutU16(FRAME_VERSION.major, PutU16(h.minor, PutFrameLens(h, t)))
  }

  function PutFrameHeader(h: FrameHeader, t: Bytes): Bytes {
    PutRaw(FRAME_MAGIC, PutU16(FRAME_HEADER_LEN, PutU8(FrameTag(h.kind), PutU8(0, PutFrameTail(h, t)))))
  }

  function GetFrameLens(kind: FrameKind, minor: u16, s: Bytes): (r: ReadDesc<FrameHeader>)
    ensures r.Ok? ==> s == PutFrameLens(r.value.0, r.value.1) && r.value.0.kind == kind && r.value.0.minor == minor
    ensures forall h: FrameHeader, t {:trigger PutFrameLens(h, t)} :: h.kind == kind && h.minor == minor && s == PutFrameLens(h, t) ==> r == Ok((h, t))
  {
    hide PutU16, GetU16, PutU32, GetU32, PutU64, GetU64;
    var (reserved, s1) :- GetU16(s, DescTruncated);
    if reserved != 0 then Err(DescNonCanonical)
    else
      var (formatLen, s2) :- GetU32(s1, DescTruncated);
      var (payloadLen, s3) :- GetU64(s2, DescTruncated);
      var (padding, s4) :- GetU32(s3, DescTruncated);
      if padding != 0 then Err(DescNonCanonical)
      else Ok((FrameHeader(kind, minor, formatLen, payloadLen), s4))
  }

  function GetFrameTail(kind: FrameKind, s: Bytes): (r: ReadDesc<FrameHeader>)
    ensures r.Ok? ==> s == PutFrameTail(r.value.0, r.value.1) && r.value.0.kind == kind && r.value.0.minor <= FRAME_VERSION.minor
    ensures forall h: FrameHeader, t {:trigger PutFrameTail(h, t)} :: h.kind == kind && h.minor <= FRAME_VERSION.minor && s == PutFrameTail(h, t) ==> r == Ok((h, t))
  {
    hide PutU16, GetU16, PutFrameLens, GetFrameLens;
    var (major, s1) :- GetU16(s, DescTruncated);
    var (minor, s2) :- GetU16(s1, DescTruncated);
    if !FRAME_VERSION.CanRead(Version(major, minor)) then Err(DescUnsupportedVersion(Version(major, minor)))
    else GetFrameLens(kind, minor, s2)
  }

  function GetFrameHeader(s: Bytes): (r: ReadDesc<FrameHeader>)
    ensures r.Ok? ==> s == PutFrameHeader(r.value.0, r.value.1) && r.value.0.minor <= FRAME_VERSION.minor
    ensures forall h: FrameHeader, t {:trigger PutFrameHeader(h, t)} :: h.minor <= FRAME_VERSION.minor && s == PutFrameHeader(h, t) ==> r == Ok((h, t))
  {
    hide PutU8, GetU8, PutU16, GetU16, PutRaw, GetRaw, PutFrameTail, GetFrameTail;
    var (magic, s1) :- GetRaw(6, s, DescTruncated);
    if magic != FRAME_MAGIC then Err(DescInvalidMagic)
    else
      var (headerLen, s2) :- GetU16(s1, DescTruncated);
      if headerLen != FRAME_HEADER_LEN then Err(DescInvalidHeader)
      else
        var (tag, s3) :- GetU8(s2, DescTruncated);
        if tag != 1 && tag != 2 then Err(DescInvalidKind(tag))
        else
          var (reserved, s4) :- GetU8(s3, DescTruncated);
          if reserved != 0 then Err(DescNonCanonical)
          else GetFrameTail(if tag == 1 then TokenizerFrame else CodecFrame, s4)
  }

  predicate FitsFrame(f: DescriptorFrame) {
    |f.format| <= U32_MAX && |f.payload| <= U64_MAX
  }

  function FrameBytes(minor: u16, f: DescriptorFrame): Bytes
    requires FitsFrame(f)
  {
    PutFrameHeader(FrameHeader(f.kind, minor, |f.format|, |f.payload|), PutRaw(f.format, PutRaw(f.payload, [])))
  }

  function EncodeFrame(f: DescriptorFrame): Bytes
    requires FitsFrame(f)
  {
    FrameBytes(FRAME_VERSION.minor, f)
  }

  function DecodeFrame(bytes: Vec<byte>): Result<DescriptorFrame, DescriptorError> {
    var (h, s1) :- GetFrameHeader(bytes);
    var (format, s2) :- GetRaw(h.formatLen, s1, DescTruncated);
    if !Utf8(format) then Err(DescInvalidUtf8)
    else
      var (payload, s3) :- GetLong(|bytes|, h.payloadLen, s2, DescTruncated, DescOverflow);
      if s3 != [] then Err(DescNonCanonical)
      else Ok(DescriptorFrame(h.kind, format, payload))
  }

  /** Decoding accepts exactly the frames of the readable minor versions. */
  lemma FrameExactly(bytes: Vec<byte>, f: DescriptorFrame)
    ensures DecodeFrame(bytes) == Ok(f) <==>
            FitsFrame(f) && exists minor: u16 :: minor <= FRAME_VERSION.minor && bytes == FrameBytes(minor, f)
  {
    hide GetFrameHeader, PutFrameHeader, GetRaw, PutRaw, GetLong, Utf8;
    if DecodeFrame(bytes) == Ok(f) {
      var (h, s1) := GetFrameHeader(bytes).value;
      assert bytes == FrameBytes(h.minor, f);
    }
  }
}
