/**
 Native tensors: which are valid, their byte form, and that decoding accepts exactly the
 byte forms of valid tensors. One binding does not survive: the id used for "no binding".
 */
module Tensors {
  import opened Wrappers
  import opened Bytes
  import opened Capsule
  import opened Graphs
  import opened GraphCodec
  import opened Descriptors

  const TENSOR_MAGIC: Bytes := [0x4E, 0x54, 0x50, 0x39, 0x37, 0x00]
  const TENSOR_HEADER_LEN := 80
  const TENSOR_VERSION := Version(0, 1)
  const NO_GRAPH_BINDING: u32 := U32_MAX

  // A scale is an f32 kept as its bits.
  datatype Quantization =
    | Unquantized
    | SymmetricI8(scale: u32)
    | AffineI8(scale: u32, zeroPoint: i32)

  datatype NativeTensor = NativeTensor(descriptor: TensorDescriptor, graphValue: Option<u32>, quantization: Quantization, payload: Bytes)

  datatype TensorError =
    | Descriptor(error: DescriptorError)
    | TensorTruncated
    | TensorInvalidMagic
    | TensorInvalidHeader
    | TensorUnsupportedVersion(version: Version)
    | TensorInvalidDType(raw: u8)
    | InvalidQuantization
    | InvalidShape
    | PayloadLengthMismatch(expected: u64, actual: nat)
    | DescriptorIntegrityMismatch
    | TensorNonCanonical
    | TensorOverflow

  /******* Sizes *******/

  function Product(shape: seq<u64>): nat {
    if shape == [] then 1 else Product(shape[..|shape| - 1]) * shape[|shape| - 1]
  }

  /** The product of the first `n` dimensions, if none of the products on the way is too large. */
  function CountUpTo(shape: seq<u64>, n: nat): Option<u64>
    requires n <= |shape|
  {
    if n == 0 then Some(1)
    else
      match CountUpTo(shape, n - 1)
      case None => None
      case Some(count) => if count * shape[n - 1] > U64_MAX then None else Some(count * shape[n - 1])
  }

  function ElementCount(shape: seq<u64>): Option<u64> {
    CountUpTo(shape, |shape|)
  }

  /** The checked count is the product, and exists exactly when every leading product fits 64 bits. */
  lemma {:induction false} CountUpToIsProduct(shape: seq<u64>, n: nat)
    requires n <= |shape|
    ensures CountUpTo(shape, n).Some? <==> forall m :: 0 <= m <= n ==> Product(shape[..m]) <= U64_MAX
    ensures CountUpTo(shape, n).Some? ==> CountUpTo(shape, n).value == Product(shape[..n])
    decreases n
  {
    if n > 0 {
      CountUpToIsProduct(shape, n - 1);
      assert shape[..n][..n - 1] == shape[..n - 1];
    }
  }

  function Width(d: DType): u64 {
    match d
    case F32 | I32 => 4
    case F16 | Bf16 => 2
    case I64 => 8
    case I8 | U8Type | Boolean => 1
  }

  /** The f32 with these bits is finite and above zero. */
  predicate PositiveScale(bits: u32) {
    0 < bits < 0x7F80_0000
  }

  /******* Validity *******/

  predicate ValidQuantization(q: Quantization, dtype: DType) {
    match q
    case Unquantized => true
    case SymmetricI8(scale) => dtype == I8 && PositiveScale(scale)
    case AffineI8(scale, zeroPoint) => dtype == I8 && PositiveScale(scale) && -128 <= zeroPoint <= 127
  }

  predicate ValidTensor(t: NativeTensor) {
    && ElementCount(t.descriptor.shape).Some?
    && |t.payload| == t.descriptor.byteLen
    && ValidQuantization(t.quantization, t.descriptor.dtype)
    && |t.payload| == ElementCount(t.descriptor.shape).value * Width(t.descriptor.dtype)
  }

  /** The checks of `validate_tensor`, in their order. */
  function Check(t: NativeTensor): (e: Option<TensorError>)
    ensures e.None? <==> ValidTensor(t)
  {
    match ElementCount(t.descriptor.shape)
    case None => Some(InvalidShape)
    case Some(elements) =>
      if |t.payload| != t.descriptor.byteLen then Some(PayloadLengthMismatch(t.descriptor.byteLen, |t.payload|))
      else if !ValidQuantization(t.quantization, t.descriptor.dtype) then Some(InvalidQuantization)
      else if t.quantization.Unquantized? && elements * Width(t.descriptor.dtype) > U64_MAX then Some(TensorOverflow)
      else
        var expected := if t.quantization.Unquantized? then elements * Width(t.descriptor.dtype) else elements;
        if |t.payload| != expected then Some(PayloadLengthMismatch(expected, |t.payload|)) else None
  }

  /** A valid tensor's payload is as long as its shape says, no product on the way overflowing. */
  lemma PayloadIsShapeTimesWidth(t: NativeTensor)
    requires ValidTensor(t)
    ensures |t.payload| == Product(t.descriptor.shape) * Width(t.descriptor.dtype)
    ensures forall m :: 0 <= m <= |t.descriptor.shape| ==> Product(t.descriptor.shape[..m]) <= U64_MAX
  {
    var shape := t.descriptor.shape;
    CountUpToIsProduct(shape, |shape|);
    assert shape[..|shape|] == shape;
  }

  /******* Quantization fields *******/

  function QuantizationFields(q: Quantization): (u8, u32, i32) {
    match q
    case Unquantized => (0, 0, 0)
    case SymmetricI8(scale) => (1, scale, 0)
    case AffineI8(scale, zeroPoint) => (2, scale, zeroPoint)
  }

  function QuantizationOf(tag: u8, scale: u32, zeroPoint: i32): (r: Result<Quantization, TensorError>)
    ensures r.Ok? ==> QuantizationFields(r.value) == (tag, scale, zeroPoint)
    ensures forall q :: QuantizationFields(q) == (tag, scale, zeroPoint) && ValidQuantization(q, I8) ==> r == Ok(q)
  {
    if tag == 0 && scale == 0 && zeroPoint == 0 then Ok(Unquantized)
    else if tag == 1 && zeroPoint == 0 then
      if PositiveScale(scale) then Ok(SymmetricI8(scale)) else Err(InvalidQuantization)
    else if tag == 2 && -128 <= zeroPoint <= 127 then
      if PositiveScale(scale) then Ok(AffineI8(scale, zeroPoint)) else Err(InvalidQuantization)
    else Err(InvalidQuantization)
  }

  /******* The header *******/

  datatype TensorTags = TensorTags(id: u32, binding: u32, dtype: DType, quantTag: u8, rank: u8)

  datatype TensorSizes = TensorSizes(elements: u64, payloadLen: u64, scale: u32, zeroPoint: i32, descriptorHash: Digest)

  datatype TensorHeader = TensorHeader(minor: u16, tags: TensorTags, sizes: TensorSizes)

  function PutTensorTags(h: TensorTags, t: Bytes): Bytes {
    PutU32(h.id, PutU32(h.binding, PutU8(DTypeTag(h.dtype), PutU8(h.quantTag, PutU8(h.rank, PutU8(0, t))))))
  }

  function PutTensorSizes(h: TensorSizes, t: Bytes): Bytes {
    PutU64(h.elements, PutU64(h.payloadLen, PutU32(h.scale, PutI32(h.zeroPoint, PutRaw(h.descriptorHash, t)))))
  }

  function PutTensorHeader(h: TensorHeader, t: Bytes): Bytes {
    PutRaw(TENSOR_MAGIC, PutU16(TENSOR_HEADER_LEN, PutU16(TENSOR_VERSION.major, PutU16(h.minor,
      PutTensorTags(h.tags, PutTensorSizes(h.sizes, t))))))
  }

  type ReadTensor<T> = Result<(T, Bytes), TensorError>

  function GetTensorTags(s: Bytes): (r: ReadTensor<TensorTags>)
    ensures r.Ok? ==> s == PutTensorTags(r.value.0, r.value.1)
    ensures forall h: TensorTags, t {:trigger PutTensorTags(h, t)} :: s == PutTensorTags(h, t) ==> r == Ok((h, t))
  {
    hide PutU8, GetU8, PutU32, GetU32, DTypeTag, DTypeOf;
    var (id, s1) :- GetU32(s, TensorTruncated);
    var (binding, s2) :- GetU32(s1, TensorTruncated);
    var (tag, s3) :- GetU8(s2, TensorTruncated);
    var dtype :- DTypeOf(tag).OrError(TensorInvalidDType(tag));
    var (quantTag, s4) :- GetU8(s3, TensorTruncated);
    var (rank, s5) :- GetU8(s4, TensorTruncated);
    var (reserved, s6) :- GetU8(s5, TensorTruncated);
    if reserved != 0 then Err(TensorNonCanonical)
    else Ok((TensorTags(id, binding, dtype, quantTag, rank), s6))
  }

  function GetTensorSizes(s: Bytes): (r: ReadTensor<TensorSizes>)
    ensures r.Ok? ==> s == PutTensorSizes(r.value.0, r.value.1)
    ensures forall h: TensorSizes, t {:trigger PutTensorSizes(h, t)} :: s == PutTensorSizes(h, t) ==> r == Ok((h, t))
  {
    hide PutU64, GetU64, PutU32, GetU32, PutI32, GetI32, PutRaw, GetRaw;
    var (elements, s1) :- GetU64(s, TensorTruncated);
    var (payloadLen, s2) :- GetU64(s1, TensorTruncated);
    var (scale, s3) :- GetU32(s2, TensorTruncated);
    var (zeroPoint, s4) :- GetI32(s3, TensorTruncated);
    var (hash, s5) :- GetRaw(32, s4, TensorTruncated);
    Ok((TensorSizes(elements, payloadLen, scale, zeroPoint, hash), s5))
  }

  function GetTensorHeader(s: Bytes): (r: ReadTensor<TensorHeader>)
    ensures r.Ok? ==> s == PutTensorHeader(r.value.0, r.value.1) && r.value.0.minor <= TENSOR_VERSION.minor
    ensures forall h: TensorHeader, t {:trigger PutTensorHeader(h, t)} :: h.minor <= TENSOR_VERSION.minor && s == PutTensorHeader(h, t) ==> r == Ok((h, t))
  {
    hide PutU16, GetU16, PutRaw, GetRaw, PutTensorTags, GetTensorTags, PutTensorSizes, GetTensorSizes;
    var (magic, s1) :- GetRaw(6, s, TensorTruncated);
    if magic != TENSOR_MAGIC then Err(TensorInvalidMagic)
    else
      var (headerLen, s2) :- GetU16(s1, TensorTruncated);
      if headerLen != TENSOR_HEADER_LEN then Err(TensorInvalidHeader)
      else
        var (major, s3) :- GetU16(s2, TensorTruncated);
        var (minor, s4) :- GetU16(s3, TensorTruncated);
        if !TENSOR_VERSION.CanRead(Version(major, minor)) then Err(TensorUnsupportedVersion(Version(major, minor)))
        else
          var (tags, s5) :- GetTensorTags(s4);
          var (sizes, s6) :- GetTensorSizes(s5);
          Ok((TensorHeader(minor, tags, sizes), s6))
  }

  /******* Tensors *******/

  /** A valid tensor of few enough dimensions. */
  predicate Writable(t: NativeTensor) {
    ValidTensor(t) && FitsDescriptor(t.descriptor)
  }

  function BindingField(graphValue: Option<u32>): u32 {
    match graphValue
    case Some(id) => id
    case None => NO_GRAPH_BINDING
  }

  function BindingOf(field: u32): Option<u32> {
    if field == NO_GRAPH_BINDING then None else Some(field)
  }

  function TensorHeaderOf(h: HashFn, minor: u16, t: NativeTensor): TensorHeader
    requires Writable(t)
  {
    var d := t.descriptor;
    var (quantTag, scale, zeroPoint) := QuantizationFields(t.quantization);
    TensorHeader(minor, TensorTags(d.id, BindingField(t.graphValue), d.dtype, quantTag, |d.shape|),
      TensorSizes(ElementCount(d.shape).value, |t.payload|, scale, zeroPoint, h(EncodeTable([d]))))
  }

  function TensorBytes(h: HashFn, minor: u16, t: NativeTensor): Bytes
    requires Writable(t)
  {
    PutTensorHeader(TensorHeaderOf(h, minor, t), PutMany(PutDim, t.descriptor.shape, PutRaw(t.payload, [])))
  }

  function EncodedTensor(h: HashFn, t: NativeTensor): Bytes
    requires Writable(t)
  {
    TensorBytes(h, TENSOR_VERSION.minor, t)
  }

  /** The tensor the parts spell, if it is valid and its descriptor is the one hashed. */
  function Assemble(h: HashFn, head: TensorHeader, shape: Vec<u64>, payload: Bytes): Result<NativeTensor, TensorError>
    requires |shape| <= 255
  {
    var (tags, sizes) := (head.tags, head.sizes);
    var quantization :- QuantizationOf(tags.quantTag, sizes.scale, sizes.zeroPoint);
    var t := NativeTensor(TensorDescriptor(tags.id, tags.dtype, shape, sizes.payloadLen), BindingOf(tags.binding), quantization, payload);
    match Check(t)
    case Some(e) => Err(e)
    case None => if h(EncodeTable([t.descriptor])) != sizes.descriptorHash then Err(DescriptorIntegrityMismatch) else Ok(t)
  }

  function DecodedTensor(h: HashFn, bytes: Vec<byte>): Result<NativeTensor, TensorError> {
    var (head, s1) :- GetTensorHeader(bytes);
    var (shape, s2) :- GetDims(head.tags.rank, s1).OrError(TensorTruncated);
    if ElementCount(shape) != Some(head.sizes.elements) then Err(InvalidShape)
    else
      var (payload, s3) :- GetLong(|bytes|, head.sizes.payloadLen, s2, TensorTruncated, TensorOverflow);
      if s3 != [] then Err(TensorNonCanonical)
      else Assemble(h, head, shape, payload)
  }

  /** Assembling gives a writable tensor back exactly from its own header, its binding not being the sentinel. */
  lemma AssembleExactly(h: HashFn, head: TensorHeader, shape: Vec<u64>, payload: Bytes, t: NativeTensor)
    requires |shape| == head.tags.rank && |payload| == head.sizes.payloadLen && ElementCount(shape) == Some(head.sizes.elements)
    ensures Assemble(h, head, shape, payload) == Ok(t) <==>
            && Writable(t) && t.graphValue != Some(NO_GRAPH_BINDING)
            && head == TensorHeaderOf(h, head.minor, t) && shape == t.descriptor.shape && payload == t.payload
  {
    hide ElementCount, EncodeTable;
  }

  /** Decoding accepts exactly the byte forms of the valid tensors, in either minor version. */
  lemma DecodeExactly(h: HashFn, bytes: Vec<byte>, t: NativeTensor)
    ensures DecodedTensor(h, bytes) == Ok(t) <==>
            && Writable(t) && t.graphValue != Some(NO_GRAPH_BINDING)
            && exists minor: u16 :: minor <= TENSOR_VERSION.minor && bytes == TensorBytes(h, minor, t)
  {
    hide GetTensorHeader, PutTensorHeader, GetDims, PutMany, GetLong, PutRaw, Assemble, ElementCount, TensorHeaderOf, ValidTensor;
    if DecodedTensor(h, bytes) == Ok(t) {
      var (head, s1) := GetTensorHeader(bytes).value;
      var (shape, s2) := GetDims(head.tags.rank, s1).value;
      var (payload, s3) := GetLong(|bytes|, head.sizes.payloadLen, s2, TensorTruncated, TensorOverflow).value;
      AssembleExactly(h, head, shape, payload, t);
      assert bytes == TensorBytes(h, head.minor, t);
    }
    if Writable(t) && t.graphValue != Some(NO_GRAPH_BINDING) {
      forall minor: u16 | minor <= TENSOR_VERSION.minor && bytes == TensorBytes(h, minor, t)
        ensures DecodedTensor(h, bytes) == Ok(t)
      {
        HeaderSizes(h, minor, t);
        AssembleExactly(h, TensorHeaderOf(h, minor, t), t.descriptor.shape, t.payload, t);
      }
    }
  }

  lemma HeaderSizes(h: HashFn, minor: u16, t: NativeTensor)
    requires Writable(t)
    ensures var head := TensorHeaderOf(h, minor, t);
            && head.minor == minor && head.tags.rank == |t.descriptor.shape| && head.sizes.payloadLen == |t.payload|
            && Some(head.sizes.elements) == ElementCount(t.descriptor.shape)
  {
  }

  /** An encoded tensor decodes to itself, except that the sentinel id comes back as no binding. */
  lemma DecodeOfEncode(h: HashFn, t: NativeTensor)
    requires Writable(t) && |EncodedTensor(h, t)| <= ISIZE_MAX
    ensures DecodedTensor(h, EncodedTensor(h, t)) == Ok(t.(graphValue := if t.graphValue == Some(NO_GRAPH_BINDING) then None else t.graphValue))
    ensures DecodedTensor(h, EncodedTensor(h, t)) == Ok(t) <==> t.graphValue != Some(NO_GRAPH_BINDING)
  {
    hide PutTensorHeader, PutMany, PutRaw, DecodedTensor, ElementCount;
    var back := t.(graphValue := if t.graphValue == Some(NO_GRAPH_BINDING) then None else t.graphValue);
    assert TensorHeaderOf(h, TENSOR_VERSION.minor, back) == TensorHeaderOf(h, TENSOR_VERSION.minor, t);
    assert EncodedTensor(h, back) == EncodedTensor(h, t);
    DecodeExactly(h, EncodedTensor(h, t), back);
  }

  /** One byte, bound to the value whose id is the sentinel. */
  const SENTINEL_TENSOR := NativeTensor(TensorDescriptor(1, U8Type, [], 1), Some(NO_GRAPH_BINDING), Unquantized, [0])

  lemma EncodedHeaderLength(head: TensorHeader, t: Bytes)
    ensures |PutTensorHeader(head, t)| == TENSOR_HEADER_LEN + |t|
  {
  }

  /** This tensor comes back without its binding, whatever the hash function. */
  lemma SentinelBindingIsLost(h: HashFn)
    ensures Writable(SENTINEL_TENSOR) && |EncodedTensor(h, SENTINEL_TENSOR)| <= ISIZE_MAX
    ensures DecodedTensor(h, EncodedTensor(h, SENTINEL_TENSOR)) == Ok(SENTINEL_TENSOR.(graphValue := None))
  {
    hide PutTensorHeader, DecodedTensor, EncodeTable;
    var t := SENTINEL_TENSOR;
    assert ElementCount([]) == Some(1);
    var rest := PutMany(PutDim, t.descriptor.shape, PutRaw(t.payload, []));
    EncodedHeaderLength(TensorHeaderOf(h, TENSOR_VERSION.minor, t), rest);
    DecodeOfEncode(h, t);
  }
}
