/**
 * Shader-variable type tags (section 2.10.4 of the OpenGL ES 2.0 specification, adopted by
 * WebGL 1.0) together with the vertex data types of section 2.8, and the reflection table that
 * turns a tag and an array size into a component count, a scalar data type and a byte size.
 */
module GlTypes {
  import opened Results

  /** The number of elements of a vector, or of rows of a square matrix. */
  type Rank = n: int | 2 <= n <= 4 witness 2

  datatype GlType =
    | Byte | UnsignedByte | Short | UnsignedShort | Int | UnsignedInt | Float
    | FloatVec(n: Rank)
    | IntVec(n: Rank)
    | Bool
    | BoolVec(n: Rank)
    | FloatMat(n: Rank)
    | Sampler2D
    | SamplerCube

  /** The numeric value of each tag as the GL context reports it. */
  function Code(t: GlType): int {
    match t
    case Byte => 0x1400
    case UnsignedByte => 0x1401
    case Short => 0x1402
    case UnsignedShort => 0x1403
    case Int => 0x1404
    case UnsignedInt => 0x1405
    case Float => 0x1406
    case FloatVec(n) => if n == 2 then 0x8B50 else if n == 3 then 0x8B51 else 0x8B52
    case IntVec(n) => if n == 2 then 0x8B53 else if n == 3 then 0x8B54 else 0x8B55
    case Bool => 0x8B56
    case BoolVec(n) => if n == 2 then 0x8B57 else if n == 3 then 0x8B58 else 0x8B59
    case FloatMat(n) => if n == 2 then 0x8B5A else if n == 3 then 0x8B5B else 0x8B5C
    case Sampler2D => 0x8B5E
    case SamplerCube => 0x8B60
  }

  /** Decodes a reported type value; any value outside the table is unknown. */
  function FromCode(c: int): (r: Option<GlType>)
    ensures r.Some? ==> Code(r.value) == c
  {
    if c == 0x1400 then Some(Byte)
    else if c == 0x1401 then Some(UnsignedByte)
    else if c == 0x1402 then Some(Short)
    else if c == 0x1403 then Some(UnsignedShort)
    else if c == 0x1404 then Some(Int)
    else if c == 0x1405 then Some(UnsignedInt)
    else if c == 0x1406 then Some(Float)
    else if c == 0x8B50 then Some(FloatVec(2))
    else if c == 0x8B51 then Some(FloatVec(3))
    else if c == 0x8B52 then Some(FloatVec(4))
    else if c == 0x8B53 then Some(IntVec(2))
    else if c == 0x8B54 then Some(IntVec(3))
    else if c == 0x8B55 then Some(IntVec(4))
    else if c == 0x8B56 then Some(Bool)
    else if c == 0x8B57 then Some(BoolVec(2))
    else if c == 0x8B58 then Some(BoolVec(3))
    else if c == 0x8B59 then Some(BoolVec(4))
    else if c == 0x8B5A then Some(FloatMat(2))
    else if c == 0x8B5B then Some(FloatMat(3))
    else if c == 0x8B5C then Some(FloatMat(4))
    else if c == 0x8B5E then Some(Sampler2D)
    else if c == 0x8B60 then Some(SamplerCube)
    else None
  }

  /** Every tag is recognised from its own value, so decoding and encoding are inverse. */
  lemma CodeRoundTrip(t: GlType)
    ensures FromCode(Code(t)) == Some(t)
  {
  }

  /**
   * The source derives a vector's rank by subtracting the tag of the rank-2 (rank-1 for booleans)
   * member of its family; this is sound because the tags of a family are contiguous.
   */
  lemma CodeOffsetGivesRank(n: Rank)
    ensures 2 + (Code(IntVec(n)) - Code(IntVec(2))) == n
    ensures 2 + (Code(FloatVec(n)) - Code(FloatVec(2))) == n
    ensures 1 + (Code(BoolVec(n)) - Code(Bool)) == n
    ensures 2 + (Code(FloatMat(n)) - Code(FloatMat(2))) == n
  {
  }

  predicate IsScalar(t: GlType) {
    t.Byte? || t.UnsignedByte? || t.Short? || t.UnsignedShort? || t.Int? || t.UnsignedInt? || t.Float? || t.Bool?
  }

  predicate IsSampler(t: GlType) {
    t.Sampler2D? || t.SamplerCube?
  }

  /** Bytes of one scalar of a data type. */
  function ScalarBytes(t: GlType): nat {
    match t
    case Byte | UnsignedByte | Bool => 1
    case Short | UnsignedShort => 2
    case Int | UnsignedInt | Float => 4
    case _ => 0
  }

  /** Scalars per element: the rank of a vector, the square of a matrix's rank, else one. */
  function Width(t: GlType): nat {
    match t
    case FloatVec(n) => n
    case IntVec(n) => n
    case BoolVec(n) => n
    case FloatMat(n) => n * n
    case _ => 1
  }

  /** JavaScript's `arraySize || 1`: an absent or zero array size counts as one element. */
  function ElementCount(arraySize: Option<nat>): (c: nat)
    ensures c >= 1
    ensures arraySize.Some? && arraySize.value > 0 ==> c == arraySize.value
  {
    if arraySize.None? || arraySize.value == 0 then 1 else arraySize.value
  }

  /** The record `getInfoForType` returns for a recognised tag. */
  datatype TypeInfo = TypeInfo(
    glType: GlType,
    arraySize: Option<nat>,
    byteSize: Option<nat>,   // null for samplers
    dataType: Option<GlType>, // null for samplers
    components: nat)

  /** Reflection of one recognised tag. */
  function InfoForType(t: GlType, arraySize: Option<nat>): (r: TypeInfo)
    ensures r.glType == t && r.arraySize == arraySize
    ensures r.components == ElementCount(arraySize) * Width(t)
    ensures r.byteSize.None? <==> IsSampler(t)
    ensures r.dataType.None? <==> IsSampler(t)
    ensures r.dataType.Some? ==> IsScalar(r.dataType.value)
    ensures r.dataType.Some? ==> r.byteSize == Some(ScalarBytes(r.dataType.value) * r.components)
    ensures IsScalar(t) ==> r.dataType == Some(t)
    ensures t.FloatVec? || t.FloatMat? ==> r.dataType == Some(Float)
    ensures t.IntVec? ==> r.dataType == Some(Int)
    ensures t.BoolVec? ==> r.dataType == Some(Bool)
  {
    var count := ElementCount(arraySize);
    match t
    case Byte | UnsignedByte => TypeInfo(t, arraySize, Some(1 * count), Some(t), count)
    case Short | UnsignedShort => TypeInfo(t, arraySize, Some(2 * count), Some(t), count)
    case Int | UnsignedInt | Float => TypeInfo(t, arraySize, Some(4 * count), Some(t), count)
    case IntVec(n) => TypeInfo(t, arraySize, Some(4 * (count * n)), Some(Int), count * n)
    case FloatVec(n) => TypeInfo(t, arraySize, Some(4 * (count * n)), Some(Float), count * n)
    case Bool => TypeInfo(t, arraySize, Some(1 * count), Some(Bool), count)
    case BoolVec(n) => TypeInfo(t, arraySize, Some(1 * (count * n)), Some(Bool), count * n)
    case FloatMat(n) => TypeInfo(t, arraySize, Some(4 * (count * (n * n))), Some(Float), count * (n * n))
    case Sampler2D | SamplerCube => TypeInfo(t, arraySize, None, None, count)
  }

  /**
   * The byte-size rule: scalar bytes (1 for bytes and booleans, 2 for shorts, 4 for ints and
   * floats) times the rank (its square for matrices) times the element count.
   */
  lemma ByteSizeRule(t: GlType, arraySize: Option<nat>)
    requires !IsSampler(t)
    ensures InfoForType(t, arraySize).byteSize.Some?
    ensures InfoForType(t, arraySize).byteSize.value
         == (if t.Byte? || t.UnsignedByte? || t.Bool? || t.BoolVec? then 1
             else if t.Short? || t.UnsignedShort? then 2
             else 4) * Width(t) * ElementCount(arraySize)
  {
    var info := InfoForType(t, arraySize);
    assert info.byteSize.value == ScalarBytes(info.dataType.value) * (ElementCount(arraySize) * Width(t));
  }

  /** `getInfoForType` on a reported value: undefined (None) for a value outside the table. */
  function InfoForCode(code: int, arraySize: Option<nat>): (r: Option<TypeInfo>)
    ensures r.None? <==> FromCode(code).None?
    ensures r.Some? ==> r.value == InfoForType(FromCode(code).value, arraySize)
  {
    match FromCode(code)
    case None => None
    case Some(t) => Some(InfoForType(t, arraySize))
  }

  /** One entry of getActiveAttrib / getActiveUniform, with the location the context assigned it. */
  datatype ActiveVariable = ActiveVariable(name: string, typeCode: int, size: nat, location: int)
}
