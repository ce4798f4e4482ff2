/**
 * Geometry: vertex arrays uploaded into buffers together with their layouts, an optional
 * 16-bit index buffer, and the calls that bind and draw them.
 */
module Geometry {
  import opened Results
  import opened Tables
  import opened GlTypes
  import opened Gl
  import opened VertexFormats
  import opened Programs

  /** One vertex array of a geometry description: the float data and its shorthand format. */
  datatype VertexArray = VertexArray(data: seq<real>, format: seq<FormatEntry>)

  /** `config.vertices`: absent (or otherwise falsy), a single array, or a list of arrays. */
  datatype VerticesInput = NoVertexInput | OneArray(single: VertexArray) | ArrayList(arrays: seq<VertexArray>)

  /** A geometry description, as passed to `createGeometry` or fetched as JSON. */
  datatype GeometryConfig = GeometryConfig(
    vertices: VerticesInput,
    primitiveType: Option<Primitive>,
    indices: Option<seq<int>>)

  /** The 16-bit element buffer built from `config.indices`. */
  datatype IndexBuffer = IndexBuffer(buffer: BufferId, indexType: GlType, count: nat, data: seq<nat>)

  /** The record `createGeometry` returns. */
  datatype Geometry = Geometry(
    primitive: Primitive,
    vertexBuffers: seq<VertexBuffer>,
    vertexCount: Option<real>,   // None where JavaScript divides by a zero stride
    index: Option<IndexBuffer>)

  /**
   * The primitive as the source resolves it: `config.primitiveType || gl.TRIANGLES`. POINTS has
   * the value zero, which is falsy, so it is replaced by TRIANGLES as well.
   */
  function PrimitiveAsWritten(requested: Option<Primitive>): (p: Primitive)
    ensures p != Points
    ensures requested.None? ==> p == Triangles
    ensures requested.Some? && requested.value != Points ==> p == requested.value
  {
    if requested.None? || PrimitiveCode(requested.value) == 0 then Triangles else requested.value
  }

  /** A geometry that asks for POINTS is drawn as TRIANGLES. */
  lemma PointsBecomeTriangles()
    ensures PrimitiveAsWritten(Some(Points)) == Triangles
    ensures PrimitiveAsWritten(Some(Points)) != Points
  {
  }

  /** The evident intent: TRIANGLES only when no primitive type is given. */
  function ResolvePrimitive(requested: Option<Primitive>): (p: Primitive)
    ensures requested.Some? ==> p == requested.value
    ensures requested.None? ==> p == Triangles
  {
    match requested
    case None => Triangles
    case Some(q) => q
  }

  /** The two resolutions differ on exactly one input: an explicit POINTS. */
  lemma ResolutionsDifferOnlyOnPoints(requested: Option<Primitive>)
    ensures PrimitiveAsWritten(requested) != ResolvePrimitive(requested) <==> requested == Some(Points)
  {
  }

  /** `new Uint16Array(indices)`: every index is taken modulo 2^16. */
  function ToUint16(indices: seq<int>): (r: seq<nat>)
    ensures |r| == |indices|
    ensures forall i :: 0 <= i < |indices| ==> r[i] < 0x1_0000 && (r[i] - indices[i]) % 0x1_0000 == 0
  {
    seq(|indices|, i requires 0 <= i < |indices| => indices[i] % 0x1_0000)
  }

  /** Indices that already fit in 16 bits are uploaded unchanged. */
  lemma ToUint16KeepsSmall(indices: seq<int>)
    requires forall i :: 0 <= i < |indices| ==> 0 <= indices[i] < 0x1_0000
    ensures ToUint16(indices) == indices
  {
  }

  /** The list of arrays a description names; a single array counts as a list of one. */
  function ArraysOf(vertices: VerticesInput): seq<VertexArray>
    requires !vertices.NoVertexInput?
  {
    match vertices
    case OneArray(a) => [a]
    case ArrayList(arrays) => arrays
  }

  /** Array j, among the first n, is the first whose format names a type outside the table. */
  predicate FirstBadArray(arrays: seq<VertexArray>, j: int, n: nat)
    requires n <= |arrays|
  {
    && 0 <= j < n
    && ConvertVertexFormat(arrays[j].format).Err?
    && forall k :: 0 <= k < j ==> ConvertVertexFormat(arrays[k].format).Ok?
  }

  /**
   * `_createVertexBuffer` over the first n arrays: array i goes into buffer `first + i` with its
   * converted layout; the first layout that fails to convert throws.
   */
  function CreateVertexBuffers(arrays: seq<VertexArray>, first: BufferId, n: nat): (r: Result<seq<VertexBuffer>>)
    requires n <= |arrays|
    ensures r.Ok? <==> forall k :: 0 <= k < n ==> ConvertVertexFormat(arrays[k].format).Ok?
    ensures r.Err? ==> exists j :: FirstBadArray(arrays, j, n) && r.error == ConvertVertexFormat(arrays[j].format).error
    ensures r.Ok? ==> |r.value| == n
    ensures r.Ok? ==> forall k :: 0 <= k < n ==>
              r.value[k] == VertexBuffer(ConvertVertexFormat(arrays[k].format).value, first + k)
  {
    if n == 0 then Ok([])
    else
      var prev := CreateVertexBuffers(arrays, first, n - 1);
      if prev.Err? then
        var j :| FirstBadArray(arrays, j, n - 1) && prev.error == ConvertVertexFormat(arrays[j].format).error;
        assert FirstBadArray(arrays, j, n);
        prev
      else
        var format := ConvertVertexFormat(arrays[n - 1].format);
        if format.Err? then
          assert FirstBadArray(arrays, n - 1, n);
          Err(format.error)
        else
          AppendBuffer(arrays, first, prev.value, n);
          Ok(prev.value + [VertexBuffer(format.value, first + n - 1)])
  }

  /** Appending the buffer of array n-1 to the buffers of the first n-1 arrays gives those of the first n. */
  lemma AppendBuffer(arrays: seq<VertexArray>, first: BufferId, prev: seq<VertexBuffer>, n: nat)
    requires 0 < n <= |arrays| && |prev| == n - 1
    requires forall k :: 0 <= k < n ==> ConvertVertexFormat(arrays[k].format).Ok?
    requires forall k :: 0 <= k < n - 1 ==> prev[k] == VertexBuffer(ConvertVertexFormat(arrays[k].format).value, first + k)
    ensures var buffers := prev + [VertexBuffer(ConvertVertexFormat(arrays[n - 1].format).value, first + n - 1)];
            forall k :: 0 <= k < n ==> buffers[k] == VertexBuffer(ConvertVertexFormat(arrays[k].format).value, first + k)
  {
    var last := VertexBuffer(ConvertVertexFormat(arrays[n - 1].format).value, first + n - 1);
    var buffers := prev + [last];
    forall k | 0 <= k < n
      ensures buffers[k] == VertexBuffer(ConvertVertexFormat(arrays[k].format).value, first + k)
    {
      if k < n - 1 {
        assert buffers[k] == prev[k];
      } else {
        assert buffers[k] == last;
      }
    }
  }

  /**
   * `vertexCount`: the first array's length divided by the number of floats in one vertex of its
   * layout. A zero stride makes the division non-finite, modelled as None.
   */
  function VertexCount(arrayLength: nat, stride: nat): (c: Option<real>)
    ensures c.None? <==> stride == 0
    ensures c.Some? ==> c.value * (stride as real) == 4.0 * (arrayLength as real)
  {
    if stride == 0 then None else Some((arrayLength as real) / ((stride as real) / 4.0))
  }

  /**
   * The body of `createGeometry` once the primitive is chosen: vertex buffers take ids `first`,
   * `first + 1`, …; an index buffer, when `indices` is given (even empty), takes the next id and
   * holds 16-bit indices.
   */
  function BuildGeometry(config: GeometryConfig, first: BufferId, primitive: Primitive): (r: Result<Geometry>)
    ensures config.vertices.NoVertexInput? ==> r == Err(VerticesRequired)
    ensures config.vertices == ArrayList([]) ==> r == Err(NoVertices)
    ensures r.Ok? <==> && !config.vertices.NoVertexInput?
                       && |ArraysOf(config.vertices)| > 0
                       && forall k :: 0 <= k < |ArraysOf(config.vertices)| ==>
                            ConvertVertexFormat(ArraysOf(config.vertices)[k].format).Ok?
    ensures r.Err? && !config.vertices.NoVertexInput? && |ArraysOf(config.vertices)| > 0 ==>
              exists j :: FirstBadArray(ArraysOf(config.vertices), j, |ArraysOf(config.vertices)|)
                          && r.error == ConvertVertexFormat(ArraysOf(config.vertices)[j].format).error
    ensures r.Ok? ==> BuffersBuilt(config, first, r.value) && r.value.primitive == primitive
  {
    if config.vertices.NoVertexInput? then Err(VerticesRequired)
    else
      var arrays := ArraysOf(config.vertices);
      if |arrays| < 1 then Err(NoVertices)
      else
        var buffers := CreateVertexBuffers(arrays, first, |arrays|);
        if buffers.Err? then Err(buffers.error)
        else
          var index :=
            if config.indices.None? then None
            else Some(IndexBuffer(first + |arrays|, UnsignedShort, |config.indices.value|, ToUint16(config.indices.value)));
          Ok(Geometry(primitive, buffers.value,
                      VertexCount(|arrays[0].data|, buffers.value[0].format.stride), index))
  }

  /**
   * `createGeometry` as written: missing vertices and an empty list throw, the first layout that
   * does not convert throws, and the primitive is `config.primitiveType || gl.TRIANGLES`.
   */
  function CreateGeometry(config: GeometryConfig, first: BufferId): (r: Result<Geometry>)
    ensures config.vertices.NoVertexInput? ==> r == Err(VerticesRequired)
    ensures config.vertices == ArrayList([]) ==> r == Err(NoVertices)
    ensures r.Ok? <==> && !config.vertices.NoVertexInput?
                       && |ArraysOf(config.vertices)| > 0
                       && forall k :: 0 <= k < |ArraysOf(config.vertices)| ==>
                            ConvertVertexFormat(ArraysOf(config.vertices)[k].format).Ok?
    ensures r.Err? && !config.vertices.NoVertexInput? && |ArraysOf(config.vertices)| > 0 ==>
              exists j :: FirstBadArray(ArraysOf(config.vertices), j, |ArraysOf(config.vertices)|)
                          && r.error == ConvertVertexFormat(ArraysOf(config.vertices)[j].format).error
    ensures r.Ok? ==> GeometryBuilt(config, first, r.value)
  {
    BuildGeometry(config, first, PrimitiveAsWritten(config.primitiveType))
  }

  /** `createGeometry` with the evidently intended default: only a missing primitive becomes TRIANGLES. */
  function CreateIntendedGeometry(config: GeometryConfig, first: BufferId): (r: Result<Geometry>)
    ensures r.Ok? ==> BuffersBuilt(config, first, r.value) && r.value.primitive == ResolvePrimitive(config.primitiveType)
  {
    BuildGeometry(config, first, ResolvePrimitive(config.primitiveType))
  }

  /**
   * The written and the intended `createGeometry` fail alike and build the same buffers; their
   * geometries differ in the primitive alone, and only when POINTS was asked for.
   */
  lemma IntendedGeometryDiffersOnlyOnPoints(config: GeometryConfig, first: BufferId)
    ensures CreateIntendedGeometry(config, first).Ok? <==> CreateGeometry(config, first).Ok?
    ensures CreateGeometry(config, first).Err? ==> CreateIntendedGeometry(config, first) == CreateGeometry(config, first)
    ensures CreateGeometry(config, first).Ok? ==>
              && CreateIntendedGeometry(config, first).value
                   == CreateGeometry(config, first).value.(primitive := ResolvePrimitive(config.primitiveType))
              && ((CreateIntendedGeometry(config, first).value != CreateGeometry(config, first).value)
                    <==> config.primitiveType == Some(Points))
  {
    ResolutionsDifferOnlyOnPoints(config.primitiveType);
    var written := CreateGeometry(config, first);
    var intended := CreateIntendedGeometry(config, first);
    if written.Ok? {
      assert intended.value.primitive == ResolvePrimitive(config.primitiveType);
      assert written.value.primitive == PrimitiveAsWritten(config.primitiveType);
    }
  }

  /** A geometry created with POINTS is drawn as TRIANGLES. */
  lemma CreatedPointsDrawTriangles(config: GeometryConfig, first: BufferId)
    requires config.primitiveType == Some(Points) && CreateGeometry(config, first).Ok?
    ensures DrawGeometry(CreateGeometry(config, first).value)[0].mode == Triangles
  {
    CreateThenDraw(config, first);
  }

  /** What a successfully created geometry holds apart from its primitive, in terms of its description. */
  ghost predicate BuffersBuilt(config: GeometryConfig, first: BufferId, g: Geometry) {
    && !config.vertices.NoVertexInput?
    && var arrays := ArraysOf(config.vertices);
    && |arrays| > 0
    && |g.vertexBuffers| == |arrays|
    && (forall k :: 0 <= k < |arrays| ==>
          && ConvertVertexFormat(arrays[k].format).Ok?
          && g.vertexBuffers[k] == VertexBuffer(ConvertVertexFormat(arrays[k].format).value, first + k))
    && g.vertexCount == VertexCount(|arrays[0].data|, Offset(arrays[0].format, |arrays[0].format|))
    && (g.index.Some? <==> config.indices.Some?)
    && (g.index.Some? ==>
          && g.index.value.buffer == first + |arrays|
          && g.index.value.indexType == UnsignedShort
          && g.index.value.count == |config.indices.value|
          && g.index.value.data == ToUint16(config.indices.value))
  }

  /** What `createGeometry` as written produces, in terms of its description. */
  ghost predicate GeometryBuilt(config: GeometryConfig, first: BufferId, g: Geometry) {
    BuffersBuilt(config, first, g) && g.primitive == PrimitiveAsWritten(config.primitiveType)
  }

  /** The first array, among the first n, whose layout does not convert. */
  function FirstBadIndex(arrays: seq<VertexArray>, n: nat): (r: Option<nat>)
    requires n <= |arrays|
    ensures r.None? <==> forall k :: 0 <= k < n ==> ConvertVertexFormat(arrays[k].format).Ok?
    ensures r.Some? ==> FirstBadArray(arrays, r.value, n)
  {
    if n == 0 then None
    else
      var prev := FirstBadIndex(arrays, n - 1);
      if prev.Some? then prev
      else if ConvertVertexFormat(arrays[n - 1].format).Err? then Some(n - 1)
      else None
  }

  /** `_createVertexBuffer`'s uploads for the first n arrays: bind buffer `first + k`, then its floats. */
  function VertexUploads(arrays: seq<VertexArray>, first: BufferId, n: nat): (r: seq<GlCall>)
    requires n <= |arrays|
    ensures |r| == 2 * n
    ensures forall k :: 0 <= k < n ==> r[2 * k] == BindArrayBuffer(first + k) && r[2 * k + 1] == ArrayBufferData(arrays[k].data)
  {
    if n == 0 then []
    else
      var prev := VertexUploads(arrays, first, n - 1);
      var r := prev + [BindArrayBuffer(first + n - 1), ArrayBufferData(arrays[n - 1].data)];
      assert forall k :: 0 <= k < n - 1 ==> r[2 * k] == prev[2 * k] && r[2 * k + 1] == prev[2 * k + 1];
      r
  }

  /** Only one array can be the first whose layout does not convert. */
  lemma FirstBadArrayUnique(arrays: seq<VertexArray>, j: int, j': int, n: nat)
    requires n <= |arrays|
    requires FirstBadArray(arrays, j, n) && FirstBadArray(arrays, j', n)
    ensures j == j'
  {
  }

  /**
   * The uploads of `createGeometry` once its vertex list is known to be non-empty: every vertex
   * buffer and then the index buffer when every layout converts, otherwise the buffers up to and
   * including the first whose layout does not.
   */
  function ArrayUploads(arrays: seq<VertexArray>, first: BufferId, indices: Option<seq<int>>): (r: seq<GlCall>)
    requires |arrays| > 0
    ensures (forall k :: 0 <= k < |arrays| ==> ConvertVertexFormat(arrays[k].format).Ok?) ==>
              && |r| == 2 * |arrays| + (if indices.Some? then 2 else 0)
              && (forall k :: 0 <= k < |arrays| ==>
                    r[2 * k] == BindArrayBuffer(first + k) && r[2 * k + 1] == ArrayBufferData(arrays[k].data))
              && (indices.Some? ==>
                    r[2 * |arrays|] == BindElementArrayBuffer(first + |arrays|)
                    && r[2 * |arrays| + 1] == ElementBufferData(ToUint16(indices.value)))
    ensures forall j :: FirstBadArray(arrays, j, |arrays|) ==>
              && |r| == 2 * (j + 1)
              && forall k :: 0 <= k <= j ==>
                   r[2 * k] == BindArrayBuffer(first + k) && r[2 * k + 1] == ArrayBufferData(arrays[k].data)
  {
    match FirstBadIndex(arrays, |arrays|)
    case Some(j) =>
      var r := VertexUploads(arrays, first, j + 1);
      forall j' | FirstBadArray(arrays, j', |arrays|)
        ensures && |r| == 2 * (j' + 1)
                && forall k :: 0 <= k <= j' ==>
                     r[2 * k] == BindArrayBuffer(first + k) && r[2 * k + 1] == ArrayBufferData(arrays[k].data)
      {
        FirstBadArrayUnique(arrays, j, j', |arrays|);
      }
      r
    case None =>
      var vertex := VertexUploads(arrays, first, |arrays|);
      var index :=
        if indices.None? then []
        else [BindElementArrayBuffer(first + |arrays|), ElementBufferData(ToUint16(indices.value))];
      assert forall k :: 0 <= k < |vertex| ==> (vertex + index)[k] == vertex[k];
      assert forall j :: !FirstBadArray(arrays, j, |arrays|);
      vertex + index
  }

  /**
   * The buffer uploads `createGeometry` issues. Each array's buffer is bound and filled before
   * its layout is converted, so a layout that throws leaves the uploads up to and including its
   * own; the index buffer is uploaded only after every vertex buffer succeeded.
   */
  function CreateGeometryCalls(config: GeometryConfig, first: BufferId): (r: seq<GlCall>)
    ensures config.vertices.NoVertexInput? || config.vertices == ArrayList([]) ==> r == []
    ensures CreateGeometry(config, first).Ok? ==>
              var arrays := ArraysOf(config.vertices);
              var n := |arrays|;
              && |r| == 2 * n + (if config.indices.Some? then 2 else 0)
              && (forall k :: 0 <= k < n ==>
                    r[2 * k] == BindArrayBuffer(first + k) && r[2 * k + 1] == ArrayBufferData(arrays[k].data))
              && (config.indices.Some? ==>
                    r[2 * n] == BindElementArrayBuffer(first + n)
                    && r[2 * n + 1] == ElementBufferData(ToUint16(config.indices.value)))
    ensures !config.vertices.NoVertexInput? ==>
              var arrays := ArraysOf(config.vertices);
              forall j :: FirstBadArray(arrays, j, |arrays|) ==>
                && |r| == 2 * (j + 1)
                && forall k :: 0 <= k <= j ==>
                     r[2 * k] == BindArrayBuffer(first + k) && r[2 * k + 1] == ArrayBufferData(arrays[k].data)
  {
    if config.vertices.NoVertexInput? || |ArraysOf(config.vertices)| < 1 then []
    else ArrayUploads(ArraysOf(config.vertices), first, config.indices)
  }

  /** `drawGeometry`: indexed geometry draws its indices, other geometry draws its vertices. */
  function DrawGeometry(g: Geometry): (r: seq<GlCall>)
    ensures |r| == 1
    ensures g.index.Some? ==> r[0] == DrawElements(g.primitive, g.index.value.count, g.index.value.indexType, 0)
    ensures g.index.None? ==> r[0] == DrawArrays(g.primitive, 0, g.vertexCount)
  {
    match g.index
    case Some(ib) => [DrawElements(g.primitive, ib.count, ib.indexType, 0)]
    case None => [DrawArrays(g.primitive, 0, g.vertexCount)]
  }

  /**
   * Drawing a freshly created geometry: with indices, exactly the given number of 16-bit indices
   * in the primitive `createGeometry` resolved; without, the vertex count of the first array.
   */
  lemma CreateThenDraw(config: GeometryConfig, first: BufferId)
    requires CreateGeometry(config, first).Ok?
    ensures var draw := DrawGeometry(CreateGeometry(config, first).value)[0];
            && (config.indices.Some? ==>
                  draw == DrawElements(PrimitiveAsWritten(config.primitiveType), |config.indices.value|, UnsignedShort, 0))
            && (config.indices.None? ==>
                  var a := ArraysOf(config.vertices)[0];
                  draw == DrawArrays(PrimitiveAsWritten(config.primitiveType), 0,
                                     VertexCount(|a.data|, Offset(a.format, |a.format|))))
  {
    var g := CreateGeometry(config, first).value;
    assert GeometryBuilt(config, first, g);
    DrawBuilt(config, first, g);
  }

  lemma DrawBuilt(config: GeometryConfig, first: BufferId, g: Geometry)
    requires GeometryBuilt(config, first, g)
    ensures var draw := DrawGeometry(g)[0];
            && (config.indices.Some? ==>
                  draw == DrawElements(PrimitiveAsWritten(config.primitiveType), |config.indices.value|, UnsignedShort, 0))
            && (config.indices.None? ==>
                  var a := ArraysOf(config.vertices)[0];
                  draw == DrawArrays(PrimitiveAsWritten(config.primitiveType), 0,
                                     VertexCount(|a.data|, Offset(a.format, |a.format|))))
  {
  }

  /** The calls that bind every vertex buffer of a geometry to a program's attributes, in order. */
  function BindBuffers(program: VertexFormat, buffers: seq<VertexBuffer>): (r: seq<GlCall>)
    ensures |r| >= |buffers|
    ensures |buffers| > 0 ==> r[0] == BindArrayBuffer(buffers[0].buffer)
  {
    if |buffers| == 0 then []
    else EnableVertexBuffer(program, buffers[0]) + BindBuffers(program, buffers[1..])
  }

  /** The calls `_enableVertexBuffer` issues for each buffer, one block per buffer. */
  function BufferBlocks(program: VertexFormat, buffers: seq<VertexBuffer>): (r: seq<seq<GlCall>>)
    ensures |r| == |buffers|
    ensures forall i :: 0 <= i < |buffers| ==> r[i] == EnableVertexBuffer(program, buffers[i])
  {
    if |buffers| == 0 then []
    else
      var rest := BufferBlocks(program, buffers[1..]);
      assert forall i :: 1 <= i < |buffers| ==> buffers[1..][i - 1] == buffers[i];
      [EnableVertexBuffer(program, buffers[0])] + rest
  }

  /** The blocks laid end to end. */
  function Flatten(blocks: seq<seq<GlCall>>): seq<GlCall> {
    if |blocks| == 0 then [] else blocks[0] + Flatten(blocks[1..])
  }

  /** The number of calls in the first k blocks. */
  function LengthBefore(blocks: seq<seq<GlCall>>, k: nat): nat
    requires k <= |blocks|
  {
    if k == 0 then 0 else |blocks[0]| + LengthBefore(blocks[1..], k - 1)
  }

  /** The total number of calls `_enableVertexBuffer` issues for the first k buffers. */
  function BlocksBefore(program: VertexFormat, buffers: seq<VertexBuffer>, k: nat): nat
    requires k <= |buffers|
  {
    LengthBefore(BufferBlocks(program, buffers), k)
  }

  /** The calls for every buffer are exactly their blocks laid end to end. */
  lemma {:induction false} BindBuffersFlattens(program: VertexFormat, buffers: seq<VertexBuffer>)
    ensures BindBuffers(program, buffers) == Flatten(BufferBlocks(program, buffers))
  {
    if |buffers| > 0 {
      BindBuffersFlattens(program, buffers[1..]);
      assert BufferBlocks(program, buffers)[1..] == BufferBlocks(program, buffers[1..]);
    }
  }

  /** Block k sits in the flattened sequence right after the blocks before it. */
  lemma {:induction false} FlattenPlacesBlock(blocks: seq<seq<GlCall>>, k: nat)
    requires k < |blocks|
    ensures BlockAt(Flatten(blocks), LengthBefore(blocks, k), blocks[k])
  {
    var whole := Flatten(blocks);
    assert whole == blocks[0] + Flatten(blocks[1..]);
    if k == 0 {
      SliceAfterPrefix(whole, [], whole, 0, blocks[0]);
    } else {
      FlattenPlacesBlock(blocks[1..], k - 1);
      assert blocks[1..][k - 1] == blocks[k];
      SliceAfterPrefix(whole, blocks[0], Flatten(blocks[1..]), LengthBefore(blocks[1..], k - 1), blocks[k]);
    }
  }

  /** All the blocks together make up the flattened sequence. */
  lemma {:induction false} FlattenLength(blocks: seq<seq<GlCall>>)
    ensures |Flatten(blocks)| == LengthBefore(blocks, |blocks|)
  {
    if |blocks| > 0 {
      FlattenLength(blocks[1..]);
    }
  }

  /**
   * The loop over a geometry's vertex buffers: buffer k's calls appear whole, in buffer order,
   * right after the calls of the buffers before it.
   */
  lemma BindBuffersPlacesBlock(program: VertexFormat, buffers: seq<VertexBuffer>, k: nat)
    requires k < |buffers|
    ensures BlockAt(BindBuffers(program, buffers), BlocksBefore(program, buffers, k), EnableVertexBuffer(program, buffers[k]))
  {
    BindBuffersFlattens(program, buffers);
    FlattenPlacesBlock(BufferBlocks(program, buffers), k);
  }

  /** The calls for all buffers are exactly as many as their blocks hold. */
  lemma BindBuffersLength(program: VertexFormat, buffers: seq<VertexBuffer>)
    ensures |BindBuffers(program, buffers)| == BlocksBefore(program, buffers, |buffers|)
  {
    BindBuffersFlattens(program, buffers);
    FlattenLength(BufferBlocks(program, buffers));
  }

  /** `block` occurs in `whole` starting at position `at`. */
  ghost predicate BlockAt(whole: seq<GlCall>, at: nat, block: seq<GlCall>) {
    at + |block| <= |whole| && whole[at..at + |block|] == block
  }

  /** A block found in the rest of a sequence is found, shifted by the prefix, in the whole. */
  lemma SliceAfterPrefix(whole: seq<GlCall>, head: seq<GlCall>, rest: seq<GlCall>, i: nat, block: seq<GlCall>)
    requires whole == head + rest
    requires BlockAt(rest, i, block)
    ensures BlockAt(whole, |head| + i, block)
  {
    assert whole[|head| + i..|head| + i + |block|] == rest[i..i + |block|];
  }

  /** Every array buffer bound while using a geometry is one of its vertex buffers. */
  lemma {:induction false} BindBuffersBindsOwnBuffers(program: VertexFormat, buffers: seq<VertexBuffer>)
    ensures forall c :: c in BindBuffers(program, buffers) && c.BindArrayBuffer? ==>
              exists k :: 0 <= k < |buffers| && c.buffer == buffers[k].buffer
  {
    if |buffers| > 0 {
      BindBuffersBindsOwnBuffers(program, buffers[1..]);
      var head := EnableVertexBuffer(program, buffers[0]);
      forall c | c in BindBuffers(program, buffers) && c.BindArrayBuffer?
        ensures exists k :: 0 <= k < |buffers| && c.buffer == buffers[k].buffer
      {
        if c in head {
          var i :| 0 <= i < |head| && head[i] == c;
          assert i == 0;
        } else {
          assert c in BindBuffers(program, buffers[1..]);
          var k :| 0 <= k < |buffers[1..]| && c.buffer == buffers[1..][k].buffer;
          assert buffers[k + 1] == buffers[1..][k];
        }
      }
    }
  }

  /**
   * `useGeometry`: use the program, bind each vertex buffer's shared attributes, and bind the
   * index buffer last when there is one.
   */
  function UseGeometry(g: Geometry, info: ProgramInfo): (r: seq<GlCall>)
    ensures |r| >= 1 && r[0] == UseProgram(info.program)
    ensures var binds := BindBuffers(info.vertexFormat, g.vertexBuffers);
            && |r| == 1 + |binds| + (if g.index.Some? then 1 else 0)
            && r[1..1 + |binds|] == binds
    ensures g.index.Some? ==> r[|r| - 1] == BindElementArrayBuffer(g.index.value.buffer)
    ensures forall c :: c in r && c.BindElementArrayBuffer? ==> g.index.Some? && c.buffer == g.index.value.buffer
  {
    var binds := BindBuffers(info.vertexFormat, g.vertexBuffers);
    assert forall c :: c in binds ==> !c.BindElementArrayBuffer? by {
      NoElementBindInBuffers(info.vertexFormat, g.vertexBuffers);
    }
    var tail := if g.index.Some? then [BindElementArrayBuffer(g.index.value.buffer)] else [];
    var r := [UseProgram(info.program)] + binds + tail;
    assert r[1..1 + |binds|] == binds;
    r
  }

  /** Binding vertex buffers never touches the element array binding. */
  lemma {:induction false} NoElementBindInBuffers(program: VertexFormat, buffers: seq<VertexBuffer>)
    ensures forall c :: c in BindBuffers(program, buffers) ==> !c.BindElementArrayBuffer?
  {
    if |buffers| > 0 {
      NoElementBindInBuffers(program, buffers[1..]);
      var head := EnableVertexBuffer(program, buffers[0]);
      forall c | c in head ensures !c.BindElementArrayBuffer? {
        var i :| 0 <= i < |head| && head[i] == c;
      }
    }
  }

  /** What fetching a geometry's JSON produced: a rejection, or a parsed description. */
  datatype FetchOutcome = FetchFailed | Fetched(config: GeometryConfig)

  /** The record `loadGeometry` returns; `loaded` and `geometry` change when the fetch completes. */
  datatype GeometryInfo = GeometryInfo(src: string, loaded: bool, geometry: Option<Geometry>)

  /** `loadGeometry`: nothing is loaded until the fetch completes. */
  function LoadGeometry(src: string): (info: GeometryInfo)
    ensures info.src == src && !info.loaded && info.geometry.None?
  {
    GeometryInfo(src, false, None)
  }

  /**
   * The fetch's continuation: the parsed description is turned into a geometry and the record is
   * marked loaded; a rejected fetch or a description that throws leaves the record as it was and
   * rejects the promise.
   */
  function CompleteGeometryLoad(info: GeometryInfo, outcome: FetchOutcome, first: BufferId): (r: (GeometryInfo, Result<Geometry>))
    ensures r.0.src == info.src
    ensures r.1.Ok? <==> outcome.Fetched? && CreateGeometry(outcome.config, first).Ok?
    ensures r.1.Ok? ==> r.0.loaded && r.0.geometry == Some(r.1.value)
                        && GeometryBuilt(outcome.config, first, r.1.value)
    ensures r.1.Err? ==> r.0 == info
    ensures outcome.FetchFailed? ==> r.1 == Err(GeometryFetchFailed)
  {
    match outcome
    case FetchFailed => (info, Err(GeometryFetchFailed))
    case Fetched(config) =>
      match CreateGeometry(config, first)
      case Err(e) => (info, Err(e))
      case Ok(g) => (info.(loaded := true, geometry := Some(g)), Ok(g))
  }

  /** A geometry record that reports loaded always carries its geometry. */
  predicate LoadedHasGeometry(info: GeometryInfo) {
    info.loaded ==> info.geometry.Some?
  }

  lemma LoadKeepsLoadedHasGeometry(info: GeometryInfo, outcome: FetchOutcome, first: BufferId)
    requires LoadedHasGeometry(info)
    ensures LoadedHasGeometry(CompleteGeometryLoad(info, outcome, first).0)
    ensures LoadedHasGeometry(LoadGeometry(info.src))
  {
  }
}
