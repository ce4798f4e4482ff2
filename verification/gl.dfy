/**
 * The WebGL state values the layer passes around and the calls it issues, recorded as an
 * ordered trace instead of being performed.
 */
module Gl {
  import opened Results
  import opened GlTypes

  type BufferId = nat
  type TextureId = nat
  type ProgramId = nat

  datatype Primitive = Points | Lines | LineLoop | LineStrip | Triangles | TriangleStrip | TriangleFan

  /** The numeric value of each primitive mode; POINTS is zero. */
  function PrimitiveCode(p: Primitive): nat {
    match p
    case Points => 0
    case Lines => 1
    case LineLoop => 2
    case LineStrip => 3
    case Triangles => 4
    case TriangleStrip => 5
    case TriangleFan => 6
  }

  datatype Target = Texture2D | CubeMap

  /** The six faces in the order the loader uploads them. */
  datatype CubeFace = PosX | NegX | PosY | NegY | PosZ | NegZ

  const CubeFaces: seq<CubeFace> := [PosX, NegX, PosY, NegY, PosZ, NegZ]

  datatype ImageTarget = Image2D | FaceImage(face: CubeFace)

  datatype WrapMode = Repeat | ClampToEdge | MirroredRepeat

  datatype Filter =
    | Nearest | Linear
    | NearestMipmapNearest | LinearMipmapNearest | NearestMipmapLinear | LinearMipmapLinear

  datatype TexParam =
    | WrapS(wrap: WrapMode)
    | WrapT(wrap: WrapMode)
    | MinFilter(filter: Filter)
    | MagFilter(filter: Filter)

  datatype Capability = Blend | DepthTest

  datatype BlendFactor = SrcAlpha | OneMinusSrcAlpha

  datatype Color = Color(r: real, g: real, b: real, a: real)

  datatype GlCall =
    | UseProgram(program: ProgramId)
    | BindArrayBuffer(buffer: BufferId)
    | BindElementArrayBuffer(buffer: BufferId)
    | ArrayBufferData(floats: seq<real>)
    | ElementBufferData(shorts: seq<nat>)
    | EnableVertexAttribArray(location: int)
    | VertexAttribPointer(location: int, size: nat, dataType: Option<GlType>, normalized: bool, stride: nat, offset: int)
    | DrawElements(mode: Primitive, count: nat, indexType: GlType, first: nat)
    | DrawArrays(mode: Primitive, first: nat, vertexCount: Option<real>)
    | ActiveTexture(unit: nat)
    | BindTexture(target: Target, texture: TextureId)
    | TexImage2D(image: ImageTarget)
    | TexParameter(target: Target, param: TexParam)
    | GenerateMipmap(target: Target)
    | Viewport(x: real, y: real, width: real, height: real)
    | ClearColor(color: Color)
    | Clear(depthBit: bool, colorBit: bool)
    | DepthMask(write: bool)
    | Enable(cap: Capability)
    | Disable(cap: Capability)
    | BlendEquationAdd
    | BlendFunc(source: BlendFactor, destination: BlendFactor)
}
