/**
 * A panorama: its description decoded into a texture target and a stereo mode, its textures
 * loaded (one per eye, or one shared), the loaded gate, and one eye's render as the GL calls and
 * uniform values it produces.
 */
module Panorama {
  import opened Results
  import opened Tables
  import opened Gl
  import opened Textures
  import opened Programs
  import Geometry
  import Uniforms
  import Scheduler
  import VertexFormats

  /** The stereo mode codes. Any other code selects no special UV handling. */
  const Mono: int := 1
  const StereoTextures: int := 2
  const StereoTopBottom: int := 3
  const StereoLeftRight: int := 4

  const DefaultGeometrySrc := "../assets/sphere.json"

  /** `config.src`: absent, one path, or a list of paths. */
  datatype PanoSource = NoSource | OnePath(path: string) | PathList(paths: seq<string>)

  /** The fields of a panorama's description. */
  datatype PanoConfig = PanoConfig(
    opacity: Option<real>,
    src: PanoSource,
    stereoMode: Option<int>,
    geometrySrc: Option<string>,
    generateMipmaps: Option<bool>)

  /** What `_decodeTextureType` settles: the paths as a list, the texture target and the stereo mode. */
  datatype TextureLayout = TextureLayout(paths: seq<string>, target: Target, stereoMode: int)

  /** `stereoMode || MONO`: an absent or zero code means mono. */
  function ModeOrMono(mode: Option<int>): (m: int)
    ensures m != 0
    ensures mode.Some? && mode.value != 0 ==> m == mode.value
  {
    if mode.Some? && mode.value != 0 then mode.value else Mono
  }

  /**
   * `_decodeTextureType`: a missing (or empty) source throws; one path is wrapped into a list. One
   * path is an equirect image in the requested mode, two are an equirect image per eye, six are a
   * cube map and twelve a cube map per eye; any other count throws.
   */
  function DecodeTextureType(src: PanoSource, stereoMode: Option<int>): (r: Result<TextureLayout>)
    ensures src.NoSource? || src == OnePath("") ==> r == Err(SrcRequired)
    ensures r.Ok? ==> |r.value.paths| in {1, 2, 6, 12}
    ensures r.Ok? ==> r.value.paths == (if src.OnePath? then [src.path] else src.paths)
    ensures r.Ok? ==> (r.value.target == Texture2D <==> |r.value.paths| <= 2)
    ensures r.Ok? ==> r.value.stereoMode == (if |r.value.paths| == 1 then ModeOrMono(stereoMode)
                                             else if |r.value.paths| == 6 then Mono
                                             else StereoTextures)
    ensures src.PathList? && |src.paths| !in {1, 2, 6, 12} ==> r == Err(PanoSrcCount)
    ensures src.OnePath? && src.path != "" ==> r.Ok?
    ensures src.PathList? && |src.paths| in {1, 2, 6, 12} ==> r.Ok?
  {
    if src.NoSource? || src == OnePath("") then Err(SrcRequired)
    else
      var paths := if src.OnePath? then [src.path] else src.paths;
      if |paths| == 1 then Ok(TextureLayout(paths, Texture2D, ModeOrMono(stereoMode)))
      else if |paths| == 2 then Ok(TextureLayout(paths, Texture2D, StereoTextures))
      else if |paths| == 6 then Ok(TextureLayout(paths, CubeMap, Mono))
      else if |paths| == 12 then Ok(TextureLayout(paths, CubeMap, StereoTextures))
      else Err(PanoSrcCount)
  }

  /** Stereo, in the sense that each eye sees a different image, exactly for two and twelve paths or a split single image. */
  lemma DecodedStereo(src: PanoSource, stereoMode: Option<int>)
    requires DecodeTextureType(src, stereoMode).Ok?
    ensures var d := DecodeTextureType(src, stereoMode).value;
            d.stereoMode == StereoTextures <==> |d.paths| in {2, 12} || (|d.paths| == 1 && ModeOrMono(stereoMode) == StereoTextures)
  {
  }

  /** The six face paths for one eye, starting at `base`, in the order +x, -x, +y, -y, +z, -z. */
  function CubeSourcesAt(paths: seq<string>, base: nat): (c: CubeSources)
    requires base + 6 <= |paths|
    ensures forall i :: 0 <= i < 6 ==> FaceSources(c)[i] == Some(paths[base + i])
  {
    CubeSources(Some(paths[base]), Some(paths[base + 1]), Some(paths[base + 2]),
                Some(paths[base + 3]), Some(paths[base + 4]), Some(paths[base + 5]))
  }

  /** The texture options a panorama asks for: only mipmaps, off unless requested. */
  function PanoTextureOptions(mips: Option<bool>): (o: TextureOptions)
    ensures o.generateMipmaps == Some(mips == Some(true))
    ensures o.clampS.None? && o.clampT.None? && o.minFilter.None? && o.magFilter.None?
  {
    TextureOptions(None, None, None, None, Some(mips == Some(true)))
  }

  /** The two eyes' texture records; with one image both are the same record. */
  datatype EyeTextures = EyeTextures(left: TextureInfo, right: TextureInfo)

  /**
   * `_loadTextures`: one or two equirect loads, or one or two cube loads; a single load serves
   * both eyes. The second eye's texture gets the next texture name.
   */
  function LoadTextures(paths: seq<string>, mips: Option<bool>, first: TextureId): (r: Result<EyeTextures>)
    requires |paths| in {1, 2, 6, 12}
    ensures r.Ok? ==> r.value.left.texture == first
    ensures r.Ok? && |paths| in {1, 6} ==> r.value.right == r.value.left
    ensures r.Ok? && |paths| in {2, 12} ==> r.value.right.texture == first + 1
    ensures r.Ok? ==> !r.value.left.loaded && !r.value.right.loaded
    ensures r.Ok? ==> r.value.left.sampling == CreateSampling(PanoTextureOptions(mips))
                      && r.value.right.sampling == r.value.left.sampling
    ensures r.Ok? <==> if |paths| <= 2 then forall i :: 0 <= i < |paths| ==> paths[i] != ""
                       else paths[0] != "" && (|paths| == 12 ==> paths[6] != "")
    ensures r.Err? ==> r.error == (if |paths| <= 2 then SrcRequired else PosXRequired)
    ensures r.Ok? && |paths| <= 2 ==> r.value.left.sources == [Some(paths[0])]
    ensures r.Ok? && |paths| == 2 ==> r.value.right.sources == [Some(paths[1])]
    ensures r.Ok? && |paths| >= 6 ==> r.value.left.sources == FaceSources(CubeSourcesAt(paths, 0))
    ensures r.Ok? && |paths| == 12 ==> r.value.right.sources == FaceSources(CubeSourcesAt(paths, 6))
  {
    var opts := PanoTextureOptions(mips);
    if |paths| <= 2 then
      var left :- LoadTexture2D(Some(paths[0]), opts, first);
      if |paths| == 2 then
        var right :- LoadTexture2D(Some(paths[1]), opts, first + 1);
        Ok(EyeTextures(left, right))
      else Ok(EyeTextures(left, left))
    else
      var left :- LoadTextureCube(CubeSourcesAt(paths, 0), opts, first);
      if |paths| == 12 then
        var right :- LoadTextureCube(CubeSourcesAt(paths, 6), opts, first + 1);
        Ok(EyeTextures(left, right))
      else Ok(EyeTextures(left, left))
  }

  /**
   * Which paths each eye's texture fetches: the left eye takes the first one path or the first
   * six faces, and a separate right texture takes the next one or the next six.
   */
  lemma EyeSources(paths: seq<string>, mips: Option<bool>, first: TextureId)
    requires |paths| in {1, 2, 6, 12} && LoadTextures(paths, mips, first).Ok?
    ensures var t := LoadTextures(paths, mips, first).value;
            var per := if |paths| <= 2 then 1 else 6;
            && |t.left.sources| == per
            && (forall i :: 0 <= i < per ==> t.left.sources[i] == Some(paths[i]))
            && (|paths| in {2, 12} ==>
                  |t.right.sources| == per && forall i :: 0 <= i < per ==> t.right.sources[i] == Some(paths[per + i]))
            && (|paths| in {1, 6} ==> t.right == t.left)
  {
  }

  /** A panorama's state. */
  datatype Pano = Pano(
    opacity: real,
    target: Target,
    stereoMode: int,
    program: ProgramInfo,
    geometry: Geometry.GeometryInfo,
    left: TextureInfo,
    right: TextureInfo)

  /**
   * The constructor: opacity defaults to 1, the description is decoded, then the shader program
   * (whose outcome is given) is taken, the geometry requested and the textures loaded. The
   * first error in that order is the constructor's.
   */
  function NewPano(config: PanoConfig, program: Result<ProgramInfo>, firstTexture: TextureId): (r: Result<Pano>)
    ensures DecodeTextureType(config.src, config.stereoMode).Err? ==> r == Err(DecodeTextureType(config.src, config.stereoMode).error)
    ensures DecodeTextureType(config.src, config.stereoMode).Ok? && program.Err? ==> r == Err(program.error)
    ensures r.Ok? ==> && r.value.opacity == config.opacity.GetOr(1.0)
                      && r.value.program == program.value
                      && r.value.geometry == Geometry.LoadGeometry(if Truthy(config.geometrySrc) then config.geometrySrc.value else DefaultGeometrySrc)
                      && r.value.target == DecodeTextureType(config.src, config.stereoMode).value.target
                      && r.value.stereoMode == DecodeTextureType(config.src, config.stereoMode).value.stereoMode
                      && !IsLoaded(r.value)
                      && !r.value.geometry.loaded && !r.value.left.loaded && !r.value.right.loaded
    ensures DecodeTextureType(config.src, config.stereoMode).Ok? && program.Ok? ==>
              var paths := DecodeTextureType(config.src, config.stereoMode).value.paths;
              var textures := LoadTextures(paths, config.generateMipmaps, firstTexture);
              && (textures.Err? ==> r == Err(textures.error))
              && (textures.Ok? ==> r.Ok? && r.value.left == textures.value.left && r.value.right == textures.value.right)
  {
    var decoded :- DecodeTextureType(config.src, config.stereoMode);
    var info :- program;
    var geometry := Geometry.LoadGeometry(if Truthy(config.geometrySrc) then config.geometrySrc.value else DefaultGeometrySrc);
    var textures :- LoadTextures(decoded.paths, config.generateMipmaps, firstTexture);
    Ok(Pano(if config.opacity.Some? then config.opacity.value else 1.0,
            decoded.target, decoded.stereoMode, info, geometry, textures.left, textures.right))
  }

  /** `isLoaded`: the geometry is loaded and so is the texture whichever eye renders. */
  predicate IsLoaded(p: Pano): (r: bool)
    ensures r <==> && p.geometry.loaded && EyeTexture(p, Scheduler.Left).loaded
                   && EyeTexture(p, Scheduler.Right).loaded && EyeTexture(p, Scheduler.Mono).loaded
  {
    assert EyeTexture(p, Scheduler.Left) == p.left && EyeTexture(p, Scheduler.Right) == p.right;
    p.geometry.loaded && p.left.loaded && p.right.loaded
  }

  /**
   * A texture completion reaches every eye holding that texture: with a shared record, both
   * fields see the change.
   */
  function WithTexture(p: Pano, t: TextureInfo): (r: Pano)
    ensures r.left == (if p.left.texture == t.texture then t else p.left)
    ensures r.right == (if p.right.texture == t.texture then t else p.right)
    ensures r.geometry == p.geometry && r.program == p.program && r.opacity == p.opacity
    ensures r.target == p.target && r.stereoMode == p.stereoMode
  {
    p.(left := if p.left.texture == t.texture then t else p.left,
       right := if p.right.texture == t.texture then t else p.right)
  }

  /** A geometry completion replaces the geometry record. */
  function WithGeometry(p: Pano, g: Geometry.GeometryInfo): (r: Pano)
    ensures r.geometry == g && r.left == p.left && r.right == p.right
    ensures r.program == p.program && r.opacity == p.opacity
    ensures r.target == p.target && r.stereoMode == p.stereoMode
  {
    p.(geometry := g)
  }

  /** The events that complete a panorama's loads. */
  datatype LoadEvent = TextureDone(texture: TextureInfo) | GeometryDone(geometry: Geometry.GeometryInfo)

  function ApplyLoads(p: Pano, events: seq<LoadEvent>): Pano
    decreases |events|
  {
    if events == [] then p
    else
      var next := match events[0]
                  case TextureDone(t) => WithTexture(p, t)
                  case GeometryDone(g) => WithGeometry(p, g);
      ApplyLoads(next, events[1..])
  }

  /**
   * With one shared texture, the two eyes stay the same record through any completions, so the
   * panorama is loaded as soon as the geometry and that one texture are.
   */
  lemma {:induction false} SharedTextureStaysShared(p: Pano, events: seq<LoadEvent>)
    requires p.left == p.right
    ensures ApplyLoads(p, events).left == ApplyLoads(p, events).right
    ensures IsLoaded(ApplyLoads(p, events)) <==> ApplyLoads(p, events).geometry.loaded && ApplyLoads(p, events).left.loaded
    decreases |events|
  {
    if events != [] {
      var next := match events[0]
                  case TextureDone(t) => WithTexture(p, t)
                  case GeometryDone(g) => WithGeometry(p, g);
      SharedTextureStaysShared(next, events[1..]);
    }
  }

  /** With two textures, finishing one eye's texture does not finish the other's. */
  lemma SeparateTexturesLoadSeparately(p: Pano, t: TextureInfo)
    requires p.left.texture != p.right.texture && !p.right.loaded
    requires t.texture == p.left.texture
    ensures !IsLoaded(WithTexture(p, t))
  {
  }

  /** Which texture an eye samples: the right texture for the right eye only. */
  function EyeTexture(p: Pano, eye: Scheduler.Eye): (t: TextureInfo)
    ensures eye == Scheduler.Right ==> t == p.right
    ensures eye != Scheduler.Right ==> t == p.left
  {
    if eye != Scheduler.Right then p.left else p.right
  }

  /** The portion of the image one eye samples: an offset and a scale per axis. */
  datatype UvWindow = UvWindow(offsetX: real, offsetY: real, scaleX: real, scaleY: real)

  const FullImage := UvWindow(0.0, 0.0, 1.0, 1.0)

  /**
   * The per-eye UV window: the whole image for mono and per-eye textures; the top-bottom and
   * left-right layouts give the left eye the upper or right-hand half (offset 0.5) and every other
   * eye the other half. Other codes leave the initial window, the whole image.
   */
  function EyeWindow(mode: int, eye: Scheduler.Eye): (w: UvWindow)
    ensures 0.0 <= w.offsetX && w.offsetX + w.scaleX <= 1.0 && 0.0 < w.scaleX
    ensures 0.0 <= w.offsetY && w.offsetY + w.scaleY <= 1.0 && 0.0 < w.scaleY
    ensures mode != StereoTopBottom && mode != StereoLeftRight ==> w == FullImage
    ensures mode == StereoTopBottom ==> w.offsetX == 0.0 && w.scaleX == 1.0 && w.scaleY == 0.5
                                        && (w.offsetY == 0.5 <==> eye == Scheduler.Left)
    ensures mode == StereoLeftRight ==> w.offsetY == 0.0 && w.scaleY == 1.0 && w.scaleX == 0.5
                                        && (w.offsetX == 0.5 <==> eye == Scheduler.Left)
  {
    if mode == StereoTopBottom then UvWindow(0.0, if eye != Scheduler.Left then 0.0 else 0.5, 1.0, 0.5)
    else if mode == StereoLeftRight then UvWindow(if eye != Scheduler.Left then 0.0 else 0.5, 0.0, 0.5, 1.0)
    else FullImage
  }

  /** In a split layout the two eyes' windows are the two halves of the image: adjacent and together whole. */
  lemma SplitWindowsTile(mode: int)
    requires mode == StereoTopBottom || mode == StereoLeftRight
    ensures var l := EyeWindow(mode, Scheduler.Left);
            var r := EyeWindow(mode, Scheduler.Right);
            if mode == StereoTopBottom then
              r.offsetY + r.scaleY == l.offsetY && l.offsetY + l.scaleY == 1.0 && r.offsetY == 0.0
            else
              r.offsetX + r.scaleX == l.offsetX && l.offsetX + l.scaleX == 1.0 && r.offsetX == 0.0
  {
  }

  /** The values a panorama hands to its program's uniforms. */
  datatype UniformValue = IntValue(i: int) | FloatValue(x: real) | Vec2Value(x: real, y: real) | MatrixValue(m: seq<real>)

  /** The model matrix: the sphere scaled by 5000 and mirrored in x and y, seen from inside. */
  const ModelMatrix: seq<real> := [-5000.0, 0.0, 0.0, 0.0,
                                   0.0, -5000.0, 0.0, 0.0,
                                   0.0, 0.0, 5000.0, 0.0,
                                   0.0, 0.0, 0.0, 1.0]

  /** The texture unit a panorama samples from. */
  const TextureUnit: nat := 0

  /** The uniform values of one eye's render, in the order the source lists them. */
  function PanoUniforms(p: Pano, eye: Scheduler.Eye, projection: seq<real>, view: seq<real>): (u: seq<(string, UniformValue)>)
    ensures |u| == (if p.target == Texture2D then 7 else 5)
    ensures u[0] == ("texture", IntValue(TextureUnit)) && u[4] == ("opacity", FloatValue(p.opacity))
    ensures u[1] == ("projectionMat", MatrixValue(projection)) && u[2] == ("viewMat", MatrixValue(view))
    ensures u[3] == ("modelMat", MatrixValue(ModelMatrix))
    ensures p.target == Texture2D ==>
              && u[5] == ("texOffset", Vec2Value(EyeWindow(p.stereoMode, eye).offsetX, EyeWindow(p.stereoMode, eye).offsetY))
              && u[6] == ("texScale", Vec2Value(EyeWindow(p.stereoMode, eye).scaleX, EyeWindow(p.stereoMode, eye).scaleY))
  {
    var common := [("texture", IntValue(TextureUnit)), ("projectionMat", MatrixValue(projection)),
                   ("viewMat", MatrixValue(view)), ("modelMat", MatrixValue(ModelMatrix)),
                   ("opacity", FloatValue(p.opacity))];
    if p.target == Texture2D then
      var w := EyeWindow(p.stereoMode, eye);
      common + [("texOffset", Vec2Value(w.offsetX, w.offsetY)), ("texScale", Vec2Value(w.scaleX, w.scaleY))]
    else common
  }

  /** One eye's render: the calls before setting uniforms, the uniforms set, and the calls after. */
  datatype PanoDraw = PanoDraw(before: seq<GlCall>, uniforms: seq<(Uniforms.UniformSetter, UniformValue)>, after: seq<GlCall>)

  /** The state changes that open a panorama draw: no depth writes or test, and blending only when translucent. */
  function OpenState(opacity: real): (r: seq<GlCall>)
    ensures |r| >= 2 && r[0] == DepthMask(false) && r[1] == Disable(DepthTest)
    ensures Enable(Blend) in r <==> opacity < 1.0
    ensures forall c :: c in r ==> !c.Enable? || c.cap == Blend
  {
    [DepthMask(false), Disable(DepthTest)] +
    (if opacity < 1.0 then [Enable(Blend), BlendEquationAdd, BlendFunc(SrcAlpha, OneMinusSrcAlpha)] else [])
  }

  /** The state changes that close it: blending off, depth test and depth writes back on. */
  const CloseState: seq<GlCall> := [Disable(Blend), Enable(DepthTest), DepthMask(true)]

  /**
   * `render`: nothing before everything is loaded. Then the eye's texture is chosen, depth is
   * switched off and blending on when translucent, the geometry and texture are bound, the
   * uniforms are set (throwing for a name the program lacks), the geometry is drawn and the depth
   * state restored.
   */
  function RenderPano(p: Pano, eye: Scheduler.Eye, projection: seq<real>, view: seq<real>): (r: Result<PanoDraw>)
    requires Geometry.LoadedHasGeometry(p.geometry)
    ensures !IsLoaded(p) ==> r == Ok(PanoDraw([], [], []))
    ensures IsLoaded(p) ==>
              (r.Ok? <==> forall i :: 0 <= i < |PanoUniforms(p, eye, projection, view)| ==>
                           PanoUniforms(p, eye, projection, view)[i].0 in Keys(p.program.uniforms))
    ensures IsLoaded(p) && r.Ok? ==>
              && r.value.before == OpenState(p.opacity) + Geometry.UseGeometry(p.geometry.geometry.value, p.program)
                                   + UseTexture(EyeTexture(p, eye), TextureUnit)
              && r.value.after == Geometry.DrawGeometry(p.geometry.geometry.value) + CloseState
              && |r.value.uniforms| == |PanoUniforms(p, eye, projection, view)|
              && r.value.uniforms == Uniforms.SetUniforms(p.program.uniforms, PanoUniforms(p, eye, projection, view)).value
  {
    if !IsLoaded(p) then Ok(PanoDraw([], [], []))
    else
      var g := p.geometry.geometry.value;
      var before := OpenState(p.opacity) + Geometry.UseGeometry(g, p.program) + UseTexture(EyeTexture(p, eye), TextureUnit);
      var setters :- Uniforms.SetUniforms(p.program.uniforms, PanoUniforms(p, eye, projection, view));
      Ok(PanoDraw(before, setters, Geometry.DrawGeometry(g) + CloseState))
  }

  /**
   * A loaded panorama's render binds the eye's own texture, enables blending only when
   * translucent, and ends with depth testing and depth writes restored.
   */
  lemma RenderBindsEyeTexture(p: Pano, eye: Scheduler.Eye, projection: seq<real>, view: seq<real>)
    requires Geometry.LoadedHasGeometry(p.geometry) && IsLoaded(p)
    ensures RenderPano(p, eye, projection, view).Ok? ==>
              var d := RenderPano(p, eye, projection, view).value;
              && BindTexture(EyeTexture(p, eye).target, EyeTexture(p, eye).texture) in d.before
              && (Enable(Blend) in d.before <==> p.opacity < 1.0)
              && d.after[|d.after| - 2..] == [Enable(DepthTest), DepthMask(true)]
  {
    if RenderPano(p, eye, projection, view).Ok? {
      var g := p.geometry.geometry.value;
      var t := EyeTexture(p, eye);
      var d := RenderPano(p, eye, projection, view).value;
      UseGeometryEnablesNothing(g, p.program);
      BeforeCalls(OpenState(p.opacity), Geometry.UseGeometry(g, p.program), UseTexture(t, TextureUnit), t, p.opacity);
      ClosingCalls(Geometry.DrawGeometry(g), d.after);
    }
  }

  /** The calls after the draw end by restoring the depth state. */
  lemma ClosingCalls(draw: seq<GlCall>, after: seq<GlCall>)
    requires after == draw + CloseState
    ensures after[|after| - 2..] == [Enable(DepthTest), DepthMask(true)]
  {
    assert after[|after| - 2..] == CloseState[1..];
  }

  /** The membership facts about the opening calls, stated over their three parts. */
  lemma BeforeCalls(open: seq<GlCall>, use: seq<GlCall>, tex: seq<GlCall>, t: TextureInfo, opacity: real)
    requires open == OpenState(opacity) && tex == UseTexture(t, TextureUnit) && t.loaded
    requires forall c :: c in use ==> !c.Enable?
    ensures BindTexture(t.target, t.texture) in open + use + tex
    ensures Enable(Blend) in open + use + tex <==> opacity < 1.0
  {
    assert tex[1] == BindTexture(t.target, t.texture);
    assert (open + use + tex)[|open| + |use| + 1] == tex[1];
    assert forall c :: c in tex ==> !c.Enable?;
    assert forall c :: c in open + use + tex <==> c in open || c in use || c in tex;
  }

  lemma UseGeometryEnablesNothing(g: Geometry.Geometry, info: ProgramInfo)
    ensures forall c :: c in Geometry.UseGeometry(g, info) ==> !c.Enable?
  {
    var r := Geometry.UseGeometry(g, info);
    forall c | c in r ensures !c.Enable? {
      GeometryCallKinds(g, info, c);
    }
  }

  lemma GeometryCallKinds(g: Geometry.Geometry, info: ProgramInfo, c: GlCall)
    requires c in Geometry.UseGeometry(g, info)
    ensures !c.Enable?
  {
    BindBuffersKinds(info.vertexFormat, g.vertexBuffers);
  }

  /** Binding vertex buffers only binds buffers and describes attributes. */
  lemma {:induction false} BindBuffersKinds(program: VertexFormats.VertexFormat, buffers: seq<VertexFormats.VertexBuffer>)
    ensures forall c :: c in Geometry.BindBuffers(program, buffers) ==> !c.Enable?
  {
    if |buffers| > 0 {
      BindBuffersKinds(program, buffers[1..]);
      var head := VertexFormats.EnableVertexBuffer(program, buffers[0]);
      forall c | c in head ensures !c.Enable? {
        var i :| 0 <= i < |head| && head[i] == c;
      }
    }
  }
}
