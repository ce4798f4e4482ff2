/**
 * Textures: the sampling state chosen when a texture is created, the downgrade applied to
 * images whose sides are not powers of two, the uploads done when images arrive, and the calls
 * that bind a loaded texture for drawing.
 */
module Textures {
  import opened Results
  import opened Gl

  const TwoTo32: nat := 0x1_0000_0000

  /** Bitwise AND of two naturals. */
  function BitAnd(a: nat, b: nat): nat
    decreases a
  {
    if a == 0 || b == 0 then 0
    else 2 * BitAnd(a / 2, b / 2) + (if a % 2 == 1 && b % 2 == 1 then 1 else 0)
  }

  /** x is 2^k for some k. */
  predicate IsPowerOfTwo(x: nat)
    decreases x
  {
    x == 1 || (x >= 2 && x % 2 == 0 && IsPowerOfTwo(x / 2))
  }

  /**
   * The source's `powerOf2`: `x !== 0 && !(x & (x - 1))`, where `&` works on the low 32 bits of
   * each operand. Below 2^32 that is exactly a power-of-two test; 2^32 itself also passes,
   * because its low 32 bits are all zero.
   */
  function PowerOf2(x: nat): (r: bool)
    ensures x < TwoTo32 ==> (r <==> IsPowerOfTwo(x))
    ensures x == TwoTo32 ==> r
  {
    if x == 0 then false
    else
      var r := BitAnd(x % TwoTo32, (x - 1) % TwoTo32) == 0;
      assert x < TwoTo32 ==> (r <==> IsPowerOfTwo(x)) by {
        if x < TwoTo32 {
          assert x % TwoTo32 == x && (x - 1) % TwoTo32 == x - 1;
          LowestBitClears(x);
        }
      }
      r
  }

  lemma {:induction false} BitAndSelf(y: nat)
    ensures BitAnd(y, y) == y
    decreases y
  {
    if y > 0 {
      BitAndSelf(y / 2);
    }
  }

  /** Clearing the lowest set bit leaves nothing exactly when one bit was set. */
  lemma {:induction false} LowestBitClears(x: nat)
    requires x >= 1
    ensures BitAnd(x, x - 1) == 0 <==> IsPowerOfTwo(x)
    decreases x
  {
    if x == 1 {
    } else if x % 2 == 0 {
      LowestBitClears(x / 2);
      assert (x - 1) / 2 == x / 2 - 1;
      assert BitAnd(x, x - 1) == 2 * BitAnd(x / 2, x / 2 - 1);
    } else {
      var y := x / 2;
      assert (x - 1) / 2 == y && y >= 1;
      BitAndSelf(y);
      assert BitAnd(x, x - 1) == 2 * BitAnd(y, y);
    }
  }

  /** The optional sampling fields of a texture description. */
  datatype TextureOptions = TextureOptions(
    clampS: Option<WrapMode>,
    clampT: Option<WrapMode>,
    minFilter: Option<Filter>,
    magFilter: Option<Filter>,
    generateMipmaps: Option<bool>)

  /** The sampling state a texture record carries. */
  datatype Sampling = Sampling(wrapS: WrapMode, wrapT: WrapMode, minFilter: Filter, magFilter: Filter, generateMipmaps: bool)

  /**
   * `_createTexture`'s defaults: wrap REPEAT, mipmaps unless asked not to, minification
   * LINEAR_MIPMAP_NEAREST with mipmaps and LINEAR without, magnification LINEAR.
   */
  function CreateSampling(opts: TextureOptions): (s: Sampling)
    ensures s.generateMipmaps == opts.generateMipmaps.GetOr(true)
    ensures s.wrapS == opts.clampS.GetOr(Repeat) && s.wrapT == opts.clampT.GetOr(Repeat)
    ensures s.magFilter == opts.magFilter.GetOr(Linear)
    ensures opts.minFilter.Some? ==> s.minFilter == opts.minFilter.value
    ensures opts.minFilter.None? ==> s.minFilter == (if s.generateMipmaps then LinearMipmapNearest else Linear)
  {
    var mips := if opts.generateMipmaps.None? then true else opts.generateMipmaps.value;
    Sampling(
      if opts.clampS.Some? then opts.clampS.value else Repeat,
      if opts.clampT.Some? then opts.clampT.value else Repeat,
      if opts.minFilter.Some? then opts.minFilter.value else if mips then LinearMipmapNearest else Linear,
      if opts.magFilter.Some? then opts.magFilter.value else Linear,
      mips)
  }

  /**
   * The record a texture loader returns; `loaded`, the size and the sampling change on completion.
   * `sources` are the image sources its pending load fetches: one for a 2D texture, the six faces
   * in upload order for a cube, none for a canvas.
   */
  datatype TextureInfo = TextureInfo(
    texture: TextureId,
    target: Target,
    sampling: Sampling,
    loaded: bool,
    width: nat,
    height: nat,
    sources: seq<Option<string>>)

  function CreateTexture(opts: TextureOptions, texture: TextureId, target: Target): (t: TextureInfo)
    ensures t.texture == texture && t.target == target && !t.loaded
    ensures t.sampling == CreateSampling(opts)
    ensures t.sources == []
  {
    TextureInfo(texture, target, CreateSampling(opts), false, 0, 0, [])
  }

  /** The sampling every non-power-of-two image falls back to. */
  const FallbackSampling := Sampling(ClampToEdge, ClampToEdge, Linear, Linear, false)

  /**
   * `_completeTextureLoad`: when either side is not a power of two, wrapping is clamped, both
   * filters become LINEAR and mipmaps are switched off; otherwise nothing changes.
   */
  function CompleteTextureLoad(t: TextureInfo): (r: TextureInfo)
    ensures r.texture == t.texture && r.target == t.target && r.loaded == t.loaded
    ensures r.width == t.width && r.height == t.height && r.sources == t.sources
    ensures PowerOf2(t.width) && PowerOf2(t.height) ==> r == t
    ensures !(PowerOf2(t.width) && PowerOf2(t.height)) ==> r.sampling == FallbackSampling
  {
    if !PowerOf2(t.width) || !PowerOf2(t.height) then t.(sampling := FallbackSampling) else t
  }

  /** The downgrade only ever switches mipmaps off, and applying it twice is applying it once. */
  lemma CompleteTextureLoadSettles(t: TextureInfo)
    ensures CompleteTextureLoad(t).sampling.generateMipmaps ==> t.sampling.generateMipmaps
    ensures CompleteTextureLoad(CompleteTextureLoad(t)) == CompleteTextureLoad(t)
  {
  }

  /** Below 2^32, an image keeps its sampling exactly when both sides are powers of two. */
  lemma CompleteKeepsPowerOfTwo(t: TextureInfo)
    requires t.width < TwoTo32 && t.height < TwoTo32
    ensures CompleteTextureLoad(t) == t <==> (IsPowerOfTwo(t.width) && IsPowerOfTwo(t.height)) || t.sampling == FallbackSampling
  {
  }

  /** A JavaScript string is truthy exactly when it is present and not empty. */
  predicate Truthy(s: Option<string>) {
    s.Some? && s.value != ""
  }

  /**
   * `loadTexture2D`: a missing or empty `src` throws before any texture exists; otherwise the new
   * record's load fetches `src`.
   */
  function LoadTexture2D(src: Option<string>, opts: TextureOptions, texture: TextureId): (r: Result<TextureInfo>)
    ensures r.Err? <==> !Truthy(src)
    ensures r.Err? ==> r.error == SrcRequired
    ensures r.Ok? ==> r.value == CreateTexture(opts, texture, Texture2D).(sources := [src])
  {
    if !Truthy(src) then Err(SrcRequired) else Ok(CreateTexture(opts, texture, Texture2D).(sources := [src]))
  }

  /** The six face images of a cube map, in upload order. */
  datatype CubeSources = CubeSources(posX: Option<string>, negX: Option<string>, posY: Option<string>,
                                     negY: Option<string>, posZ: Option<string>, negZ: Option<string>)

  function FaceSources(c: CubeSources): (r: seq<Option<string>>)
    ensures |r| == 6 && r[0] == c.posX
    ensures r[1] == c.negX && r[2] == c.posY && r[3] == c.negY && r[4] == c.posZ && r[5] == c.negZ
  {
    [c.posX, c.negX, c.posY, c.negY, c.posZ, c.negZ]
  }

  /**
   * `loadTextureCube`: only `pos_x` is checked up front; the other faces may be absent. The new
   * record's load fetches the six faces in upload order.
   */
  function LoadTextureCube(faces: CubeSources, opts: TextureOptions, texture: TextureId): (r: Result<TextureInfo>)
    ensures r.Err? <==> !Truthy(faces.posX)
    ensures r.Err? ==> r.error == PosXRequired
    ensures r.Ok? ==> r.value == CreateTexture(opts, texture, CubeMap).(sources := FaceSources(faces))
  {
    if !Truthy(faces.posX) then Err(PosXRequired)
    else Ok(CreateTexture(opts, texture, CubeMap).(sources := FaceSources(faces)))
  }

  /**
   * `loadCanvasTexture`: the texture is loaded at once with the canvas size, so only the
   * power-of-two downgrade applies; no image is uploaded and no mipmap is generated.
   */
  function LoadCanvasTexture(opts: TextureOptions, texture: TextureId, width: nat, height: nat): (t: TextureInfo)
    ensures t.loaded && t.target == Texture2D && t.texture == texture
    ensures t.width == width && t.height == height
    ensures PowerOf2(width) && PowerOf2(height) ==> t.sampling == CreateSampling(opts)
    ensures !(PowerOf2(width) && PowerOf2(height)) ==> t.sampling == FallbackSampling
  {
    CompleteTextureLoad(CreateTexture(opts, texture, Texture2D).(loaded := true, width := width, height := height))
  }

  /** What loading one image produced. */
  datatype ImageOutcome = Decoded(width: nat, height: nat) | DecodeFailed

  /** The text a rejection names: an absent source reads as "undefined". */
  function SourceText(src: Option<string>): string {
    if src.Some? then src.value else "undefined"
  }

  /** What an image-load continuation leaves behind. */
  datatype Completion = Completion(texture: TextureInfo, calls: seq<GlCall>, outcome: Result<TextureId>)

  /**
   * The upload of a loaded texture's images, followed by mipmap generation when still enabled.
   * The loaders bind their own fixed target (TEXTURE_2D for images and canvases, TEXTURE_CUBE_MAP
   * for cubes); the record's target is that same target, since each loader creates its record
   * with it, so binding `t.target` issues the same calls.
   */
  function UploadCalls(t: TextureInfo, images: seq<ImageTarget>): (r: seq<GlCall>)
    ensures |r| >= 2 + |images|
    ensures r[0] == ActiveTexture(0) && r[1] == BindTexture(t.target, t.texture)
    ensures forall i :: 0 <= i < |images| ==> r[2 + i] == TexImage2D(images[i])
    ensures GenerateMipmap(t.target) in r <==> t.sampling.generateMipmaps
  {
    var uploads := seq(|images|, i requires 0 <= i < |images| => TexImage2D(images[i]));
    var head := [ActiveTexture(0), BindTexture(t.target, t.texture)] + uploads;
    assert forall c :: c in head ==> !c.GenerateMipmap?;
    head + (if t.sampling.generateMipmaps then [GenerateMipmap(t.target)] else [])
  }

  /**
   * `_loadTexture2D`'s continuation: on success the image is uploaded, the record is marked
   * loaded with the image's size and downgraded if needed, then mipmaps are generated if still
   * enabled; a failed image rejects with its source and changes nothing.
   */
  function Complete2D(t: TextureInfo, src: string, image: ImageOutcome): (r: Completion)
    ensures image.DecodeFailed? ==> r == Completion(t, [], Err(ImageLoadFailed(src)))
    ensures image.Decoded? ==> && r.outcome == Ok(t.texture)
                               && r.texture == CompleteTextureLoad(t.(loaded := true, width := image.width, height := image.height))
                               && r.calls == UploadCalls(r.texture, [Image2D])
  {
    match image
    case DecodeFailed => Completion(t, [], Err(ImageLoadFailed(src)))
    case Decoded(w, h) =>
      var done := CompleteTextureLoad(t.(loaded := true, width := w, height := h));
      Completion(done, UploadCalls(done, [Image2D]), Ok(t.texture))
  }

  /** The cube faces' upload targets, in the order the faces are listed. */
  function FaceTargets(): (r: seq<ImageTarget>)
    ensures |r| == 6
    ensures forall i :: 0 <= i < 6 ==> r[i] == FaceImage(CubeFaces[i])
  {
    seq(6, i requires 0 <= i < 6 => FaceImage(CubeFaces[i]))
  }

  /** The lowest-numbered face whose image failed, if any. */
  function FirstFailed(images: seq<ImageOutcome>, from: nat): (r: Option<nat>)
    requires from <= |images|
    decreases |images| - from
    ensures r.None? <==> forall i :: from <= i < |images| ==> images[i].Decoded?
    ensures r.Some? ==> from <= r.value < |images| && images[r.value].DecodeFailed?
                        && forall i :: from <= i < r.value ==> images[i].Decoded?
  {
    if from == |images| then None
    else if images[from].DecodeFailed? then Some(from)
    else FirstFailed(images, from + 1)
  }

  /**
   * `_loadTextureCube`'s continuation: all six images must load; the first face's size becomes
   * the texture's. Any failure rejects (naming the lowest failing face's source) and changes
   * nothing.
   */
  function CompleteCube(t: TextureInfo, faces: CubeSources, images: seq<ImageOutcome>): (r: Completion)
    requires |images| == 6
    ensures r.outcome.Ok? <==> forall i :: 0 <= i < 6 ==> images[i].Decoded?
    ensures r.outcome.Err? ==> r.texture == t && r.calls == []
    ensures r.outcome.Err? ==> exists j :: 0 <= j < 6 && images[j].DecodeFailed?
                                           && r.outcome.error == ImageLoadFailed(SourceText(FaceSources(faces)[j]))
    ensures r.outcome.Ok? ==> && r.outcome.value == t.texture
                              && r.texture == CompleteTextureLoad(t.(loaded := true, width := images[0].width,
                                                                     height := images[0].height))
                              && r.calls == UploadCalls(r.texture, FaceTargets())
  {
    match FirstFailed(images, 0)
    case Some(j) => Completion(t, [], Err(ImageLoadFailed(SourceText(FaceSources(faces)[j]))))
    case None =>
      var done := CompleteTextureLoad(t.(loaded := true, width := images[0].width, height := images[0].height));
      Completion(done, UploadCalls(done, FaceTargets()), Ok(t.texture))
  }

  /** Five good faces are not enough: a cube map with one failed face is never marked loaded. */
  lemma CubeAllOrNothing(t: TextureInfo, faces: CubeSources, images: seq<ImageOutcome>, bad: nat)
    requires |images| == 6 && bad < 6 && images[bad].DecodeFailed?
    ensures CompleteCube(t, faces, images).texture.loaded == t.loaded
    ensures CompleteCube(t, faces, images).calls == []
  {
  }

  /**
   * A successful load generates mipmaps exactly when they were requested and both sides of the
   * image are powers of two.
   */
  lemma MipmapsOnlyForPowerOfTwo(t: TextureInfo, src: string, w: nat, h: nat)
    requires w < TwoTo32 && h < TwoTo32
    ensures var r := Complete2D(t, src, Decoded(w, h));
            GenerateMipmap(Texture2D) in r.calls <==>
              t.target == Texture2D && t.sampling.generateMipmaps && IsPowerOfTwo(w) && IsPowerOfTwo(h)
  {
    var r := Complete2D(t, src, Decoded(w, h));
    assert GenerateMipmap(r.texture.target) in r.calls <==> r.texture.sampling.generateMipmaps;
  }

  /**
   * `useTexture`: nothing until the texture is loaded; then select the unit, bind, and set the
   * four sampling parameters from the record.
   */
  function UseTexture(t: TextureInfo, unit: nat): (r: seq<GlCall>)
    ensures !t.loaded <==> r == []
    ensures t.loaded ==> && |r| == 6
                         && r[0] == ActiveTexture(unit) && r[1] == BindTexture(t.target, t.texture)
                         && r[2] == TexParameter(t.target, WrapS(t.sampling.wrapS))
                         && r[3] == TexParameter(t.target, WrapT(t.sampling.wrapT))
                         && r[4] == TexParameter(t.target, MinFilter(t.sampling.minFilter))
                         && r[5] == TexParameter(t.target, MagFilter(t.sampling.magFilter))
  {
    if !t.loaded then []
    else
      [ActiveTexture(unit), BindTexture(t.target, t.texture),
       TexParameter(t.target, WrapS(t.sampling.wrapS)), TexParameter(t.target, WrapT(t.sampling.wrapT)),
       TexParameter(t.target, MinFilter(t.sampling.minFilter)), TexParameter(t.target, MagFilter(t.sampling.magFilter))]
  }

  /**
   * A loaded texture whose image is not a power of two is always sampled with clamped wrapping
   * and LINEAR minification and magnification, whatever its description asked for.
   */
  lemma NonPowerOfTwoSampledSafely(t: TextureInfo, src: string, w: nat, h: nat, unit: nat)
    requires !(PowerOf2(w) && PowerOf2(h))
    ensures var calls := UseTexture(Complete2D(t, src, Decoded(w, h)).texture, unit);
            && TexParameter(t.target, WrapS(ClampToEdge)) in calls
            && TexParameter(t.target, WrapT(ClampToEdge)) in calls
            && TexParameter(t.target, MinFilter(Linear)) in calls
            && TexParameter(t.target, MagFilter(Linear)) in calls
  {
    var calls := UseTexture(Complete2D(t, src, Decoded(w, h)).texture, unit);
    assert calls[2] == TexParameter(t.target, WrapS(ClampToEdge));
    assert calls[3] == TexParameter(t.target, WrapT(ClampToEdge));
    assert calls[4] == TexParameter(t.target, MinFilter(Linear));
    assert calls[5] == TexParameter(t.target, MagFilter(Linear));
  }
}
