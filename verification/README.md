# Carmel Starter Kit core, modelled in Dafny

This project models the shared runtime of the Carmel Starter Kit WebVR samples. It has three
parts:

- the WebGL and WebVR helper object (`WebVRCommon`): the program, geometry and texture loaders,
  uniform and attribute reflection, the mono camera's drag controller, and the
  start / pre-update / update / render frame loop;
- the panorama renderer built on it (`Pano`): it decodes the source list, picks the texture per
  eye and draws the UV window;
- the gamepad tracker (`GamepadState`): it combines the pressed buttons and axes of every pad and
  turns the Gear VR touchpad into tap and swipe events.

The WebGL context is not modelled as a machine. Every drawing operation returns the sequence of
context calls it would issue (`Gl.GlCall`). Anything the browser decides is an explicit input:
shader compilation, link results, reflection, fetched JSON, decoded images, gamepad snapshots,
display discovery and pointer events. Asynchronous completions become separate functions that
take the outcome.

Modules, in dependency order:

- `Results`: `Option` and `Result`.
- `Tables`: the string-keyed objects the source builds, as insertion-ordered association lists.
- `GlTypes`: the GLSL type table.
- `Gl`: context calls and ids.
- `Uniforms` and `VertexFormats`: reflection and vertex layouts.
- `Programs`: program loading.
- `Geometry`: geometry creation, binding and drawing.
- `Textures`: the texture loaders.
- `Camera`: the mono drag controller.
- `Scheduler`: settings, start-up and frames.
- `Panorama`: the panorama renderer.
- `Gamepad`: pad tracking and Gear VR events.

## Model

| member | source | states |
|---|---|---|
| Tables.Get | Common/WebVRCommon.js:439-440 | looking a name up in an attribute table finds a value exactly when the name was stored, and the value found was stored under that name |
| Tables.GetUnique | Common/WebVRCommon.js:308-314 | in a table with distinct names, each stored pair is exactly what a lookup of its name returns |
| Tables.Put | Common/WebVRCommon.js:405-410 | assigning a property makes the name map to the new value and adds the name to the key set; a new name is appended and an existing name keeps its position |
| Tables.PutKeepsOthers | Common/WebVRCommon.js:405-410 | assigning one property leaves the lookup of every other name unchanged |
| Tables.PutKeepsUnique | Common/WebVRCommon.js:405-410 | property assignment never creates two entries with the same name |
| GlTypes.FromCode | Common/WebVRCommon.js:197-231 | a numeric GL type code is recognised only when it is the code of a table entry |
| GlTypes.CodeRoundTrip | Common/WebVRCommon.js:197-231 | every GLSL type in the table is recovered from its own GL code |
| GlTypes.CodeOffsetGivesRank | Common/WebVRCommon.js:209-223 | for the vector and matrix families, the distance from the family's first code gives the component count, which is what the table's offsets rely on |
| GlTypes.ElementCount | Common/WebVRCommon.js:199 | a missing or zero array size counts as one element; a positive size counts itself |
| GlTypes.InfoForType | Common/WebVRCommon.js:197-231 | samplers have no byte size or data type; other types map to their scalar base type (vectors of float and matrices to FLOAT, int vectors to INT, bool vectors to BOOL); components are the element count times the type's width |
| GlTypes.ByteSizeRule | Common/WebVRCommon.js:200-224 | a non-sampler's byte size is its scalar size times its components |
| GlTypes.InfoForCode | Common/WebVRCommon.js:197-231 | an unknown code has no type info; a known one has the info of the type it decodes to |
| Uniforms.SetterFor | Common/WebVRCommon.js:233-272 | each setter takes as many values as the type has components, is a float setter exactly for FLOAT-based types, and is the matrix setter (transpose false) exactly for matrices |
| Uniforms.SetterForCode | Common/WebVRCommon.js:233-272 | an unknown uniform type code fails with that code; a known one gives the setter of its type at the given location |
| Uniforms.ReflectsStep | Common/WebVRCommon.js:303-315 | adding one reflected uniform keeps every earlier uniform's entry correct |
| Uniforms.ReflectUniforms | Common/WebVRCommon.js:299-317 | reflection succeeds exactly when every active uniform has a known type; a failure names the first unknown type; on success each uniform's name maps to an entry with its type info, location and setter, and distinct names give one entry each |
| Uniforms.SetUniforms | Common/WebVRCommon.js:187-193 | setting values succeeds exactly when every named uniform exists in the program, pairs each value with the setter of its own uniform in order, and fails when some name is absent |
| Uniforms.OneEntryPerUniform | Common/WebVRCommon.js:299-317 | a program whose uniforms have distinct names and known types reflects to a table with exactly one entry per uniform, each found under its name |
| VertexFormats.OffsetMonotone | Common/WebVRCommon.js:402-412 | the running byte offset never decreases along the format |
| VertexFormats.LastIndex | Common/WebVRCommon.js:405 | for a repeated name, the entry that survives is the last one bearing it |
| VertexFormats.DescribesStep | Common/WebVRCommon.js:402-412 | one more pass of the conversion loop keeps every processed name mapped to its last entry's index, offset and type info |
| VertexFormats.BuildStep | Common/WebVRCommon.js:402-412 | one iteration advances the stride by the entry's byte size or fails with the entry's unknown type |
| VertexFormats.BuildFormat | Common/WebVRCommon.js:397-415 | converting a prefix succeeds exactly when all its types are known; on success the stride is the sum of the byte sizes and the table describes every entry; a failure names the first unknown type |
| VertexFormats.ConvertVertexFormat | Common/WebVRCommon.js:397-415 | the shorthand array becomes a packed layout: stride is the total byte size and each attribute's location is the byte offset of all entries before it |
| VertexFormats.PackedAttribFits | Common/WebVRCommon.js:405-411 | in a packed layout every attribute sits at its own offset and ends within the stride |
| VertexFormats.PackedAttribFitsStride | Common/WebVRCommon.js:397-415 | every attribute of a converted format fits inside one vertex |
| VertexFormats.AttributeEntries | Common/WebVRCommon.js:283-291 | program reflection lists one format entry per active attribute, in order, with its name, type and size |
| VertexFormats.AttributeLocations | Common/WebVRCommon.js:289 | the location of each reflected attribute is the context's attribute location, not an offset |
| VertexFormats.VertexFormatFromProgram | Common/WebVRCommon.js:276-297 | reflection of attributes succeeds exactly when all attribute types are known and describes each attribute at its reflected location |
| VertexFormats.ReflectedLocation | Common/WebVRCommon.js:276-297 | after reflection, each attribute's name maps to the context location of the last attribute reported under that name |
| VertexFormats.Matched | Common/WebVRCommon.js:438-441 | the buffer attributes that get bound are exactly those whose names the program also declares, each paired with the program's entry for that name |
| VertexFormats.SharedIndices | Common/WebVRCommon.js:438-441 | the loop's binding iterations are, in increasing order, exactly the positions of the buffer entries whose names the program also declares |
| VertexFormats.MatchedFollowsBuffer | Common/WebVRCommon.js:438-441 | bindings come in the buffer's own order, binding k being the buffer entry at the k-th shared position; with distinct buffer names, each shared name is bound exactly once |
| VertexFormats.AttribCalls | Common/WebVRCommon.js:441-449 | each matched attribute produces an enable call at the program's location followed by a pointer call with the buffer's components, data type, unnormalised, the buffer stride and the buffer offset |
| VertexFormats.EnableVertexBuffer | Common/WebVRCommon.js:434-452 | enabling a buffer binds it first and then issues two calls per shared attribute |
| VertexFormats.EnableTouchesOnlySharedNames | Common/WebVRCommon.js:434-452 | every attribute pointer set up names an attribute both the buffer and the program declare, unnormalised, with the buffer's stride |
| Programs.LoadProgram | Common/WebVRCommon.js:146-171 | the vertex shader's compile error is reported first, then the fragment shader's, then the link error; a linked program succeeds exactly when its attribute and uniform types are all known, and carries the reflected vertex format and uniform table |
| Geometry.PointsBecomeTriangles | Common/WebVRCommon.js:342 | as written, a requested POINTS primitive (code 0) is replaced by TRIANGLES |
| Geometry.PrimitiveAsWritten | Common/WebVRCommon.js:342 | as written, a missing primitive becomes TRIANGLES, every requested primitive other than POINTS is kept, and the result is never POINTS |
| Geometry.ResolvePrimitive | Common/WebVRCommon.js:342 | corrected: a requested primitive is kept and only a missing one defaults to TRIANGLES |
| Geometry.ResolutionsDifferOnlyOnPoints | Common/WebVRCommon.js:342 | the written and corrected defaults disagree for POINTS and for nothing else |
| Geometry.ToUint16 | Common/WebVRCommon.js:369 | each index is stored as an unsigned 16-bit value congruent to it modulo 65536 |
| Geometry.ToUint16KeepsSmall | Common/WebVRCommon.js:369 | indices already in 0..65535 are stored unchanged |
| Geometry.CreateVertexBuffers | Common/WebVRCommon.js:357-360 | buffers are created in order, one per vertex array, each with the next buffer id and its converted format; the first array with a bad format fails the whole call with that format's error |
| Geometry.VertexCount | Common/WebVRCommon.js:376 | the vertex count times the stride in floats equals the array length; a zero stride gives no count |
| Geometry.CreateGeometry | Common/WebVRCommon.js:339-381 | missing vertices and an empty vertex list are errors; otherwise creation succeeds exactly when every vertex format converts, a failure names the first array whose format does not, and the result holds the primitive as written (POINTS turned into TRIANGLES), one buffer per array with consecutive ids, the vertex count of the first array and a 16-bit index buffer only when indices were given |
| Geometry.CreateIntendedGeometry | Common/WebVRCommon.js:339-381 | corrected: creation with only a missing primitive defaulting to TRIANGLES builds the same buffers and keeps the requested primitive |
| Geometry.IntendedGeometryDiffersOnlyOnPoints | Common/WebVRCommon.js:339-381 | the written and corrected creations succeed or fail together, with the same error; on success the geometries differ in the primitive alone, and they differ exactly when POINTS was asked for |
| Geometry.CreatedPointsDrawTriangles | Common/WebVRCommon.js:339-461 | as written, a geometry created with POINTS is drawn with TRIANGLES |
| Geometry.FirstBadIndex | Common/WebVRCommon.js:357-360 | among the first n arrays, finds no bad layout exactly when all of them convert, and otherwise the first one that does not |
| Geometry.VertexUploads | Common/WebVRCommon.js:383-389 | each of the first n arrays contributes a bind of its own buffer id followed by an upload of its floats, in array order |
| Geometry.ArrayUploads | Common/WebVRCommon.js:356-370 | when every layout converts, all vertex buffers are bound and filled in order and then the index buffer, when given, is bound and filled with the 16-bit indices; when a layout fails, the uploads stop right after that array's own buffer |
| Geometry.CreateGeometryCalls | Common/WebVRCommon.js:339-389 | missing or empty vertices upload nothing; a successful creation issues exactly the vertex uploads and then the index upload; a failing layout leaves the uploads of the arrays up to and including itself |
| Geometry.DrawGeometry | Common/WebVRCommon.js:454-461 | indexed geometry is drawn with one DrawElements of all its indices; other geometry with one DrawArrays of all its vertices |
| Geometry.CreateThenDraw | Common/WebVRCommon.js:339-461 | a created geometry draws with the primitive as written; with indices it draws exactly as many 16-bit indices as were given, and without them it draws the first array's vertex count |
| Geometry.DrawBuilt | Common/WebVRCommon.js:339-461 | any geometry that creation as written can produce draws with the written primitive and the configured index or vertex count |
| Geometry.BindBuffers | Common/WebVRCommon.js:423-425 | the first call binds the first vertex buffer, and every buffer contributes at least one call |
| Geometry.BindBuffersPlacesBlock | Common/WebVRCommon.js:423-425 | buffer k's enable calls appear whole and unchanged, right after the calls of all the buffers before it |
| Geometry.BindBuffersLength | Common/WebVRCommon.js:423-425 | the bind calls are the buffers' blocks and nothing more |
| Geometry.BindBuffersBindsOwnBuffers | Common/WebVRCommon.js:423-425 | every ARRAY_BUFFER bind names one of the geometry's own vertex buffers |
| Geometry.NoElementBindInBuffers | Common/WebVRCommon.js:434-452 | enabling vertex buffers never touches the element array binding |
| Geometry.UseGeometry | Common/WebVRCommon.js:417-432 | the program is used first, then come exactly the calls that bind every vertex buffer, then the index buffer when there is one; that last call is the only element array binding |
| Geometry.LoadGeometry | Common/WebVRCommon.js:319-337 | a load record starts unloaded, without geometry, for its source |
| Geometry.CompleteGeometryLoad | Common/WebVRCommon.js:319-337 | the record becomes loaded with the created geometry exactly when the fetch succeeded and creation succeeded; any failure leaves the record as it was |
| Geometry.LoadKeepsLoadedHasGeometry | Common/WebVRCommon.js:319-337 | a loaded record always holds a geometry |
| Textures.LowestBitClears | Common/WebVRCommon.js:7 | for positive x, `x & (x - 1)` is zero exactly when x is a power of two |
| Textures.PowerOf2 | Common/WebVRCommon.js:7 | below 2^32 the source's test accepts exactly the powers of two, so zero is rejected; 2^32 is accepted as well, because `&` sees only its low 32 bits, which are zero |
| Textures.CreateSampling | Common/WebVRCommon.js:504-518 | unspecified options default to REPEAT wrapping, LINEAR magnification and mipmaps on; the minification default is LINEAR_MIPMAP_NEAREST with mipmaps and LINEAR without |
| Textures.CreateTexture | Common/WebVRCommon.js:504-518 | a new texture record is unloaded, has no image sources yet, and keeps the given id, target and sampling |
| Textures.CompleteTextureLoad | Common/WebVRCommon.js:619-630 | a power-of-two image keeps its sampling; any other falls back to clamped, linear, mipmap-free sampling; identity and size are kept |
| Textures.CompleteTextureLoadSettles | Common/WebVRCommon.js:619-630 | completing never switches mipmaps on, and completing twice is completing once |
| Textures.CompleteKeepsPowerOfTwo | Common/WebVRCommon.js:619-630 | completion leaves a record unchanged exactly when both sides are powers of two or it already uses the fallback sampling |
| Textures.LoadTexture2D | Common/WebVRCommon.js:465-477 | a missing or empty source is rejected with "src is required"; otherwise an unloaded 2D texture is created whose load fetches that one source |
| Textures.FaceSources | Common/WebVRCommon.js:570-604 | a cube has six face sources, in the order +X, -X, +Y, -Y, +Z, -Z, each the source given for that face |
| Textures.LoadTextureCube | Common/WebVRCommon.js:479-491 | a missing or empty +X source is rejected; otherwise an unloaded cube texture is created whose load fetches the six faces in upload order |
| Textures.LoadCanvasTexture | Common/WebVRCommon.js:493-502 | a canvas texture is loaded at once with the canvas size, and downgraded like an image when a side is not a power of two |
| Textures.UploadCalls | Common/WebVRCommon.js:546-568 | an upload activates unit 0, binds the texture, uploads each image in order, and generates mipmaps exactly when the sampling asks for them |
| Textures.Complete2D | Common/WebVRCommon.js:546-568 | a failed decode rejects with the source's name and changes nothing; a decoded image is uploaded, the record becomes loaded with the image size, and the texture id is returned |
| Textures.FaceTargets | Common/WebVRCommon.js:582-589 | the six images go to the six cube-face targets in +X, -X, +Y, -Y, +Z, -Z order |
| Textures.FirstFailed | Common/WebVRCommon.js:572-579 | finds a failed face at or after the given position exactly when one exists |
| Textures.CompleteCube | Common/WebVRCommon.js:570-604 | a cube completes exactly when all six faces decode; a single failure rejects the whole load and issues no calls; on success all faces are uploaded and the record is loaded |
| Textures.CubeAllOrNothing | Common/WebVRCommon.js:570-604 | one failed face leaves the record's loaded flag as it was and issues no calls |
| Textures.MipmapsOnlyForPowerOfTwo | Common/WebVRCommon.js:546-568 | after a 2D load, mipmaps remain enabled only for an image whose sides are both powers of two |
| Textures.UseTexture | Common/WebVRCommon.js:632-645 | an unloaded texture issues no calls; a loaded one activates the unit, binds, and sets wrap and filter parameters from its sampling |
| Textures.NonPowerOfTwoSampledSafely | Common/WebVRCommon.js:619-645 | a texture from a non-power-of-two image is always sampled with clamped wrapping on both axes and LINEAR minification and magnification |
| Camera.InitialState | Common/WebVRCommon.js:41-42 | the camera starts with the configured angles and no drag |
| Camera.WrapUp | Common/WebVRCommon.js:93 | adding whole turns brings the yaw to at least -pi without passing pi |
| Camera.WrapDown | Common/WebVRCommon.js:94 | removing whole turns brings the yaw to at most pi |
| Camera.NormalizeYaw | Common/WebVRCommon.js:93-94 | the wrapped yaw lies in [-pi, pi] and points the same way as before |
| Camera.NormalizeYawKeepsRange | Common/WebVRCommon.js:93-94 | a yaw already in range is not moved |
| Camera.ClampPitch | Common/WebVRCommon.js:95 | the pitch is clamped to just inside the poles and unchanged when already inside |
| Camera.StartDrag | Common/WebVRCommon.js:75-82 | only a press on the layer source starts a drag, records the pointer, and is reported as handled |
| Camera.MoveDrag | Common/WebVRCommon.js:84-100 | while dragging, the camera turns by pi/1000 radians per pixel moved, keeping both angles in range; without a drag a move changes nothing |
| Camera.EndDrag | Common/WebVRCommon.js:102-104 | releasing ends the drag and keeps the angles |
| Camera.Step | Common/WebVRCommon.js:106-130 | each pointer event reaches its listener: a release ends any drag, a press on the layer source starts one at the pointer, nothing else starts a drag, angles in range stay in range, and without a drag the angles do not move |
| Camera.Apply | Common/WebVRCommon.js:73-131 | after a sequence of pointer events ending in a release there is no drag, and a drag at the end was either under way at the start or begun by a press on the layer source |
| Camera.ApplyKeepsRange | Common/WebVRCommon.js:73-131 | once the angles are in range, no sequence of pointer events takes them out |
| Camera.MoveThenApplyInRange | Common/WebVRCommon.js:73-131 | after any move during a drag the angles are in range from then on |
| Camera.NoPressNoTurn | Common/WebVRCommon.js:73-131 | without a press on the layer source, no events turn the camera |
| Scheduler.FalseFlagsIgnored | Common/WebVRCommon.js:27-31 | as written, passing false for clearDepth and fallbackToMono still turns both on |
| Scheduler.OrTrue | Common/WebVRCommon.js:27-31 | as written, `flag \|\| true` is true for every flag value, an explicit false included |
| Scheduler.ResolveAsWritten | Common/WebVRCommon.js:27-31 | as written, both flags always resolve to true; the clear colour defaults to opaque black |
| Scheduler.Resolve | Common/WebVRCommon.js:27-31 | corrected: a given flag is kept and only a missing one defaults to true |
| Scheduler.ResolutionsAgreeUnlessFalse | Common/WebVRCommon.js:27-31 | the written and corrected settings agree exactly when neither flag was given as false |
| Scheduler.Start | Common/WebVRCommon.js:647-694 | the loop starts exactly when WebVR is supported, a display is found and presenting succeeds, or WebVR is missing and mono fallback is on; the first display is used with a layer twice the widest eye by the tallest eye; a rejected discovery, no display, a failed present and missing WebVR without fallback each give their own messages and no loop |
| Scheduler.NoDisplayNoLoop | Common/WebVRCommon.js:679-682 | with WebVR but no display, start-up reports that and does not loop, even when mono fallback is on |
| Scheduler.PreUpdate | Common/WebVRCommon.js:697-717 | every frame first re-arms the animation callback, and the pre-update hook runs exactly when one is set |
| Scheduler.Update | Common/WebVRCommon.js:720-747 | with a display, the frame data is read and the update hook, when set, gets the display pose; without one but with mono fallback, the layer takes the canvas size and the hook gets the mono camera; otherwise nothing happens |
| Scheduler.ClearCalls | Common/WebVRCommon.js:776-792 | the colour is set exactly when a clear colour is configured, and one clear covers depth and colour exactly when either is wanted; there are at most two calls, and the colour is set before the clear |
| Scheduler.Render | Common/WebVRCommon.js:749-774 | with a display the frame clears, renders the left and then the right half of the layer and submits; without one, and with mono fallback, it renders once in mono over the whole layer |
| Scheduler.EyeEvents | Common/WebVRCommon.js:749-774 | after the clear, with a render hook and a display the left half is drawn and rendered, then the right half, then the frame is submitted; without a display but with mono fallback there is one full-layer mono render; otherwise nothing |
| Scheduler.ConcatPhaseOrdered | Common/WebVRCommon.js:794-798 | a pre-update part, an update part and a render part, concatenated, stay in phase order |
| Scheduler.Frame | Common/WebVRCommon.js:794-798 | a frame re-arms first and runs pre-update, update and render strictly in that order |
| Scheduler.RenderEyes | Common/WebVRCommon.js:749-774 | the render hook sees Left then Right with a display, Mono without, and nothing when no hook is set; a frame is submitted exactly when there is a hook and a display |
| Scheduler.FrameRenders | Common/WebVRCommon.js:794-798 | across a whole frame, the eyes rendered and whether it is submitted depend only on the render hook and the display |
| Scheduler.HeadHasNoRender | Common/WebVRCommon.js:708-747 | pre-update and update never submit a frame |
| Scheduler.StereoViewportsTile | Common/WebVRCommon.js:756-763 | the two eye viewports are the left and right halves of the layer |
| Panorama.ModeOrMono | Common/Pano.js:58 | a missing or zero stereo mode means mono |
| Panorama.DecodeTextureType | Common/Pano.js:51-77 | a missing or empty source is an error, as is a source list whose length is not 1, 2, 6 or 12, and every list of one of those lengths decodes; one and two paths are 2D textures, six and twelve are cube maps; one path keeps the requested mode, while two or twelve paths mean separate textures per eye |
| Panorama.DecodedStereo | Common/Pano.js:51-77 | the stereo mode is STEREO_TEXTURES exactly for two or twelve paths, or for one path with that mode requested |
| Panorama.CubeSourcesAt | Common/Pano.js:154-178 | the six faces of a cube are taken in order from consecutive paths |
| Panorama.PanoTextureOptions | Common/Pano.js:137-179 | the panorama generates mipmaps only when asked for explicitly and leaves every other option at its default |
| Panorama.LoadTextures | Common/Pano.js:137-179 | one or six paths share one texture between the eyes; two or twelve give the right eye the next texture; the left eye fetches path 0 or faces 0-5, a separate right eye path 1 or faces 6-11; an empty source is rejected with the matching loader's error |
| Panorama.EyeSources | Common/Pano.js:137-178 | the left texture fetches the first path or the first six faces; a separate right texture fetches the next path or faces 6 to 11; otherwise the right eye shares the left record |
| Panorama.NewPano | Common/Pano.js:22-43 | construction fails with the source decoding error first, then the program error, then the texture loader's error; otherwise the eyes get the textures the loader produced, opacity defaults to 1, and geometry and both textures start unloaded |
| Panorama.IsLoaded | Common/Pano.js:182-185 | a panorama is loaded exactly when its geometry is loaded and so is the texture of every eye it can render |
| Panorama.WithTexture | Common/Pano.js:137-179 | a finished texture load updates every eye that uses that texture and nothing else |
| Panorama.WithGeometry | Common/Pano.js:131-133 | a finished geometry load replaces the geometry record and leaves the textures, program, opacity, target and stereo mode as they were |
| Panorama.SharedTextureStaysShared | Common/Pano.js:183-185 | with a shared texture the eyes stay identical through any sequence of loads, and the panorama is loaded exactly when its geometry and that texture are |
| Panorama.SeparateTexturesLoadSeparately | Common/Pano.js:183-185 | with separate textures, loading only the left one does not make the panorama loaded |
| Panorama.EyeTexture | Common/Pano.js:190 | the right eye draws the right texture; the left and mono views draw the left one |
| Panorama.EyeWindow | Common/Pano.js:216-240 | each eye samples a window inside the unit square; top-bottom gives each eye half the height with the left eye's window starting halfway, left-right gives each eye half the width, and other modes use the whole image |
| Panorama.SplitWindowsTile | Common/Pano.js:216-240 | in a split mode the two eyes' windows are disjoint halves that together cover the image |
| Panorama.PanoUniforms | Common/Pano.js:207-241 | cube panoramas set texture, projectionMat, viewMat, modelMat and opacity, in that order and with their values; 2D panoramas add the eye's UV offset and scale |
| Panorama.OpenState | Common/Pano.js:194-202 | drawing turns depth writes and the depth test off, and enables blending exactly when the panorama is translucent |
| Panorama.RenderPano | Common/Pano.js:188-248 | an unloaded panorama draws nothing; a loaded one succeeds exactly when the program has every uniform it sets, and then sets state, binds geometry and the eye's texture, sets exactly the values the program's setters give for its uniforms, draws, and restores the depth and blend state |
| Panorama.RenderBindsEyeTexture | Common/Pano.js:188-248 | before drawing, the eye's own texture is bound, and blending is on exactly when opacity is below 1 |
| Panorama.BeforeCalls | Common/Pano.js:194-206 | the calls before the uniforms bind the texture, and only the opacity decides blending |
| Panorama.UseGeometryEnablesNothing | Common/WebVRCommon.js:417-432 | using a geometry never enables a capability, so it cannot turn blending on |
| Gamepad.InitialState | Common/GamepadState.js:9-17 | the tracker starts with all state tables empty |
| Gamepad.CopyEntry | Common/GamepadState.js:31 | a button's previous state becomes its last recorded state; other buttons keep theirs |
| Gamepad.CopyEntries | Common/GamepadState.js:30-31 | for the first n buttons, the previous state becomes the combined state just before; later buttons keep their previous state |
| Gamepad.RecordButtons | Common/GamepadState.js:30-37 | for the first n buttons, the table records the pad's pressed state; later entries are untouched |
| Gamepad.UpdateButtons | Common/GamepadState.js:29-38 | after a pad's buttons are read, each button's current state is the pad's and its previous state is what was current before; Gear VR buttons are also recorded in their own table; higher buttons and the axes are untouched |
| Gamepad.AxisTable | Common/GamepadState.js:48-55 | the axis table has exactly the pad's axes at their indices |
| Gamepad.PadStep | Common/GamepadState.js:24-56 | a missing or disconnected pad changes nothing; a connected pad records its buttons, keeps every button entry beyond its own count, replaces the combined axes, and a Gear VR pad also moves its axes into the previous-axes table |
| Gamepad.ApplyPads | Common/GamepadState.js:24-57 | reading pads never changes whether a callback is installed, and when no pad is a Gear VR device the Gear VR button and axis tables are untouched |
| Gamepad.TapEdge | Common/GamepadState.js:60-62 | a tap is raised exactly when button 0 was not pressed before and the Gear VR button 0 is pressed now |
| Gamepad.AxisEdge | Common/GamepadState.js:63-74 | a swipe along an axis is raised exactly when the axis was at rest before and is now non-zero, and its direction follows the sign |
| Gamepad.Edges | Common/GamepadState.js:59-74 | tap, right, left, up and down are each raised exactly on their edge condition: right for a negative and left for a positive horizontal value, up for a negative and down for a positive vertical one |
| Gamepad.EdgesOrdered | Common/GamepadState.js:59-74 | events come out as tap, then horizontal, then vertical, with at most one per group |
| Gamepad.Deliver | Common/GamepadState.js:77-81 | events reach the callback only when one is installed |
| Gamepad.Update | Common/GamepadState.js:20-75 | one update reads every pad and then raises the edge events of the resulting state, if a callback is installed |
| Gamepad.IdlePadsChangeNothing | Common/GamepadState.js:24-25 | missing and disconnected pads leave the tracker untouched |
| Gamepad.HeldButtonTapsOnce | Common/GamepadState.js:29-62 | a Gear VR touchpad held over two consecutive updates does not tap on the second |
| Gamepad.HeldSwipeRaisesOnce | Common/GamepadState.js:39-74 | a horizontal swipe held over two updates is not raised again on the second |
| Gamepad.OtherPadKeepsGearTables | Common/GamepadState.js:27-46 | a pad that is not a Gear VR device never touches the Gear VR tables |
| Gamepad.HeldButtonRetapsBehindOtherPad | Common/GamepadState.js:29-62 | when an unpressed non-Gear pad is listed before a held touchpad, the touchpad's previous state is overwritten each update, so the tap repeats every frame |
| Gamepad.TwoPads | Common/GamepadState.js:24 | pads are read one after another in list order |

## Left out

- Network, DOM and timers: `fetch`, `Image` decoding, `requestAnimationFrame`, `requestPresent` and event listeners are not modelled. Their results are inputs (`FetchOutcome`, `ImageOutcome`, `Discovery`, pointer events, gamepad snapshots), and promise completions are separate functions.
- GLSL sources, the gl-matrix math (projection, view and model matrices are opaque sequences), the WebVR polyfill shim, and the inspector hooks are not modelled. `WebVRPrograms.js` is not part of this model.
- The shader compiler and linker are inputs to `Programs.LoadProgram`. The panorama's `_loadProgram` receives that result, so its throw for an unknown texture target cannot happen in the model.
- `Panorama.LoadTextures`: requires a path count of 1, 2, 6 or 12, because the constructor throws before loading any other count.
- `Textures.CompleteCube`: the source waits with `Promise.all`, which rejects with whichever failing face settles first. The model always names the lowest failing face.
- `Textures.PowerOf2`: the contract speaks of values up to 2^32 only. Above that the body still takes both operands modulo 2^32 as `&` does, but no property is stated, because texture sizes never get that large.
- `Uniforms.SetUniforms`: the source sets uniforms one by one and throws at the first unknown name, so earlier uniforms were already set. The model reports only the error.
- NaN, `undefined` arithmetic and non-numeric values in configuration objects are not modelled. Optional fields are `Option`s, and JavaScript truthiness is written out where the source relies on it (`Textures.Truthy`, `Panorama.ModeOrMono`).
- `addHTMLMessage`: the message element is not modelled. `Scheduler.Start` lists the messages it would add.
- `init.gl` on a different canvas: not modelled. The mono frame uses the layer size.
- The timestamps and the pose and matrix arguments passed to the hooks are not modelled. Hooks appear as events in the frame trace.
- `Gamepad.ApplyPads`: only its effect on the callback flag and, without a Gear VR pad, on the Gear VR tables is stated per call. Its per-pad behaviour is stated through `Gamepad.PadStep` and `Gamepad.TwoPads`.
- `Camera.WrapUp`, `Camera.WrapDown`: angles are real numbers, not IEEE doubles. With doubles, a yaw of 1e17, which `init.monoCameraYaw` accepts at Common/WebVRCommon.js:41, has neighbouring values 16 apart, so adding or removing 2*pi leaves it unchanged and the loops at Common/WebVRCommon.js:93-94 never end. The termination and range proofs hold for reals only.
- `Camera.MoveDrag`: the turn is exactly pi/1000 radians per pixel; doubles round every product and sum.
- `Camera.Pi`: `Math.PI` is the decimal 3.141592653589793 written as an exact real, not the double nearest to pi.
- `Geometry.VertexCount`: the division is exact on reals. With doubles, a length that is not a multiple of the stride gives a rounded fraction.
- `Geometry.CreateGeometryCalls`: the buffer ids come from the parameter `first`, counting up, instead of traced `createBuffer` calls. `ArrayBufferData` carries the arrays' values as reals, not their rounding by `Float32Array`.
- `Panorama.RenderPano`: when `setUniforms` throws at Common/Pano.js:241, the calls issued at Common/Pano.js:194-206 have already reached the context, and the restore at Common/Pano.js:245-247 never runs. The model returns only the error and no calls.

Three behaviours are modelled as the code has them, even where a reader might expect otherwise:

- The option comment at Common/WebVRCommon.js:13 says `fallbackToMono` enables mono rendering when no VR device is found. In the code, when WebVR is available but no display is found, `start` stops with a message at Common/WebVRCommon.js:681 (`Scheduler.NoDisplayNoLoop`); the fallback at Common/WebVRCommon.js:687-688 is reached only without WebVR support.
- The yaw is wrapped into [-pi, pi] by the loops after the comment at Common/WebVRCommon.js:92.
- The combined `oldPressedButtons` table is shared by every pad, as declared at Common/GamepadState.js:11 (`Gamepad.HeldButtonRetapsBehindOtherPad`).

## Findings

| source | as written | input that shows it | evidently intended | confidence | as-written member | corrected member |
|---|---|---|---|---|---|---|
| Common/WebVRCommon.js:27 | `clearDepth` is `init.clearDepth \|\| true`, which is always true | `{clearDepth: false}` still clears depth | a given `false` disables the depth clear; only a missing value defaults to true | high, not executed | Scheduler.FalseFlagsIgnored | Scheduler.ResolutionsAgreeUnlessFalse |
| Common/WebVRCommon.js:31 | `fallbackToMono` is `init.fallbackToMono \|\| true`, which is always true | `{fallbackToMono: false}` still falls back to mono | a given `false` disables the fallback | high, not executed | Scheduler.ResolveAsWritten | Scheduler.Resolve |
| Common/WebVRCommon.js:342 | `config.primitiveType \|\| gl.TRIANGLES` replaces POINTS, whose code is 0 and falsy | `{primitiveType: gl.POINTS}` draws triangles | only a missing primitive type defaults to TRIANGLES | high, not executed | Geometry.CreatedPointsDrawTriangles | Geometry.IntendedGeometryDiffersOnlyOnPoints |
