/**
 * Building a shader program: both shaders are compiled, the program is linked, and the linked
 * program is reflected into its vertex layout and its uniform table.
 */
module Programs {
  import opened Results
  import opened Tables
  import opened GlTypes
  import opened Gl
  import opened VertexFormats
  import Uniforms

  /** What the context reports after compiling one shader. */
  datatype CompileOutcome = Compiled | CompileFailed(log: string)

  /** What the context reports after linking the program. */
  datatype LinkOutcome = Linked | LinkFailed(log: string)

  /** What the context reports about a linked program: its active attributes and uniforms. */
  datatype Reflection = Reflection(attributes: seq<ActiveVariable>, uniforms: seq<ActiveVariable>)

  /** The record `loadProgram` returns. */
  datatype ProgramInfo = ProgramInfo(
    program: ProgramId,
    vertexFormat: VertexFormat,
    uniforms: Table<Uniforms.UniformEntry>)

  /**
   * `loadProgram`: the vertex shader's compile failure is thrown first, then the fragment
   * shader's, then the link failure; a linked program is reflected, attributes before uniforms,
   * and a reflected type outside the table throws.
   */
  function LoadProgram(program: ProgramId, vs: CompileOutcome, fs: CompileOutcome, link: LinkOutcome,
                       reflection: Reflection): (r: Result<ProgramInfo>)
    ensures vs.CompileFailed? ==> r == Err(ShaderCompileFailed(vs.log))
    ensures vs.Compiled? && fs.CompileFailed? ==> r == Err(ShaderCompileFailed(fs.log))
    ensures vs.Compiled? && fs.Compiled? && link.LinkFailed? ==> r == Err(ProgramLinkFailed(link.log))
    ensures var attrs := AttributeEntries(reflection.attributes);
            r.Ok? <==> && vs.Compiled? && fs.Compiled? && link.Linked?
                       && VertexFormats.AllKnown(attrs, |attrs|)
                       && Uniforms.AllKnown(reflection.uniforms, |reflection.uniforms|)
    ensures r.Ok? ==> r.value.program == program
    ensures r.Ok? ==> r.value.vertexFormat == VertexFormatFromProgram(reflection.attributes).value
    ensures r.Ok? ==> r.value.uniforms == Uniforms.ReflectUniforms(reflection.uniforms, |reflection.uniforms|).value
    ensures vs.Compiled? && fs.Compiled? && link.Linked? && VertexFormatFromProgram(reflection.attributes).Err?
            ==> r == Err(VertexFormatFromProgram(reflection.attributes).error)
  {
    if vs.CompileFailed? then Err(ShaderCompileFailed(vs.log))
    else if fs.CompileFailed? then Err(ShaderCompileFailed(fs.log))
    else if link.LinkFailed? then Err(ProgramLinkFailed(link.log))
    else
      var format := VertexFormatFromProgram(reflection.attributes);
      if format.Err? then Err(format.error)
      else
        var uniforms := Uniforms.ReflectUniforms(reflection.uniforms, |reflection.uniforms|);
        if uniforms.Err? then Err(uniforms.error)
        else Ok(ProgramInfo(program, format.value, uniforms.value))
  }
}
