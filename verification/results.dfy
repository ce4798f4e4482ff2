/** Optional values, results, and every error the rendering layer raises. */
module Results {

  /** A JavaScript value that may be `undefined`. */
  datatype Option<T> = None | Some(value: T) {
    function GetOr(default: T): T {
      if Some? then value else default
    }
  }

  /** The exceptions thrown synchronously and the rejections of asynchronous loads. */
  datatype Error =
    | ShaderCompileFailed(log: string)   // compile status false: the info log is thrown
    | ProgramLinkFailed(log: string)     // link status false: the info log is thrown
    | UnknownUniformType(code: int)      // "Unknown uniform type: <code>"
    | UnknownAttributeType(code: int)    // TypeError: reading byteSize of an undefined type info
    | UnknownUniformName(name: string)   // TypeError: setUniforms finds no uniform of that name
    | VerticesRequired                   // "config.vertices is required."
    | NoVertices                         // "At least one vertices is required."
    | SrcRequired                        // "config.src is required"
    | PosXRequired                       // "config.pos_x is required"
    | PanoSrcCount                       // "config.src must be 1, 2, 6, or 12 image paths"
    | ImageLoadFailed(src: string)       // "failed to load image: <src>"
    | GeometryFetchFailed                // the fetch or the JSON parse of a geometry rejected

  datatype Result<T> = Ok(value: T) | Err(error: Error) {
    predicate IsFailure() {
      Err?
    }

    function PropagateFailure<U>(): Result<U>
      requires Err?
    {
      Err(error)
    }

    function Extract(): T
      requires Ok?
    {
      value
    }
  }
}
