/** Path buffers of the C library's fixed length. */
module Paths {

  const PATH_MAX := 4096

  /** What a path buffer keeps of a text: all of it, or what fits before the final zero. */
  function CutPath(path: string): (cut: string)
    ensures cut <= path && |cut| < 4096 && (|path| < 4096 ==> cut == path) && (|path| >= 4096 ==> |cut| == 4095)
  {
    if |path| < PATH_MAX then path else path[..PATH_MAX - 1]
  }
}
