/** Canvas commands as recorded and replayed: the context kind, serialized arguments and command lists. */
module CanvasTypes {

  /** `CanvasContext`: 2D, WebGL, WebGL2. */
  datatype CanvasContext = Context2D | WebGL | WebGL2

  /**
   * `SerializedWebGlArg`: plain values, arrays, and objects tagged with `rr_type` that carry an
   * `index`, constructor `args`, `base64` data or an image `src` (looked for in that order), or none of them.
   */
  datatype SerializedArg =
    | ArgNumber(n: int)
    | ArgString(s: string)
    | ArgBool(b: bool)
    | ArgNull
    | ArgArray(items: seq<SerializedArg>)
    | ArgIndexed(rrType: string, index: int)
    | ArgConstructed(rrType: string, args: seq<SerializedArg>)
    | ArgBase64(rrType: string, base64: string)
    | ArgImage(rrType: string, src: string)
    | ArgTaggedOther(rrType: string)

  /** `canvasMutationCommand` */
  datatype CanvasCommand = CanvasCommand(property: string, args: seq<SerializedArg>, setter: bool)

  /** `canvasMutationWithType`: a command together with the context it was issued on. */
  datatype CanvasCommandWithType = CanvasCommandWithType(contextType: CanvasContext, command: CanvasCommand)

  /** The payload handed to the canvas mutation callback. */
  datatype CanvasMutationParam = CanvasMutationParam(id: int, contextType: CanvasContext, commands: seq<CanvasCommand>)
}
