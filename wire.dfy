/** The JSON messages exchanged over the publish/subscribe socket, reduced to
    the shapes the producer writes and the controllers read. */
module Wire {

  /** A JSON value as it appears in a telemetry message: a number, a string,
      or an object of numbers (the "probs" field). */
  datatype Value = Num(x: real) | Str(s: string) | Dict(entries: map<string, real>)

  /** One decoded message: a JSON object. */
  type Message = map<string, Value>

  datatype Option<T> = None | Some(value: T)

  const PROBS := "probs"
  const PROB_TARGET := "prob_target"
  const IMAGE_B64 := "image_b64"
  const JETSON_FPS := "jetson_fps"

  const LEFT := "left"
  const CENTER := "center"
  const RIGHT := "right"
}
