/** Frame numbers, the constants of the session, and the two small containers every layer shares. */
module Frames {

  const NULL_FRAME: Frame := -1

  /** Slots in every input queue, about two seconds of play. */
  const MAX_ROLLBACK_FRAMES: nat := 120

  /** Players whose inputs fit into the input of one frame. */
  const MAX_PLAYERS: nat := 8

  /** How far the simulation may run ahead of the last confirmed frame. */
  const MAX_PREDICTION_FRAMES: nat := 8

  /** Frame numbers as the program uses them: NULL_FRAME or a frame of the game. */
  type Frame = f: int | -1 <= f witness -1

  datatype Option<+T> = None | Some(value: T)

  /** An input together with the frame number it was handed over with. */
  datatype FrameInput<I> = FrameInput(frame: Frame, input: I)

  datatype FetchedInput<I> = Normal(entry: FrameInput<I>) | Prediction(entry: FrameInput<I>)

  predicate IsNull(frame: int) {
    frame < 0
  }

  function Min(a: int, b: int): int {
    if a <= b then a else b
  }

  function Max(a: int, b: int): int {
    if a <= b then b else a
  }

  function Repeat<T>(n: nat, x: T): (r: seq<T>)
  {
    seq(n, _ => x)
  }

  lemma AppendAssociates<T>(a: seq<T>, b: seq<T>, c: seq<T>)
    ensures a + b + c == a + (b + c)
  {
  }
}
