// Small shared vocabulary: optional values, the larger of two numbers, and what
// becomes of a request.

module Prelude {

  datatype Option<+T> = None | Some(value: T)

  // It is lost, it is carried out, or it is carried out and the answer is lost.
  datatype Fate = Lost | Answered | Unheard

  function Max(x: int, y: int): int {
    if x >= y then x else y
  }
}
