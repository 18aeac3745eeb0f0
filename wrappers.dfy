/** Small shared datatypes: an optional value, standing for JavaScript's
    `null`/`undefined` results. */
module Wrappers {
  datatype Option<T> = None | Some(value: T)
}

/** The four arithmetic operators of the game. The evaluator, the validator and
    the generator each spell them with their own glyph table. */
module Ops {
  datatype Op = Add | Sub | Mul | Div
}

/** A score lowered by some points but never below 0, as `Math.max(0,
    score - points)` and as a subtraction followed by a reset of a negative
    result to 0. */
module Scores {
  function ClampedSub(score: int, points: int): (r: int)
    ensures r >= 0 && r >= score - points
    ensures r == 0 || r == score - points
  {
    if score - points > 0 then score - points else 0
  }
}
