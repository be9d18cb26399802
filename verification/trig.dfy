/** The floating-point functions the simulator calls (`math.sqrt`, `math.atan2`, `math.cos`,
    `math.sin`), supplied as a parameter so that their exact values stay unknown. Only the facts
    the simulator relies on are assumed of them, through `Sound`. */
module Trig {

  datatype Functions = Functions(
    sqrt: real -> real,
    atan2: (real, real) -> real,
    cos: real -> real,
    sin: real -> real)

  /** `f.sqrt(v)`, named so that `Sound` is instantiated only where a proof asks for it. */
  function Root(f: Functions, v: real): real {
    f.sqrt(v)
  }

  /** `sqrt` is the square root: non-negative, positive on positive arguments, and squaring back
      to its argument. Nothing is assumed of `atan2`, `cos` and `sin`. */
  ghost predicate Sound(f: Functions) {
    forall v {:trigger Root(f, v)} :: 0.0 <= v ==>
      && 0.0 <= Root(f, v)
      && (0.0 < v ==> 0.0 < Root(f, v))
      && Root(f, v) * Root(f, v) == v
  }
}
