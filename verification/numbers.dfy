/** The interpreter computes on Rust `f64`. The model does not fix IEEE-754 arithmetic:
    every operation it needs on numbers is a field of a `NumOps<N>` record over an
    arbitrary number type `N`, so each property proved below holds for every choice of
    arithmetic, parser and renderer. What matters here is which branch the interpreter
    takes, not the value a float operation produces. */
module Numbers {
  import opened Results

  datatype NumOps<!N> = NumOps(
    add: (N, N) -> N,         // `+` on f64
    sub: (N, N) -> N,         // `-` on f64
    mul: (N, N) -> N,         // `*` on f64
    div: (N, N) -> N,         // `/` on f64
    isZero: N -> bool,        // `x == 0.0` (true for both zeros, false for NaN)
    eq: (N, N) -> bool,       // `==` on f64 (false for NaN against anything)
    parse: string -> Option<N>,  // `str::parse::<f64>`, `None` for `Err(_)`
    render: N -> string       // `f64::to_string`, also what `{}` prints
  )
}
