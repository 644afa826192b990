/** Small vocabulary shared by the other modules. */
module Common {
  datatype Option<+T> = None | Some(value: T)

  /** The source's `int`. */
  type Int32 = n: int | -0x8000_0000 <= n <= 0x7FFF_FFFF

  function MinReal(a: real, b: real): real { if b < a then b else a }

  function MaxReal(a: real, b: real): real { if a < b then b else a }

  function MinInt(a: int, b: int): int { if b < a then b else a }

  function AbsReal(a: real): real { if a < 0.0 then -a else a }

  function ClampReal(v: real, lo: real, hi: real): real {
    if v < lo then lo else if hi < v then hi else v
  }

  function ClampInt(v: int, lo: int, hi: int): int {
    if v < lo then lo else if hi < v then hi else v
  }
}
