/** Values shared by every module of the model: optional values, results and rendered text. */
module Common {

  datatype Option<+T> = None | Some(value: T)

  /** A computation that either produced a value or failed with an error (Go's `(value, error)` pair). */
  datatype Result<+T, +E> = Success(value: T) | Failure(error: E)

  /** A computation that produces nothing but may fail (Go's lone `error` return). */
  datatype Outcome<+E> = Pass | Fail(error: E)

  /** Text as the program prints or writes it.
      `Fixed(sign, v, d, suffix)` stands for `sign`, then the number `v` written in decimal with `d`
      digits after the point, then `suffix`: what Go's `%.Nf` verb and `strconv.FormatFloat(v, 'f', N, 64)`
      produce. The digits themselves are not modelled. */
  datatype Text = Plain(s: string) | Fixed(sign: string, value: real, digits: nat, suffix: string)
}
