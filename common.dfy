/**
 * Small value types shared by every component: optional values and exact
 * fractions standing in for the floats the assistant reports as confidences
 * and similarities.
 */
module Common {

  datatype Option<T> = None | Some(value: T)

  /** The fraction num/den; den is positive wherever a Ratio is built. */
  datatype Ratio = Ratio(num: nat, den: nat)

  function Min(a: int, b: int): int
  {
    if a <= b then a else b
  }

  function Max(a: int, b: int): int
  {
    if a <= b then b else a
  }
}
