/** What several modules share. */
module Common {
  datatype Option<+T> = None | Some(value: T)

  /** An item of a queue. */
  type Item = seq<bv8>

  function Digit(d: nat): char
    requires d < 10
  {
    '0' + d as char
  }

  function Pow10(n: nat): (p: nat)
    ensures p > 0
  {
    if n == 0 then 1 else 10 * Pow10(n - 1)
  }
}
