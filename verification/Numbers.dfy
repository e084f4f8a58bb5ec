/** Arithmetic that several models share. */
module Numbers {
  function Least(a: int, b: int): (r: int)
    ensures r <= a && r <= b && (r == a || r == b)
  {
    if a <= b then a else b
  }
}
