/** Datatypes shared by the component models. */
module Common {

  datatype Option<+T> = None | Some(value: T)

  /** A Python call either returns a value or raises. */
  datatype Result<+T, +E> = Ok(value: T) | Err(error: E)

  function Max(a: int, b: int): int {
    if a >= b then a else b
  }

  function Min(a: int, b: int): int {
    if a <= b then a else b
  }

  /** ASCII lower-casing; no Unicode case folding. */
  function LowerChar(c: char): char {
    if 'A' <= c <= 'Z' then c + ' ' else c
  }

  function Lower(s: string): (r: string)
    ensures |r| == |s|
    ensures forall i | 0 <= i < |s| :: r[i] == LowerChar(s[i])
  {
    seq(|s|, i requires 0 <= i < |s| => LowerChar(s[i]))
  }

  ghost predicate SameElements<T>(xs: seq<T>, ys: seq<T>) {
    multiset(xs) == multiset(ys)
  }
}
