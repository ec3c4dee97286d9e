/** What the modules share about numbers. */
module Numbers {

  function Max(a: int, b: int): (m: int)
    ensures m >= a && m >= b && m in {a, b}
  {
    if a > b then a else b
  }

  /** What the numbers of a list come to together. */
  function Total(s: seq<int>): int {
    if s == [] then 0 else Total(s[..|s| - 1]) + s[|s| - 1]
  }

  /** The largest of a list's numbers. */
  ghost predicate IsLargest(s: seq<int>, m: int) { m in s && forall x :: x in s ==> x <= m }
}
