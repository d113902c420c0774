/** `all_between`: the half-open range between two values, whichever is
    smaller. The program instantiates it at `u32`; it is modelled over the
    integers. */
module Ranges {
  import opened Machine

  /** Rust's `start..end`: the start is included, the end is not. */
  datatype Range = Range(start: int, end: int)

  predicate Contains(rg: Range, v: int)
  {
    rg.start <= v < rg.end
  }

  /** The number of values a range yields when iterated. */
  function Length(rg: Range): int
  {
    rg.end - rg.start
  }

  function AllBetween(a: int, b: int): (rg: Range)
    ensures rg.start <= rg.end
    ensures forall v :: Contains(rg, v) <==> (a <= v < b || b <= v < a)
  {
    if a <= b then Range(a, b) else Range(b, a)
  }

  lemma AllBetweenSymmetric(a: int, b: int)
    ensures AllBetween(a, b) == AllBetween(b, a)
  {
  }

  lemma AllBetweenSameIsEmpty(a: int)
    ensures Length(AllBetween(a, a)) == 0
    ensures forall v :: !Contains(AllBetween(a, a), v)
  {
  }

  /** For unsigned values the range is as long as their `abs_diff`, the
      quantity the zoom box uses as the selection size. */
  lemma AllBetweenLength(a: u32, b: u32)
    ensures Length(AllBetween(a as int, b as int)) == AbsDiff(a, b) as int
  {
  }
}
