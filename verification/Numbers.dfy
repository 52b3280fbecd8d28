/** The smaller and the larger of two numbers. */
module Numbers {
  function Min(a: int, b: int): int { if b < a then b else a }

  function Max(a: int, b: int): int { if a < b then b else a }

  function MinReal(a: real, b: real): real { if b < a then b else a }

  function MaxReal(a: real, b: real): real { if a < b then b else a }

  /** The smaller is the greatest number at most both, the larger the least number at least both. */
  lemma MinMaxAre(a: int, b: int, c: int)
    ensures c <= Min(a, b) <==> c <= a && c <= b
    ensures c >= Max(a, b) <==> c >= a && c >= b
  {
  }

  lemma MinMaxRealAre(a: real, b: real, c: real)
    ensures c <= MinReal(a, b) <==> c <= a && c <= b
    ensures c >= MaxReal(a, b) <==> c >= a && c >= b
  {
  }
}
