/** Small functions on numbers. */
module Numbers {
  function One(b: bool): nat { if b then 1 else 0 }

  function Min(a: int, b: int): int { if a < b then a else b }

  function Max(a: int, b: int): int { if a > b then a else b }
}
