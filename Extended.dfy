/**
  Extended naturals: a finite count, or the "infinity" the game uses as the
  value of a best score that was never set and as the time of a lost round.
  The game compares these with `<` and `==`; here that comparison is exact
  and total instead of relying on floating-point infinity.
 */
module Extended {

  datatype ENat = Fin(n: nat) | Inf

  /** Strict order: finite values by their size, every finite value below Inf,
      and Inf below nothing (in particular `inf < inf` is false). */
  predicate Less(a: ENat, b: ENat)
  {
    match (a, b)
    case (Fin(x), Fin(y)) => x < y
    case (Fin(_), Inf) => true
    case (Inf, _) => false
  }

  lemma LessIsIrreflexive(a: ENat)
    ensures !Less(a, a)
  {
  }

  lemma LessIsTransitive(a: ENat, b: ENat, c: ENat)
    requires Less(a, b) && Less(b, c)
    ensures Less(a, c)
  {
  }

  /** Any two values are equal or ordered one way or the other, and not both. */
  lemma LessIsTrichotomous(a: ENat, b: ENat)
    ensures a == b || Less(a, b) || Less(b, a)
    ensures !(Less(a, b) && Less(b, a))
  {
  }

  /** Every finite value is below infinity, and infinity is the largest value. */
  lemma InfIsTop(a: ENat)
    ensures a.Fin? <==> Less(a, Inf)
    ensures !Less(Inf, a)
  {
  }
}
