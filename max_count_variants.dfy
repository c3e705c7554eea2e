/** The derived counter comparisons (`inclusive`, `exactly`, `inRange`) and
    the typed `and` / `or` combinators of `MaxCountSpec`. */
module MaxCountVariants {
  import opened EvaluationContexts
  import opened MaxCount
  import S = Specifications

  /** `inclusive(counterKey:maximumCount:)`: the counter is at most the maximum. */
  function Inclusive(counterKey: string, maximumCount: int): (s: S.Spec)
    ensures S.Keys(s) == {counterKey}
    ensures forall ctx :: S.Eval(s, ctx) <==> ctx.Counter(counterKey) <= maximumCount
  {
    S.CounterAtMost(counterKey, maximumCount)
  }

  /** `exactly(counterKey:count:)`: the counter equals `count`. */
  function Exactly(counterKey: string, count: int): (s: S.Spec)
    ensures S.Keys(s) == {counterKey}
    ensures forall ctx :: S.Eval(s, ctx) <==> ctx.Counter(counterKey) == count
  {
    S.CounterEquals(counterKey, count)
  }

  /** `inRange(counterKey:range:)`: the counter lies in the closed range. */
  function InRange(counterKey: string, range: S.ClosedRange): (s: S.Spec)
    ensures S.Keys(s) == {counterKey}
    ensures forall ctx :: S.Eval(s, ctx) <==>
      range.lowerBound <= ctx.Counter(counterKey) <= range.upperBound
  {
    S.CounterInRange(counterKey, range)
  }

  /** `a.and(b)`: an `AndSpecification` of the two limits. */
  function And(a: MaxCountSpec, b: MaxCountSpec): (s: S.Spec)
    ensures S.Keys(s) == {a.counterKey, b.counterKey}
    ensures forall ctx :: S.Eval(s, ctx) <==> IsSatisfiedBy(a, ctx) && IsSatisfiedBy(b, ctx)
  {
    S.And(S.Count(a), S.Count(b))
  }

  /** `a.or(b)`: an `OrSpecification` of the two limits. */
  function Or(a: MaxCountSpec, b: MaxCountSpec): (s: S.Spec)
    ensures S.Keys(s) == {a.counterKey, b.counterKey}
    ensures forall ctx :: S.Eval(s, ctx) <==> IsSatisfiedBy(a, ctx) || IsSatisfiedBy(b, ctx)
  {
    S.Or(S.Count(a), S.Count(b))
  }

  /** A strict limit implies the inclusive one, and the inclusive limit `n`
      is the strict limit `n + 1`. */
  lemma InclusiveIsStrictPlusOne(counterKey: string, n: int, ctx: EvaluationContext)
    ensures IsSatisfiedBy(MaxCountSpec(counterKey, n), ctx) ==> S.Eval(Inclusive(counterKey, n), ctx)
    ensures S.Eval(Inclusive(counterKey, n), ctx) == IsSatisfiedBy(MaxCountSpec(counterKey, n + 1), ctx)
  {
  }

  /** A counter exactly at `n` passes the inclusive limit `n` and fails the
      strict limit `n`. */
  lemma ExactlyIsTheBoundary(counterKey: string, n: int, ctx: EvaluationContext)
    requires S.Eval(Exactly(counterKey, n), ctx)
    ensures S.Eval(Inclusive(counterKey, n), ctx)
    ensures !IsSatisfiedBy(MaxCountSpec(counterKey, n), ctx)
  {
  }

  /** The one-point range `c...c` is `exactly(c)`. */
  lemma PointRangeIsExactly(counterKey: string, c: int, ctx: EvaluationContext)
    ensures S.Eval(InRange(counterKey, S.Bounds(c, c)), ctx) == S.Eval(Exactly(counterKey, c), ctx)
  {
  }

  /** A range `lo...hi` is the inclusive limit `hi` without the strict limit `lo`. */
  lemma RangeIsInclusiveAndNotBelow(counterKey: string, range: S.ClosedRange, ctx: EvaluationContext)
    ensures S.Eval(InRange(counterKey, range), ctx) ==
      (S.Eval(Inclusive(counterKey, range.upperBound), ctx)
       && !IsSatisfiedBy(MaxCountSpec(counterKey, range.lowerBound), ctx))
  {
  }

  /** Two limits on one key under `and` are the smaller limit. */
  lemma AndSameKeyIsMin(counterKey: string, a: int, b: int, ctx: EvaluationContext)
    ensures S.Eval(And(MaxCountSpec(counterKey, a), MaxCountSpec(counterKey, b)), ctx) ==
      IsSatisfiedBy(MaxCountSpec(counterKey, if a <= b then a else b), ctx)
  {
  }

  /** Two limits on one key under `or` are the larger limit. */
  lemma OrSameKeyIsMax(counterKey: string, a: int, b: int, ctx: EvaluationContext)
    ensures S.Eval(Or(MaxCountSpec(counterKey, a), MaxCountSpec(counterKey, b)), ctx) ==
      IsSatisfiedBy(MaxCountSpec(counterKey, if a <= b then b else a), ctx)
  {
  }
}
