/** The specification algebra over evaluation contexts: the leaves that the
    counter-threshold family builds, and the AND, OR and NOT combinators. */
module Specifications {
  import opened EvaluationContexts
  import opened MaxCount

  /** The two bounds of a Swift `ClosedRange<Int>`. */
  datatype Bounds = Bounds(lowerBound: int, upperBound: int)

  /** `ClosedRange<Int>`: forming `lo...hi` traps unless `lo <= hi`, so every
      range value satisfies it. */
  type ClosedRange = r: Bounds | r.lowerBound <= r.upperBound witness Bounds(0, 0)

  /** `ClosedRange.contains`: both bounds inclusive. */
  predicate Contains(range: ClosedRange, x: int) {
    range.lowerBound <= x <= range.upperBound
  }

  /** A specification over an evaluation context. `Count` is a `MaxCountSpec`
      used as a specification; the next three leaves are the closures that
      `inclusive`, `exactly` and `inRange` wrap in an `AnySpecification`;
      `FlagIs` is a predicate closure comparing `flag(for:)` with a value. */
  datatype Spec =
    | Count(limit: MaxCountSpec)
    | CounterAtMost(atMostKey: string, maximumCount: int)
    | CounterEquals(equalsKey: string, count: int)
    | CounterInRange(rangeKey: string, bounds: ClosedRange)
    | FlagIs(flagKey: string, expected: bool)
    | And(left: Spec, right: Spec)
    | Or(left: Spec, right: Spec)
    | Not(inner: Spec)

  /** `isSatisfiedBy`. `&&` and `||` short-circuit on the left operand as
      `AndSpecification` and `OrSpecification` do; evaluation is pure, so the
      order shows only in which operands are read. */
  predicate Eval(s: Spec, ctx: EvaluationContext) {
    match s
    case Count(m) => IsSatisfiedBy(m, ctx)
    case CounterAtMost(k, n) => ctx.Counter(k) <= n
    case CounterEquals(k, c) => ctx.Counter(k) == c
    case CounterInRange(k, r) => Contains(r, ctx.Counter(k))
    case FlagIs(f, v) => ctx.Flag(f) == v
    case And(l, r) => Eval(l, ctx) && Eval(r, ctx)
    case Or(l, r) => Eval(l, ctx) || Eval(r, ctx)
    case Not(i) => !Eval(i, ctx)
  }

  /** The counter keys a specification reads. */
  function Keys(s: Spec): (r: set<string>) {
    match s
    case Count(m) => {m.counterKey}
    case CounterAtMost(k, _) => {k}
    case CounterEquals(k, _) => {k}
    case CounterInRange(k, _) => {k}
    case FlagIs(_, _) => {}
    case And(l, r) => Keys(l) + Keys(r)
    case Or(l, r) => Keys(l) + Keys(r)
    case Not(i) => Keys(i)
  }

  /** The flag keys a specification reads. */
  function FlagKeys(s: Spec): (r: set<string>) {
    match s
    case FlagIs(f, _) => {f}
    case And(l, r) => FlagKeys(l) + FlagKeys(r)
    case Or(l, r) => FlagKeys(l) + FlagKeys(r)
    case Not(i) => FlagKeys(i)
    case _ => {}
  }

  /** Two snapshots that agree on every counter and flag a specification
      reads give it the same outcome: evaluation looks at nothing else. */
  lemma {:induction false} EvalReadsOnlyItsKeys(s: Spec, c1: EvaluationContext, c2: EvaluationContext)
    requires forall k :: k in Keys(s) ==> c1.Counter(k) == c2.Counter(k)
    requires forall f :: f in FlagKeys(s) ==> c1.Flag(f) == c2.Flag(f)
    ensures Eval(s, c1) == Eval(s, c2)
  {
    match s
    case Count(m) =>
    case CounterAtMost(_, _) =>
    case CounterEquals(_, _) =>
    case CounterInRange(_, _) =>
    case FlagIs(_, _) =>
    case And(l, r) =>
      EvalReadsOnlyItsKeys(l, c1, c2);
      EvalReadsOnlyItsKeys(r, c1, c2);
    case Or(l, r) =>
      EvalReadsOnlyItsKeys(l, c1, c2);
      EvalReadsOnlyItsKeys(r, c1, c2);
    case Not(i) =>
      EvalReadsOnlyItsKeys(i, c1, c2);
  }

  /** Setting or incrementing a counter that a specification does not read
      leaves its outcome unchanged. */
  lemma OtherCountersDoNotMatter(s: Spec, ctx: EvaluationContext, key: string, value: int)
    requires key !in Keys(s)
    ensures Eval(s, SetCounter(ctx, key, value)) == Eval(s, ctx)
    ensures Eval(s, IncrementCounter(ctx, key)) == Eval(s, ctx)
  {
    EvalReadsOnlyItsKeys(s, SetCounter(ctx, key, value), ctx);
    EvalReadsOnlyItsKeys(s, IncrementCounter(ctx, key), ctx);
  }

  /** AND holds iff both operands hold, whichever comes first. */
  lemma AndIsConjunction(a: Spec, b: Spec, ctx: EvaluationContext)
    ensures Eval(And(a, b), ctx) <==> Eval(a, ctx) && Eval(b, ctx)
    ensures Eval(And(a, b), ctx) == Eval(And(b, a), ctx)
  {
  }

  /** OR holds iff either operand holds, whichever comes first. */
  lemma OrIsDisjunction(a: Spec, b: Spec, ctx: EvaluationContext)
    ensures Eval(Or(a, b), ctx) <==> Eval(a, ctx) || Eval(b, ctx)
    ensures Eval(Or(a, b), ctx) == Eval(Or(b, a), ctx)
  {
  }

  /** NOT flips the outcome, and double negation is the identity. */
  lemma NotIsNegation(a: Spec, ctx: EvaluationContext)
    ensures Eval(Not(a), ctx) <==> !Eval(a, ctx)
    ensures Eval(Not(Not(a)), ctx) == Eval(a, ctx)
  {
  }
}
