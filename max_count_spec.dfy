/** `MaxCountSpec`: a usage limit on one counter of the evaluation context,
    with its two initialisers and the convenience factories. */
module MaxCount {
  import opened EvaluationContexts

  /** The value type with its two stored fields. The datatype constructor is
      `init(counterKey:maximumCount:)`. `maximumCount` is exclusive. */
  datatype MaxCountSpec = MaxCountSpec(counterKey: string, maximumCount: int)

  /** `isSatisfiedBy`: the counter for the key is strictly below the maximum.
      In terms of the stored counters: a stored value must be below the
      maximum, and a key never set passes iff the maximum is positive. */
  function IsSatisfiedBy(spec: MaxCountSpec, ctx: EvaluationContext): (b: bool)
    ensures spec.counterKey in ctx.counters ==> (b <==> ctx.counters[spec.counterKey] < spec.maximumCount)
    ensures spec.counterKey !in ctx.counters ==> (b <==> 0 < spec.maximumCount)
  {
    ctx.Counter(spec.counterKey) < spec.maximumCount
  }

  /** `init(counterKey:limit:)`: the same spec as `init(counterKey:maximumCount:)`. */
  function WithLimit(counterKey: string, limit: int): (s: MaxCountSpec)
    ensures s.counterKey == counterKey && s.maximumCount == limit
    ensures forall ctx :: IsSatisfiedBy(s, ctx) <==> ctx.Counter(counterKey) < limit
  {
    MaxCountSpec(counterKey, limit)
  }

  /** `counter(_:limit:)`. */
  function CounterLimit(counterKey: string, limit: int): (s: MaxCountSpec)
    ensures s == MaxCountSpec(counterKey, limit)
    ensures forall ctx :: IsSatisfiedBy(s, ctx) <==> ctx.Counter(counterKey) < limit
  {
    WithLimit(counterKey, limit)
  }

  /** `onlyOnce(_:)`: satisfied only while the counter is below 1. */
  function OnlyOnce(counterKey: string): (s: MaxCountSpec)
    ensures s == MaxCountSpec(counterKey, 1)
    ensures forall ctx :: IsSatisfiedBy(s, ctx) <==> ctx.Counter(counterKey) < 1
  {
    WithLimit(counterKey, 1)
  }

  /** `onlyTwice(_:)`: satisfied only while the counter is below 2. */
  function OnlyTwice(counterKey: string): (s: MaxCountSpec)
    ensures s == MaxCountSpec(counterKey, 2)
    ensures forall ctx :: IsSatisfiedBy(s, ctx) <==> ctx.Counter(counterKey) < 2
  {
    WithLimit(counterKey, 2)
  }

  /** `dailyLimit(_:limit:)`. Resetting the counter each day is the caller's
      business: the spec itself is a plain limit. */
  function DailyLimit(counterKey: string, limit: int): (s: MaxCountSpec)
    ensures s == MaxCountSpec(counterKey, limit)
    ensures forall ctx :: IsSatisfiedBy(s, ctx) <==> ctx.Counter(counterKey) < limit
  {
    WithLimit(counterKey, limit)
  }

  /** `weeklyLimit(_:limit:)`, a plain limit like `DailyLimit`. */
  function WeeklyLimit(counterKey: string, limit: int): (s: MaxCountSpec)
    ensures s == MaxCountSpec(counterKey, limit)
    ensures forall ctx :: IsSatisfiedBy(s, ctx) <==> ctx.Counter(counterKey) < limit
  {
    WithLimit(counterKey, limit)
  }

  /** `monthlyLimit(_:limit:)`, a plain limit like `DailyLimit`. */
  function MonthlyLimit(counterKey: string, limit: int): (s: MaxCountSpec)
    ensures s == MaxCountSpec(counterKey, limit)
    ensures forall ctx :: IsSatisfiedBy(s, ctx) <==> ctx.Counter(counterKey) < limit
  {
    WithLimit(counterKey, limit)
  }

  /** Setting the counter to `value` satisfies the spec exactly when `value`
      is below the maximum; in particular, at the maximum it is unsatisfied. */
  lemma SetCounterDecides(spec: MaxCountSpec, ctx: EvaluationContext, value: int)
    ensures IsSatisfiedBy(spec, SetCounter(ctx, spec.counterKey, value)) <==> value < spec.maximumCount
    ensures !IsSatisfiedBy(spec, SetCounter(ctx, spec.counterKey, spec.maximumCount))
  {
  }

  /** With the key never set (counter 0), the spec holds iff the maximum is positive. */
  lemma AbsentKeySatisfiedIffPositive(spec: MaxCountSpec, ctx: EvaluationContext)
    requires spec.counterKey !in ctx.counters
    ensures IsSatisfiedBy(spec, ctx) <==> spec.maximumCount > 0
  {
  }

  /** The outcome depends on the spec's own counter and nothing else. */
  lemma ReadsOnlyItsCounter(spec: MaxCountSpec, c1: EvaluationContext, c2: EvaluationContext)
    requires c1.Counter(spec.counterKey) == c2.Counter(spec.counterKey)
    ensures IsSatisfiedBy(spec, c1) == IsSatisfiedBy(spec, c2)
  {
  }

  /** Once the limit is reached, further increments of any counter never
      make the spec satisfied again. */
  lemma ExhaustedStaysExhausted(spec: MaxCountSpec, ctx: EvaluationContext, key: string, n: nat)
    requires !IsSatisfiedBy(spec, ctx)
    ensures !IsSatisfiedBy(spec, Increments(ctx, key, n))
  {
  }

  /** Starting from a fresh provider and incrementing after every permitted
      action, the action is permitted exactly `maximumCount` times: after
      `n` increments the spec holds iff `n < maximumCount`. */
  lemma FreshLimitAllowsExactly(spec: MaxCountSpec, n: nat)
    ensures IsSatisfiedBy(spec, Increments(Empty(), spec.counterKey, n)) <==> n < spec.maximumCount
  {
  }

  /** `onlyOnce` permits one action, `onlyTwice` two, from a fresh provider. */
  lemma OnlyOnceAndTwiceOnFreshProvider(key: string)
    ensures IsSatisfiedBy(OnlyOnce(key), Empty())
    ensures !IsSatisfiedBy(OnlyOnce(key), IncrementCounter(Empty(), key))
    ensures IsSatisfiedBy(OnlyTwice(key), IncrementCounter(Empty(), key))
    ensures !IsSatisfiedBy(OnlyTwice(key), Increments(Empty(), key, 2))
  {
  }

  /** Banner scenario: counter 2 under a maximum of 3 is satisfied; one
      increment brings it to 3 and the spec is no longer satisfied. */
  lemma BannerScenario()
    ensures IsSatisfiedBy(MaxCountSpec("banner_shown", 3), SetCounter(Empty(), "banner_shown", 2))
    ensures !IsSatisfiedBy(MaxCountSpec("banner_shown", 3), IncrementCounter(SetCounter(Empty(), "banner_shown", 2), "banner_shown"))
    ensures !IsSatisfiedBy(MaxCountSpec("banner_shown", 3), SetCounter(Empty(), "banner_shown", 3))
  {
  }

  /** A banner spec on a provider that never touched its counter (but set
      other counters) is satisfied. */
  lemma UnsetBannerCounterScenario()
    ensures IsSatisfiedBy(MaxCountSpec("banner_shown", 3),
                          IncrementCounter(SetCounter(Empty(), "app_launches", 5), "page_views"))
  {
  }

  /** Clicks scenario: 3 clicks under a maximum of 5 pass, 6 clicks do not. */
  lemma ClicksScenario()
    ensures IsSatisfiedBy(MaxCountSpec("clicks", 5), SetCounter(Empty(), "clicks", 3))
    ensures !IsSatisfiedBy(MaxCountSpec("clicks", 5), SetCounter(Empty(), "clicks", 6))
  {
  }
}
