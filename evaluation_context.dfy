/** The immutable evaluation context that every counter specification reads.
    Only the counter and flag maps are modelled; event timestamps, the
    snapshot's clock and the open `userData` map are not part of this model. */
module EvaluationContexts {

  /** A snapshot of the provider's state. It never changes once built:
      a provider operation yields a new snapshot instead. */
  datatype EvaluationContext = EvaluationContext(counters: map<string, int>, flags: map<string, bool>)
  {
    /** `counter(for:)`: the stored counter, or 0 for a key never set. */
    function Counter(key: string): (r: int)
      ensures key in counters ==> r == counters[key]
      ensures key !in counters ==> r == 0
    {
      if key in counters then counters[key] else 0
    }

    /** `flag(for:)`: the stored flag, or false for a key never set. */
    function Flag(key: string): (r: bool)
      ensures key in flags ==> r == flags[key]
      ensures key !in flags ==> !r
    {
      key in flags && flags[key]
    }
  }

  /** The snapshot a provider yields after `setCounter(key, to: value)`. */
  function SetCounter(ctx: EvaluationContext, key: string, value: int): (r: EvaluationContext)
    ensures r.Counter(key) == value
    ensures forall other :: other != key ==> r.Counter(other) == ctx.Counter(other)
    ensures forall f :: r.Flag(f) == ctx.Flag(f)
  {
    ctx.(counters := ctx.counters[key := value])
  }

  /** The snapshot a provider yields after `incrementCounter(key)`; an unset
      counter starts from 0. */
  function IncrementCounter(ctx: EvaluationContext, key: string): (r: EvaluationContext)
    ensures r.Counter(key) == ctx.Counter(key) + 1
    ensures forall other :: other != key ==> r.Counter(other) == ctx.Counter(other)
    ensures forall f :: r.Flag(f) == ctx.Flag(f)
  {
    SetCounter(ctx, key, ctx.Counter(key) + 1)
  }

  /** The snapshot after `n` successive `incrementCounter(key)` calls. */
  function Increments(ctx: EvaluationContext, key: string, n: nat): (r: EvaluationContext)
    ensures r.Counter(key) == ctx.Counter(key) + n
    ensures forall other :: other != key ==> r.Counter(other) == ctx.Counter(other)
    ensures forall f :: r.Flag(f) == ctx.Flag(f)
  {
    if n == 0 then ctx else IncrementCounter(Increments(ctx, key, n - 1), key)
  }

  /** A snapshot with no counters and no flags, as a fresh provider yields. */
  function Empty(): (r: EvaluationContext)
    ensures forall key :: r.Counter(key) == 0 && !r.Flag(key)
  {
    EvaluationContext(map[], map[])
  }

  /** N increments against a fresh provider leave the counter at exactly N. */
  lemma FreshIncrementsCountExactly(key: string, n: nat)
    ensures Increments(Empty(), key, n).Counter(key) == n
  {
  }

  /** Reads of a snapshot built from literal maps: a stored counter and flag
      read back, and an unset flag reads as false. */
  lemma LiteralContextReads()
    ensures EvaluationContext(map["loginAttempts" := 3], map["isPremium" := true]).Counter("loginAttempts") == 3
    ensures EvaluationContext(map["loginAttempts" := 3], map["isPremium" := true]).Flag("isPremium")
    ensures !EvaluationContext(map["loginAttempts" := 3], map["isPremium" := true]).Flag("nonexistent")
  {
  }
}
