# SpecificationCore counter limits, in Dafny

This project models the counter-threshold family of SpecificationCore, a Swift
rule-evaluation library. A `MaxCountSpec` is a usage limit on one named
counter of an immutable `EvaluationContext` snapshot. It is satisfied while
the counter is strictly below `maximumCount`, and a counter that was never
set reads as 0. The model covers:

- the value type and its two initialisers;
- the factories `counter`, `onlyOnce`, `onlyTwice`, `dailyLimit`,
  `weeklyLimit` and `monthlyLimit`;
- the derived comparisons `inclusive` (at most), `exactly` (equal) and
  `inRange` (closed interval);
- the typed `and` / `or` combinators;
- the specification algebra these build into: AND, OR and NOT over the leaves;
- the first-match resolver that the tests use with these limits.

Modules, one per file:

- `EvaluationContexts` (`evaluation_context.dfy`): the snapshot and its
  `Counter` and `Flag` reads. It also holds the snapshots that a provider
  yields after `setCounter` and `incrementCounter`, written as functions
  from the old snapshot to the new one.
- `MaxCount` (`max_count_spec.dfy`): the `MaxCountSpec` datatype,
  `IsSatisfiedBy`, `init(counterKey:limit:)` and the factories.
- `Specifications` (`specification.dfy`): `ClosedRange`, the `Spec`
  datatype, `Eval` and `Keys` (the counters a spec reads). `Spec` has a
  `Count` leaf for a `MaxCountSpec`, one leaf per closure that `inclusive`,
  `exactly` and `inRange` wrap in an `AnySpecification`, a `FlagIs` leaf
  for a predicate on one flag, and `And`, `Or` and `Not` nodes.
- `MaxCountVariants` (`max_count_variants.dfy`): `inclusive`, `exactly`,
  `inRange`, `and` and `or`, with the equivalences between them.
- `FirstMatch` (`first_match.dfy`): `Decide` over an ordered list of
  (spec, value) cases, and `DecideOr` with a fallback.

Counts and limits are unbounded integers. The Swift code only compares
them, except where noted below.

## Model

| member | source | states |
|---|---|---|
| `EvaluationContexts.EvaluationContext.Counter` | Tests/SpecificationCoreTests/SpecificationCoreTests.swift:35-41 | `counter(for:)`: the stored value for a key that was set, 0 for a key never set |
| `EvaluationContexts.EvaluationContext.Flag` | Tests/SpecificationCoreTests/SpecificationCoreTests.swift:35-44 | `flag(for:)`: the stored flag for a key that was set, false for a key never set |
| `EvaluationContexts.SetCounter` | Tests/SpecificationCoreTests/SpecificationCoreTests.swift:46-55 | after `setCounter(key, to: v)` the counter reads `v`; every other counter and every flag reads as before |
| `EvaluationContexts.IncrementCounter` | Sources/SpecificationCore/Documentation.docc/Tutorials/Resources/Code/getting-started-02-with-context-02.swift:12 | `incrementCounter` adds exactly one to the counter (an unset one goes from 0 to 1); other counters and every flag are unchanged |
| `EvaluationContexts.Increments` | Sources/SpecificationCore/Documentation.docc/Tutorials/Resources/Code/getting-started-02-with-context-02.swift:25-26 | each successive increment adds one, so `n` of them add exactly `n`; other counters and every flag are unchanged |
| `EvaluationContexts.Empty` | Sources/SpecificationCore/Documentation.docc/Tutorials/Resources/Code/getting-started-05-testing.swift:7 | a fresh provider's snapshot reads every counter as 0 and every flag as false |
| `EvaluationContexts.FreshIncrementsCountExactly` | Sources/SpecificationCore/Documentation.docc/Tutorials/Resources/Code/getting-started-02-with-context-02.swift:12 | `n` increments of an unset counter leave it at exactly `n` |
| `EvaluationContexts.LiteralContextReads` | Tests/SpecificationCoreTests/SpecificationCoreTests.swift:35-44 | a context built from literal maps reads back counter 3 and flag true; an unset flag reads false |
| `MaxCount.IsSatisfiedBy` | Sources/SpecificationCore/Specs/MaxCountSpec.swift:38-41 | `isSatisfiedBy`: a stored counter passes iff it is strictly below the maximum; a key never set passes iff the maximum is positive |
| `MaxCount.WithLimit` | Sources/SpecificationCore/Specs/MaxCountSpec.swift:34-36 | `init(counterKey:limit:)` stores the same key and maximum as `init(counterKey:maximumCount:)`, so it holds iff counter < limit |
| `MaxCount.CounterLimit` | Sources/SpecificationCore/Specs/MaxCountSpec.swift:52-54 | `counter(_:limit:)` is field-for-field `MaxCountSpec(key, limit)` and holds iff counter < limit |
| `MaxCount.OnlyOnce` | Sources/SpecificationCore/Specs/MaxCountSpec.swift:59-61 | `onlyOnce` is the limit 1: holds iff counter < 1 |
| `MaxCount.OnlyTwice` | Sources/SpecificationCore/Specs/MaxCountSpec.swift:66-68 | `onlyTwice` is the limit 2: holds iff counter < 2 |
| `MaxCount.DailyLimit` | Sources/SpecificationCore/Specs/MaxCountSpec.swift:75-77 | `dailyLimit` is field-for-field `MaxCountSpec(key, limit)`; no reset is implied |
| `MaxCount.WeeklyLimit` | Sources/SpecificationCore/Specs/MaxCountSpec.swift:84-86 | `weeklyLimit` is field-for-field `MaxCountSpec(key, limit)` |
| `MaxCount.MonthlyLimit` | Sources/SpecificationCore/Specs/MaxCountSpec.swift:93-95 | `monthlyLimit` is field-for-field `MaxCountSpec(key, limit)` |
| `MaxCount.SetCounterDecides` | Sources/SpecificationCore/Specs/MaxCountSpec.swift:38-41 | with the counter set to `v` the spec holds iff `v < maximumCount`; at exactly the maximum it fails (strict comparison) |
| `MaxCount.AbsentKeySatisfiedIffPositive` | Sources/SpecificationCore/Documentation.docc/Tutorials/Resources/Code/getting-started-02-with-context-02.swift:18-23 | with the key never set, the spec holds iff the maximum is positive |
| `MaxCount.ReadsOnlyItsCounter` | Sources/SpecificationCore/Specs/MaxCountSpec.swift:38-41 | two snapshots that agree on the spec's counter give the same outcome |
| `MaxCount.ExhaustedStaysExhausted` | Sources/SpecificationCore/Specs/MaxCountSpec.swift:38-41 | once unsatisfied, any number of increments of any counter keep it unsatisfied |
| `MaxCount.FreshLimitAllowsExactly` | Sources/SpecificationCore/Specs/MaxCountSpec.swift:18-41 | from a fresh provider, after `n` increments the limit holds iff `n < maximumCount`: the action is allowed exactly `maximumCount` times |
| `MaxCount.OnlyOnceAndTwiceOnFreshProvider` | Sources/SpecificationCore/Specs/MaxCountSpec.swift:56-68 | `onlyOnce` allows one occurrence and `onlyTwice` two, counting from a fresh provider |
| `MaxCount.BannerScenario` | Sources/SpecificationCore/Documentation.docc/Tutorials/Resources/Code/getting-started-05-testing.swift:10-23 | counter 2 under maximum 3 holds; one increment, or setting it to 3, makes it fail |
| `MaxCount.UnsetBannerCounterScenario` | Sources/SpecificationCore/Documentation.docc/Tutorials/Resources/Code/getting-started-02-with-context-02.swift:10-23 | the banner limit holds when only other counters were set or incremented |
| `MaxCount.ClicksScenario` | Tests/SpecificationCoreTests/SpecificationCoreTests.swift:63-78 | 3 clicks under maximum 5 hold; 6 clicks do not |
| `Specifications.Eval` | Sources/SpecificationCore/Specs/MaxCountSpec.swift:38-159 | `isSatisfiedBy` for the whole algebra: the limit's strict test (lines 38-41), the `<=`, `==` and closed-range closures (106-141), AND and OR (150-159) as conjunction and disjunction; also a flag comparison, as the predicate closures at Tests/SpecificationCoreTests/SpecificationCoreTests.swift:129-130 write it, and NOT as negation, as that file's lines 25-31 assert |
| `Specifications.Keys` | Sources/SpecificationCore/Specs/MaxCountSpec.swift:106-141 | the counter keys a specification reads: each counter leaf's key, none for `FlagIs`, the union for AND and OR |
| `Specifications.EvalReadsOnlyItsKeys` | Sources/SpecificationCore/Specs/MaxCountSpec.swift:106-141 | every spec of the algebra reads only the counters and flags it names: snapshots agreeing on them give the same outcome |
| `Specifications.OtherCountersDoNotMatter` | Sources/SpecificationCore/Documentation.docc/Tutorials/Resources/Code/getting-started-02-with-context-02.swift:10-26 | setting or incrementing a counter a spec does not name leaves its outcome unchanged |
| `Specifications.AndIsConjunction` | Tests/SpecificationCoreTests/SpecificationCoreTests.swift:14-23 | AND holds iff both operands hold, independent of operand order |
| `Specifications.OrIsDisjunction` | Sources/SpecificationCore/Specs/MaxCountSpec.swift:154-159 | OR holds iff either operand holds, independent of operand order |
| `Specifications.NotIsNegation` | Tests/SpecificationCoreTests/SpecificationCoreTests.swift:25-31 | NOT flips the outcome; NOT(NOT(a)) behaves as `a` |
| `MaxCountVariants.Inclusive` | Sources/SpecificationCore/Specs/MaxCountSpec.swift:106-113 | `inclusive` holds iff counter <= maximum and reads only its own key |
| `MaxCountVariants.Exactly` | Sources/SpecificationCore/Specs/MaxCountSpec.swift:120-127 | `exactly` holds iff counter == count and reads only its own key |
| `MaxCountVariants.InRange` | Sources/SpecificationCore/Specs/MaxCountSpec.swift:134-141 | `inRange` holds iff lower bound <= counter <= upper bound, both inclusive |
| `MaxCountVariants.And` | Sources/SpecificationCore/Specs/MaxCountSpec.swift:150-152 | `a.and(b)` holds iff both limits hold; it reads both keys |
| `MaxCountVariants.Or` | Sources/SpecificationCore/Specs/MaxCountSpec.swift:157-159 | `a.or(b)` holds iff either limit holds; it reads both keys |
| `MaxCountVariants.InclusiveIsStrictPlusOne` | Sources/SpecificationCore/Specs/MaxCountSpec.swift:101-113 | the strict limit `n` implies `inclusive(n)`, and `inclusive(n)` is the strict limit `n + 1` |
| `MaxCountVariants.ExactlyIsTheBoundary` | Sources/SpecificationCore/Specs/MaxCountSpec.swift:115-127 | a counter exactly at `n` passes `inclusive(n)` and fails the strict limit `n` |
| `MaxCountVariants.PointRangeIsExactly` | Sources/SpecificationCore/Specs/MaxCountSpec.swift:129-141 | `inRange(c...c)` is `exactly(c)` |
| `MaxCountVariants.RangeIsInclusiveAndNotBelow` | Sources/SpecificationCore/Specs/MaxCountSpec.swift:134-141 | `inRange(lo...hi)` is `inclusive(hi)` and not the strict limit `lo` |
| `MaxCountVariants.AndSameKeyIsMin` | Sources/SpecificationCore/Specs/MaxCountSpec.swift:147-152 | two limits on one key under `and` behave as the smaller limit |
| `MaxCountVariants.OrSameKeyIsMax` | Sources/SpecificationCore/Specs/MaxCountSpec.swift:154-159 | two limits on one key under `or` behave as the larger limit |
| `FirstMatch.Decide` | Tests/SpecificationCoreTests/SpecificationCoreTests.swift:92-98 | `decide`: tries the cases in declaration order and returns the value of the first one satisfied, `None` if none is |
| `FirstMatch.DecideIsFirstMatch` | Tests/SpecificationCoreTests/SpecificationCoreTests.swift:87-100 | the first satisfied case decides, even when a later case also holds |
| `FirstMatch.NoMatchDecidesNone` | Tests/SpecificationCoreTests/SpecificationCoreTests.swift:87-100 | the decision is `None` iff no case is satisfied |
| `FirstMatch.DecisionComesFromFirstMatch` | Tests/SpecificationCoreTests/SpecificationCoreTests.swift:87-100 | every decision is the value of the first satisfied case |
| `FirstMatch.DecideOr` | Tests/SpecificationCoreTests/SpecificationCoreTests.swift:132-152 | with a fallback: the fallback when no case holds, otherwise the first satisfied case's value |
| `FirstMatch.DiscountTierScenario` | Tests/SpecificationCoreTests/SpecificationCoreTests.swift:87-100 | 7 purchases with cases not(<10), not(<5), not(<2) decide silver |
| `FirstMatch.AccessLevelScenario` | Tests/SpecificationCoreTests/SpecificationCoreTests.swift:123-156 | flag cases: with `isAdmin` set the decision is admin; with it cleared and `isUser` unset the fallback guest is returned |

## Left out

- The provider's live mutable state, its locking and the shared singleton
  are not modelled. The provider appears only through the snapshots it
  yields: each operation maps the old snapshot to the new one (`SetCounter`,
  `IncrementCounter`), so concurrent increments are modelled as sequential
  ones.
- Event timestamps, the snapshot clock and the time-based predicates
  (`TimeSinceEventSpec`, `CooldownIntervalSpec`) are left out. They rest on
  floating-point `Date` arithmetic, which the snapshot here does not carry:
  it holds only counters and flags.
- `userData` is left out. Its typed-`Any` lookups and dynamic casts have no
  faithful counterpart here.
- Specifications over subjects other than an evaluation context are left
  out. This covers `PredicateSpec<Int>` and user closures: the algebra is
  modelled over contexts only.
- Flags enter the algebra only as the `FlagIs` leaf, a predicate closure
  that compares `flag(for:)` with a value, as the resolver tests write it.
  `AnySpecification.always`/`never` and the fluent builder are left out,
  because neither the counter-limit code nor the resolver tests use them.
- No snapshot function models `setFlag`: the flag scenarios build their
  snapshots from literal maps.
- Failure propagation from throwing predicates is left out: every leaf here
  is total.
- The asynchronous specification variant is left out. It needs suspension
  and cancellation.
- The macro plug-in and the property-wrapper sugar (`@Satisfies`,
  `@Decides`, `@Maybe`) are left out. They are compile-time tooling and
  evaluate-on-read adapters.
- Swift's `Int` is 64-bit, and the model uses unbounded integers. The
  specs only compare counters, so evaluation is unaffected, but these
  members go past what Swift can compute:
  - `InclusiveIsStrictPlusOne` relates `inclusive(n)` to the limit `n + 1`,
    which Swift cannot form for `n == Int.max` (the addition traps).
  - `IncrementCounter` and `Increments` add 1 and `n`, where Swift traps
    once a counter is at `Int.max`.
  - `ExhaustedStaysExhausted` and `FreshLimitAllowsExactly` allow any
    number of increments, where Swift traps once a counter is at `Int.max`.
- `Decide` models `FirstMatchSpec.decide` from its uses in the tests and
  returns `None` when no case holds. This matches the test comparing
  `decide` with `.silver` directly, where Swift lifts the value to an
  optional. The resolver with a default value is `DecideOr`, as the
  `Decides` wrapper uses it.
- Keys are `string`s, sequences of Unicode scalars, and the model compares
  them scalar by scalar. Swift compares `String` keys, including dictionary
  lookups, by canonical equivalence. So precomposed `"caf\u{E9}"` and
  decomposed `"cafe\u{301}"` are one counter in Swift and two in the model.
  `SetCounter`, `IncrementCounter`, `Increments`, `ReadsOnlyItsCounter`,
  `EvalReadsOnlyItsKeys` and `OtherCountersDoNotMatter` speak of "other"
  keys, so they hold for Swift only when every key is in one normal form
  (such as NFC).
- A counter may be negative in the model, as it may in Swift: counters are
  `Int` values and `setCounter` accepts any of them.
