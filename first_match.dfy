/** First-match resolution: an ordered list of (specification, value) cases;
    the value of the first satisfied case is the decision. */
module FirstMatch {
  import opened EvaluationContexts
  import opened MaxCount
  import opened Specifications

  datatype Option<T> = None | Some(value: T)

  /** One (specification, value) pair of a `FirstMatchSpec`. */
  datatype Case<V> = Case(spec: Spec, value: V)

  /** Case `i` is satisfied and no earlier case is. */
  predicate IsFirstMatch<V>(cases: seq<Case<V>>, ctx: EvaluationContext, i: int) {
    0 <= i < |cases| && Eval(cases[i].spec, ctx)
    && forall j :: 0 <= j < i ==> !Eval(cases[j].spec, ctx)
  }

  /** `decide`: cases are tried in declaration order; none satisfied gives `None`. */
  function Decide<V>(cases: seq<Case<V>>, ctx: EvaluationContext): (r: Option<V>)
    decreases |cases|
  {
    if |cases| == 0 then None
    else if Eval(cases[0].spec, ctx) then Some(cases[0].value)
    else Decide(cases[1..], ctx)
  }

  /** The decision with a fallback for when no case is satisfied. */
  function DecideOr<V>(cases: seq<Case<V>>, fallback: V, ctx: EvaluationContext): (r: V)
    ensures (forall i :: 0 <= i < |cases| ==> !Eval(cases[i].spec, ctx)) ==> r == fallback
    ensures forall i :: IsFirstMatch(cases, ctx, i) ==> r == cases[i].value
  {
    forall i | IsFirstMatch(cases, ctx, i) ensures Decide(cases, ctx) == Some(cases[i].value) {
      DecideIsFirstMatch(cases, ctx, i);
    }
    NoMatchDecidesNone(cases, ctx);
    match Decide(cases, ctx)
    case Some(v) => v
    case None => fallback
  }

  /** The first satisfied case decides, even when later cases also hold. */
  lemma {:induction false} DecideIsFirstMatch<V>(cases: seq<Case<V>>, ctx: EvaluationContext, i: int)
    requires IsFirstMatch(cases, ctx, i)
    ensures Decide(cases, ctx) == Some(cases[i].value)
  {
    if i > 0 {
      assert !Eval(cases[0].spec, ctx);
      assert IsFirstMatch(cases[1..], ctx, i - 1) by {
        forall j | 0 <= j < i - 1 ensures !Eval(cases[1..][j].spec, ctx) {
          assert cases[1..][j] == cases[j + 1];
        }
      }
      DecideIsFirstMatch(cases[1..], ctx, i - 1);
    }
  }

  /** `None` exactly when no case is satisfied. */
  lemma {:induction false} NoMatchDecidesNone<V>(cases: seq<Case<V>>, ctx: EvaluationContext)
    ensures Decide(cases, ctx) == None <==> forall i :: 0 <= i < |cases| ==> !Eval(cases[i].spec, ctx)
  {
    if |cases| > 0 && !Eval(cases[0].spec, ctx) {
      NoMatchDecidesNone(cases[1..], ctx);
      assert forall i :: 1 <= i < |cases| ==> cases[i] == cases[1..][i - 1];
    }
  }

  /** Every decision is the value of the first satisfied case. */
  lemma {:induction false} DecisionComesFromFirstMatch<V>(cases: seq<Case<V>>, ctx: EvaluationContext, v: V)
    requires Decide(cases, ctx) == Some(v)
    ensures exists i :: IsFirstMatch(cases, ctx, i) && cases[i].value == v
  {
    if Eval(cases[0].spec, ctx) {
      assert IsFirstMatch(cases, ctx, 0);
    } else {
      DecisionComesFromFirstMatch(cases[1..], ctx, v);
      var i :| IsFirstMatch(cases[1..], ctx, i) && cases[1..][i].value == v;
      assert cases[1..][i] == cases[i + 1];
      forall j | 0 <= j < i + 1 ensures !Eval(cases[j].spec, ctx) {
        if j > 0 { assert cases[j] == cases[1..][j - 1]; }
      }
      assert IsFirstMatch(cases, ctx, i + 1);
    }
  }

  /** Discount tiers with 7 purchases: not below 10 fails, not below 5 holds,
      so the tier is silver although "not below 2" also holds. */
  lemma DiscountTierScenario()
    ensures Decide([
      Case(Not(Count(MaxCountSpec("purchases", 10))), "gold"),
      Case(Not(Count(MaxCountSpec("purchases", 5))), "silver"),
      Case(Not(Count(MaxCountSpec("purchases", 2))), "bronze")
    ], EvaluationContext(map["purchases" := 7], map[])) == Some("silver")
  {
  }

  /** Access levels resolved from flags with a fallback: with `isAdmin` set
      the admin case decides; with `isAdmin` cleared and `isUser` never set,
      no case holds and the fallback `guest` is returned. */
  lemma AccessLevelScenario()
    ensures DecideOr([Case(FlagIs("isAdmin", true), "admin"), Case(FlagIs("isUser", true), "user")],
                     "guest", EvaluationContext(map[], map["isAdmin" := true])) == "admin"
    ensures DecideOr([Case(FlagIs("isAdmin", true), "admin"), Case(FlagIs("isUser", true), "user")],
                     "guest", EvaluationContext(map[], map["isAdmin" := false])) == "guest"
  {
  }
}
