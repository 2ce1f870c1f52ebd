/** Estimated cost of usage, and budgets (packages/organization/src/usage.ts), in exact integers. */
module Usage {
  import opened Common

  datatype Tokens = Tokens(input: int, output: int, cacheRead: int, cacheWrite: int)

  /** Micros per million tokens of each kind. */
  datatype Price = Price(input: int, output: int, cacheRead: int, cacheWrite: int)

  const MAX_SAFE := 9007199254740991
  const MILLION := 1_000_000

  predicate Safe(n: int) {
    0 <= n <= MAX_SAFE
  }

  predicate ValidTokens(t: Tokens) {
    Safe(t.input) && Safe(t.output) && Safe(t.cacheRead) && Safe(t.cacheWrite)
  }

  predicate ValidPrice(p: Price) {
    Safe(p.input) && Safe(p.output) && Safe(p.cacheRead) && Safe(p.cacheWrite)
  }

  /** The exact cost, in millionths of a micro. */
  function ExactCost(t: Tokens, p: Price): int {
    t.input * p.input + t.output * p.output + t.cacheRead * p.cacheRead + t.cacheWrite * p.cacheWrite
  }

  function CeilDiv(n: int, d: int): int
    requires d > 0
  {
    -(-n / d)
  }

  /** None without a price; an error for a negative or unsafe number. */
  function EstimatedCost(t: Tokens, price: Option<Price>): Result<Option<int>, string> {
    if price.None? then Ok(None)
    else if !ValidTokens(t) || !ValidPrice(price.value) then Err("Invalid usage or price.")
    else Ok(Some(CeilDiv(ExactCost(t, price.value), MILLION)))
  }

  /**
   The estimate is the least whole number of micros that covers the exact cost, and there is one exactly for valid
   input.
   */
  lemma EstimateIsLeast(t: Tokens, p: Price, other: int)
    ensures EstimatedCost(t, Some(p)).Ok? <==> ValidTokens(t) && ValidPrice(p)
    ensures EstimatedCost(t, Some(p)).Ok? ==>
              var e := EstimatedCost(t, Some(p)).value.value;
              e >= 0 && ExactCost(t, p) <= e * MILLION && (ExactCost(t, p) <= other * MILLION ==> e <= other)
  {
    if ValidTokens(t) && ValidPrice(p) {
      CostIsNatural(t, p);
      CeilIsLeast(ExactCost(t, p), MILLION, other);
    }
  }

  lemma CostIsNatural(t: Tokens, p: Price)
    requires ValidTokens(t) && ValidPrice(p)
    ensures ExactCost(t, p) >= 0
  {
    assert t.input * p.input >= 0 && t.output * p.output >= 0;
    assert t.cacheRead * p.cacheRead >= 0 && t.cacheWrite * p.cacheWrite >= 0;
  }

  lemma CeilIsLeast(n: int, d: int, other: int)
    requires d > 0
    ensures n <= CeilDiv(n, d) * d < n + d
    ensures n <= other * d ==> CeilDiv(n, d) <= other
    ensures n >= 0 ==> CeilDiv(n, d) >= 0
  {
    var q := CeilDiv(n, d);
    assert -n == (-n / d) * d + (-n) % d;
    if n <= other * d && q > other { Ordered(other + 1, q, d); }
    if n >= 0 && q < 0 { Ordered(q, -1, d); }
  }

  lemma Ordered(a: int, b: int, d: int)
    requires a <= b && d > 0
    ensures a * d <= b * d
  {
    assert (b - a) * d >= 0;
  }

  // ----- Splitting a usage into events -----

  function Total(parts: seq<Tokens>): Tokens {
    if parts == [] then Tokens(0, 0, 0, 0) else
    Plus(Total(parts[..|parts| - 1]), parts[|parts| - 1])
  }

  function Plus(t: Tokens, u: Tokens): Tokens {
    Tokens(t.input + u.input, t.output + u.output, t.cacheRead + u.cacheRead, t.cacheWrite + u.cacheWrite)
  }

  lemma Distribute(a: int, b: int, c: int)
    ensures (a + b) * c == a * c + b * c
  {
  }

  /** The exact cost is additive. */
  lemma CostAdds(t: Tokens, u: Tokens, p: Price)
    ensures ExactCost(Plus(t, u), p) == ExactCost(t, p) + ExactCost(u, p)
  {
    Distribute(t.input, u.input, p.input);
    Distribute(t.output, u.output, p.output);
    Distribute(t.cacheRead, u.cacheRead, p.cacheRead);
    Distribute(t.cacheWrite, u.cacheWrite, p.cacheWrite);
  }

  function TotalEstimate(parts: seq<Tokens>, p: Price): int {
    if parts == [] then 0 else
    TotalEstimate(parts[..|parts| - 1], p) + CeilDiv(ExactCost(parts[|parts| - 1], p), MILLION)
  }

  lemma CeilOfSum(a: int, b: int)
    ensures CeilDiv(a + b, MILLION) <= CeilDiv(a, MILLION) + CeilDiv(b, MILLION) <= CeilDiv(a + b, MILLION) + 1
  {
  }

  /** Recording one usage as k events never lowers the estimate and raises it by at most k - 1 micros. */
  lemma {:induction false} SplittingCostsLittle(parts: seq<Tokens>, p: Price)
    requires parts != []
    ensures CeilDiv(ExactCost(Total(parts), p), MILLION) <= TotalEstimate(parts, p)
    ensures TotalEstimate(parts, p) <= CeilDiv(ExactCost(Total(parts), p), MILLION) + |parts| - 1
  {
    CostAdds(Total(parts[..|parts| - 1]), parts[|parts| - 1], p);
    var init, last := parts[..|parts| - 1], parts[|parts| - 1];
    if init == [] {
      assert Total(init) == Tokens(0, 0, 0, 0) && ExactCost(Total(init), p) == 0;
    } else {
      SplittingCostsLittle(init, p);
      CeilOfSum(ExactCost(Total(init), p), ExactCost(last, p));
    }
  }

  function Repeated(t: Tokens, k: nat): seq<Tokens> {
    if k == 0 then [] else Repeated(t, k - 1) + [t]
  }

  lemma CeilOfFraction(n: int)
    requires 0 < n <= MILLION
    ensures CeilDiv(n, MILLION) == 1
  {
  }

  lemma Times(k: nat, c: int)
    requires k > 0
    ensures k * c == (k - 1) * c + c && (c > 0 ==> c <= k * c)
  {
    if c > 0 { assert (k - 1) * c >= 0; }
  }

  lemma {:induction false} RepeatedCosts(t: Tokens, p: Price, k: nat)
    requires CeilDiv(ExactCost(t, p), MILLION) == 1
    ensures |Repeated(t, k)| == k && TotalEstimate(Repeated(t, k), p) == k
    ensures k > 0 ==> ExactCost(Total(Repeated(t, k)), p) == k * ExactCost(t, p)
  {
    if k > 0 {
      RepeatedCosts(t, p, k - 1);
      assert Repeated(t, k)[..k - 1] == Repeated(t, k - 1) && Repeated(t, k)[k - 1] == t;
      CostAdds(Total(Repeated(t, k - 1)), t, p);
      Times(k, ExactCost(t, p));
      if k == 1 { NothingCosts(p); }
    }
  }

  lemma NothingCosts(p: Price)
    ensures ExactCost(Total([]), p) == 0
  {
  }

  /** The bound is reached by any k equal events that cost something, and together at most one micro. */
  lemma SplittingBoundIsReached(t: Tokens, p: Price, k: nat)
    requires k > 0 && 0 < ExactCost(t, p) && k * ExactCost(t, p) <= MILLION
    ensures TotalEstimate(Repeated(t, k), p) == CeilDiv(ExactCost(Total(Repeated(t, k)), p), MILLION) + k - 1
  {
    Times(k, ExactCost(t, p));
    CeilOfFraction(ExactCost(t, p));
    CeilOfFraction(k * ExactCost(t, p));
    RepeatedCosts(t, p, k);
  }

  // ----- Budgets -----

  /** A quotient of JavaScript numbers. */
  datatype Ratio = Finite(value: real) | Infinite | NotANumber

  function Quotient(n: nat, limit: nat): Ratio {
    if limit > 0 then Finite(n as real / limit as real) else if n > 0 then Infinite else NotANumber
  }

  /** Math.max: not a number if either is not. */
  function MaxRatio(a: Ratio, b: Ratio): Ratio {
    if a.NotANumber? || b.NotANumber? then NotANumber
    else if a.Infinite? || b.Infinite? then Infinite
    else Finite(if a.value <= b.value then b.value else a.value)
  }

  predicate Exceeds(a: Ratio, bound: real) {
    a.Infinite? || (a.Finite? && a.value > bound)
  }

  predicate Reaches(a: Ratio, bound: real) {
    a.Infinite? || (a.Finite? && a.value >= bound)
  }

  datatype Action = Warn | BlockModel | Fallback | BlockAi

  datatype Rule = Rule(limitMicros: Option<nat>, tokenLimit: Option<nat>, warningFraction: real, hardAction: Action)

  datatype Verdict = Verdict(warning: bool, blocked: bool, action: Option<Action>)

  function Share(n: nat, limit: Option<nat>): Ratio {
    if limit.None? then Finite(0.0) else Quotient(n, limit.value)
  }

  function EvaluateBudget(rule: Rule, spent: nat, tokens: nat, reservedMicros: nat, reservedTokens: nat): Verdict {
    var ratio := MaxRatio(Share(spent + reservedMicros, rule.limitMicros),
        Share(tokens + reservedTokens, rule.tokenLimit));
    var warning, blocked := Reaches(ratio, rule.warningFraction), Exceeds(ratio, 1.0);
    Verdict(warning, blocked, if blocked then Some(rule.hardAction) else if warning then Some(Warn) else None)
  }

  predicate Over(n: nat, limit: Option<nat>) {
    limit.Some? && n > limit.value
  }

  /** A limit of zero against a sum of zero gives a quotient that is not a number. */
  predicate Undefined(n: nat, limit: Option<nat>) {
    limit == Some(0) && n == 0
  }

  lemma ShareMeans(n: nat, limit: Option<nat>)
    ensures Share(n, limit).NotANumber? <==> Undefined(n, limit)
    ensures Exceeds(Share(n, limit), 1.0) <==> Over(n, limit)
  {
    if limit.Some? && limit.value > 0 { QuotientAboveOne(n as real, limit.value as real); }
  }

  lemma QuotientAboveOne(a: real, b: real)
    requires b > 0.0
    ensures a / b > 1.0 <==> a > b
  {
    var q := a / b;
    assert q * b == a;
    if q > 1.0 { assert (q - 1.0) * b > 0.0; } else { assert (1.0 - q) * b >= 0.0; }
  }

  /**
   A request is blocked exactly when it would exceed a limit and neither quotient is undefined; then the hard action
   applies.
   */
  lemma BlockedExactly(rule: Rule, spent: nat, tokens: nat, micros: nat, more: nat)
    ensures var v := EvaluateBudget(rule, spent, tokens, micros, more);
            && (v.blocked <==>
                  (Over(spent + micros, rule.limitMicros) || Over(tokens + more, rule.tokenLimit))
                  && !Undefined(spent + micros, rule.limitMicros) && !Undefined(tokens + more, rule.tokenLimit))
            && (v.blocked ==> v.action == Some(rule.hardAction))
            && (!v.blocked ==> v.action == if v.warning then Some(Warn) else None)
  {
    ShareMeans(spent + micros, rule.limitMicros);
    ShareMeans(tokens + more, rule.tokenLimit);
  }

  // ----- A ledger that admits what is not blocked -----

  datatype Event = Event(micros: nat, tokens: nat)

  datatype Ledger = Ledger(spent: nat, tokens: nat)

  function Admit(rule: Rule, l: Ledger, e: Event): Ledger {
    if EvaluateBudget(rule, l.spent, l.tokens, e.micros, e.tokens).blocked then l
        else Ledger(l.spent + e.micros, l.tokens + e.tokens)
  }

  function AfterEvents(rule: Rule, events: seq<Event>): Ledger {
    if events == [] then Ledger(0, 0) else Admit(rule, AfterEvents(rule, events[..|events| - 1]), events[|events| - 1])
  }

  ghost predicate Within(rule: Rule, l: Ledger) {
    !Over(l.spent, rule.limitMicros) && !Over(l.tokens, rule.tokenLimit)
  }

  /** One limit is zero while the other is set. */
  predicate ZeroBesideOther(rule: Rule) {
    (rule.limitMicros == Some(0) && rule.tokenLimit.Some?) || (rule.tokenLimit == Some(0) && rule.limitMicros.Some?)
  }

  lemma {:induction false} LedgerStaysWithin(rule: Rule, events: seq<Event>)
    requires !ZeroBesideOther(rule)
    ensures Within(rule, AfterEvents(rule, events))
  {
    if events != [] {
      LedgerStaysWithin(rule, events[..|events| - 1]);
      var l, e := AfterEvents(rule, events[..|events| - 1]), events[|events| - 1];
      BlockedExactly(rule, l.spent, l.tokens, e.micros, e.tokens);
    }
  }

  /** One event that is let through although it exceeds the other limit. */
  function Overrun(rule: Rule): Event
    requires ZeroBesideOther(rule)
  {
    if rule.limitMicros == Some(0) && rule.tokenLimit.Some? then Event(0, rule.tokenLimit.value + 1)
        else Event(rule.limitMicros.value + 1, 0)
  }

  lemma OverrunIsAdmitted(rule: Rule)
    requires ZeroBesideOther(rule)
    ensures !Within(rule, AfterEvents(rule, [Overrun(rule)]))
  {
    var e := Overrun(rule);
    BlockedExactly(rule, 0, 0, e.micros, e.tokens);
    assert [e][..0] == [];
  }

  /**
   The ledger keeps within its limits whatever the events, exactly when no limit is zero beside another limit; a
   limit of zero switches the other one off as long as its own sum is zero.
   */
  lemma LedgerSafeExactly(rule: Rule)
    ensures (forall events :: Within(rule, AfterEvents(rule, events))) <==> !ZeroBesideOther(rule)
  {
    if ZeroBesideOther(rule) {
      OverrunIsAdmitted(rule);
    } else {
      forall events ensures Within(rule, AfterEvents(rule, events)) { LedgerStaysWithin(rule, events); }
    }
  }
}
