/** The calls of the token control one by one: what a call costs, said without the formula; exactly
    which requests are admitted, on which route and at which cost; and what a report of usage, a
    provider's charge and an emergency stop change.
    services/agent-commerce/agent_commerce/token_rates.py:13-112, token_preflight.py:21-183,
    token_usage.py:15-143, token_reconcile.py:13-110 and token_policy.py:15-136. */
module TokenCalls {
  import opened Sums
  import opened TokenSpend
  import opened TokenBudget
  import opened TokenRuns

  // ---------------------------------------------------------------- costs

  datatype Kind = Input | Output | Cached | Reasoning

  /** So many tokens of one kind and none of the others; and the price of a kind. */
  function Only(kind: Kind, n: int): Tokens {
    match kind
    case Input => Tokens(n, 0, 0, 0)
    case Output => Tokens(0, n, 0, 0)
    case Cached => Tokens(0, 0, n, 0)
    case Reasoning => Tokens(0, 0, 0, n)
  }

  function PriceOf(price: Tokens, kind: Kind): int {
    match kind
    case Input => price.input
    case Output => price.output
    case Cached => price.cached
    case Reasoning => price.reasoning
  }

  function Plus(a: Tokens, b: Tokens): Tokens {
    Tokens(a.input + b.input, a.output + b.output, a.cached + b.cached, a.reasoning + b.reasoning)
  }

  /** Tokens of one kind cost their own price for every million, rounded up to the whole unit. */
  lemma OneKindCosts(price: Tokens, kind: Kind, n: int)
    ensures var cost := Cost(price, Only(kind, n));
            n * PriceOf(price, kind) <= 1_000_000 * cost < n * PriceOf(price, kind) + 1_000_000
  {
    CeilDivBounds(n * PriceOf(price, kind), 1_000_000);
  }

  /** So whole millions of one kind cost exactly their price. */
  lemma MillionsCost(price: Tokens, kind: Kind, n: int)
    ensures Cost(price, Only(kind, n * 1_000_000)) == n * PriceOf(price, kind)
  {
    var p := PriceOf(price, kind);
    OneKindCosts(price, kind, n * 1_000_000);
    assert n * 1_000_000 * p == 1_000_000 * (n * p);
  }

  /** And the kinds, like the calls, add up to the rounding of one unit. */
  lemma CostsAddUp(price: Tokens, a: Tokens, b: Tokens)
    ensures Cost(price, a) + Cost(price, b) - 1 <= Cost(price, Plus(a, b)) <= Cost(price, a) + Cost(price, b)
  {
    var x := a.input * price.input + a.output * price.output + a.cached * price.cached + a.reasoning * price.reasoning;
    var y := b.input * price.input + b.output * price.output + b.cached * price.cached + b.reasoning * price.reasoning;
    PlusDistributes(a.input, b.input, price.input);
    PlusDistributes(a.output, b.output, price.output);
    PlusDistributes(a.cached, b.cached, price.cached);
    PlusDistributes(a.reasoning, b.reasoning, price.reasoning);
    CeilDivBounds(x, 1_000_000);
    CeilDivBounds(y, 1_000_000);
    CeilDivBounds(x + y, 1_000_000);
  }

  lemma PlusDistributes(a: int, b: int, p: int)
    ensures (a + b) * p == a * p + b * p
  {
  }

  // ---------------------------------------------------------------- routes

  /** Two routes have one key only if they are the same, unless a provider's name holds a colon. */
  lemma KeyFixesRoute(a: Route, b: Route)
    requires ':' !in a.provider && ':' !in b.provider
    ensures Key(a) == Key(b) <==> a == b
  {
    if Key(a) == Key(b) {
      var (k, m, n) := (Key(a), |a.provider|, |b.provider|);
      assert k[m] == ':' && forall i :: 0 <= i < m ==> k[i] == a.provider[i];
      assert k[n] == ':' && forall i :: 0 <= i < n ==> k[i] == b.provider[i];
      assert m == n;
      assert a.provider == k[..m] == b.provider && a.model == k[m + 1..] == b.model;
    }
  }

  /** The route has this key's permission, a card in force, and a price within the call's limits. */
  ghost predicate Fits(db: Db, q: Request, now: int, r: Route) {
    && q.policy < |db.policies|
    && var p := db.policies[q.policy];
       && (exists i :: 0 <= i < |p.terms.allowed| && Key(p.terms.allowed[i]) == Key(r))
       && exists c: nat :: CardInForce(db.rates, c, r, now)
                      && Cost(db.rates[c].price, q.estimate) <= p.terms.maxPerCall
                      && p.spent + p.reserved + Cost(db.rates[c].price, q.estimate) <= p.terms.budget
  }

  /** The card covers the route at the moment, and none that does took effect later. */
  ghost predicate CardInForce(cards: seq<RateCard>, c: nat, r: Route, now: int) {
    && c < |cards| && cards[c].route == r && cards[c].effectiveAt <= now
    && forall d :: 0 <= d < |cards| && cards[d].route == r && cards[d].effectiveAt <= now ==> cards[d].effectiveAt <= cards[c].effectiveAt
  }

  /** A route has one card for a moment. */
  ghost predicate CardsUnique(cards: seq<RateCard>) {
    forall i, j :: 0 <= i < j < |cards| ==> cards[i].route != cards[j].route || cards[i].effectiveAt != cards[j].effectiveAt
  }

  lemma InForceIsRateFor(cards: seq<RateCard>, c: nat, r: Route, now: int)
    requires CardsUnique(cards)
    ensures CardInForce(cards, c, r, now) <==> RateFor(cards, r, now) == Some(c)
  {
    var found := RateFor(cards, r, now);
    if CardInForce(cards, c, r, now) {
      assert Covers(cards, c, r, now);
      assert cards[found.value].effectiveAt == cards[c].effectiveAt;
    }
    if found == Some(c) {
      assert Covers(cards, c, r, now);
      forall d | 0 <= d < |cards| && cards[d].route == r && cards[d].effectiveAt <= now
        ensures cards[d].effectiveAt <= cards[c].effectiveAt
      {
        assert Covers(cards, d, r, now);
      }
    }
  }

  lemma FitsIsAffordable(db: Db, q: Request, now: int, r: Route)
    requires CardsUnique(db.rates) && q.policy < |db.policies|
    ensures Fits(db, q, now, r) <==> Affordable(MarketFor(db, q, now), r)
  {
    var m := MarketFor(db, q, now);
    if Fits(db, q, now, r) {
      var c: nat :| CardInForce(db.rates, c, r, now)
                    && Cost(db.rates[c].price, q.estimate) <= m.maxPerCall
                    && db.policies[q.policy].spent + db.policies[q.policy].reserved + Cost(db.rates[c].price, q.estimate) <= db.policies[q.policy].terms.budget;
      InForceIsRateFor(db.rates, c, r, now);
    }
    if Affordable(m, r) {
      var c := RateFor(db.rates, r, now).value;
      InForceIsRateFor(db.rates, c, r, now);
      assert CardInForce(db.rates, c, r, now);
    }
  }

  lemma NextKeepsCards(db: Db, action: Action)
    requires CardsUnique(db.rates)
    ensures CardsUnique(Next(db, action).rates)
  {
  }

  lemma {:induction false} RunKeepsCards(actions: seq<Action>)
    ensures CardsUnique(Exec(actions).rates)
  {
    if actions != [] {
      RunKeepsCards(actions[..|actions| - 1]);
      NextKeepsCards(Exec(actions[..|actions| - 1]), actions[|actions| - 1]);
    }
  }

  // ---------------------------------------------------------------- preflight

  ghost predicate Unused(db: Db, q: Request) {
    forall i :: 0 <= i < |db.rsvs| ==> db.rsvs[i].request.policy != q.policy || db.rsvs[i].request.key != q.key
  }

  /** The policy is in force and the estimate within its token limits. */
  ghost predicate InTerms(p: Policy, estimate: Tokens, now: int) {
    && p.status == Active
    && p.terms.start <= now < p.terms.end
    && p.spent < p.terms.budget
    && 0 <= estimate.input <= p.terms.maxInput
    && 0 <= estimate.output <= p.terms.maxOutput
    && 0 <= estimate.cached && 0 <= estimate.reasoning
  }

  /** How many of the calls are the policy's and no older than this. */
  function CallsSince(rsvs: seq<Reservation>, p: nat, since: int): int {
    if rsvs == [] then 0
    else
      var n := |rsvs| - 1;
      CallsSince(rsvs[..n], p, since) + if rsvs[n].request.policy == p && since <= rsvs[n].createdAt then 1 else 0
  }

  lemma {:induction false} CallsSinceIsSum(rsvs: seq<Reservation>, p: nat, since: int)
    ensures CallsSince(rsvs, p, since) == Sum(rsvs, RecentOne(p, since))
  {
    if rsvs != [] {
      CallsSinceIsSum(rsvs[..|rsvs| - 1], p, since);
    }
  }

  /** The calls that the policy admitted in the last minute. */
  function LastMinute(db: Db, p: nat, now: int): int {
    CallsSince(db.rsvs, p, now - 60)
  }

  /** A request may be served by the route it asks for or by a fallback. */
  ghost predicate Servable(db: Db, q: Request, r: Route) {
    q.policy < |db.policies| && (r == q.route || r in db.policies[q.policy].terms.fallback)
  }

  ghost predicate Admissible(db: Db, q: Request, now: int) {
    && q.policy < |db.policies|
    && InTerms(db.policies[q.policy], q.estimate, now)
    && LastMinute(db, q.policy, now) + 1 <= db.policies[q.policy].terms.maxCallsPerMinute
    && exists r :: Servable(db, q, r) && Fits(db, q, now, r)
  }

  lemma CandidatesAreServable(db: Db, q: Request, r: Route)
    requires q.policy < |db.policies|
    ensures var routes := Candidates(q.route, db.policies[q.policy].terms.fallback);
            && (r in routes <==> Servable(db, q, r))
            && routes[0] == q.route
  {
    WithoutKeepsOthers(db.policies[q.policy].terms.fallback, q.route, r);
  }

  lemma SearchIsExact(db: Db, q: Request, now: int)
    requires CardsUnique(db.rates) && q.policy < |db.policies|
    ensures var routes := Candidates(q.route, db.policies[q.policy].terms.fallback);
            Choose(MarketFor(db, q, now), routes).Ok? <==> exists r :: Servable(db, q, r) && Fits(db, q, now, r)
  {
    var m, routes := MarketFor(db, q, now), Candidates(q.route, db.policies[q.policy].terms.fallback);
    if r :| Servable(db, q, r) && Fits(db, q, now, r) {
      CandidatesAreServable(db, q, r);
      FitsIsAffordable(db, q, now, r);
      var j :| 0 <= j < |routes| && routes[j] == r;
      assert Affordable(m, routes[j]);
    }
    if Choose(m, routes).Ok? {
      var r := routes[Choose(m, routes).value];
      CandidatesAreServable(db, q, r);
      FitsIsAffordable(db, q, now, r);
    }
  }

  lemma TermsAreMet(db: Db, q: Request, now: int)
    requires q.policy < |db.policies|
    ensures Refusal(db, q, now).None? <==>
            InTerms(db.policies[q.policy], q.estimate, now) && LastMinute(db, q.policy, now) + 1 <= db.policies[q.policy].terms.maxCallsPerMinute
  {
    CallsSinceIsSum(db.rsvs, q.policy, now - 60);
  }

  /** Under an unused key, a request is admitted exactly when its policy is in force, its estimate
      within the token limits, a call is left for the minute, and a route that may serve it fits.
      A refusal changes nothing. */
  lemma PreflightExactly(db: Db, q: Request, now: int)
    requires CardsUnique(db.rates) && Unused(db, q)
    ensures Preflight(db, q, now).result.Ok? <==> Admissible(db, q, now)
    ensures Preflight(db, q, now).result.Err? ==> Preflight(db, q, now).db == db
  {
    assert FindKey(db.rsvs, q.policy, q.key).None?;
    if q.policy < |db.policies| {
      TermsAreMet(db, q, now);
      SearchIsExact(db, q, now);
    }
  }

  /** The row says what was asked, on which fitting route and card, at which price and when. */
  ghost predicate RowAsAsked(db: Db, q: Request, now: int, row: Reservation) {
    && row.request == q && row.createdAt == now && row.usage.None? && row.reconciliation.Pending?
    && Servable(db, q, row.selected) && Fits(db, q, now, row.selected)
    && (Fits(db, q, now, q.route) ==> row.selected == q.route)
    && CardInForce(db.rates, row.rate, row.selected, now)
    && row.cost == Cost(db.rates[row.rate].price, q.estimate)
  }

  lemma AdmittedRow(db: Db, q: Request, now: int, i: nat)
    requires CardsUnique(db.rates) && q.policy < |db.policies|
    requires FirstAffordable(MarketFor(db, q, now), Candidates(q.route, db.policies[q.policy].terms.fallback)) == Some(i)
    ensures RowAsAsked(db, q, now, Admitted(db, q, now, i))
  {
    var r := Candidates(q.route, db.policies[q.policy].terms.fallback)[i];
    CandidatesAreServable(db, q, r);
    FitsIsAffordable(db, q, now, r);
    FitsIsAffordable(db, q, now, q.route);
    InForceIsRateFor(db.rates, RateFor(db.rates, r, now).value, r, now);
  }

  /** The tables with the row added and its cost held. */
  ghost predicate Admits(db: Db, q: Request, now: int, db': Db) {
    && q.policy < |db.policies|
    && |db'.rsvs| == |db.rsvs| + 1 && db'.rsvs[..|db.rsvs|] == db.rsvs
    && db'.rates == db.rates && db'.events == db.events
    && var (row, p) := (db'.rsvs[|db.rsvs|], db.policies[q.policy]);
       && RowAsAsked(db, q, now, row)
       && db'.policies == db.policies[q.policy := p.(reserved := p.reserved + row.cost)]
  }

  /** What an admitted request records: itself, the requested route if that fits and otherwise a
      fallback that does, the card in force for it, the card's price of the estimate, and the time;
      and its policy holds that cost. */
  lemma AdmittedAsAsked(db: Db, q: Request, now: int)
    requires CardsUnique(db.rates) && Unused(db, q) && Preflight(db, q, now).result.Ok?
    ensures Preflight(db, q, now).result == Ok(|db.rsvs|)
    ensures Admits(db, q, now, Preflight(db, q, now).db)
  {
    assert FindKey(db.rsvs, q.policy, q.key).None?;
    var i := FirstAffordable(MarketFor(db, q, now), Candidates(q.route, db.policies[q.policy].terms.fallback)).value;
    assert Preflight(db, q, now) == Step(Adding(db, q, Admitted(db, q, now, i)), Ok(|db.rsvs|));
    AdmittedRow(db, q, now, i);
    AddingAdmits(db, q, now, Admitted(db, q, now, i));
  }

  function Adding(db: Db, q: Request, row: Reservation): Db
    requires q.policy < |db.policies|
  {
    var p := db.policies[q.policy];
    db.(rsvs := db.rsvs + [row], policies := db.policies[q.policy := p.(reserved := p.reserved + row.cost)])
  }

  lemma AddingAdmits(db: Db, q: Request, now: int, row: Reservation)
    requires q.policy < |db.policies| && RowAsAsked(db, q, now, row)
    ensures Admits(db, q, now, Adding(db, q, row))
  {
  }

  /** Every refusal of a policy has its own condition; those of the search are RefusalsAreExact. */
  lemma PolicyRefusals(db: Db, q: Request, now: int)
    requires Unused(db, q) && q.policy < |db.policies|
    ensures var (p, e) := (db.policies[q.policy], q.estimate);
            var open := p.status == Active && p.terms.start <= now < p.terms.end;
            var fits := e.input <= p.terms.maxInput && e.output <= p.terms.maxOutput;
            var counts := 0 <= e.input && 0 <= e.output && 0 <= e.cached && 0 <= e.reasoning;
            var crowded := LastMinute(db, q.policy, now) >= p.terms.maxCallsPerMinute;
            var result := Preflight(db, q, now).result;
            && (result == Err(PolicyPaused) <==> p.status.Paused? || (open && p.spent < p.terms.budget && fits && counts && crowded))
            && (result == Err(Denied) <==> (p.status == Active && !open) || (open && p.spent < p.terms.budget && !fits))
            && (result == Err(InvalidInput) <==> open && p.spent < p.terms.budget && fits && !counts)
            && (open && p.terms.budget <= p.spent ==> result == Err(OverBudget))
  {
    assert FindKey(db.rsvs, q.policy, q.key).None?;
    CallsSinceIsSum(db.rsvs, q.policy, now - 60);
  }

  /** And a request on no policy is denied. */
  lemma UnknownPolicyIsDenied(db: Db, q: Request, now: int)
    requires Unused(db, q) && q.policy >= |db.policies|
    ensures Preflight(db, q, now) == Step(db, Err(Denied))
  {
    assert FindKey(db.rsvs, q.policy, q.key).None?;
  }

  /** In every run every call was admitted within its policy's period, on a route that may serve it. */
  ghost predicate AllInTime(db: Db) {
    forall i :: 0 <= i < |db.rsvs| ==> InTime(db.policies, db.rsvs[i])
  }

  ghost predicate InTime(policies: seq<Policy>, r: Reservation) {
    && r.request.policy < |policies|
    && var t := policies[r.request.policy].terms;
       t.start <= r.createdAt < t.end && (r.selected == r.request.route || r.selected in t.fallback)
  }

  lemma AskKeepsTime(db: Db, q: Request, now: int)
    requires AllInTime(db) && CardsUnique(db.rates)
    ensures AllInTime(Preflight(db, q, now).db)
  {
    var existing := FindKey(db.rsvs, q.policy, q.key);
    if existing.None? {
      PreflightExactly(db, q, now);
      if Preflight(db, q, now).result.Ok? {
        AdmittedAsAsked(db, q, now);
        AdmittedKeepsTime(db, q, now, Preflight(db, q, now).db);
      }
    }
  }

  lemma AdmittedKeepsTime(db: Db, q: Request, now: int, db': Db)
    requires AllInTime(db) && Admits(db, q, now, db')
    requires db.policies[q.policy].terms.start <= now < db.policies[q.policy].terms.end
    ensures AllInTime(db')
  {
    assert forall i :: 0 <= i < |db.rsvs| ==> db'.rsvs[i] == db'.rsvs[..|db.rsvs|][i];
    TimeKept(db, db');
  }

  /** Terms and old rows stay, and new rows are in time. */
  lemma TimeKept(db: Db, db': Db)
    requires AllInTime(db) && |db.policies| <= |db'.policies| && |db.rsvs| <= |db'.rsvs|
    requires forall p :: 0 <= p < |db.policies| ==> db'.policies[p].terms == db.policies[p].terms
    requires forall i :: 0 <= i < |db.rsvs| ==> SameAdmission(db.rsvs[i], db'.rsvs[i])
    requires forall i :: |db.rsvs| <= i < |db'.rsvs| ==> InTime(db'.policies, db'.rsvs[i])
    ensures AllInTime(db')
  {
    forall i | 0 <= i < |db'.rsvs|
      ensures InTime(db'.policies, db'.rsvs[i])
    {
      if i < |db.rsvs| {
        assert InTime(db.policies, db.rsvs[i]) && SameAdmission(db.rsvs[i], db'.rsvs[i]);
      }
    }
  }

  ghost predicate SameAdmission(r: Reservation, r': Reservation) {
    r'.request == r.request && r'.selected == r.selected && r'.createdAt == r.createdAt
  }

  lemma NextKeepsTime(db: Db, action: Action)
    requires AllInTime(db) && CardsUnique(db.rates)
    ensures AllInTime(Next(db, action))
  {
    if action.Ask? {
      AskKeepsTime(db, action.request, action.now);
    } else {
      NextEvolves(db, action);
      forall i | 0 <= i < |db.rsvs|
        ensures SameAdmission(db.rsvs[i], Next(db, action).rsvs[i])
      {
        assert RowEvolves(db.rsvs[i], Next(db, action).rsvs[i]);
      }
      OnlyAskAdmits(db, action);
      TimeKept(db, Next(db, action));
    }
  }

  lemma OnlyAskAdmits(db: Db, action: Action)
    requires !action.Ask?
    ensures |Next(db, action).rsvs| == |db.rsvs|
  {
  }

  lemma {:induction false} AdmittedInTime(actions: seq<Action>)
    ensures AllInTime(Exec(actions))
  {
    if actions != [] {
      var front, last := actions[..|actions| - 1], actions[|actions| - 1];
      AdmittedInTime(front);
      RunKeepsCards(front);
      NextKeepsTime(Exec(front), last);
    }
  }

  /** The rows up to one, of its policy and not older than a minute before it, are no more than the
      policy admits in a minute. */
  ghost predicate RateKept(db: Db, i: nat)
    requires i < |db.rsvs|
  {
    var r := db.rsvs[i];
    && r.request.policy < |db.policies|
    && CallsSince(db.rsvs[..i + 1], r.request.policy, r.createdAt - 60) <= db.policies[r.request.policy].terms.maxCallsPerMinute
  }

  ghost predicate RatesKept(db: Db) {
    forall i :: 0 <= i < |db.rsvs| ==> RateKept(db, i)
  }

  lemma OldRateKept(db: Db, db': Db, i: nat)
    requires i < |db.rsvs| <= |db'.rsvs| && |db.policies| <= |db'.policies| && RateKept(db, i)
    requires forall p :: 0 <= p < |db.policies| ==> db'.policies[p].terms == db.policies[p].terms
    requires forall j :: 0 <= j < |db.rsvs| ==> SameAdmission(db.rsvs[j], db'.rsvs[j])
    ensures RateKept(db', i)
  {
    var r := db.rsvs[i];
    assert SameAdmission(r, db'.rsvs[i]);
    forall j | 0 <= j < |db.rsvs|
      ensures db'.rsvs[j].request == db.rsvs[j].request && db'.rsvs[j].createdAt == db.rsvs[j].createdAt
    {
      assert SameAdmission(db.rsvs[j], db'.rsvs[j]);
    }
    SameCallsSince(db.rsvs[..i + 1], db'.rsvs[..i + 1], r.request.policy, r.createdAt - 60);
  }

  lemma {:induction false} SameCallsSince(rsvs: seq<Reservation>, rsvs': seq<Reservation>, p: nat, since: int)
    requires |rsvs| == |rsvs'|
    requires forall j :: 0 <= j < |rsvs| ==> rsvs'[j].request == rsvs[j].request && rsvs'[j].createdAt == rsvs[j].createdAt
    ensures CallsSince(rsvs', p, since) == CallsSince(rsvs, p, since)
  {
    if rsvs != [] {
      SameCallsSince(rsvs[..|rsvs| - 1], rsvs'[..|rsvs| - 1], p, since);
    }
  }

  lemma NewRateKept(db: Db, q: Request, now: int, db': Db)
    requires Admits(db, q, now, db') && LastMinute(db, q.policy, now) + 1 <= db.policies[q.policy].terms.maxCallsPerMinute
    ensures RateKept(db', |db.rsvs|)
  {
    var rows := db'.rsvs[..|db.rsvs| + 1];
    assert rows[..|rows| - 1] == db.rsvs && rows[|db.rsvs|] == db'.rsvs[|db.rsvs|];
  }

  lemma NextKeepsRate(db: Db, action: Action)
    requires RatesKept(db) && CardsUnique(db.rates)
    ensures RatesKept(Next(db, action))
  {
    var db' := Next(db, action);
    NextEvolves(db, action);
    forall j | 0 <= j < |db.rsvs|
      ensures SameAdmission(db.rsvs[j], db'.rsvs[j])
    {
      assert RowEvolves(db.rsvs[j], db'.rsvs[j]);
    }
    forall i | 0 <= i < |db'.rsvs|
      ensures RateKept(db', i)
    {
      if i < |db.rsvs| {
        OldRateKept(db, db', i);
      } else {
        NewRowKeepsRate(db, action);
      }
    }
  }

  lemma NewRowKeepsRate(db: Db, action: Action)
    requires |Next(db, action).rsvs| > |db.rsvs| && CardsUnique(db.rates)
    ensures |Next(db, action).rsvs| == |db.rsvs| + 1 && RateKept(Next(db, action), |db.rsvs|)
  {
    NewRowIsAsked(db, action);
    PreflightExactly(db, action.request, action.now);
    AdmittedAsAsked(db, action.request, action.now);
    NewRateKept(db, action.request, action.now, Next(db, action));
  }

  lemma NewRowIsAsked(db: Db, action: Action)
    requires |Next(db, action).rsvs| > |db.rsvs|
    ensures action.Ask? && Unused(db, action.request) && Preflight(db, action.request, action.now).result.Ok?
  {
    if !action.Ask? {
      OnlyAskAdmits(db, action);
    }
  }

  /** In every run, whatever the clock did, no call was admitted when its policy had already
      admitted the allowed number in the minute before it. */
  lemma {:induction false} RateLimitHolds(actions: seq<Action>)
    ensures RatesKept(Exec(actions))
  {
    if actions != [] {
      var front, last := actions[..|actions| - 1], actions[|actions| - 1];
      RateLimitHolds(front);
      RunKeepsCards(front);
      NextKeepsRate(Exec(front), last);
    }
  }

  // ---------------------------------------------------------------- a report of usage

  /** A provider's request id that another finished call already has. */
  ghost predicate IdTaken(db: Db, provider: string, requestId: string) {
    exists i :: 0 <= i < |db.rsvs| && db.rsvs[i].usage.Some?
                && db.rsvs[i].selected.provider == provider && db.rsvs[i].usage.value.requestId == requestId
  }

  /** The report itself is well formed. */
  ghost predicate WellReported(actual: Tokens, requestId: string, digest: string) {
    && |digest| == 64 && requestId != ""
    && 0 <= actual.input && 0 <= actual.output && 0 <= actual.cached && 0 <= actual.reasoning
  }

  /** The usage is out of all proportion to the estimate, over a token limit, or over the budget: the
      estimate times the multiplier, rounded up, is less than the actual. */
  ghost predicate Runaway(p: Policy, row: Reservation, actual: Tokens, cost: int) {
    var (t, e) := (p.terms, row.request.estimate);
    var estimated := e.input + e.output + e.cached + e.reasoning;
    || row.cost as real * t.multiplier <= (cost - 1) as real
    || (if estimated > 1 then estimated else 1) as real * t.multiplier <= (actual.input + actual.output + actual.cached + actual.reasoning - 1) as real
    || actual.input > t.maxInput
    || actual.output > t.maxOutput
    || p.spent + cost > t.budget
  }

  lemma CeilRealExceeded(n: int, x: real)
    ensures n > CeilReal(x) <==> x <= (n - 1) as real
  {
  }

  lemma RunawayIsPaused(p: Policy, row: Reservation, actual: Tokens, cost: int)
    ensures Runaway(p, row, actual, cost) <==> Anomalous(p.terms, row, actual, cost) || p.spent + cost > p.terms.budget
  {
    var estimated := Max(1, Total(row.request.estimate));
    CeilRealExceeded(cost, row.cost as real * p.terms.multiplier);
    CeilRealExceeded(Total(actual), estimated as real * p.terms.multiplier);
  }

  /** The tables with the call's usage on its row, its estimate released and its cost spent. */
  ghost predicate Books(db: Db, rsv: nat, actual: Tokens, requestId: string, db': Db)
    requires rsv < |db.rsvs|
  {
    var row := db.rsvs[rsv];
    && row.request.policy < |db.policies| && row.rate < |db.rates|
    && db'.rates == db.rates && db'.events == db.events
    && var (p, cost) := (db.policies[row.request.policy], Cost(db.rates[row.rate].price, actual));
       && db'.rsvs == db.rsvs[rsv := row.(usage := Some(Usage(actual, cost, requestId)))]
       && db'.policies == db.policies[row.request.policy := p.(
            reserved := p.reserved - row.cost, spent := p.spent + cost, callCount := p.callCount + 1,
            status := if Runaway(p, row, actual, cost) then Paused(RunawayUsage) else p.status)]
  }

  lemma SettledExactly(p: Policy, row: Reservation, actual: Tokens, cost: int)
    requires row.cost <= p.reserved
    ensures Settled(p, row, actual, cost) == p.(
              reserved := p.reserved - row.cost, spent := p.spent + cost, callCount := p.callCount + 1,
              status := if Runaway(p, row, actual, cost) then Paused(RunawayUsage) else p.status)
  {
    RunawayIsPaused(p, row, actual, cost);
  }

  lemma RowHasItsPolicy(db: Db, rsv: nat)
    requires InOrder(db) && rsv < |db.rsvs| && db.rsvs[rsv].usage.None?
    ensures var row := db.rsvs[rsv];
            row.request.policy < |db.policies| && row.rate < |db.rates| && row.cost <= db.policies[row.request.policy].reserved
  {
    assert RowInOrder(db.policies, db.rates, db.rsvs[rsv]);
    NeverClamps(db, rsv);
  }

  /** A well-formed report on an unfinished call is booked exactly when its request id is the call's
      own, at the price of the card the call was admitted on, and pauses a runaway policy. */
  lemma ReportIsBooked(db: Db, rsv: nat, actual: Tokens, requestId: string, digest: string)
    requires InOrder(db) && rsv < |db.rsvs| && db.rsvs[rsv].usage.None? && WellReported(actual, requestId, digest)
    ensures var s := FinalizeUsage(db, rsv, actual, requestId, digest);
            if IdTaken(db, db.rsvs[rsv].selected.provider, requestId) then s == Step(db, Err(ConstraintViolated))
            else s.result == Ok(rsv) && Books(db, rsv, actual, requestId, s.db)
  {
    var row := db.rsvs[rsv];
    RowHasItsPolicy(db, rsv);
    SettledExactly(db.policies[row.request.policy], row, actual, Cost(db.rates[row.rate].price, actual));
    TakenIsTaken(db, row.selected.provider, requestId);
  }

  lemma TakenIsTaken(db: Db, provider: string, requestId: string)
    ensures IdTaken(db, provider, requestId) <==> RequestTaken(db.rsvs, provider, requestId)
  {
  }

  /** A malformed report is refused; one on an unknown call, or on one whose policy or card is gone,
      is denied; and one on a finished call gets that call back whatever it says. None of them
      changes anything. */
  lemma OtherReportsChangeNothing(db: Db, rsv: nat, actual: Tokens, requestId: string, digest: string)
    requires !WellReported(actual, requestId, digest) || rsv >= |db.rsvs| || db.rsvs[rsv].usage.Some?
             || db.rsvs[rsv].request.policy >= |db.policies| || db.rsvs[rsv].rate >= |db.rates|
    ensures var s := FinalizeUsage(db, rsv, actual, requestId, digest);
            && s.db == db
            && (s.result == Err(InvalidInput) <==> !WellReported(actual, requestId, digest))
            && (s.result == Ok(rsv) <==> WellReported(actual, requestId, digest) && rsv < |db.rsvs| && db.rsvs[rsv].usage.Some?)
            && (s.result == Ok(rsv) || s.result == Err(InvalidInput) || s.result == Err(Denied))
  {
  }

  // ---------------------------------------------------------------- a provider's charge

  /** The charge is off by more than the tolerance and by more than one per cent, rounded up. */
  ghost predicate Off(expected: int, charged: int, tolerance: int) {
    var off := if charged <= expected then expected - charged else charged - expected;
    off > tolerance && 100 * (off - 1) >= expected
  }

  /** A new event is recorded with its data and the call that its request id names, if one does; the
      verdict goes on that call's row, and a dispute pauses its policy, and nothing else changes. */
  lemma ChargeIsRecorded(db: Db, c: Charge, tolerance: int)
    requires InOrder(db) && c.cost >= 0 && tolerance >= 0
    requires forall k :: 0 <= k < |db.events| ==> db.events[k].charge.provider != c.provider || db.events[k].charge.eventId != c.eventId
    ensures var s := ReconcileEvent(db, c, tolerance);
            && s.result == Ok(|db.events|) && s.db.rates == db.rates
            && |s.db.events| == |db.events| + 1 && db.events <= s.db.events && s.db.events[|db.events|].charge == c
            && match s.db.events[|db.events|].status
               case Orphaned =>
                 && s.db.policies == db.policies && s.db.rsvs == db.rsvs
                 && (forall i :: 0 <= i < |db.rsvs| && db.rsvs[i].usage.Some? && db.rsvs[i].selected.provider == c.provider ==>
                       c.requestId != Some(db.rsvs[i].usage.value.requestId))
               case Matched(rsv, disputed) =>
                 && rsv < |db.rsvs| && db.rsvs[rsv].usage.Some? && db.rsvs[rsv].selected.provider == c.provider
                 && c.requestId == Some(db.rsvs[rsv].usage.value.requestId)
                 && (disputed <==> Off(db.rsvs[rsv].usage.value.cost, c.cost, tolerance))
                 && s.db.rsvs == db.rsvs[rsv := db.rsvs[rsv].(reconciliation := if disputed then Disputed else Confirmed)]
                 && var p := db.rsvs[rsv].request.policy;
                    && p < |db.policies|
                    && s.db.policies == if disputed then db.policies[p := db.policies[p].(status := Paused(ProviderMismatch))] else db.policies
  {
    assert FindEvent(db.events, c.provider, c.eventId).None?;
    var found := FindCharged(db.rsvs, c);
    forall i | 0 <= i < |db.rsvs|
      ensures RowInOrder(db.policies, db.rates, db.rsvs[i])
    {
    }
    if found.Some? {
      var expected := db.rsvs[found.value].usage.value.cost;
      CeilDivBounds(expected, 100);
    }
  }

  /** A negative charge or tolerance is refused. */
  lemma NegativeChargeIsRefused(db: Db, c: Charge, tolerance: int)
    requires c.cost < 0 || tolerance < 0
    ensures ReconcileEvent(db, c, tolerance) == Step(db, Err(InvalidInput))
  {
  }

  // ---------------------------------------------------------------- policies and cards

  ghost predicate NoneBlank(routes: seq<Route>) {
    forall i :: 0 <= i < |routes| ==> routes[i].provider != "" && routes[i].model != ""
  }

  lemma {:induction false} NormalizesUnlessBlank(routes: seq<Route>)
    ensures Normalize(routes).Some? <==> NoneBlank(routes)
    ensures Normalize(routes).Some? ==> (Normalize(routes).value == [] <==> routes == [])
  {
    if routes != [] {
      var n := |routes| - 1;
      NormalizesUnlessBlank(routes[..n]);
      assert forall i :: 0 <= i < n ==> routes[..n][i] == routes[i];
    }
  }

  /** Some routes are allowed, none is blank, and the fallbacks are among those that are kept. */
  ghost predicate RoutesAccepted(t: Terms) {
    && t.allowed != [] && NoneBlank(t.allowed) && NoneBlank(t.fallback)
    && Normalize(t.allowed).Some? && Normalize(t.fallback).Some?
    && forall r :: r in Normalize(t.fallback).value ==> r in Normalize(t.allowed).value
  }

  /** A policy is created exactly with a period, positive limits, a multiplier of at least one, some
      allowed routes, no blank one, and fallbacks among the routes kept of them; its scope and start
      are new; and it starts active, with nothing reserved, spent or called. */
  lemma PolicyIsCreated(db: Db, t: Terms)
    ensures var s := CreatePolicy(db, t);
            && (s.result == Err(InvalidInput) <==>
                  !(&& t.start < t.end && t.budget > 0 && t.maxPerCall > 0 && t.maxInput > 0 && t.maxOutput > 0
                    && t.maxCallsPerMinute > 0 && t.multiplier >= 1.0 && RoutesAccepted(t)))
            && (s.result == Err(ConstraintViolated) <==>
                  s.result != Err(InvalidInput)
                  && exists i :: 0 <= i < |db.policies| && db.policies[i].terms.scope == t.scope && db.policies[i].terms.start == t.start)
            && (s.result.Err? ==> s.db == db)
            && (s.result.Ok? ==>
                  && s.result.value == |db.policies| && RoutesAccepted(t)
                  && s.db == db.(policies := db.policies + [
                       Policy(t.(allowed := Normalize(t.allowed).value, fallback := Normalize(t.fallback).value), 0, 0, 0, Active)]))
  {
    NormalizesUnlessBlank(t.allowed);
    NormalizesUnlessBlank(t.fallback);
  }

  /** A card is put on record exactly with prices that are not negative, once for a route and a moment. */
  lemma CardIsPut(db: Db, card: RateCard)
    ensures var (s, p) := (PutRate(db, card), card.price);
            && (s.result == Err(InvalidInput) <==> !(0 <= p.input && 0 <= p.output && 0 <= p.cached && 0 <= p.reasoning))
            && (s.result == Err(ConstraintViolated) <==>
                  s.result != Err(InvalidInput)
                  && exists i :: 0 <= i < |db.rates| && db.rates[i].route == card.route && db.rates[i].effectiveAt == card.effectiveAt)
            && (s.result.Err? ==> s.db == db)
            && (s.result.Ok? ==> s.result.value == |db.rates| && s.db == db.(rates := db.rates + [card]))
  {
  }

  /** A stop needs a reason and a policy. */
  lemma StopAnswers(db: Db, p: nat, note: string)
    ensures var s := Stop(db, p, note);
            && (s.result == Err(InvalidInput) <==> note == "")
            && (s.result == Err(Denied) <==> note != "" && p >= |db.policies|)
            && (s.result != Ok(p) ==> s.result.Err? && s.db == db)
            && (s.result == Ok(p) ==>
                  && |s.db.policies| == |db.policies| && s.db.policies[p].status == Paused(EmergencyStop(note))
                  && s.db.(policies := s.db.policies[p := s.db.policies[p].(status := db.policies[p].status)]) == db)
  {
  }

  /** An emergency stop with a reason stops a policy for good: whatever runs afterwards, it stays
      paused and no new call is admitted on it. */
  lemma StoppedForGood(before: seq<Action>, p: nat, note: string, after: seq<Action>, q: Request, now: int)
    requires p < |Exec(before).policies| && note != "" && q.policy == p && Unused(Exec(before + [Halt(p, note)] + after), q)
    ensures var (db, db') := (Exec(before), Exec(before + [Halt(p, note)] + after));
            && |db.rsvs| <= |db'.rsvs| && (forall i :: |db.rsvs| <= i < |db'.rsvs| ==> db'.rsvs[i].request.policy != p)
            && Preflight(db', q, now) == Step(db', Err(PolicyPaused))
  {
    var at := before + [Halt(p, note)];
    assert at[..|at| - 1] == before && Exec(at) == Stop(Exec(before), p, note).db;
    RunEvolves(at, after);
    PolicyRefusals(Exec(at + after), q, now);
  }
}
