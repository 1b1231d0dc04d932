/** The token-spend control as the services write it: rows updated in place inside a transaction,
    and a loop over the candidate routes. Each call is proved to be its function in TokenSpend.
    services/agent-commerce/agent_commerce/token_policy.py:15-136, token_rates.py:13-70,
    token_preflight.py:21-182, token_usage.py:15-144 and token_reconcile.py:13-110. */
module TokenStore {
  import opened Sums
  import opened TokenSpend

  class Store {
    var policies: seq<Policy>
    var rates: seq<RateCard>
    var rsvs: seq<Reservation>
    var events: seq<Event>

    constructor ()
      ensures Tables() == EMPTY_DB
    {
      policies, rates, rsvs, events := [], [], [], [];
    }

    function Tables(): Db
      reads this
    {
      Db(policies, rates, rsvs, events)
    }

    method Rollback(before: Db)
      modifies this
      ensures Tables() == before
    {
      policies, rates, rsvs, events := before.policies, before.rates, before.rsvs, before.events;
    }

    method PausePolicy(p: nat, reason: Reason)
      requires p < |policies|
      modifies this
      ensures Tables() == old(Tables()).(policies := Pause(old(policies), p, reason))
    {
      policies := policies[p := policies[p].(status := Paused(reason))];
    }

    method PutRateCard(card: RateCard) returns (r: Result<nat>)
      modifies this
      ensures Step(Tables(), r) == PutRate(old(Tables()), card)
    {
      if !NonNegative4(card.price) {
        return Err(InvalidInput);
      }
      if exists i :: 0 <= i < |rates| && rates[i].route == card.route && rates[i].effectiveAt == card.effectiveAt {
        return Err(ConstraintViolated);
      }
      r := Ok(|rates|);
      rates := rates + [card];
    }

    /** create_policy; its INSERT trips on the unique scope and start. */
    method AddPolicy(t: Terms) returns (r: Result<nat>)
      modifies this
      ensures Step(Tables(), r) == CreatePolicy(old(Tables()), t)
    {
      if t.end <= t.start {
        return Err(InvalidInput);
      }
      if t.budget <= 0 || t.maxPerCall <= 0 || t.maxInput <= 0 || t.maxOutput <= 0 || t.maxCallsPerMinute <= 0 {
        return Err(InvalidInput);
      }
      if t.multiplier < 1.0 {
        return Err(InvalidInput);
      }
      var allowed := NormalizeRoutes(t.allowed);
      var fallback := NormalizeRoutes(t.fallback);
      if allowed.None? || fallback.None? || allowed.value == [] {
        return Err(InvalidInput);
      }
      if exists r :: r in fallback.value && r !in allowed.value {
        return Err(InvalidInput);
      }
      if exists i :: 0 <= i < |policies| && policies[i].terms.scope == t.scope && policies[i].terms.start == t.start {
        return Err(ConstraintViolated);
      }
      r := Ok(|policies|);
      policies := policies + [Policy(t.(allowed := allowed.value, fallback := fallback.value), 0, 0, 0, Active)];
    }

    method StopPolicy(p: nat, note: string) returns (r: Result<nat>)
      modifies this
      ensures Step(Tables(), r) == Stop(old(Tables()), p, note)
    {
      if note == "" {
        return Err(InvalidInput);
      }
      if p >= |policies| {
        return Err(Denied);
      }
      PausePolicy(p, EmergencyStop(note));
      r := Ok(p);
    }

    /** The checks of preflight, with the call-rate pause that its own exception undoes. */
    method CheckRequest(q: Request, now: int) returns (error: Option<SpendError>)
      modifies this
      ensures error == Refusal(old(Tables()), q, now) && Tables() == old(Tables())
    {
      if q.policy >= |policies| {
        return Some(Denied);
      }
      var before, policy := Tables(), policies[q.policy];
      error := ValidatePolicy(policy, now);
      if error.Some? {
        return;
      }
      if q.estimate.input > policy.terms.maxInput || q.estimate.output > policy.terms.maxOutput {
        return Some(Denied);
      }
      if !NonNegative4(q.estimate) {
        return Some(InvalidInput);
      }
      var recent := Sum(rsvs, RecentOne(q.policy, now - 60));
      if recent >= policy.terms.maxCallsPerMinute {
        PausePolicy(q.policy, RunawayRate);
        Rollback(before);
        return Some(PolicyPaused);
      }
    }

    /** The row of the chosen route, and its cost added to the policy's reserved total. */
    method InsertReservation(q: Request, now: int, i: nat)
      requires q.policy < |policies|
      requires var routes := Candidates(q.route, policies[q.policy].terms.fallback);
               i < |routes| && RateFor(rates, routes[i], now).Some?
      modifies this
      ensures var row := Admitted(old(Tables()), q, now, i);
              var p := old(policies[q.policy]);
              Tables() == old(Tables()).(rsvs := old(rsvs) + [row], policies := old(policies)[q.policy := p.(reserved := p.reserved + row.cost)])
    {
      var policy := policies[q.policy];
      var route := Candidates(q.route, policy.terms.fallback)[i];
      var rate := RateFor(rates, route, now).value;
      var cost := Cost(rates[rate].price, q.estimate);
      rsvs := rsvs + [Reservation(q, route, rate, cost, now, None, Pending)];
      policies := policies[q.policy := policy.(reserved := policy.reserved + cost)];
    }

    /** preflight: replay, the checks, the search, the row. */
    method PreflightCall(q: Request, now: int) returns (r: Result<nat>)
      modifies this
      ensures Step(Tables(), r) == Preflight(old(Tables()), q, now)
    {
      var existing := FindKey(rsvs, q.policy, q.key);
      if existing.Some? {
        return if rsvs[existing.value].request != q then Err(Conflict) else Ok(existing.value);
      }
      var error := CheckRequest(q, now);
      if error.Some? {
        return Err(error.value);
      }
      var routes := Candidates(q.route, policies[q.policy].terms.fallback);
      var selected := Search(MarketFor(Tables(), q, now), routes);
      if selected.Err? {
        return Err(selected.error);
      }
      r := Ok(|rsvs|);
      InsertReservation(q, now, selected.value);
    }

    /** The writes of finalize_usage: the row, the counters, and the pause. */
    method RecordUsage(rsv: nat, actual: Tokens, cost: int, requestId: string, reasons: seq<string>)
      requires rsv < |rsvs| && rsvs[rsv].request.policy < |policies|
      requires reasons != [] <==> Anomalous(policies[rsvs[rsv].request.policy].terms, rsvs[rsv], actual, cost)
      modifies this
      ensures var row := old(rsvs[rsv]);
              Tables() == old(Tables()).(
                rsvs := old(rsvs)[rsv := row.(usage := Some(Usage(actual, cost, requestId)))],
                policies := old(policies)[row.request.policy := Settled(old(policies)[row.request.policy], row, actual, cost)])
    {
      var row := rsvs[rsv];
      var p := row.request.policy;
      var policy := policies[p];
      rsvs := rsvs[rsv := row.(usage := Some(Usage(actual, cost, requestId)))];
      policies := policies[p := policy.(reserved := Max(0, policy.reserved - row.cost), spent := policy.spent + cost, callCount := policy.callCount + 1)];
      if reasons != [] || policy.spent + cost > policy.terms.budget {
        PausePolicy(p, RunawayUsage);
      }
    }

    method FinalizeCall(rsv: nat, actual: Tokens, requestId: string, digest: string) returns (r: Result<nat>)
      modifies this
      ensures Step(Tables(), r) == FinalizeUsage(old(Tables()), rsv, actual, requestId, digest)
    {
      if |digest| != 64 || requestId == "" || !NonNegative4(actual) {
        return Err(InvalidInput);
      }
      if rsv >= |rsvs| {
        return Err(Denied);
      }
      var row := rsvs[rsv];
      if row.usage.Some? {
        return Ok(rsv);
      }
      var p := row.request.policy;
      if p >= |policies| || row.rate >= |rates| {
        return Err(Denied);
      }
      var cost := Cost(rates[row.rate].price, actual);
      var reasons := AnomalyReasons(policies[p].terms, row, actual, cost);
      if RequestTaken(rsvs, row.selected.provider, requestId) {
        return Err(ConstraintViolated);
      }
      RecordUsage(rsv, actual, cost, requestId, reasons);
      r := Ok(rsv);
    }

    /** reconcile_provider_event: replay, orphan, confirmation or dispute. */
    method ReconcileCharge(c: Charge, tolerance: int) returns (r: Result<nat>)
      modifies this
      ensures Step(Tables(), r) == ReconcileEvent(old(Tables()), c, tolerance)
    {
      if c.cost < 0 || tolerance < 0 {
        return Err(InvalidInput);
      }
      var existing := FindEvent(events, c.provider, c.eventId);
      if existing.Some? {
        return if events[existing.value].charge != c then Err(Conflict) else Ok(existing.value);
      }
      r := Ok(|events|);
      var reservation := FindCharged(rsvs, c);
      if reservation.None? {
        events := events + [Event(c, Orphaned)];
        return;
      }
      var row := rsvs[reservation.value];
      if row.request.policy >= |policies| {
        return Err(ConstraintViolated);
      }
      var expected := row.usage.value.cost;
      var difference := Abs(c.cost - expected);
      var disputed := difference > Max(tolerance, CeilDiv(expected, 100));
      events := events + [Event(c, Matched(reservation.value, disputed))];
      rsvs := rsvs[reservation.value := row.(reconciliation := if disputed then Disputed else Confirmed)];
      if disputed {
        PausePolicy(row.request.policy, ProviderMismatch);
      }
    }
  }

  lemma {:induction false} BlankRouteFails(routes: seq<Route>, i: nat)
    requires i < |routes| && (routes[i].provider == "" || routes[i].model == "")
    ensures Normalize(routes).None?
  {
    if i < |routes| - 1 {
      BlankRouteFails(routes[..|routes| - 1], i);
    }
  }

  method NormalizeRoutes(routes: seq<Route>) returns (result: Option<seq<Route>>)
    ensures result == Normalize(routes)
  {
    var kept: seq<Route>, seen: set<string> := [], {};
    for i := 0 to |routes|
      invariant Normalize(routes[..i]) == Some(kept)
      invariant forall r :: Key(r) in seen <==> KeyAmong(kept, r)
    {
      var route := routes[i];
      if route.provider == "" || route.model == "" {
        BlankRouteFails(routes, i);
        return None;
      }
      assert routes[..i + 1][..i] == routes[..i];
      if Key(route) !in seen {
        ghost var before := kept;
        kept, seen := kept + [route], seen + {Key(route)};
        forall r
          ensures KeyAmong(kept, r) <==> KeyAmong(before, r) || Key(route) == Key(r)
        {
          KeyAmongAppend(before, route, r);
        }
      }
    }
    assert routes[..|routes|] == routes;
    result := Some(kept);
  }

  /** Why a request is refused for its tokens or for the call rate, whatever its policy's state. */
  function OwnRefusal(db: Db, q: Request, now: int): Option<SpendError>
    requires q.policy < |db.policies|
  {
    var t := db.policies[q.policy].terms;
    if q.estimate.input > t.maxInput || q.estimate.output > t.maxOutput then Some(Denied)
    else if !NonNegative4(q.estimate) then Some(InvalidInput)
    else if Sum(db.rsvs, RecentOne(q.policy, now - 60)) >= t.maxCallsPerMinute then Some(PolicyPaused)
    else None
  }

  /** Why the policy admits no call now, if it does not: the refusal that every request on it meets
      first, in any state of the tables that has the policy so. If it does admit calls, a request is
      refused for its own sake only. */
  method ValidatePolicy(p: Policy, now: int) returns (error: Option<SpendError>)
    ensures forall db: Db, q: Request :: q.policy < |db.policies| && db.policies[q.policy] == p ==>
              Refusal(db, q, now) == if error.Some? then error else OwnRefusal(db, q, now)
  {
    if p.status.Paused? {
      return Some(PolicyPaused);
    }
    if now < p.terms.start || now >= p.terms.end {
      return Some(Denied);
    }
    if p.spent >= p.terms.budget {
      return Some(OverBudget);
    }
    return None;
  }

  /** The candidate loop: the first route that fits, or why none does. */
  method Search(m: Market, routes: seq<Route>) returns (selected: Result<nat>)
    ensures selected == Choose(m, routes)
    ensures selected.Ok? ==> selected.value < |routes| && Affordable(m, routes[selected.value])
                             && forall j :: 0 <= j < selected.value ==> !Affordable(m, routes[j])
  {
    var sawAllowed, sawRate := false, false;
    for i := 0 to |routes|
      invariant forall j :: 0 <= j < i ==> !Affordable(m, routes[j])
      invariant sawAllowed <==> exists j :: 0 <= j < i && Allowed(m, routes[j])
      invariant sawRate <==> exists j :: 0 <= j < i && Rated(m, routes[j])
    {
      if !KeyAmong(m.allowed, routes[i]) {
        continue;
      }
      sawAllowed := true;
      var rate := RateFor(m.rates, routes[i], m.now);
      if rate.None? {
        continue;
      }
      sawRate := true;
      var cost := Cost(m.rates[rate.value].price, m.estimate);
      if cost <= m.maxPerCall && cost <= m.available {
        return Ok(i);
      }
    }
    if !sawAllowed {
      return Err(RouteDenied);
    }
    if !sawRate {
      return Err(NoRateCard);
    }
    return Err(OverBudget);
  }

  method AnomalyReasons(t: Terms, row: Reservation, actual: Tokens, cost: int) returns (reasons: seq<string>)
    ensures reasons != [] <==> Anomalous(t, row, actual, cost)
  {
    reasons := [];
    if OutOfProportion(cost, row.cost, t.multiplier) {
      reasons := reasons + ["cost_over_estimate"];
    }
    if OutOfProportion(Total(actual), Max(1, Total(row.request.estimate)), t.multiplier) {
      reasons := reasons + ["tokens_over_estimate"];
    }
    if actual.input > t.maxInput {
      reasons := reasons + ["input_limit_exceeded"];
    }
    if actual.output > t.maxOutput {
      reasons := reasons + ["output_limit_exceeded"];
    }
  }
}
