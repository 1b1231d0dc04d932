/** Runs of the token-spend control: any calls in any order, from empty tables. */
module TokenRuns {
  import opened Sums
  import opened TokenSpend
  import opened TokenBudget

  datatype Action =
    | AddPolicy(terms: Terms)
    | AddRate(card: RateCard)
    | Ask(request: Request, now: int)
    | Report(rsv: nat, actual: Tokens, requestId: string, digest: string)
    | Charged(charge: Charge, tolerance: int)
    | Halt(policy: nat, note: string)

  function Next(db: Db, action: Action): Db {
    match action
    case AddPolicy(terms) => CreatePolicy(db, terms).db
    case AddRate(card) => PutRate(db, card).db
    case Ask(request, now) => Preflight(db, request, now).db
    case Report(rsv, actual, requestId, digest) => FinalizeUsage(db, rsv, actual, requestId, digest).db
    case Charged(charge, tolerance) => ReconcileEvent(db, charge, tolerance).db
    case Halt(policy, note) => Stop(db, policy, note).db
  }

  function Exec(actions: seq<Action>): Db {
    if actions == [] then EMPTY_DB else Next(Exec(actions[..|actions| - 1]), actions[|actions| - 1])
  }

  lemma NextKeepsOrder(db: Db, action: Action)
    requires InOrder(db)
    ensures InOrder(Next(db, action))
  {
    match action
    case AddPolicy(terms) => CreateKeepsOrder(db, terms);
    case AddRate(card) => RateKeepsOrder(db, card);
    case Ask(request, now) => PreflightKeepsOrder(db, request, now);
    case Report(rsv, actual, requestId, digest) => FinalizeKeepsOrder(db, rsv, actual, requestId, digest);
    case Charged(charge, tolerance) => ReconcileKeepsOrder(db, charge, tolerance);
    case Halt(policy, note) =>
      if Stop(db, policy, note).result.Ok? {
        PauseKeepsOrder(db, policy, EmergencyStop(note));
      }
  }

  lemma {:induction false} RunInOrder(actions: seq<Action>)
    ensures InOrder(Exec(actions))
  {
    if actions != [] {
      RunInOrder(actions[..|actions| - 1]);
      NextKeepsOrder(Exec(actions[..|actions| - 1]), actions[|actions| - 1]);
    }
  }

  // ---------------------------------------------------------------- the budget

  /** In every reachable state: what is reserved is what unfinished calls reserved, what is spent
      is what finished calls cost, and what is committed passes the budget by no more than
      finished calls went over their own estimates. */
  lemma CommittedWithinBudget(actions: seq<Action>, p: nat)
    requires p < |Exec(actions).policies|
    ensures var db := Exec(actions);
            var q := db.policies[p];
            && q.reserved == Sum(db.rsvs, ReservedOn(p)) && q.spent == Sum(db.rsvs, SpentOn(p))
            && q.callCount == Sum(db.rsvs, FinalizedOn(p))
            && q.spent + q.reserved <= q.terms.budget + Sum(db.rsvs, OverrunOn(p))
            && (q.status == Active ==> q.spent <= q.terms.budget)
  {
    RunInOrder(actions);
    assert PolicyInOrder(Exec(actions).policies[p], Exec(actions).rsvs, p);
  }

  /** If every call of a policy stayed within its estimate the budget was never passed, and
      the policy was never paused for its usage. */
  lemma EstimatesKeptBudgetKept(actions: seq<Action>, p: nat)
    requires p < |Exec(actions).policies| && !HasCulprit(Exec(actions).rsvs, p)
    ensures var q := Exec(actions).policies[p];
            q.spent + q.reserved <= q.terms.budget && q.status != Paused(RunawayUsage) && q.status != Paused(RunawayRate)
  {
    RunInOrder(actions);
    CommittedWithinBudget(actions, p);
    NoCulpritNoOverrun(Exec(actions), p);
    assert PolicyInOrder(Exec(actions).policies[p], Exec(actions).rsvs, p);
  }

  /** A disputed provider charge means its policy is paused. */
  lemma DisputeMeansPaused(actions: seq<Action>, k: nat)
    requires var db := Exec(actions);
             k < |db.events| && db.events[k].status.Matched? && db.events[k].status.disputed
    ensures var db := Exec(actions);
            var rsv := db.events[k].status.reservation;
            && rsv < |db.rsvs| && Answers(db.rsvs[rsv], db.events[k].charge)
            && db.rsvs[rsv].request.policy < |db.policies|
            && db.policies[db.rsvs[rsv].request.policy].status.Paused?
  {
    RunInOrder(actions);
    var db := Exec(actions);
    assert EventInOrder(db.policies, db.rsvs, db.events[k]);
  }

  // ---------------------------------------------------------------- what no call undoes

  ghost predicate RowEvolves(r: Reservation, r': Reservation) {
    && r'.(usage := r.usage, reconciliation := r.reconciliation) == r
    && (r.usage.Some? ==> r'.usage == r.usage)
  }

  ghost predicate Evolves(db: Db, db': Db) {
    && |db.policies| <= |db'.policies|
    && (forall p :: 0 <= p < |db.policies| ==> db'.policies[p].terms == db.policies[p].terms)
    && (forall p :: 0 <= p < |db.policies| && db.policies[p].status.Paused? ==> db'.policies[p].status.Paused?)
    && |db.rsvs| <= |db'.rsvs|
    && (forall i :: 0 <= i < |db.rsvs| ==> RowEvolves(db.rsvs[i], db'.rsvs[i]))
    && (forall i :: |db.rsvs| <= i < |db'.rsvs| ==>
          var p := db'.rsvs[i].request.policy; p < |db.policies| ==> db.policies[p].status == Active)
    && db.rates <= db'.rates
    && db.events <= db'.events
  }

  lemma PreflightEvolves(db: Db, q: Request, now: int)
    ensures Evolves(db, Preflight(db, q, now).db)
  {
  }

  lemma FinalizeEvolves(db: Db, rsv: nat, actual: Tokens, requestId: string, digest: string)
    ensures Evolves(db, FinalizeUsage(db, rsv, actual, requestId, digest).db)
  {
  }

  lemma ReconcileEvolves(db: Db, c: Charge, tolerance: int)
    ensures Evolves(db, ReconcileEvent(db, c, tolerance).db)
  {
  }

  lemma NextEvolves(db: Db, action: Action)
    ensures Evolves(db, Next(db, action))
  {
    match action
    case Ask(request, now) => PreflightEvolves(db, request, now);
    case Report(rsv, actual, requestId, digest) => FinalizeEvolves(db, rsv, actual, requestId, digest);
    case Charged(charge, tolerance) => ReconcileEvolves(db, charge, tolerance);
    case _ =>
  }

  lemma EvolvesOnward(a: Db, b: Db, c: Db)
    requires Evolves(a, b) && Evolves(b, c)
    ensures Evolves(a, c)
  {
    forall i | 0 <= i < |a.rsvs|
      ensures RowEvolves(a.rsvs[i], c.rsvs[i])
    {
      assert RowEvolves(a.rsvs[i], b.rsvs[i]) && RowEvolves(b.rsvs[i], c.rsvs[i]);
    }
    forall i | |a.rsvs| <= i < |c.rsvs|
      ensures var p := c.rsvs[i].request.policy; p < |a.policies| ==> a.policies[p].status == Active
    {
      if i < |b.rsvs| {
        assert RowEvolves(b.rsvs[i], c.rsvs[i]);
      }
    }
  }

  /** From any moment of a run to any later one: a paused policy is still paused and has no new
      reservation, and a finalized call keeps its usage and its cost. */
  lemma {:induction false} RunEvolves(before: seq<Action>, after: seq<Action>)
    ensures Evolves(Exec(before), Exec(before + after))
    decreases |after|
  {
    if after == [] {
      assert before + after == before;
    } else {
      var n := |after| - 1;
      assert (before + after)[..|before| + n] == before + after[..n];
      RunEvolves(before, after[..n]);
      NextEvolves(Exec(before + after[..n]), after[n]);
      EvolvesOnward(Exec(before), Exec(before + after[..n]), Exec(before + after));
    }
  }

  /** Every admitted call runs on an allowed route, on a card of that route, within the token
      limits, and its reserved cost is the card's price of the estimate, within the call limit. */
  lemma AdmittedWithinTerms(actions: seq<Action>, i: nat)
    requires i < |Exec(actions).rsvs|
    ensures var db := Exec(actions);
            var r := db.rsvs[i];
            && r.request.policy < |db.policies| && r.rate < |db.rates|
            && var t := db.policies[r.request.policy].terms;
               && KeyAmong(t.allowed, r.selected) && db.rates[r.rate].route == r.selected
               && r.request.estimate.input <= t.maxInput && r.request.estimate.output <= t.maxOutput
               && 0 <= r.cost == Cost(db.rates[r.rate].price, r.request.estimate) <= t.maxPerCall
  {
    RunInOrder(actions);
    assert RowInOrder(Exec(actions).policies, Exec(actions).rates, Exec(actions).rsvs[i]);
  }

  lemma KeyIsBound(db: Db, i: nat, q: Request, now: int)
    requires KeysUnique(db.rsvs) && i < |db.rsvs| && q.policy == db.rsvs[i].request.policy && q.key == db.rsvs[i].request.key
    ensures Preflight(db, q, now) == Step(db, if q == db.rsvs[i].request then Ok(i) else Err(Conflict))
  {
    assert FindKey(db.rsvs, q.policy, q.key) == Some(i);
  }

  /** A key belongs for good to its first request: later the same request gets the same
      reservation back, any other is refused, and neither changes anything. */
  lemma KeyBindsForever(before: seq<Action>, after: seq<Action>, i: nat, q: Request, now: int)
    requires i < |Exec(before).rsvs|
    requires q.policy == Exec(before).rsvs[i].request.policy && q.key == Exec(before).rsvs[i].request.key
    ensures var db := Exec(before + after);
            Preflight(db, q, now) == Step(db, if q == Exec(before).rsvs[i].request then Ok(i) else Err(Conflict))
  {
    RunEvolves(before, after);
    RunInOrder(before + after);
    assert RowEvolves(Exec(before).rsvs[i], Exec(before + after).rsvs[i]);
    KeyIsBound(Exec(before + after), i, q, now);
  }

  lemma EventIsBound(db: Db, k: nat, c: Charge, tolerance: int)
    requires EventsUnique(db.events) && k < |db.events| && c.cost >= 0 && tolerance >= 0
    requires c.provider == db.events[k].charge.provider && c.eventId == db.events[k].charge.eventId
    ensures ReconcileEvent(db, c, tolerance) == Step(db, if c == db.events[k].charge then Ok(k) else Err(Conflict))
  {
    assert FindEvent(db.events, c.provider, c.eventId) == Some(k);
  }

  /** So does a provider's event id: a replay, with any tolerance, gives the stored verdict. */
  lemma EventBindsForever(before: seq<Action>, after: seq<Action>, k: nat, c: Charge, tolerance: int)
    requires k < |Exec(before).events| && c.cost >= 0 && tolerance >= 0
    requires c.provider == Exec(before).events[k].charge.provider && c.eventId == Exec(before).events[k].charge.eventId
    ensures var db := Exec(before + after);
            ReconcileEvent(db, c, tolerance) == Step(db, if c == Exec(before).events[k].charge then Ok(k) else Err(Conflict))
  {
    RunEvolves(before, after);
    RunInOrder(before + after);
    EventIsBound(Exec(before + after), k, c, tolerance);
  }

  /** A disputed verdict is the right one: it was given on a reservation whose recorded cost the
      charge misses by more than the tolerance and one per cent. */
  lemma VerdictIsRight(db: Db, c: Charge, tolerance: int)
    requires InOrder(db) && c.cost >= 0 && tolerance >= 0 && FindEvent(db.events, c.provider, c.eventId).None?
    ensures var e := ReconcileEvent(db, c, tolerance);
            e.result.Ok? && |e.db.events| == |db.events| + 1
            && match e.db.events[|db.events|].status
               case Orphaned => forall i :: 0 <= i < |db.rsvs| ==> !Answers(db.rsvs[i], c)
               case Matched(rsv, disputed) =>
                 && rsv < |db.rsvs| && Answers(db.rsvs[rsv], c)
                 && (disputed <==> c.cost < db.rsvs[rsv].usage.value.cost - Max(tolerance, CeilDiv(db.rsvs[rsv].usage.value.cost, 100))
                                   || c.cost > db.rsvs[rsv].usage.value.cost + Max(tolerance, CeilDiv(db.rsvs[rsv].usage.value.cost, 100)))
  {
    var found := FindCharged(db.rsvs, c);
    if found.Some? {
      assert RowInOrder(db.policies, db.rates, db.rsvs[found.value]);
    }
  }

  // ---------------------------------------------------------------- the search of preflight

  /** The three refusals of the search are disjoint and cover every case without a fitting route. */
  lemma RefusalsAreExact(m: Market, routes: seq<Route>)
    ensures Choose(m, routes).Ok? <==> exists j :: 0 <= j < |routes| && Affordable(m, routes[j])
    ensures Choose(m, routes) == Err(RouteDenied) <==> forall j :: 0 <= j < |routes| ==> !Allowed(m, routes[j])
    ensures Choose(m, routes) == Err(NoRateCard) <==>
            SomeAllowed(m, routes) && forall j :: 0 <= j < |routes| && Allowed(m, routes[j]) ==> RateFor(m.rates, routes[j], m.now).None?
    ensures Choose(m, routes) == Err(OverBudget) <==>
            SomeRated(m, routes) && forall j :: 0 <= j < |routes| && Rated(m, routes[j]) ==> !Affordable(m, routes[j])
  {
    if FirstAffordable(m, routes).Some? {
      var i := FirstAffordable(m, routes).value;
      assert Affordable(m, routes[i]) && Rated(m, routes[i]) && Allowed(m, routes[i]);
    }
    forall j | 0 <= j < |routes| && Rated(m, routes[j])
      ensures Allowed(m, routes[j])
    {
    }
  }

  lemma {:induction false} WithoutKeepsOthers(routes: seq<Route>, r: Route, x: Route)
    ensures x in Without(routes, r) <==> x in routes && x != r
  {
    if routes != [] {
      var n := |routes| - 1;
      WithoutKeepsOthers(routes[..n], r, x);
      assert routes == routes[..n] + [routes[n]];
    }
  }

  /** Normalizing keeps one route for every key, the first, and adds none. */
  lemma {:induction false} NormalizeKeepsKeys(routes: seq<Route>, r: Route)
    requires Normalize(routes).Some?
    ensures KeyAmong(Normalize(routes).value, r) <==> KeyAmong(routes, r)
    ensures r in Normalize(routes).value ==> r in routes
    ensures var kept := Normalize(routes).value;
            forall i, j :: 0 <= i < j < |kept| ==> Key(kept[i]) != Key(kept[j])
  {
    if routes != [] {
      var n := |routes| - 1;
      var front, last := Normalize(routes[..n]).value, routes[n];
      NormalizeKeepsKeys(routes[..n], r);
      assert routes == routes[..n] + [last];
      KeyAmongAppend(routes[..n], last, r);
      KeyAmongAppend(front, last, r);
    }
  }


  ghost predicate FallbackAllowed(t: Terms) {
    forall r :: r in t.fallback ==> KeyAmong(t.allowed, r)
  }

  lemma {:induction false} FallbacksStayAllowed(actions: seq<Action>, p: nat)
    requires p < |Exec(actions).policies|
    ensures FallbackAllowed(Exec(actions).policies[p].terms)
  {
    var front, last := actions[..|actions| - 1], actions[|actions| - 1];
    NextEvolves(Exec(front), last);
    if p < |Exec(front).policies| {
      FallbacksStayAllowed(front, p);
    } else {
      var t := Exec(actions).policies[p].terms;
      forall r | r in t.fallback
        ensures KeyAmong(t.allowed, r)
      {
        var i :| 0 <= i < |t.allowed| && t.allowed[i] == r;
      }
    }
  }

  /** So a request is turned away for its route only if the policy has no other route to fall
      back to: the requested one is not allowed and there is no fallback. */
  lemma RouteDeniedExactly(actions: seq<Action>, q: Request, now: int)
    requires q.policy < |Exec(actions).policies|
    ensures var db := Exec(actions);
            var t := db.policies[q.policy].terms;
            Choose(MarketFor(db, q, now), Candidates(q.route, t.fallback)) == Err(RouteDenied)
            <==> !KeyAmong(t.allowed, q.route) && t.fallback == []
  {
    var db := Exec(actions);
    var t, m := db.policies[q.policy].terms, MarketFor(db, q, now);
    var routes := Candidates(q.route, t.fallback);
    FallbacksStayAllowed(actions, q.policy);
    RefusalsAreExact(m, routes);
    assert routes[0] == q.route;
    if !KeyAmong(t.allowed, q.route) && t.fallback != [] {
      var r := t.fallback[0];
      assert r in t.fallback && r != q.route;
      WithoutKeepsOthers(t.fallback, q.route, r);
      var j :| 0 <= j < |Without(t.fallback, q.route)| && Without(t.fallback, q.route)[j] == r;
      assert routes[j + 1] == r && Allowed(m, routes[j + 1]);
    }
  }
}
