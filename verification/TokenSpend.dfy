/** AI token-spend control: policies, rate cards, reservations and provider events, each call one
    transaction. services/agent-commerce/agent_commerce/token_policy.py, token_rates.py,
    token_preflight.py, token_usage.py and token_reconcile.py, with the constraints of
    token_common.py:26-141.

    A row's id is its position. A call that raises rolls back: the pause that preflight writes
    before its call-rate exception never persists. Costs and ceilings are exact. */
module TokenSpend {
  import opened Sums

  datatype Option<+T> = None | Some(value: T)
  datatype Route = Route(provider: string, model: string)
  datatype Tokens = Tokens(input: int, output: int, cached: int, reasoning: int)
  datatype RateCard = RateCard(route: Route, price: Tokens, effectiveAt: int)

  datatype Reason = EmergencyStop(note: string) | RunawayRate | RunawayUsage | ProviderMismatch
  datatype PolicyStatus = Active | Paused(reason: Reason)
  datatype Terms = Terms(
    scope: string, start: int, end: int, budget: int, maxPerCall: int, maxInput: int, maxOutput: int,
    maxCallsPerMinute: int, multiplier: real, allowed: seq<Route>, fallback: seq<Route>)
  datatype Policy = Policy(terms: Terms, reserved: int, spent: int, callCount: int, status: PolicyStatus)

  datatype Usage = Usage(tokens: Tokens, cost: int, requestId: string)
  datatype Reconciliation = Pending | Confirmed | Disputed
  datatype Request = Request(policy: nat, key: string, route: Route, estimate: Tokens)
  datatype Reservation = Reservation(
    request: Request, selected: Route, rate: nat, cost: int, createdAt: int,
    usage: Option<Usage>, reconciliation: Reconciliation)

  /** The fields of a provider event that its fingerprint covers. */
  datatype Charge = Charge(provider: string, eventId: string, requestId: Option<string>, cost: int, reported: seq<Option<int>>)
  datatype EventStatus = Orphaned | Matched(reservation: nat, disputed: bool)
  datatype Event = Event(charge: Charge, status: EventStatus)

  datatype Db = Db(policies: seq<Policy>, rates: seq<RateCard>, rsvs: seq<Reservation>, events: seq<Event>)

  datatype SpendError =
    | InvalidInput
    | Denied
    | PolicyPaused
    | OverBudget
    | Conflict
    | RouteDenied
    | NoRateCard
    | ConstraintViolated
  datatype Result<+T> = Ok(value: T) | Err(error: SpendError)
  datatype Step = Step(db: Db, result: Result<nat>)

  const EMPTY_DB := Db([], [], [], [])

  // ---------------------------------------------------------------- rates and costs

  function CeilDiv(n: int, d: int): int
    requires d > 0
  {
    (n + d - 1) / d
  }

  function CeilReal(x: real): int {
    -((-x).Floor)
  }

  function Max(a: int, b: int): int {
    if a >= b then a else b
  }

  function Abs(a: int): int {
    if a >= 0 then a else -a
  }

  predicate NonNegative4(t: Tokens) {
    t.input >= 0 && t.output >= 0 && t.cached >= 0 && t.reasoning >= 0
  }

  function Total(t: Tokens): int {
    t.input + t.output + t.cached + t.reasoning
  }

  function Cost(price: Tokens, t: Tokens): int {
    CeilDiv(t.input * price.input + t.output * price.output + t.cached * price.cached + t.reasoning * price.reasoning, 1_000_000)
  }

  predicate Covers(cards: seq<RateCard>, i: nat, route: Route, now: int) {
    i < |cards| && cards[i].route == route && cards[i].effectiveAt <= now
  }

  /** The card in force: of those that cover the route, the last to take effect. */
  function RateFor(cards: seq<RateCard>, route: Route, now: int): (found: Option<nat>)
    ensures found.Some? ==> Covers(cards, found.value, route, now)
    ensures found.Some? ==> forall i: nat :: Covers(cards, i, route, now) ==> cards[i].effectiveAt <= cards[found.value].effectiveAt
    ensures found.None? ==> forall i: nat :: !Covers(cards, i, route, now)
  {
    if cards == [] then None
    else
      var n := |cards| - 1;
      var earlier := RateFor(cards[..n], route, now);
      assert forall i: nat :: i < n && Covers(cards, i, route, now) ==> Covers(cards[..n], i, route, now);
      if Covers(cards, n, route, now) && (earlier.None? || cards[earlier.value].effectiveAt < cards[n].effectiveAt) then Some(n)
      else earlier
  }

  function PutRate(db: Db, card: RateCard): Step {
    if !NonNegative4(card.price) then Step(db, Err(InvalidInput))
    else if exists i :: 0 <= i < |db.rates| && db.rates[i].route == card.route && db.rates[i].effectiveAt == card.effectiveAt then
      Step(db, Err(ConstraintViolated))
    else Step(db.(rates := db.rates + [card]), Ok(|db.rates|))
  }

  // ---------------------------------------------------------------- policies

  function Key(r: Route): string {
    r.provider + ":" + r.model
  }

  predicate KeyAmong(routes: seq<Route>, r: Route) {
    exists i :: 0 <= i < |routes| && Key(routes[i]) == Key(r)
  }

  lemma KeyAmongAppend(routes: seq<Route>, last: Route, r: Route)
    ensures KeyAmong(routes + [last], r) <==> KeyAmong(routes, r) || Key(last) == Key(r)
  {
    if KeyAmong(routes, r) {
      var i :| 0 <= i < |routes| && Key(routes[i]) == Key(r);
      assert (routes + [last])[i] == routes[i];
    } else if Key(last) == Key(r) {
      assert (routes + [last])[|routes|] == last;
    }
  }

  /** The routes without the later ones of an equal key, or None if one is blank. */
  function Normalize(routes: seq<Route>): Option<seq<Route>> {
    if routes == [] then Some([])
    else
      var n := |routes| - 1;
      var front := Normalize(routes[..n]);
      if front.None? || routes[n].provider == "" || routes[n].model == "" then None
      else if KeyAmong(front.value, routes[n]) then front
      else Some(front.value + [routes[n]])
  }

  predicate TermsAccepted(t: Terms) {
    && t.start < t.end
    && t.budget > 0 && t.maxPerCall > 0 && t.maxInput > 0 && t.maxOutput > 0 && t.maxCallsPerMinute > 0
    && t.multiplier >= 1.0
    && Normalize(t.allowed).Some? && Normalize(t.fallback).Some?
    && Normalize(t.allowed).value != []
    && forall r :: r in Normalize(t.fallback).value ==> r in Normalize(t.allowed).value
  }

  function CreatePolicy(db: Db, t: Terms): Step {
    if !TermsAccepted(t) then Step(db, Err(InvalidInput))
    else if exists i :: 0 <= i < |db.policies| && db.policies[i].terms.scope == t.scope && db.policies[i].terms.start == t.start then
      Step(db, Err(ConstraintViolated))
    else
      var stored := t.(allowed := Normalize(t.allowed).value, fallback := Normalize(t.fallback).value);
      Step(db.(policies := db.policies + [Policy(stored, 0, 0, 0, Active)]), Ok(|db.policies|))
  }

  function Pause(policies: seq<Policy>, p: nat, reason: Reason): seq<Policy>
    requires p < |policies|
  {
    policies[p := policies[p].(status := Paused(reason))]
  }

  function Stop(db: Db, p: nat, note: string): Step {
    if note == "" then Step(db, Err(InvalidInput))
    else if p >= |db.policies| then Step(db, Err(Denied))
    else Step(db.(policies := Pause(db.policies, p, EmergencyStop(note))), Ok(p))
  }

  // ---------------------------------------------------------------- preflight

  function Candidates(route: Route, fallback: seq<Route>): seq<Route> {
    [route] + Without(fallback, route)
  }

  function Without(routes: seq<Route>, r: Route): seq<Route> {
    if routes == [] then []
    else
      var front, last := Without(routes[..|routes| - 1], r), routes[|routes| - 1];
      if last == r then front else front + [last]
  }

  /** What the search looks at: the rate cards, the moment, the estimate and the policy's limits. */
  datatype Market = Market(rates: seq<RateCard>, now: int, estimate: Tokens, allowed: seq<Route>, maxPerCall: int, available: int)

  predicate Allowed(m: Market, r: Route) {
    KeyAmong(m.allowed, r)
  }

  predicate Rated(m: Market, r: Route) {
    Allowed(m, r) && RateFor(m.rates, r, m.now).Some?
  }

  predicate Affordable(m: Market, r: Route) {
    && Rated(m, r)
    && var cost := Cost(m.rates[RateFor(m.rates, r, m.now).value].price, m.estimate);
       cost <= m.maxPerCall && cost <= m.available
  }

  function FirstAffordable(m: Market, routes: seq<Route>): (found: Option<nat>)
    ensures found.Some? ==> found.value < |routes| && Affordable(m, routes[found.value])
    ensures found.Some? ==> forall j :: 0 <= j < found.value ==> !Affordable(m, routes[j])
    ensures found.None? ==> forall j :: 0 <= j < |routes| ==> !Affordable(m, routes[j])
  {
    if routes == [] then None
    else
      var n := |routes| - 1;
      var earlier := FirstAffordable(m, routes[..n]);
      assert forall j :: 0 <= j < n ==> routes[..n][j] == routes[j];
      if earlier.Some? then earlier else if Affordable(m, routes[n]) then Some(n) else None
  }

  predicate SomeAllowed(m: Market, routes: seq<Route>) {
    exists j :: 0 <= j < |routes| && Allowed(m, routes[j])
  }

  predicate SomeRated(m: Market, routes: seq<Route>) {
    exists j :: 0 <= j < |routes| && Rated(m, routes[j])
  }

  /** The first candidate that is allowed, rated and affordable; otherwise why there is none. */
  function Choose(m: Market, routes: seq<Route>): Result<nat> {
    if FirstAffordable(m, routes).Some? then Ok(FirstAffordable(m, routes).value)
    else if !SomeAllowed(m, routes) then Err(RouteDenied)
    else if !SomeRated(m, routes) then Err(NoRateCard)
    else Err(OverBudget)
  }

  function FindKey(rsvs: seq<Reservation>, p: nat, key: string): (found: Option<nat>)
    ensures found.Some? ==> found.value < |rsvs| && rsvs[found.value].request.policy == p && rsvs[found.value].request.key == key
    ensures found.None? ==> forall i :: 0 <= i < |rsvs| ==> !(rsvs[i].request.policy == p && rsvs[i].request.key == key)
  {
    if rsvs == [] then None
    else
      var n := |rsvs| - 1;
      var earlier := FindKey(rsvs[..n], p, key);
      assert forall i :: 0 <= i < n ==> rsvs[..n][i] == rsvs[i];
      if earlier.Some? then earlier
      else if rsvs[n].request.policy == p && rsvs[n].request.key == key then Some(n)
      else None
  }

  function RecentOne(p: nat, since: int): Reservation -> int {
    (r: Reservation) => if r.request.policy == p && r.createdAt >= since then 1 else 0
  }

  function MarketFor(db: Db, q: Request, now: int): Market
    requires q.policy < |db.policies|
  {
    var p := db.policies[q.policy];
    Market(db.rates, now, q.estimate, p.terms.allowed, p.terms.maxPerCall, p.terms.budget - p.spent - p.reserved)
  }

  /** Why a new request is refused before any route is tried. */
  function Refusal(db: Db, q: Request, now: int): Option<SpendError> {
    if q.policy >= |db.policies| then Some(Denied)
    else
      var p := db.policies[q.policy];
      if p.status != Active then Some(PolicyPaused)
      else if now < p.terms.start || now >= p.terms.end then Some(Denied)
      else if p.spent >= p.terms.budget then Some(OverBudget)
      else if q.estimate.input > p.terms.maxInput || q.estimate.output > p.terms.maxOutput then Some(Denied)
      else if !NonNegative4(q.estimate) then Some(InvalidInput)
      else if Sum(db.rsvs, RecentOne(q.policy, now - 60)) >= p.terms.maxCallsPerMinute then Some(PolicyPaused)
      else None
  }

  /** The row that preflight inserts for the chosen candidate. */
  function Admitted(db: Db, q: Request, now: int, i: nat): Reservation
    requires q.policy < |db.policies|
    requires var routes := Candidates(q.route, db.policies[q.policy].terms.fallback);
             i < |routes| && RateFor(db.rates, routes[i], now).Some?
  {
    var route := Candidates(q.route, db.policies[q.policy].terms.fallback)[i];
    var rate := RateFor(db.rates, route, now).value;
    Reservation(q, route, rate, Cost(db.rates[rate].price, q.estimate), now, None, Pending)
  }

  function Preflight(db: Db, q: Request, now: int): Step {
    var existing := FindKey(db.rsvs, q.policy, q.key);
    if existing.Some? then
      Step(db, if db.rsvs[existing.value].request == q then Ok(existing.value) else Err(Conflict))
    else if Refusal(db, q, now).Some? then Step(db, Err(Refusal(db, q, now).value))
    else
      var chosen := Choose(MarketFor(db, q, now), Candidates(q.route, db.policies[q.policy].terms.fallback));
      if chosen.Err? then Step(db, Err(chosen.error))
      else
        var row := Admitted(db, q, now, chosen.value);
        var p := db.policies[q.policy];
        Step(db.(rsvs := db.rsvs + [row], policies := db.policies[q.policy := p.(reserved := p.reserved + row.cost)]),
             Ok(|db.rsvs|))
  }

  // ---------------------------------------------------------------- usage

  predicate OutOfProportion(actual: int, estimate: int, multiplier: real) {
    actual > CeilReal(estimate as real * multiplier)
  }

  /** Whether usage is out of proportion to its estimate, or over a token limit. */
  predicate Anomalous(t: Terms, row: Reservation, actual: Tokens, cost: int) {
    || OutOfProportion(cost, row.cost, t.multiplier)
    || OutOfProportion(Total(actual), Max(1, Total(row.request.estimate)), t.multiplier)
    || actual.input > t.maxInput
    || actual.output > t.maxOutput
  }

  predicate RequestTaken(rsvs: seq<Reservation>, provider: string, requestId: string) {
    exists i :: 0 <= i < |rsvs| && rsvs[i].usage.Some? && rsvs[i].selected.provider == provider && rsvs[i].usage.value.requestId == requestId
  }

  function Settled(p: Policy, row: Reservation, actual: Tokens, cost: int): Policy {
    var after := p.(reserved := Max(0, p.reserved - row.cost), spent := p.spent + cost, callCount := p.callCount + 1);
    if Anomalous(p.terms, row, actual, cost) || p.spent + cost > p.terms.budget then after.(status := Paused(RunawayUsage)) else after
  }

  function FinalizeUsage(db: Db, rsv: nat, actual: Tokens, requestId: string, digest: string): Step {
    if |digest| != 64 || requestId == "" || !NonNegative4(actual) then Step(db, Err(InvalidInput))
    else if rsv >= |db.rsvs| then Step(db, Err(Denied))
    else
      var row := db.rsvs[rsv];
      if row.usage.Some? then Step(db, Ok(rsv))
      else if row.request.policy >= |db.policies| || row.rate >= |db.rates| then Step(db, Err(Denied))
      else if RequestTaken(db.rsvs, row.selected.provider, requestId) then Step(db, Err(ConstraintViolated))
      else
        var cost := Cost(db.rates[row.rate].price, actual);
        Step(db.(rsvs := db.rsvs[rsv := row.(usage := Some(Usage(actual, cost, requestId)))],
                 policies := db.policies[row.request.policy := Settled(db.policies[row.request.policy], row, actual, cost)]),
             Ok(rsv))
  }

  // ---------------------------------------------------------------- provider events

  function FindEvent(events: seq<Event>, provider: string, eventId: string): (found: Option<nat>)
    ensures found.Some? ==> found.value < |events| && events[found.value].charge.provider == provider && events[found.value].charge.eventId == eventId
    ensures found.None? ==> forall i :: 0 <= i < |events| ==> !(events[i].charge.provider == provider && events[i].charge.eventId == eventId)
  {
    if events == [] then None
    else
      var n := |events| - 1;
      var earlier := FindEvent(events[..n], provider, eventId);
      assert forall i :: 0 <= i < n ==> events[..n][i] == events[i];
      if earlier.Some? then earlier
      else if events[n].charge.provider == provider && events[n].charge.eventId == eventId then Some(n)
      else None
  }

  predicate Answers(row: Reservation, c: Charge) {
    c.requestId.Some? && c.requestId.value != "" && row.selected.provider == c.provider && row.usage.Some? && row.usage.value.requestId == c.requestId.value
  }

  function FindCharged(rsvs: seq<Reservation>, c: Charge): (found: Option<nat>)
    ensures found.Some? ==> found.value < |rsvs| && Answers(rsvs[found.value], c)
    ensures found.None? ==> forall i :: 0 <= i < |rsvs| ==> !Answers(rsvs[i], c)
  {
    if rsvs == [] then None
    else
      var n := |rsvs| - 1;
      var earlier := FindCharged(rsvs[..n], c);
      assert forall i :: 0 <= i < n ==> rsvs[..n][i] == rsvs[i];
      if earlier.Some? then earlier else if Answers(rsvs[n], c) then Some(n) else None
  }

  predicate Disagrees(expected: int, charged: int, tolerance: int) {
    Abs(charged - expected) > Max(tolerance, CeilDiv(expected, 100))
  }

  function ReconcileEvent(db: Db, c: Charge, tolerance: int): Step {
    if c.cost < 0 || tolerance < 0 then Step(db, Err(InvalidInput))
    else
      var existing := FindEvent(db.events, c.provider, c.eventId);
      if existing.Some? then
        Step(db, if db.events[existing.value].charge == c then Ok(existing.value) else Err(Conflict))
      else
        var match_ := FindCharged(db.rsvs, c);
        if match_.None? then Step(db.(events := db.events + [Event(c, Orphaned)]), Ok(|db.events|))
        else
          var row := db.rsvs[match_.value];
          var disputed := Disagrees(row.usage.value.cost, c.cost, tolerance);
          if row.request.policy >= |db.policies| then Step(db, Err(ConstraintViolated))
          else
            Step(db.(events := db.events + [Event(c, Matched(match_.value, disputed))],
                     rsvs := db.rsvs[match_.value := row.(reconciliation := if disputed then Disputed else Confirmed)],
                     policies := if disputed then Pause(db.policies, row.request.policy, ProviderMismatch) else db.policies),
                 Ok(|db.events|))
  }
}
