/** What every run of the token-spend control keeps: the cached columns agree with the rows, the
    budget bounds what is committed, and a paused policy stays out of use.
    services/agent-commerce/agent_commerce/token_preflight.py:48-157, token_usage.py:40-143,
    token_reconcile.py:42-110 and token_policy.py:111-136. */
module TokenBudget {
  import opened Sums
  import opened TokenSpend

  // ---------------------------------------------------------------- costs

  lemma CeilDivBounds(n: int, d: int)
    requires d > 0
    ensures n <= CeilDiv(n, d) * d < n + d
  {
  }

  lemma CeilDivMonotone(m: int, n: int, d: int)
    requires d > 0 && m <= n
    ensures CeilDiv(m, d) <= CeilDiv(n, d)
  {
    CeilDivBounds(m, d);
    CeilDivBounds(n, d);
    if CeilDiv(m, d) >= CeilDiv(n, d) + 1 {
      MultiplyMonotone(CeilDiv(n, d) + 1, CeilDiv(m, d), d);
    }
  }

  lemma MultiplyMonotone(a: int, b: int, p: int)
    requires a <= b && 0 <= p
    ensures a * p <= b * p
  {
  }

  predicate Within(actual: Tokens, estimate: Tokens) {
    && actual.input <= estimate.input && actual.output <= estimate.output
    && actual.cached <= estimate.cached && actual.reasoning <= estimate.reasoning
  }

  /** Using no more of any kind of token never costs more. */
  lemma CostMonotone(price: Tokens, actual: Tokens, estimate: Tokens)
    requires NonNegative4(price) && Within(actual, estimate)
    ensures Cost(price, actual) <= Cost(price, estimate)
  {
    MultiplyMonotone(actual.input, estimate.input, price.input);
    MultiplyMonotone(actual.output, estimate.output, price.output);
    MultiplyMonotone(actual.cached, estimate.cached, price.cached);
    MultiplyMonotone(actual.reasoning, estimate.reasoning, price.reasoning);
    CeilDivMonotone(
      actual.input * price.input + actual.output * price.output + actual.cached * price.cached + actual.reasoning * price.reasoning,
      estimate.input * price.input + estimate.output * price.output + estimate.cached * price.cached + estimate.reasoning * price.reasoning,
      1_000_000);
  }

  lemma CostNonNegative(price: Tokens, t: Tokens)
    requires NonNegative4(price) && NonNegative4(t)
    ensures 0 <= Cost(price, t)
  {
    CostMonotone(price, Tokens(0, 0, 0, 0), t);
    assert Cost(price, Tokens(0, 0, 0, 0)) == 0;
  }

  lemma GrowsByMultiplier(n: int, m: real)
    requires n >= 0 && m >= 1.0
    ensures n as real <= n as real * m
  {
    assert n as real * m - n as real == n as real * (m - 1.0);
  }

  lemma CeilRealAbove(n: int, x: real)
    requires n as real <= x
    ensures n <= CeilReal(x)
  {
  }

  lemma InProportion(actual: int, estimate: int, multiplier: real)
    requires actual <= estimate && 0 <= estimate && multiplier >= 1.0
    ensures !OutOfProportion(actual, estimate, multiplier)
  {
    GrowsByMultiplier(estimate, multiplier);
    CeilRealAbove(estimate, estimate as real * multiplier);
  }

  /** A call that stays within its estimate is never taken for an anomaly. */
  lemma WithinIsNormal(t: Terms, row: Reservation, actual: Tokens, cost: int)
    requires 0 <= cost <= row.cost && t.multiplier >= 1.0
    requires Within(actual, row.request.estimate)
    requires row.request.estimate.input <= t.maxInput && row.request.estimate.output <= t.maxOutput
    ensures !Anomalous(t, row, actual, cost)
  {
    InProportion(cost, row.cost, t.multiplier);
    InProportion(Total(actual), Max(1, Total(row.request.estimate)), t.multiplier);
  }

  // ---------------------------------------------------------------- the invariant of the tables

  function ReservedOn(p: nat): Reservation -> int {
    (r: Reservation) => if r.request.policy == p && r.usage.None? then r.cost else 0
  }

  function SpentOn(p: nat): Reservation -> int {
    (r: Reservation) => if r.request.policy == p && r.usage.Some? then r.usage.value.cost else 0
  }

  function FinalizedOn(p: nat): Reservation -> int {
    (r: Reservation) => if r.request.policy == p && r.usage.Some? then 1 else 0
  }

  /** How far a finalized call went over its estimated cost. */
  function OverrunOn(p: nat): Reservation -> int {
    (r: Reservation) => if r.request.policy == p && r.usage.Some? then Max(0, r.usage.value.cost - r.cost) else 0
  }

  /** A finalized call of the policy that used more tokens of some kind than it had estimated. */
  ghost predicate HasCulprit(rsvs: seq<Reservation>, p: nat) {
    exists i :: 0 <= i < |rsvs| && rsvs[i].request.policy == p && rsvs[i].usage.Some? && !Within(rsvs[i].usage.value.tokens, rsvs[i].request.estimate)
  }

  ghost predicate SumsAgree(q: Policy, rsvs: seq<Reservation>, p: nat) {
    && q.reserved == Sum(rsvs, ReservedOn(p))
    && q.spent == Sum(rsvs, SpentOn(p))
    && q.callCount == Sum(rsvs, FinalizedOn(p))
    && q.spent + q.reserved <= q.terms.budget + Sum(rsvs, OverrunOn(p))
  }

  ghost predicate PolicyInOrder(q: Policy, rsvs: seq<Reservation>, p: nat) {
    && SumsAgree(q, rsvs, p)
    && q.terms.budget > 0 && q.terms.multiplier >= 1.0
    && (q.status == Active ==> q.spent <= q.terms.budget)
    && (q.status == Paused(RunawayUsage) ==> HasCulprit(rsvs, p))
    && q.status != Paused(RunawayRate)
  }

  ghost predicate RowInOrder(policies: seq<Policy>, rates: seq<RateCard>, r: Reservation) {
    && r.request.policy < |policies| && r.rate < |rates|
    && rates[r.rate].route == r.selected
    && NonNegative4(r.request.estimate)
    && r.request.estimate.input <= policies[r.request.policy].terms.maxInput
    && r.request.estimate.output <= policies[r.request.policy].terms.maxOutput
    && KeyAmong(policies[r.request.policy].terms.allowed, r.selected)
    && 0 <= r.cost == Cost(rates[r.rate].price, r.request.estimate) <= policies[r.request.policy].terms.maxPerCall
    && (r.usage.Some? ==>
          && NonNegative4(r.usage.value.tokens)
          && r.usage.value.cost == Cost(rates[r.rate].price, r.usage.value.tokens)
          && r.usage.value.requestId != "")
  }

  ghost predicate EventInOrder(policies: seq<Policy>, rsvs: seq<Reservation>, e: Event) {
    e.status.Matched? ==>
      && e.status.reservation < |rsvs|
      && var r := rsvs[e.status.reservation];
         && Answers(r, e.charge)
         && r.request.policy < |policies|
         && (e.status.disputed ==> policies[r.request.policy].status.Paused?)
  }

  ghost predicate KeysUnique(rsvs: seq<Reservation>) {
    forall i, j :: 0 <= i < j < |rsvs| ==>
      rsvs[i].request.policy != rsvs[j].request.policy || rsvs[i].request.key != rsvs[j].request.key
  }

  /** A provider's request id belongs to one reservation. */
  ghost predicate RequestIdsUnique(rsvs: seq<Reservation>) {
    forall i, j :: 0 <= i < j < |rsvs| && rsvs[i].usage.Some? && rsvs[j].usage.Some? ==>
      rsvs[i].selected.provider != rsvs[j].selected.provider || rsvs[i].usage.value.requestId != rsvs[j].usage.value.requestId
  }

  ghost predicate EventsUnique(events: seq<Event>) {
    forall i, j :: 0 <= i < j < |events| ==>
      events[i].charge.provider != events[j].charge.provider || events[i].charge.eventId != events[j].charge.eventId
  }

  ghost predicate RowsInOrder(db: Db) {
    && (forall c :: 0 <= c < |db.rates| ==> NonNegative4(db.rates[c].price))
    && (forall i :: 0 <= i < |db.rsvs| ==> RowInOrder(db.policies, db.rates, db.rsvs[i]))
    && KeysUnique(db.rsvs)
    && RequestIdsUnique(db.rsvs)
  }

  ghost predicate PoliciesInOrder(db: Db) {
    forall p :: 0 <= p < |db.policies| ==> PolicyInOrder(db.policies[p], db.rsvs, p)
  }

  ghost predicate EventsInOrder(db: Db) {
    (forall k :: 0 <= k < |db.events| ==> EventInOrder(db.policies, db.rsvs, db.events[k])) && EventsUnique(db.events)
  }

  ghost predicate InOrder(db: Db) {
    RowsInOrder(db) && PoliciesInOrder(db) && EventsInOrder(db)
  }

  // ---------------------------------------------------------------- policies and rates

  lemma NothingOnUnknown(db: Db, p: nat)
    requires RowsInOrder(db) && p >= |db.policies|
    ensures Sum(db.rsvs, ReservedOn(p)) == Sum(db.rsvs, SpentOn(p)) == Sum(db.rsvs, FinalizedOn(p)) == Sum(db.rsvs, OverrunOn(p)) == 0
  {
    forall i | 0 <= i < |db.rsvs|
      ensures db.rsvs[i].request.policy != p
    {
      assert RowInOrder(db.policies, db.rates, db.rsvs[i]);
    }
    Zero(db.rsvs, ReservedOn(p));
    Zero(db.rsvs, SpentOn(p));
    Zero(db.rsvs, FinalizedOn(p));
    Zero(db.rsvs, OverrunOn(p));
  }

  lemma MorePoliciesKeepRows(db: Db, q: Policy)
    requires RowsInOrder(db) && EventsInOrder(db)
    ensures var db' := db.(policies := db.policies + [q]);
            RowsInOrder(db') && EventsInOrder(db')
  {
    var db' := db.(policies := db.policies + [q]);
    forall i | 0 <= i < |db'.rsvs|
      ensures RowInOrder(db'.policies, db'.rates, db'.rsvs[i])
    {
      assert RowInOrder(db.policies, db.rates, db.rsvs[i]);
    }
    forall k | 0 <= k < |db'.events|
      ensures EventInOrder(db'.policies, db'.rsvs, db'.events[k])
    {
      assert EventInOrder(db.policies, db.rsvs, db.events[k]);
    }
  }

  lemma CreateKeepsOrder(db: Db, t: Terms)
    requires InOrder(db)
    ensures InOrder(CreatePolicy(db, t).db)
  {
    var db' := CreatePolicy(db, t).db;
    if db' != db {
      NothingOnUnknown(db, |db.policies|);
      MorePoliciesKeepRows(db, db'.policies[|db.policies|]);
    }
  }

  lemma RateKeepsOrder(db: Db, card: RateCard)
    requires InOrder(db)
    ensures InOrder(PutRate(db, card).db)
  {
    var db' := PutRate(db, card).db;
    forall i | 0 <= i < |db'.rsvs|
      ensures RowInOrder(db'.policies, db'.rates, db'.rsvs[i])
    {
      assert RowInOrder(db.policies, db.rates, db.rsvs[i]);
    }
  }

  /** Pausing for another reason than usage or rate keeps everything. */
  lemma PauseKeepsOrder(db: Db, p: nat, reason: Reason)
    requires InOrder(db) && p < |db.policies| && reason != RunawayRate
    requires reason == RunawayUsage ==> HasCulprit(db.rsvs, p)
    ensures InOrder(db.(policies := Pause(db.policies, p, reason)))
  {
    var db' := db.(policies := Pause(db.policies, p, reason));
    forall i | 0 <= i < |db'.rsvs|
      ensures RowInOrder(db'.policies, db'.rates, db'.rsvs[i])
    {
      assert RowInOrder(db.policies, db.rates, db.rsvs[i]);
    }
    forall k | 0 <= k < |db'.events|
      ensures EventInOrder(db'.policies, db'.rsvs, db'.events[k])
    {
      assert EventInOrder(db.policies, db.rsvs, db.events[k]);
    }
    forall q | 0 <= q < |db'.policies|
      ensures PolicyInOrder(db'.policies[q], db'.rsvs, q)
    {
      assert PolicyInOrder(db.policies[q], db.rsvs, q);
    }
  }

  // ---------------------------------------------------------------- preflight

  lemma AppendKeepsCulprit(rsvs: seq<Reservation>, row: Reservation, p: nat)
    requires HasCulprit(rsvs, p)
    ensures HasCulprit(rsvs + [row], p)
  {
    var i :| 0 <= i < |rsvs| && rsvs[i].request.policy == p && rsvs[i].usage.Some? && !Within(rsvs[i].usage.value.tokens, rsvs[i].request.estimate);
    assert (rsvs + [row])[i] == rsvs[i];
  }

  lemma AdmitKeepsPolicy(q: Policy, rsvs: seq<Reservation>, row: Reservation, p: nat)
    requires PolicyInOrder(q, rsvs, p) && row.usage.None?
    requires row.request.policy == p ==> row.cost <= q.terms.budget - q.spent - q.reserved && row.cost >= 0
    ensures PolicyInOrder(if row.request.policy == p then q.(reserved := q.reserved + row.cost) else q, rsvs + [row], p)
  {
    Append(rsvs, row, ReservedOn(p));
    Append(rsvs, row, SpentOn(p));
    Append(rsvs, row, FinalizedOn(p));
    Append(rsvs, row, OverrunOn(p));
    NonNegative(rsvs, OverrunOn(p));
    if HasCulprit(rsvs, p) {
      AppendKeepsCulprit(rsvs, row, p);
    }
  }

  lemma AdmitKeepsRows(db: Db, q: Request, now: int)
    requires RowsInOrder(db)
    ensures RowsInOrder(Preflight(db, q, now).db)
  {
    var db' := Preflight(db, q, now).db;
    if db' != db {
      var row := db'.rsvs[|db.rsvs|];
      CostNonNegative(db.rates[row.rate].price, q.estimate);
      forall i | 0 <= i < |db'.rsvs|
        ensures RowInOrder(db'.policies, db'.rates, db'.rsvs[i])
      {
        if i < |db.rsvs| {
          assert RowInOrder(db.policies, db.rates, db.rsvs[i]);
        }
      }
    }
  }

  lemma PreflightKeepsOrder(db: Db, q: Request, now: int)
    requires InOrder(db)
    ensures InOrder(Preflight(db, q, now).db)
  {
    var db' := Preflight(db, q, now).db;
    AdmitKeepsRows(db, q, now);
    if db' != db {
      var row := db'.rsvs[|db.rsvs|];
      assert RowInOrder(db'.policies, db'.rates, db'.rsvs[|db.rsvs|]);
      forall p | 0 <= p < |db'.policies|
        ensures PolicyInOrder(db'.policies[p], db'.rsvs, p)
      {
        AdmitKeepsPolicy(db.policies[p], db.rsvs, row, p);
      }
      forall k | 0 <= k < |db'.events|
        ensures EventInOrder(db'.policies, db'.rsvs, db'.events[k])
      {
        assert EventInOrder(db.policies, db.rsvs, db.events[k]);
      }
    }
  }

  // ---------------------------------------------------------------- usage

  lemma RewriteSums(rsvs: seq<Reservation>, rsv: nat, row: Reservation, p: nat)
    requires rsv < |rsvs|
    ensures var rsvs' := rsvs[rsv := row];
            && Sum(rsvs', ReservedOn(p)) == Sum(rsvs, ReservedOn(p)) - ReservedOn(p)(rsvs[rsv]) + ReservedOn(p)(row)
            && Sum(rsvs', SpentOn(p)) == Sum(rsvs, SpentOn(p)) - SpentOn(p)(rsvs[rsv]) + SpentOn(p)(row)
            && Sum(rsvs', FinalizedOn(p)) == Sum(rsvs, FinalizedOn(p)) - FinalizedOn(p)(rsvs[rsv]) + FinalizedOn(p)(row)
            && Sum(rsvs', OverrunOn(p)) == Sum(rsvs, OverrunOn(p)) - OverrunOn(p)(rsvs[rsv]) + OverrunOn(p)(row)
  {
    Update(rsvs, rsv, row, ReservedOn(p));
    Update(rsvs, rsv, row, SpentOn(p));
    Update(rsvs, rsv, row, FinalizedOn(p));
    Update(rsvs, rsv, row, OverrunOn(p));
  }

  /** MAX(0, ...) never clamps: an unfinished call's amount is inside its policy's total. */
  lemma NeverClamps(db: Db, rsv: nat)
    requires InOrder(db) && rsv < |db.rsvs| && db.rsvs[rsv].usage.None?
    ensures var row := db.rsvs[rsv];
            row.request.policy < |db.policies| && 0 <= row.cost <= db.policies[row.request.policy].reserved
  {
    var row := db.rsvs[rsv];
    var p := row.request.policy;
    forall i | 0 <= i < |db.rsvs|
      ensures ReservedOn(p)(db.rsvs[i]) >= 0
    {
      assert RowInOrder(db.policies, db.rates, db.rsvs[i]);
    }
    assert RowInOrder(db.policies, db.rates, row);
    Member(db.rsvs, rsv, ReservedOn(p));
    assert PolicyInOrder(db.policies[p], db.rsvs, p);
  }

  lemma RewriteKeepsCulprit(rsvs: seq<Reservation>, rsv: nat, row: Reservation, p: nat)
    requires HasCulprit(rsvs, p) && rsv < |rsvs| && row.request == rsvs[rsv].request
    requires rsvs[rsv].usage.Some? ==> row.usage == rsvs[rsv].usage
    ensures HasCulprit(rsvs[rsv := row], p)
  {
    var i :| 0 <= i < |rsvs| && rsvs[i].request.policy == p && rsvs[i].usage.Some? && !Within(rsvs[i].usage.value.tokens, rsvs[i].request.estimate);
    assert rsvs[rsv := row][i].request.policy == p;
  }

  /** With no culprit among a policy's calls, nothing was spent over the estimates. */
  lemma NoCulpritNoOverrun(db: Db, p: nat)
    requires RowsInOrder(db) && !HasCulprit(db.rsvs, p)
    ensures Sum(db.rsvs, OverrunOn(p)) == 0
  {
    forall i | 0 <= i < |db.rsvs|
      ensures OverrunOn(p)(db.rsvs[i]) == 0
    {
      var r := db.rsvs[i];
      assert RowInOrder(db.policies, db.rates, r);
      if r.request.policy == p && r.usage.Some? {
        CostMonotone(db.rates[r.rate].price, r.usage.value.tokens, r.request.estimate);
      }
    }
    Zero(db.rsvs, OverrunOn(p));
  }

  /** A call within its estimate, on a policy without a culprit, does not pause it. */
  lemma WithinKeepsActive(db: Db, rsv: nat, actual: Tokens, cost: int)
    requires InOrder(db) && rsv < |db.rsvs| && db.rsvs[rsv].usage.None? && NonNegative4(actual)
    requires RowInOrder(db.policies, db.rates, db.rsvs[rsv])
    requires cost == Cost(db.rates[db.rsvs[rsv].rate].price, actual)
    requires Within(actual, db.rsvs[rsv].request.estimate) && !HasCulprit(db.rsvs, db.rsvs[rsv].request.policy)
    ensures var q := db.policies[db.rsvs[rsv].request.policy];
            Settled(q, db.rsvs[rsv], actual, cost).status == q.status
  {
    var row := db.rsvs[rsv];
    var price := db.rates[row.rate].price;
    var p := row.request.policy;
    CostMonotone(price, actual, row.request.estimate);
    CostNonNegative(price, actual);
    assert PolicyInOrder(db.policies[p], db.rsvs, p);
    WithinIsNormal(db.policies[p].terms, row, actual, cost);
    NoCulpritNoOverrun(db, p);
    NeverClamps(db, rsv);
  }

  lemma SettleKeepsSums(q: Policy, rsvs: seq<Reservation>, rsv: nat, row: Reservation, p: nat)
    requires SumsAgree(q, rsvs, p) && rsv < |rsvs| && rsvs[rsv].usage.None? && rsvs[rsv].request.policy == p
    requires 0 <= rsvs[rsv].cost <= q.reserved
    requires row.usage.Some? && row.request == rsvs[rsv].request && row.cost == rsvs[rsv].cost
    ensures SumsAgree(Settled(q, rsvs[rsv], row.usage.value.tokens, row.usage.value.cost), rsvs[rsv := row], p)
  {
    RewriteSums(rsvs, rsv, row, p);
  }

  lemma OthersKeepPolicy(q: Policy, rsvs: seq<Reservation>, rsv: nat, row: Reservation, p: nat)
    requires PolicyInOrder(q, rsvs, p) && rsv < |rsvs| && row.request == rsvs[rsv].request && row.cost == rsvs[rsv].cost
    requires row.usage == rsvs[rsv].usage || (rsvs[rsv].usage.None? && row.request.policy != p)
    ensures PolicyInOrder(q, rsvs[rsv := row], p)
  {
    RewriteSums(rsvs, rsv, row, p);
    if HasCulprit(rsvs, p) {
      RewriteKeepsCulprit(rsvs, rsv, row, p);
    }
  }

  lemma SettleKeepsPolicy(db: Db, rsv: nat, row: Reservation)
    requires InOrder(db) && rsv < |db.rsvs| && db.rsvs[rsv].usage.None?
    requires RowInOrder(db.policies, db.rates, db.rsvs[rsv])
    requires row.usage.Some? && row.request == db.rsvs[rsv].request && row.cost == db.rsvs[rsv].cost
    requires NonNegative4(row.usage.value.tokens)
    requires row.usage.value.cost == Cost(db.rates[db.rsvs[rsv].rate].price, row.usage.value.tokens)
    ensures var p := row.request.policy;
            PolicyInOrder(Settled(db.policies[p], db.rsvs[rsv], row.usage.value.tokens, row.usage.value.cost), db.rsvs[rsv := row], p)
  {
    var p := row.request.policy;
    var q := db.policies[p];
    var actual, cost := row.usage.value.tokens, row.usage.value.cost;
    assert PolicyInOrder(q, db.rsvs, p);
    NeverClamps(db, rsv);
    SettleKeepsSums(q, db.rsvs, rsv, row, p);
    assert db.rsvs[rsv := row][rsv] == row;
    if HasCulprit(db.rsvs, p) {
      RewriteKeepsCulprit(db.rsvs, rsv, row, p);
    } else if Within(actual, row.request.estimate) {
      WithinKeepsActive(db, rsv, actual, cost);
    }
  }

  lemma FinalizeKeepsRows(db: Db, rsv: nat, actual: Tokens, requestId: string, digest: string)
    requires RowsInOrder(db)
    ensures RowsInOrder(FinalizeUsage(db, rsv, actual, requestId, digest).db)
  {
    var db' := FinalizeUsage(db, rsv, actual, requestId, digest).db;
    if db' != db {
      forall i | 0 <= i < |db'.rsvs|
        ensures RowInOrder(db'.policies, db'.rates, db'.rsvs[i])
      {
        assert RowInOrder(db.policies, db.rates, db.rsvs[i]);
      }
      assert !RequestTaken(db.rsvs, db.rsvs[rsv].selected.provider, requestId);
    }
  }

  lemma FinalizeKeepsOrder(db: Db, rsv: nat, actual: Tokens, requestId: string, digest: string)
    requires InOrder(db)
    ensures InOrder(FinalizeUsage(db, rsv, actual, requestId, digest).db)
  {
    var db' := FinalizeUsage(db, rsv, actual, requestId, digest).db;
    FinalizeKeepsRows(db, rsv, actual, requestId, digest);
    if db' != db {
      var row := db'.rsvs[rsv];
      assert RowInOrder(db.policies, db.rates, db.rsvs[rsv]);
      forall p | 0 <= p < |db'.policies|
        ensures PolicyInOrder(db'.policies[p], db'.rsvs, p)
      {
        if p == row.request.policy {
          SettleKeepsPolicy(db, rsv, row);
        } else {
          OthersKeepPolicy(db.policies[p], db.rsvs, rsv, row, p);
        }
      }
      forall k | 0 <= k < |db'.events|
        ensures EventInOrder(db'.policies, db'.rsvs, db'.events[k])
      {
        assert EventInOrder(db.policies, db.rsvs, db.events[k]);
      }
    }
  }

  // ---------------------------------------------------------------- provider events

  lemma MarkKeepsRows(db: Db, rsv: nat, mark: Reconciliation)
    requires RowsInOrder(db) && rsv < |db.rsvs|
    ensures RowsInOrder(db.(rsvs := db.rsvs[rsv := db.rsvs[rsv].(reconciliation := mark)]))
  {
    var db' := db.(rsvs := db.rsvs[rsv := db.rsvs[rsv].(reconciliation := mark)]);
    forall i | 0 <= i < |db'.rsvs|
      ensures RowInOrder(db'.policies, db'.rates, db'.rsvs[i])
    {
      assert RowInOrder(db.policies, db.rates, db.rsvs[i]);
    }
  }

  lemma MarkKeepsEvents(policies: seq<Policy>, rsvs: seq<Reservation>, rsv: nat, mark: Reconciliation, e: Event)
    requires EventInOrder(policies, rsvs, e) && rsv < |rsvs|
    ensures EventInOrder(policies, rsvs[rsv := rsvs[rsv].(reconciliation := mark)], e)
  {
  }

  /** The matched reservation gets its mark and the event is stored. */
  lemma MarkKeepsOrder(db: Db, rsv: nat, mark: Reconciliation, e: Event)
    requires InOrder(db) && rsv < |db.rsvs|
    requires EventInOrder(db.policies, db.rsvs, e) && FindEvent(db.events, e.charge.provider, e.charge.eventId).None?
    ensures InOrder(db.(rsvs := db.rsvs[rsv := db.rsvs[rsv].(reconciliation := mark)], events := db.events + [e]))
  {
    var db' := db.(rsvs := db.rsvs[rsv := db.rsvs[rsv].(reconciliation := mark)], events := db.events + [e]);
    MarkKeepsRows(db, rsv, mark);
    forall p | 0 <= p < |db'.policies|
      ensures PolicyInOrder(db'.policies[p], db'.rsvs, p)
    {
      OthersKeepPolicy(db.policies[p], db.rsvs, rsv, db'.rsvs[rsv], p);
    }
    forall k | 0 <= k < |db'.events|
      ensures EventInOrder(db'.policies, db'.rsvs, db'.events[k])
    {
      MarkKeepsEvents(db.policies, db.rsvs, rsv, mark, db'.events[k]);
    }
  }

  lemma ReconcileKeepsOrder(db: Db, c: Charge, tolerance: int)
    requires InOrder(db)
    ensures InOrder(ReconcileEvent(db, c, tolerance).db)
  {
    var db' := ReconcileEvent(db, c, tolerance).db;
    if db' != db {
      var e := db'.events[|db.events|];
      if e.status.Orphaned? {
        forall k | 0 <= k < |db'.events|
          ensures EventInOrder(db'.policies, db'.rsvs, db'.events[k])
        {
          if k < |db.events| {
            assert EventInOrder(db.policies, db.rsvs, db.events[k]);
          }
        }
      } else {
        var rsv := e.status.reservation;
        var p := db.rsvs[rsv].request.policy;
        if e.status.disputed {
          PauseKeepsOrder(db, p, ProviderMismatch);
          var paused := db.(policies := Pause(db.policies, p, ProviderMismatch));
          MarkKeepsOrder(paused, rsv, Disputed, e);
        } else {
          MarkKeepsOrder(db, rsv, Confirmed, e);
        }
      }
    }
  }
}
