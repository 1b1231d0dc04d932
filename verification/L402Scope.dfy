/** What an authorization's terms mean for its reservations, and an idempotency key for its call,
    over every run. services/agent-commerce/agent_commerce/authorization.py:202-261. */
module L402Scope {
  import opened Authorizations
  import opened L402Workers

  /** The columns that no call updates. */
  ghost predicate SameTerms(a: Authorization, a': Authorization) {
    a'.(status := a.status, reserved := a.reserved, spent := a.spent, callCount := a.callCount) == a
  }

  /** The reservation is one its authorization allows: agent, specialty, price, amount and time. */
  ghost predicate InScope(auths: seq<Authorization>, r: Reservation) {
    && r.call.auth < |auths|
    && var a := auths[r.call.auth];
       && (a.agents == {} || r.call.agent in a.agents)
       && (a.specialties == {} || r.call.specialty in a.specialties)
       && 0 < r.call.quoted <= a.maxPerCall
       && 0 < r.reserved <= a.maxPerCall + a.maxRouteFee
       && r.reservedAt < a.expiresAt
  }

  ghost predicate SameRequest(r: Reservation, r': Reservation) {
    r'.call == r.call && r'.reserved == r.reserved && r'.reservedAt == r.reservedAt
  }

  ghost predicate AllInScope(db: Db) {
    forall i :: 0 <= i < |db.rsvs| ==> InScope(db.auths, db.rsvs[i])
  }

  ghost predicate KeepsScope(db: Db, db': Db) {
    && |db.auths| <= |db'.auths|
    && (forall a :: 0 <= a < |db.auths| ==> SameTerms(db.auths[a], db'.auths[a]))
    && |db.rsvs| <= |db'.rsvs|
    && (forall i :: 0 <= i < |db.rsvs| ==> SameRequest(db.rsvs[i], db'.rsvs[i]))
    && (forall i :: |db.rsvs| <= i < |db'.rsvs| ==> InScope(db'.auths, db'.rsvs[i]))
  }

  lemma ReserveKeepsScope(db: Db, call: Call, ceiling: int, now: int)
    ensures KeepsScope(db, Reserve(db, call, ceiling, now).db)
  {
  }

  lemma FinalizeKeepsScope(db: Db, rsv: nat, seen: RsvStatus, debit: int)
    ensures KeepsScope(db, Finalize(db, rsv, seen, debit).db)
  {
  }

  lemma TurnKeepsScope(db: Db, w: Worker, answer: Option<Settlement>)
    ensures KeepsScope(db, Turn(db, w, answer).0)
  {
    match w
    case Reserving(call, invoice, ceiling, now) => ReserveKeepsScope(db, call, ceiling, now);
    case Booking(rsv, invoice, settlement) => FinalizeKeepsScope(db, rsv, Paid, invoice.amount + settlement.fee);
    case _ =>
  }

  lemma NextKeepsScope(sys: Sys, action: Action)
    ensures KeepsScope(sys.db, Next(sys, action).db)
  {
    if action.Advance? && action.worker < |sys.workers| {
      TurnKeepsScope(sys.db, sys.workers[action.worker], action.answer);
    }
  }

  lemma ScopeStays(db: Db, db': Db)
    requires AllInScope(db) && KeepsScope(db, db')
    ensures AllInScope(db')
  {
    forall i | 0 <= i < |db'.rsvs|
      ensures InScope(db'.auths, db'.rsvs[i])
    {
      if i < |db.rsvs| {
        assert InScope(db.auths, db.rsvs[i]);
        assert SameTerms(db.auths[db.rsvs[i].call.auth], db'.auths[db.rsvs[i].call.auth]);
      }
    }
  }

  /** Every reservation of every run is within the terms of its authorization. */
  lemma {:induction false} RunStaysInScope(actions: seq<Action>)
    ensures AllInScope(Exec(actions).db)
  {
    if actions != [] {
      var front, last := actions[..|actions| - 1], actions[|actions| - 1];
      RunStaysInScope(front);
      NextKeepsScope(Exec(front), last);
      ScopeStays(Exec(front).db, Exec(actions).db);
    }
  }

  lemma KeyIsBound(db: Db, i: nat, call: Call, ceiling: int, now: int)
    requires KeysUnique(db.rsvs) && i < |db.rsvs| && call.quoted > 0
    requires call.auth == db.rsvs[i].call.auth && call.key == db.rsvs[i].call.key
    ensures Reserve(db, call, ceiling, now) == Step(db, if call == db.rsvs[i].call then Ok(i) else Err(Conflict))
  {
    assert FindKey(db.rsvs, call.auth, call.key) == Some(i);
  }

  /** A key belongs for good to the call it was first reserved for: in every later state of a run
      that call gets its reservation back, and any other call under the key is refused, and
      neither changes anything. */
  lemma KeyBindsForever(before: seq<Action>, after: seq<Action>, i: nat, call: Call, ceiling: int, now: int)
    requires i < |Exec(before).db.rsvs| && call.quoted > 0
    requires call.auth == Exec(before).db.rsvs[i].call.auth && call.key == Exec(before).db.rsvs[i].call.key
    ensures var db := Exec(before + after).db;
            Reserve(db, call, ceiling, now) == Step(db, if call == Exec(before).db.rsvs[i].call then Ok(i) else Err(Conflict))
  {
    var db, db' := Exec(before).db, Exec(before + after).db;
    RunEvolves(before, after);
    RunInOrder(before + after);
    assert RowEvolves(db.rsvs[i], db'.rsvs[i]);
    KeyIsBound(db', i, call, ceiling, now);
  }

  /** And the call that reserves gets a reservation of its own details. */
  lemma ReservedForItsCall(db: Db, call: Call, ceiling: int, now: int)
    requires Reserve(db, call, ceiling, now).result.Ok?
    ensures var s := Reserve(db, call, ceiling, now);
            s.result.value < |s.db.rsvs| && s.db.rsvs[s.result.value].call == call
  {
  }

  // ---------------------------------------------------------------- authorizations

  /** An authorization's limits make sense. */
  ghost predicate Sensible(a: Authorization) {
    0 < a.maxPerCall <= a.maxTotal && 0 < a.maxCalls && 0 <= a.maxRouteFee
  }

  /** Creating succeeds exactly on sensible limits that have not run out, and stores them unused. */
  lemma CreateExactly(db: Db, maxTotal: int, maxPerCall: int, maxRouteFee: int, maxCalls: int,
                      agents: set<string>, specialties: set<string>, expiresAt: int, now: int)
    ensures var s := Create(db, maxTotal, maxPerCall, maxRouteFee, maxCalls, agents, specialties, expiresAt, now);
            var a := Authorization(maxTotal, maxPerCall, maxRouteFee, maxCalls, agents, specialties, expiresAt, Active, 0, 0, 0);
            && (s.result.Ok? <==> Sensible(a) && now < expiresAt)
            && (s.result.Err? ==> s.result.error == InvalidLimits && s.db == db)
            && (s.result.Ok? ==> s.result.value == |db.auths| && s.db == db.(auths := db.auths + [a]))
  {
  }

  ghost predicate AllSensible(db: Db) {
    forall a :: 0 <= a < |db.auths| ==> Sensible(db.auths[a])
  }

  lemma NextKeepsSensible(sys: Sys, action: Action)
    requires AllSensible(sys.db)
    ensures AllSensible(Next(sys, action).db)
  {
    NextKeepsScope(sys, action);
    forall a | 0 <= a < |Next(sys, action).db.auths|
      ensures Sensible(Next(sys, action).db.auths[a])
    {
      if a < |sys.db.auths| {
        assert SameTerms(sys.db.auths[a], Next(sys, action).db.auths[a]);
      }
    }
  }

  /** In every run every authorization has sensible limits. */
  lemma {:induction false} RunIsSensible(actions: seq<Action>)
    ensures AllSensible(Exec(actions).db)
  {
    if actions != [] {
      RunIsSensible(actions[..|actions| - 1]);
      NextKeepsSensible(Exec(actions[..|actions| - 1]), actions[|actions| - 1]);
    }
  }

  /** Revoking is for good: whatever runs afterwards, the authorization stays out of force and gets
      no new reservation, and a new call on it is refused. */
  lemma RevokedForever(before: seq<Action>, auth: nat, after: seq<Action>)
    requires auth < |Exec(before).db.auths|
    ensures var (db, db') := (Exec(before).db, Exec(before + [RevokeAuth(auth)] + after).db);
            && |db.rsvs| <= |db'.rsvs| && auth < |db'.auths| && db'.auths[auth].status != Active
            && (forall i :: |db.rsvs| <= i < |db'.rsvs| ==> db'.rsvs[i].call.auth != auth)
            && (forall i :: 0 <= i < |db.rsvs| ==> db'.rsvs[i].call == db.rsvs[i].call)
  {
    var at := before + [RevokeAuth(auth)];
    assert at[..|at| - 1] == before && Exec(at).db == Revoke(Exec(before).db, auth).db;
    RunEvolves(at, after);
    forall i | 0 <= i < |Exec(before).db.rsvs|
      ensures Exec(at + after).db.rsvs[i].call == Exec(before).db.rsvs[i].call
    {
      assert RowEvolves(Exec(at).db.rsvs[i], Exec(at + after).db.rsvs[i]);
    }
  }
}
