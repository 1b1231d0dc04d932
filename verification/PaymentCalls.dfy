/** One createPayment call from its beginning to its end, for every way its charge, its ledger post
    and its last write can go; and what a payment row says of the request it was made for.
    services/transaction/transaction-service-core.ts:78-230. */
module PaymentCalls {
  import opened Steps
  import opened Payments

  // ---------------------------------------------------------------- a whole call, nobody else moving

  /** The given number of steps of one call. */
  function Walk(sys: Sys, k: nat, answer: Answer, steps: nat): Sys {
    Repeat((s: Sys) => Next(s, Advance(k, answer)), sys, steps)
  }

  lemma WalkOne(sys: Sys, k: nat, answer: Answer, steps: nat)
    ensures Walk(sys, k, answer, 0) == sys
    ensures Walk(sys, k, answer, steps + 1) == Next(Walk(sys, k, answer, steps), Advance(k, answer))
  {
  }

  /** The state with one call more, standing at w, over given tables. */
  function Leaves(sys: Sys, db: Db, w: Worker, charges: seq<nat>, taken: set<nat>): Sys {
    Sys(db, sys.workers + [w], charges, taken)
  }

  lemma OneMore(sys: Sys, request: Request, answer: Answer, steps: nat, db: Db, w: Worker, charges: seq<nat>, taken: set<nat>)
    requires Walk(Next(sys, Create(request)), |sys.workers|, answer, steps) == Leaves(sys, db, w, charges, taken)
    ensures Walk(Next(sys, Create(request)), |sys.workers|, answer, steps + 1)
            == Leaves(sys, Turn(db, w, answer).0, Turn(db, w, answer).1,
                      if w.Charging? then charges + [w.id] else charges,
                      if w.Charging? && TakesMoney(answer.charge) then taken + {w.id} else taken)
  {
    WalkOne(Next(sys, Create(request)), |sys.workers|, answer, steps);
    var w' := Turn(db, w, answer).1;
    assert (sys.workers + [w])[|sys.workers| := w'] == sys.workers + [w'];
  }

  lemma Starts(sys: Sys, request: Request, answer: Answer)
    ensures Walk(Next(sys, Create(request)), |sys.workers|, answer, 0) == Leaves(sys, sys.db, Looking(request), sys.charges, sys.taken)
  {
    WalkOne(Next(sys, Create(request)), |sys.workers|, answer, 0);
  }

  ghost predicate Unused(db: Db, key: string) {
    forall i :: 0 <= i < |db.payments| ==> db.payments[i].key != key
  }

  /** A used key is answered with its payment, whatever else the request says, and nothing is done. */
  lemma UsedKeyReturns(sys: Sys, request: Request, id: nat, answer: Answer)
    requires KeysUnique(sys.db.payments) && id < |sys.db.payments| && sys.db.payments[id].key == request.key
    ensures Walk(Next(sys, Create(request)), |sys.workers|, answer, 1)
            == Leaves(sys, sys.db, Returned(request.key, id, false), sys.charges, sys.taken)
  {
    Starts(sys, request, answer);
    OneMore(sys, request, answer, 0, sys.db, Looking(request), sys.charges, sys.taken);
    assert FindKey(sys.db.payments, request.key) == Some(id);
  }

  /** A request that no row can take ends in an exception, and nothing is done. */
  lemma UnstorableIsRefused(sys: Sys, request: Request, answer: Answer)
    requires Unused(sys.db, request.key) && (request.amount <= 0 || |request.key| > MAX_KEY)
    ensures Walk(Next(sys, Create(request)), |sys.workers|, answer, 2) == Leaves(sys, sys.db, Stopped, sys.charges, sys.taken)
  {
    Starts(sys, request, answer);
    OneMore(sys, request, answer, 0, sys.db, Looking(request), sys.charges, sys.taken);
    OneMore(sys, request, answer, 1, sys.db, Inserting(request), sys.charges, sys.taken);
  }

  /** The tables with one payment more. */
  function Having(db: Db, row: Payment): Db {
    db.(payments := db.payments + [row])
  }

  lemma Rewrites(db: Db, row: Payment, row': Payment)
    ensures SetRow(Having(db, row), |db.payments|, row') == Having(db, row')
  {
    assert (db.payments + [row])[|db.payments| := row'] == db.payments + [row'];
  }

  /** Four steps in, the processor has been asked once, for the new payment, and has answered. */
  lemma AsksOnce(sys: Sys, request: Request, answer: Answer)
    requires Unused(sys.db, request.key) && 0 < request.amount && |request.key| <= MAX_KEY
    ensures var (n, row) := (|sys.db.payments|, Payment(request.key, request.amount, Pending, None, None));
            Walk(Next(sys, Create(request)), |sys.workers|, answer, 3)
            == Leaves(sys, Having(sys.db, row), Deciding(n, answer.charge), sys.charges + [n],
                      if TakesMoney(answer.charge) then sys.taken + {n} else sys.taken)
  {
    var (n, row) := (|sys.db.payments|, Payment(request.key, request.amount, Pending, None, None));
    assert FindKey(sys.db.payments, request.key).None?;
    Starts(sys, request, answer);
    OneMore(sys, request, answer, 0, sys.db, Looking(request), sys.charges, sys.taken);
    OneMore(sys, request, answer, 1, sys.db, Inserting(request), sys.charges, sys.taken);
    OneMore(sys, request, answer, 2, Having(sys.db, row), Charging(n), sys.charges, sys.taken);
  }

  /** The processor's reference that an answer carries. */
  function ReferenceIn(charge: Charge): Option<string> {
    if charge.NoAnswer? then None else charge.processorId
  }

  /** Any answer but an acceptance leaves one failed payment, with the processor's reference if there
      is one, and nothing to post. */
  lemma RefusedChargeFails(sys: Sys, request: Request, answer: Answer)
    requires Unused(sys.db, request.key) && 0 < request.amount && |request.key| <= MAX_KEY && !answer.charge.Accepted?
    ensures var n := |sys.db.payments|;
            Walk(Next(sys, Create(request)), |sys.workers|, answer, 5)
            == Leaves(sys, Having(sys.db, Payment(request.key, request.amount, Failed, ReferenceIn(answer.charge), None)),
                      Returned(request.key, n, true), sys.charges + [n],
                      if TakesMoney(answer.charge) then sys.taken + {n} else sys.taken)
  {
    var (n, row) := (|sys.db.payments|, Payment(request.key, request.amount, Pending, None, None));
    var (charges, taken) := (sys.charges + [n], if TakesMoney(answer.charge) then sys.taken + {n} else sys.taken);
    AsksOnce(sys, request, answer);
    OneMore(sys, request, answer, 3, Having(sys.db, row), Deciding(n, answer.charge), charges, taken);
    Rewrites(sys.db, row, row.(status := Failed, processorId := ReferenceIn(answer.charge)));
    OneMore(sys, request, answer, 4, Having(sys.db, row), MarkingFailed(n, ReferenceIn(answer.charge)), charges, taken);
  }

  /** The ledger's id as the row gets to know it. */
  function LinkIn(answer: Answer): Option<string> {
    if answer.linkWritten then answer.ledgerId else None
  }

  /** Five steps in, an accepted charge is on the row. */
  lemma AcceptedIsMarked(sys: Sys, request: Request, answer: Answer)
    requires Unused(sys.db, request.key) && 0 < request.amount && |request.key| <= MAX_KEY && answer.charge.Accepted?
    ensures var n := |sys.db.payments|;
            Walk(Next(sys, Create(request)), |sys.workers|, answer, 5)
            == Leaves(sys, Having(sys.db, Payment(request.key, request.amount, Succeeded, answer.charge.processorId, None)),
                      Posting(n), sys.charges + [n], sys.taken + {n})
  {
    var (n, row) := (|sys.db.payments|, Payment(request.key, request.amount, Pending, None, None));
    AsksOnce(sys, request, answer);
    OneMore(sys, request, answer, 3, Having(sys.db, row), Deciding(n, answer.charge), sys.charges + [n], sys.taken + {n});
    Rewrites(sys.db, row, row.(status := Succeeded, processorId := answer.charge.processorId));
    OneMore(sys, request, answer, 4, Having(sys.db, row), MarkingPaid(n, answer.charge.processorId), sys.charges + [n], sys.taken + {n});
  }

  /** An acceptance leaves one succeeded payment with the processor's reference, taken once; it is
      linked to its ledger transaction if that was posted and the link written, and is queued to be
      posted otherwise, never both. */
  lemma AcceptedChargeSucceeds(sys: Sys, request: Request, answer: Answer)
    requires Unused(sys.db, request.key) && 0 < request.amount && |request.key| <= MAX_KEY && answer.charge.Accepted?
    ensures var n := |sys.db.payments|;
            var db := Having(sys.db, Payment(request.key, request.amount, Succeeded, answer.charge.processorId, LinkIn(answer)));
            Walk(Next(sys, Create(request)), |sys.workers|, answer, if answer.ledgerId.Some? && !answer.linkWritten then 8 else 7)
            == Leaves(sys, if LinkIn(answer).Some? then db else db.(unposted := sys.db.unposted + [n]),
                      Returned(request.key, n, true), sys.charges + [n], sys.taken + {n})
  {
    var n, row := |sys.db.payments|, Payment(request.key, request.amount, Succeeded, answer.charge.processorId, None);
    var (charges, taken) := (sys.charges + [n], sys.taken + {n});
    AcceptedIsMarked(sys, request, answer);
    OneMore(sys, request, answer, 5, Having(sys.db, row), Posting(n), charges, taken);
    if answer.ledgerId.Some? {
      Rewrites(sys.db, row, row.(ledgerId := answer.ledgerId));
      OneMore(sys, request, answer, 6, Having(sys.db, row), Linking(n, answer.ledgerId.value), charges, taken);
      if !answer.linkWritten {
        OneMore(sys, request, answer, 7, Having(sys.db, row), Enqueuing(n), charges, taken);
      }
    } else {
      OneMore(sys, request, answer, 6, Having(sys.db, row), Enqueuing(n), charges, taken);
    }
  }

  // ---------------------------------------------------------------- over every run

  /** A request that loses the race for its key finds the winner's payment and returns it. */
  lemma LoserReturnsTheWinners(actions: seq<Action>, k: nat, answer: Answer)
    requires k < |Exec(actions).workers| && Exec(actions).workers[k].Inserting? && Insertable(Exec(actions).workers[k].request)
    requires !Unused(Exec(actions).db, Exec(actions).workers[k].request.key)
    ensures var (sys, key) := (Exec(actions), Exec(actions).workers[k].request.key);
            var sys' := Next(Next(sys, Advance(k, answer)), Advance(k, answer));
            && sys'.db == sys.db && sys'.charges == sys.charges
            && sys'.workers[k].Returned? && !sys'.workers[k].own
            && sys'.workers[k].id < |sys.db.payments| && sys.db.payments[sys'.workers[k].id].key == key
  {
  }

  ghost predicate Sent(actions: seq<Action>, request: Request) {
    exists i :: 0 <= i < |actions| && actions[i] == Create(request)
  }

  /** Every request a worker holds was sent, and every row was made for one that was. */
  ghost predicate AllSent(actions: seq<Action>, sys: Sys) {
    && (forall k :: 0 <= k < |sys.workers| ==>
          var w := sys.workers[k];
          w.Looking? || w.Inserting? || w.Rereading? ==> Sent(actions, w.request))
    && (forall id :: 0 <= id < |sys.db.payments| ==> Sent(actions, Request(sys.db.payments[id].key, sys.db.payments[id].amount)))
  }

  lemma SentStays(front: seq<Action>, last: Action, request: Request)
    requires Sent(front, request) || last == Create(request)
    ensures Sent(front + [last], request)
  {
    if Sent(front, request) {
      var i :| 0 <= i < |front| && front[i] == Create(request);
      assert (front + [last])[i] == Create(request);
    } else {
      assert (front + [last])[|front|] == Create(request);
    }
  }

  lemma AllSentStays(front: seq<Action>, last: Action, sys: Sys)
    requires AllSent(front, sys)
    ensures AllSent(front + [last], sys)
  {
    forall request | Sent(front, request)
      ensures Sent(front + [last], request)
    {
      SentStays(front, last, request);
    }
  }

  /** A step stores the request of its worker or none. */
  lemma TurnStores(db: Db, w: Worker, answer: Answer)
    requires WorkerInOrder(db, w)
    ensures var (db', w') := Turn(db, w, answer);
            && |db.payments| <= |db'.payments|
            && (forall id :: 0 <= id < |db.payments| ==>
                  db'.payments[id].key == db.payments[id].key && db'.payments[id].amount == db.payments[id].amount)
            && (forall id :: |db.payments| <= id < |db'.payments| ==>
                  w.Inserting? && Request(db'.payments[id].key, db'.payments[id].amount) == w.request)
            && (w'.Looking? || w'.Inserting? || w'.Rereading? ==> (w.Looking? || w.Inserting? || w.Rereading?) && w'.request == w.request)
  {
  }

  lemma NextKeepsSent(front: seq<Action>, last: Action, sys: Sys)
    requires InOrder(sys) && AllSent(front, sys)
    ensures AllSent(front + [last], Next(sys, last))
  {
    AllSentStays(front, last, sys);
    match last
    case Create(request) => SentStays(front, last, request);
    case Crash(_) =>
    case Advance(worker, answer) =>
      if worker < |sys.workers| {
        TurnStores(sys.db, sys.workers[worker], answer);
      }
  }

  lemma {:induction false} RunSent(actions: seq<Action>)
    ensures AllSent(actions, Exec(actions))
  {
    if actions != [] {
      var front, last := actions[..|actions| - 1], actions[|actions| - 1];
      RunSent(front);
      RunInOrder(front);
      NextKeepsSent(front, last, Exec(front));
      assert actions == front + [last];
    }
  }

  /** In every run every payment is for the key and the amount of one request that was sent. */
  lemma PaymentsAreAsSent(actions: seq<Action>, id: nat)
    requires id < |Exec(actions).db.payments|
    ensures exists i :: 0 <= i < |actions| && actions[i].Create?
                        && actions[i].request.key == Exec(actions).db.payments[id].key
                        && actions[i].request.amount == Exec(actions).db.payments[id].amount
  {
    RunSent(actions);
    var row := Exec(actions).db.payments[id];
    assert Sent(actions, Request(row.key, row.amount));
    var i :| 0 <= i < |actions| && actions[i] == Create(Request(row.key, row.amount));
  }
}
