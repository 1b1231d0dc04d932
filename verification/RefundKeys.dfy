/** Whether a recorded refund is the refund that the processor carried out: the attempt row is found
    by its key alone. services/transaction/transaction-service-core.ts:283-407. */
module RefundKeys {
  import opened Refunds
  import opened RefundRuns

  /** A key names one request, as a retry repeats it. */
  ghost predicate OneRequestPerKey(requestOf: string -> Request, actions: seq<Action>) {
    forall i :: 0 <= i < |actions| && actions[i].Refund? ==> actions[i].req == requestOf(actions[i].req.key)
  }

  /** The payment and the amount are those of the request that the key names. */
  ghost predicate AsRequested(db: Db, q: Request, payment: nat, amount: int) {
    payment == q.payment && q.payment < |db.payments| && amount == AmountOf(db, q)
  }

  ghost predicate CtxAsRequested(requestOf: string -> Request, db: Db, ctx: Ctx) {
    ctx.req == requestOf(ctx.req.key) && AsRequested(db, ctx.req, ctx.req.payment, ctx.amount)
  }

  ghost predicate WorkerAsRequested(requestOf: string -> Request, db: Db, w: Worker) {
    match w
    case Looking(req) => req == requestOf(req.key)
    case Checking(req) => req == requestOf(req.key)
    case Summing(req, amount, _) => req == requestOf(req.key) && AsRequested(db, req, req.payment, amount)
    case Inserting(ctx) => CtxAsRequested(requestOf, db, ctx)
    case Reading(ctx) => CtxAsRequested(requestOf, db, ctx)
    case Retrying(ctx, _) => CtxAsRequested(requestOf, db, ctx)
    case Calling(ctx, _) => CtxAsRequested(requestOf, db, ctx)
    case MarkingSucceeded(ctx, _) => CtxAsRequested(requestOf, db, ctx)
    case Reversing(ctx, _) => CtxAsRequested(requestOf, db, ctx)
    case Recording(ctx, _) => CtxAsRequested(requestOf, db, ctx)
    case Closing(ctx, _) => CtxAsRequested(requestOf, db, ctx)
    case _ => true
  }

  ghost predicate RowsAsRequested(requestOf: string -> Request, db: Db) {
    && (forall a :: 0 <= a < |db.attempts| ==> AsRequested(db, requestOf(db.attempts[a].key), db.attempts[a].payment, db.attempts[a].amount))
    && (forall i :: 0 <= i < |db.refunds| ==> AsRequested(db, requestOf(db.refunds[i].key), db.refunds[i].payment, db.refunds[i].amount))
  }

  lemma ChecksKeepRequests(requestOf: string -> Request, db: Db, w: Worker, answer: Answer)
    requires RowsAsRequested(requestOf, db) && WorkerAsRequested(requestOf, db, w) && AtChecks(w)
    ensures RowsAsRequested(requestOf, Turn(db, w, answer).0)
    ensures WorkerAsRequested(requestOf, Turn(db, w, answer).0, Turn(db, w, answer).1)
  {
  }

  lemma LaterKeepsRequests(requestOf: string -> Request, db: Db, w: Worker, answer: Answer)
    requires RowsAsRequested(requestOf, db) && WorkerAsRequested(requestOf, db, w) && !AtChecks(w)
    ensures RowsAsRequested(requestOf, Turn(db, w, answer).0)
    ensures WorkerAsRequested(requestOf, Turn(db, w, answer).0, Turn(db, w, answer).1)
  {
  }

  lemma TurnKeepsRequests(requestOf: string -> Request, db: Db, w: Worker, answer: Answer)
    requires RowsAsRequested(requestOf, db) && WorkerAsRequested(requestOf, db, w)
    ensures RowsAsRequested(requestOf, Turn(db, w, answer).0)
    ensures WorkerAsRequested(requestOf, Turn(db, w, answer).0, Turn(db, w, answer).1)
  {
    if AtChecks(w) {
      ChecksKeepRequests(requestOf, db, w, answer);
    } else {
      LaterKeepsRequests(requestOf, db, w, answer);
    }
  }

  lemma {:induction false} RunAsRequested(requestOf: string -> Request, actions: seq<Action>)
    requires OneRequestPerKey(requestOf, actions)
    ensures RowsAsRequested(requestOf, Exec(actions).db) && WorkerAsRequested(requestOf, Exec(actions).db, Exec(actions).worker)
  {
    if actions != [] {
      var front, last := actions[..|actions| - 1], actions[|actions| - 1];
      RunAsRequested(requestOf, front);
      if last.Advance? {
        TurnKeepsRequests(requestOf, Exec(front).db, Exec(front).worker, last.answer);
      }
    }
  }

  /** If every key is used for one request, each recorded refund is the very one the processor
      carried out: same key, same payment, same amount. */
  lemma RecordedMatchesProcessed(requestOf: string -> Request, actions: seq<Action>, i: nat)
    requires OneRequestPerKey(requestOf, actions) && i < |Exec(actions).db.refunds|
    ensures var sys := Exec(actions);
            exists a :: 0 <= a < |sys.db.attempts| && a in sys.processed
                        && sys.db.attempts[a].key == sys.db.refunds[i].key
                        && sys.db.attempts[a].payment == sys.db.refunds[i].payment
                        && sys.db.attempts[a].amount == sys.db.refunds[i].amount
  {
    RunAsRequested(requestOf, actions);
    RecordedWasProcessed(actions, i);
    var sys := Exec(actions);
    var r := sys.db.refunds[i];
    var a :| 0 <= a < |sys.db.attempts| && sys.db.attempts[a].key == r.key && a in sys.processed;
    assert AsRequested(sys.db, requestOf(r.key), sys.db.attempts[a].payment, sys.db.attempts[a].amount);
  }

  lemma RecordsNext(sys: Sys, ctx: Ctx, attempt: nat)
    requires sys.worker == Recording(ctx, attempt) && FindRefund(sys.db.refunds, ctx.req.key).None?
    ensures Next(sys, Advance(YES)) ==
            sys.(db := sys.db.(refunds := sys.db.refunds + [RefundRow(ctx.req.payment, ctx.req.org, ctx.req.key, ctx.amount)]), worker := Closing(ctx, attempt))
  {
  }

  /** The recorded refund is of no attempt's payment and amount under its key. */
  ghost predicate Misrecorded(db: Db, i: nat)
    requires i < |db.refunds|
  {
    forall a :: 0 <= a < |db.attempts| && db.attempts[a].key == db.refunds[i].key ==>
      db.attempts[a].payment != db.refunds[i].payment || db.attempts[a].amount != db.refunds[i].amount
  }

  lemma MisrecordedExactly(db: Db, row: RefundRow, attempt: nat)
    requires forall i, j :: 0 <= i < j < |db.attempts| ==> db.attempts[i].key != db.attempts[j].key
    requires attempt < |db.attempts| && db.attempts[attempt].key == row.key
    ensures Misrecorded(db.(refunds := db.refunds + [row]), |db.refunds|)
            <==> db.attempts[attempt].payment != row.payment || db.attempts[attempt].amount != row.amount
  {
  }

  /** A key whose attempt the processor has carried out records what the next request asks, and has
      nothing refunded for it. */
  lemma {:induction false} CarriedOutKeyRecords(sys: Sys, req: Request, attempt: nat)
    requires TablesInOrder(sys.db, sys.processed, sys.pending) && Idle(sys.worker) && Passes(sys.db, req)
    requires attempt < |sys.db.attempts| && sys.db.attempts[attempt].key == req.key
    requires sys.db.attempts[attempt].status == ProcessorSucceeded
    ensures Drive(Next(sys, Refund(req)), YES, 7)
            == sys.(db := sys.db.(refunds := sys.db.refunds + [RefundRow(req.payment, req.org, req.key, AmountOf(sys.db, req))]),
                    worker := Closing(CtxOf(sys.db, req), attempt), reversals := sys.reversals + [attempt])
  {
    var sys0, ctx := Next(sys, Refund(req)), CtxOf(sys.db, req);
    RetryReversesAgain(sys, ctx, attempt);
    RecordsNext(Drive(sys0, YES, 6), ctx, attempt);
    DriveOne(sys0, YES, 6);
  }

  /** Otherwise not: an attempt that the processor carried out for one request is taken for a later
      one of the same key, which is recorded as asked. The record is wrong exactly when the payment
      or the amount differs. */
  lemma ReusedKeyRecordsAnother(sys: Sys, req: Request, attempt: nat)
    requires TablesInOrder(sys.db, sys.processed, sys.pending) && Idle(sys.worker) && Passes(sys.db, req)
    requires attempt < |sys.db.attempts| && sys.db.attempts[attempt].key == req.key
    requires sys.db.attempts[attempt].status == ProcessorSucceeded
    ensures var sys' := Drive(Next(sys, Refund(req)), YES, 7);
            && sys'.db.refunds == sys.db.refunds + [RefundRow(req.payment, req.org, req.key, AmountOf(sys.db, req))]
            && sys'.processed == sys.processed && sys'.db.attempts == sys.db.attempts
            && (Misrecorded(sys'.db, |sys.db.refunds|) <==>
                  sys.db.attempts[attempt].payment != req.payment || sys.db.attempts[attempt].amount != AmountOf(sys.db, req))
  {
    CarriedOutKeyRecords(sys, req, attempt);
    MisrecordedExactly(sys.db, RefundRow(req.payment, req.org, req.key, AmountOf(sys.db, req)), attempt);
  }
}
