/** What every run of refund calls keeps, and the crashes and races that the attempt row does not
    cover. services/transaction/transaction-service-core.ts:232-431. */
module RefundRuns {
  import opened Sums
  import opened Refunds

  // ---------------------------------------------------------------- over every run

  /** Through any crashes and retries the processor refunds a key at most once, unless it carried
      a refund of that key out after it had said pending. */
  lemma RefundsAtMostOncePerKey(actions: seq<Action>, i: nat, j: nat)
    requires i < j < |Exec(actions).processed|
    ensures var sys := Exec(actions);
            && sys.processed[i] < |sys.db.attempts| && sys.processed[j] < |sys.db.attempts|
            && (sys.db.attempts[sys.processed[i]].key == sys.db.attempts[sys.processed[j]].key ==> sys.processed[i] in sys.pending)
  {
    RunInOrder(actions);
    var sys := Exec(actions);
    var a, b := sys.processed[i], sys.processed[j];
    if sys.db.attempts[a].key == sys.db.attempts[b].key {
      assert a == b;
    }
  }

  /** Recorded refunds never pass the payment, and REFUNDED means they are all of it. */
  lemma RecordedWithinPayment(actions: seq<Action>, p: nat)
    requires p < |Exec(actions).db.payments|
    ensures var db := Exec(actions).db;
            && Sum(db.refunds, RefundedOn(p)) <= db.payments[p].amount
            && (db.payments[p].status == Refunded ==> Sum(db.refunds, RefundedOn(p)) == db.payments[p].amount)
  {
    RunInOrder(actions);
    assert PaymentInOrder(Exec(actions).db, p);
  }

  /** Every recorded refund is one the processor carried out, under the same key, and of a payment
      that has its processor and its ledger reference. */
  lemma RecordedWasProcessed(actions: seq<Action>, i: nat)
    requires i < |Exec(actions).db.refunds|
    ensures var sys := Exec(actions);
            var r := sys.db.refunds[i];
            && WasProcessed(sys.db, sys.processed, r.key)
            && r.payment < |sys.db.payments| && sys.db.payments[r.payment].processorId.Some? && sys.db.payments[r.payment].ledgerId.Some?
  {
    RunInOrder(actions);
    assert RefundInOrder(Exec(actions).db, Exec(actions).processed, Exec(actions).db.refunds[i]);
  }

  // ---------------------------------------------------------------- whose money is refunded

  predicate HasCtx(w: Worker) {
    || w.Inserting? || w.Reading? || w.Retrying? || w.Calling? || w.MarkingSucceeded?
    || w.Reversing? || w.Recording? || w.Closing? || w.Settling?
  }

  ghost predicate OwnPayment(db: Db, org: string, p: nat) {
    org != "" && p < |db.payments| && db.payments[p].org == org
  }

  /** Every attempt and every refund row was asked for by the organization of its payment. */
  ghost predicate RowsOwned(db: Db) {
    && (forall a :: 0 <= a < |db.attempts| ==> OwnPayment(db, db.attempts[a].asker, db.attempts[a].payment))
    && (forall i :: 0 <= i < |db.refunds| ==> OwnPayment(db, db.refunds[i].asker, db.refunds[i].payment))
  }

  lemma WorkerOwns(sys: Sys)
    requires InOrder(sys) && HasCtx(sys.worker)
    ensures OwnPayment(sys.db, sys.worker.ctx.req.org, sys.worker.ctx.req.payment)
  {
  }

  lemma PaymentsKeepOrgs(db: Db, w: Worker, answer: Answer)
    ensures var db' := Turn(db, w, answer).0;
            |db'.payments| == |db.payments| && forall p :: 0 <= p < |db.payments| ==> db'.payments[p].org == db.payments[p].org
  {
  }

  lemma TurnKeepsRowsOwned(sys: Sys, answer: Answer)
    requires InOrder(sys) && RowsOwned(sys.db)
    ensures RowsOwned(Turn(sys.db, sys.worker, answer).0)
  {
    PaymentsKeepOrgs(sys.db, sys.worker, answer);
    if HasCtx(sys.worker) {
      WorkerOwns(sys);
    }
  }

  lemma {:induction false} RunOwned(actions: seq<Action>)
    ensures RowsOwned(Exec(actions).db)
  {
    if actions != [] {
      var front, last := actions[..|actions| - 1], actions[|actions| - 1];
      RunOwned(front);
      RunInOrder(front);
      if last.Advance? {
        TurnKeepsRowsOwned(Exec(front), last.answer);
      }
    }
  }

  /** No organization refunds another's payment: whenever the processor or the ledger is asked, in
      any run, it is for a payment of the organization that sent the request, and so is every
      attempt and every refund row. */
  lemma RowsBelongToTheirAskers(actions: seq<Action>)
    ensures var sys := Exec(actions);
            && (sys.worker.Calling? || sys.worker.Reversing? ==>
                  var req := sys.worker.ctx.req;
                  req.payment < |sys.db.payments| && sys.db.payments[req.payment].org == req.org)
            && (forall a :: 0 <= a < |sys.db.attempts| ==>
                  var row := sys.db.attempts[a];
                  row.payment < |sys.db.payments| && sys.db.payments[row.payment].org == row.asker)
            && (forall i :: 0 <= i < |sys.db.refunds| ==>
                  var row := sys.db.refunds[i];
                  row.payment < |sys.db.payments| && sys.db.payments[row.payment].org == row.asker)
  {
    RunOwned(actions);
    RunInOrder(actions);
    var sys := Exec(actions);
    assert forall a :: 0 <= a < |sys.db.attempts| ==> OwnPayment(sys.db, sys.db.attempts[a].asker, sys.db.attempts[a].payment);
    assert forall i :: 0 <= i < |sys.db.refunds| ==> OwnPayment(sys.db, sys.db.refunds[i].asker, sys.db.refunds[i].payment);
    if HasCtx(sys.worker) {
      WorkerOwns(sys);
    }
  }

  /** What a request must meet before anything is written, and what is known of it then. */
  ghost predicate Eligible(db: Db, req: Request) {
    && req.org != ""
    && (forall i :: 0 <= i < |db.refunds| ==> db.refunds[i].key != req.key)
    && req.payment < |db.payments|
    && var p := db.payments[req.payment];
       && p.org == req.org
       && p.status in {Succeeded, PartiallyRefunded}
       && p.processorId.Some? && p.ledgerId.Some?
       && Sum(db.refunds, RefundedOn(req.payment)) + (match req.amount case Some(a) => a case None => p.amount) <= p.amount
  }

  /** The checks of a call write nothing, and it passes them exactly if it is eligible. It returns
      at once exactly if an organization asks under a key that is recorded. */
  lemma {:induction false} ChecksExactly(sys: Sys, req: Request, answer: Answer)
    requires Idle(sys.worker)
    ensures var sys' := Drive(Next(sys, Refund(req)), answer, 3);
            var known := exists i :: 0 <= i < |sys.db.refunds| && sys.db.refunds[i].key == req.key;
            && sys' == sys.(worker := sys'.worker)
            && (sys'.worker.Inserting? <==> Eligible(sys.db, req))
            && (sys'.worker.Done? <==> req.org != "" && known)
            && (sys'.worker.Inserting? || sys'.worker.Done? || sys'.worker.Stopped?)
            && (sys'.worker.Inserting? ==>
                  var p := sys.db.payments[req.payment];
                  sys'.worker.ctx == Ctx(req, match req.amount case Some(a) => a case None => p.amount,
                                         p.amount, Sum(sys.db.refunds, RefundedOn(req.payment))))
  {
    var sys0 := Next(sys, Refund(req));
    DriveOne(sys0, answer, 0);
    DriveOne(sys0, answer, 1);
    DriveOne(sys0, answer, 2);
    assert Drive(sys0, answer, 1) == sys.(worker := Turn(sys.db, Looking(req), answer).1);
    assert Drive(sys0, answer, 2) == sys.(worker := Turn(sys.db, Drive(sys0, answer, 1).worker, answer).1);
  }

  // ---------------------------------------------------------------- a call that meets no trouble

  const YES := Answer(Yes, Yes)

  /** The request passes every check: its payment, its status, what is left of it, and its key's length. */
  ghost predicate Passes(db: Db, req: Request) {
    && req.org != "" && FindRefund(db.refunds, req.key).None? && |req.key| <= MAX_KEY
    && req.payment < |db.payments| && Refundable(db.payments[req.payment], req.org)
    && 0 < AmountOf(db, req) <= db.payments[req.payment].amount - Sum(db.refunds, RefundedOn(req.payment))
  }

  function CtxOf(db: Db, req: Request): Ctx
    requires req.payment < |db.payments|
  {
    Ctx(req, AmountOf(db, req), db.payments[req.payment].amount, Sum(db.refunds, RefundedOn(req.payment)))
  }

  /** The checks are three steps that only read. */
  lemma {:induction false} ChecksOnlyRead(sys: Sys, req: Request)
    requires Passes(sys.db, req)
    ensures Drive(sys.(worker := Looking(req)), YES, 3) == sys.(worker := Inserting(CtxOf(sys.db, req)))
  {
    var sys0 := sys.(worker := Looking(req));
    DriveOne(sys0, YES, 0);
    DriveOne(sys0, YES, 1);
    DriveOne(sys0, YES, 2);
    assert Drive(sys0, YES, 1) == sys.(worker := Checking(req));
    assert Drive(sys0, YES, 2) == sys.(worker := Summing(req, AmountOf(sys.db, req), sys.db.payments[req.payment].amount));
  }

  /** The steps from the ledger on: the reversal, the refund row, the attempt row. */
  lemma {:induction false} LedgerGoesThrough(sys: Sys, ctx: Ctx, attempt: nat)
    requires sys.worker == Reversing(ctx, attempt) && attempt < |sys.db.attempts|
    requires FindRefund(sys.db.refunds, ctx.req.key).None?
    ensures Drive(sys, YES, 3) ==
            sys.(db := SetAttempt(sys.db, attempt, LedgerSucceeded).(refunds := sys.db.refunds + [RefundRow(ctx.req.payment, ctx.req.org, ctx.req.key, ctx.amount)]),
                 worker := Settling(ctx), reversals := sys.reversals + [attempt])
  {
    DriveOne(sys, YES, 0);
    DriveOne(sys, YES, 1);
    DriveOne(sys, YES, 2);
    assert Drive(sys, YES, 1) == sys.(worker := Recording(ctx, attempt), reversals := sys.reversals + [attempt]);
    assert Drive(sys, YES, 2).worker == Closing(ctx, attempt);
  }

  /** From the insert of a new key to the processor's yes on the attempt row. */
  lemma {:induction false} NewKeyReachesLedger(sys: Sys, ctx: Ctx)
    requires sys.worker == Inserting(ctx) && Insertable(ctx) && FindAttempt(sys.db.attempts, ctx.req.key).None?
    ensures var (n, row) := (|sys.db.attempts|, Attempt(ctx.req.payment, ctx.req.org, ctx.req.key, ctx.amount, Processing));
            && Drive(sys, YES, 1) == sys.(db := sys.db.(attempts := sys.db.attempts + [row]), worker := Calling(ctx, n))
            && Drive(sys, YES, 3) == sys.(db := sys.db.(attempts := sys.db.attempts + [row.(status := ProcessorSucceeded)]),
                                          worker := Reversing(ctx, n), processed := sys.processed + [n])
  {
    var n, row := |sys.db.attempts|, Attempt(ctx.req.payment, ctx.req.org, ctx.req.key, ctx.amount, Processing);
    DriveOne(sys, YES, 0);
    DriveOne(sys, YES, 1);
    DriveOne(sys, YES, 2);
    assert Drive(sys, YES, 2) == sys.(db := sys.db.(attempts := sys.db.attempts + [row]), worker := MarkingSucceeded(ctx, n), processed := sys.processed + [n]);
  }

  /** One attempt, carried out and reversed once each, and its refund row. */
  function AfterRefund(sys: Sys, ctx: Ctx): Sys {
    var n := |sys.db.attempts|;
    sys.(db := sys.db.(attempts := sys.db.attempts + [Attempt(ctx.req.payment, ctx.req.org, ctx.req.key, ctx.amount, LedgerSucceeded)],
                       refunds := sys.db.refunds + [RefundRow(ctx.req.payment, ctx.req.org, ctx.req.key, ctx.amount)]),
         worker := Settling(ctx), processed := sys.processed + [n], reversals := sys.reversals + [n])
  }

  /** From the insert on, for a key that is new: one processor refund and one reversal. */
  lemma {:induction false} NewKeyGoesThrough(sys: Sys, ctx: Ctx)
    requires sys.worker == Inserting(ctx) && Insertable(ctx)
    requires FindAttempt(sys.db.attempts, ctx.req.key).None? && FindRefund(sys.db.refunds, ctx.req.key).None?
    ensures Drive(sys, YES, 6) == AfterRefund(sys, ctx)
  {
    NewKeyReachesLedger(sys, ctx);
    LedgerGoesThrough(Drive(sys, YES, 3), ctx, |sys.db.attempts|);
    DriveFurther(sys, YES, 3, 3);
  }

  predicate Idle(w: Worker) {
    w.Done? || w.Stopped?
  }

  /** A whole call under a new key: one refund by the processor, one reversal, one row each in
      attempts and refunds, and the payment's new status. */
  lemma {:induction false} UntroubledRefund(sys: Sys, req: Request)
    requires Idle(sys.worker) && Passes(sys.db, req) && FindAttempt(sys.db.attempts, req.key).None?
    ensures var (n, p, amount) := (|sys.db.attempts|, req.payment, AmountOf(sys.db, req));
            var whole := Sum(sys.db.refunds, RefundedOn(p)) + amount == sys.db.payments[p].amount;
            Drive(Next(sys, Refund(req)), YES, 10) ==
            Sys(Db(sys.db.payments[p := sys.db.payments[p].(status := if whole then Refunded else PartiallyRefunded)],
                   sys.db.attempts + [Attempt(p, req.org, req.key, amount, LedgerSucceeded)],
                   sys.db.refunds + [RefundRow(p, req.org, req.key, amount)]),
                Done(|sys.db.refunds|), sys.processed + [n], sys.reversals + [n], sys.pending)
  {
    var sys0, ctx := Next(sys, Refund(req)), CtxOf(sys.db, req);
    ChecksOnlyRead(sys, req);
    NewKeyGoesThrough(Drive(sys0, YES, 3), ctx);
    DriveFurther(sys0, YES, 3, 6);
    DriveOne(sys0, YES, 9);
    SettlesLast(Drive(sys0, YES, 9), ctx, sys.db.refunds);
  }

  lemma SettlesLast(sys: Sys, ctx: Ctx, before: seq<RefundRow>)
    requires sys.worker == Settling(ctx) && ctx.req.payment < |sys.db.payments|
    requires sys.db.refunds == before + [RefundRow(ctx.req.payment, ctx.req.org, ctx.req.key, ctx.amount)] && FindRefund(before, ctx.req.key).None?
    ensures var p := ctx.req.payment;
            Next(sys, Advance(YES)) ==
            sys.(db := sys.db.(payments := sys.db.payments[p := sys.db.payments[p].(
                         status := if ctx.already + ctx.amount == ctx.paid then Refunded else PartiallyRefunded)]),
                 worker := Done(|before|))
  {
    LastRefundFound(before, RefundRow(ctx.req.payment, ctx.req.org, ctx.req.key, ctx.amount));
  }

  lemma {:induction false} LastRefundFound(refunds: seq<RefundRow>, row: RefundRow)
    requires FindRefund(refunds, row.key).None?
    ensures FindRefund(refunds + [row], row.key) == Some(|refunds|)
  {
    assert (refunds + [row])[..|refunds|] == refunds;
  }

  /** A call that broke off before its refund row passes its checks again, and knows the same. */
  lemma PassesAgain(db: Db, ctx: Ctx)
    requires CtxInOrder(db, ctx, false) && Insertable(ctx)
    ensures Passes(db, ctx.req) && CtxOf(db, ctx.req) == ctx
  {
  }

  /** The retry of such a call, from its checks to what its attempt row allows. */
  lemma {:induction false} RetryReads(sys: Sys, ctx: Ctx, attempt: nat)
    requires TablesInOrder(sys.db, sys.processed, sys.pending) && Idle(sys.worker)
    requires CtxInOrder(sys.db, ctx, false) && Insertable(ctx)
    requires attempt < |sys.db.attempts| && sys.db.attempts[attempt].key == ctx.req.key
    ensures Drive(Next(sys, Refund(ctx.req)), YES, 5) == sys.(worker := AfterReading(sys.db, ctx))
    ensures FindAttempt(sys.db.attempts, ctx.req.key) == Some(attempt)
  {
    var sys0 := Next(sys, Refund(ctx.req));
    PassesAgain(sys.db, ctx);
    ChecksOnlyRead(sys, ctx.req);
    DriveOne(sys0, YES, 3);
    DriveOne(sys0, YES, 4);
    assert FindAttempt(sys.db.attempts, ctx.req.key) == Some(attempt);
    assert Drive(sys0, YES, 4) == sys.(worker := Reading(ctx));
  }

  // ---------------------------------------------------------------- a refund that stays pending

  /** The next call under the key of a failed attempt has the processor refund it. */
  lemma {:induction false} FailedIsRefunded(sys: Sys, ctx: Ctx, attempt: nat)
    requires TablesInOrder(sys.db, sys.processed, sys.pending) && Idle(sys.worker)
    requires CtxInOrder(sys.db, ctx, false) && Insertable(ctx) && AttemptIs(sys.db, ctx, attempt, AttemptFailed)
    ensures var sys' := Drive(Next(sys, Refund(ctx.req)), YES, 7);
            sys'.processed == sys.processed + [attempt] && sys'.pending == sys.pending
  {
    RetryReads(sys, ctx, attempt);
    var sys0 := Next(sys, Refund(ctx.req));
    DriveOne(sys0, YES, 5);
    DriveOne(sys0, YES, 6);
    assert Drive(sys0, YES, 6).worker == Calling(ctx, attempt);
  }

  /** Two steps that leave a failed attempt which the processor carried out. */
  lemma PendingFails(sys: Sys, ctx: Ctx, attempt: nat)
    requires InOrder(sys) && sys.worker == Calling(ctx, attempt)
    ensures var failed := Next(Next(sys, Advance(Answer(StillPending(true), Yes))), Advance(YES));
            && TablesInOrder(failed.db, failed.processed, failed.pending) && failed.worker.Stopped?
            && CtxInOrder(failed.db, ctx, false) && AttemptIs(failed.db, ctx, attempt, AttemptFailed)
            && failed.processed == sys.processed + [attempt] && attempt in failed.pending
  {
    var answer := Answer(StillPending(true), Yes);
    NextKeepsOrder(sys, Advance(answer));
    NextKeepsOrder(Next(sys, Advance(answer)), Advance(YES));
    CtxStays(sys.db, ctx, false, attempt, AttemptFailed);
  }

  /** Whenever the processor carries a refund out after it said pending, the key's next call finds a
      failed attempt and has the amount refunded again. */
  lemma PendingIsRefundedTwice(sys: Sys, ctx: Ctx, attempt: nat)
    requires InOrder(sys) && sys.worker == Calling(ctx, attempt)
    ensures var failed := Next(Next(sys, Advance(Answer(StillPending(true), Yes))), Advance(YES));
            var sys' := Drive(Next(failed, Refund(ctx.req)), YES, 7);
            sys'.processed == sys.processed + [attempt, attempt] && attempt in sys'.pending
  {
    PendingFails(sys, ctx, attempt);
    FailedIsRefunded(Next(Next(sys, Advance(Answer(StillPending(true), Yes))), Advance(YES)), ctx, attempt);
  }

  // ---------------------------------------------------------------- one reversal per attempt

  predicate Hidden(o: Outcome) {
    TakesEffect(o) && !o.Yes?
  }

  /** No reversal takes effect behind a lost answer, and no crash falls between a reversal and the
      refund row. */
  predicate QuietLedger(actions: seq<Action>) {
    actions == [] ||
    var (sys, last) := (Exec(actions[..|actions| - 1]), actions[|actions| - 1]);
    && QuietLedger(actions[..|actions| - 1])
    && (last.Advance? && sys.worker.Reversing? ==> !Hidden(last.answer.ledger))
    && (last.Crash? ==> !sys.worker.Recording?)
  }

  /** An attempt that was reversed has its refund row, or its call is about to write it. */
  ghost predicate ReversalsRecorded(sys: Sys) {
    && (forall a :: a in sys.reversals ==>
          && a < |sys.db.attempts|
          && (FindRefund(sys.db.refunds, sys.db.attempts[a].key).Some? || (sys.worker.Recording? && sys.worker.attempt == a)))
    && (forall i, j :: 0 <= i < j < |sys.reversals| ==> sys.reversals[i] != sys.reversals[j])
  }

  lemma RecordingKeepsReversals(sys: Sys, answer: Answer)
    requires InOrder(sys) && ReversalsRecorded(sys) && sys.worker.Recording?
    ensures ReversalsRecorded(Next(sys, Advance(answer)))
  {
    var ctx, sys' := sys.worker.ctx, Next(sys, Advance(answer));
    forall a | a in sys'.reversals
      ensures FindRefund(sys'.db.refunds, sys'.db.attempts[a].key).Some?
    {
      FindRefundAppend(sys.db.refunds, RefundRow(ctx.req.payment, ctx.req.org, ctx.req.key, ctx.amount), sys.db.attempts[a].key);
    }
  }

  lemma ReversingKeepsReversals(sys: Sys, answer: Answer)
    requires InOrder(sys) && ReversalsRecorded(sys) && sys.worker.Reversing? && !Hidden(answer.ledger)
    ensures ReversalsRecorded(Next(sys, Advance(answer)))
  {
    assert sys.worker.attempt !in sys.reversals;
  }

  lemma AdvanceKeepsReversals(sys: Sys, answer: Answer)
    requires InOrder(sys) && ReversalsRecorded(sys)
    requires sys.worker.Reversing? ==> !Hidden(answer.ledger)
    ensures ReversalsRecorded(Next(sys, Advance(answer)))
  {
    if sys.worker.Recording? {
      RecordingKeepsReversals(sys, answer);
    } else if sys.worker.Reversing? {
      ReversingKeepsReversals(sys, answer);
    } else {
      KeysStay(sys.db, sys.worker, answer);
    }
  }

  /** Attempts keep their keys, and refunds stay. */
  lemma KeysStay(db: Db, w: Worker, answer: Answer)
    ensures var db' := Turn(db, w, answer).0;
            && |db.attempts| <= |db'.attempts|
            && (forall a :: 0 <= a < |db.attempts| ==> db'.attempts[a].key == db.attempts[a].key)
            && (!w.Recording? ==> db'.refunds == db.refunds)
  {
  }

  /** The ledger reverses each attempt at most once in such a run. */
  lemma {:induction false} ReversedOnce(actions: seq<Action>)
    requires QuietLedger(actions)
    ensures ReversalsRecorded(Exec(actions))
  {
    if actions != [] {
      var front, last := actions[..|actions| - 1], actions[|actions| - 1];
      ReversedOnce(front);
      RunInOrder(front);
      if last.Advance? {
        AdvanceKeepsReversals(Exec(front), last.answer);
      }
    }
  }

  /** Otherwise the key's next call posts the reversal again. The tables hold an attempt that the
      processor carried out, and no refund under its key. */
  lemma {:induction false} RetryReversesAgain(sys: Sys, ctx: Ctx, attempt: nat)
    requires TablesInOrder(sys.db, sys.processed, sys.pending) && Idle(sys.worker)
    requires CtxInOrder(sys.db, ctx, false) && Insertable(ctx) && AttemptIs(sys.db, ctx, attempt, ProcessorSucceeded)
    ensures Drive(Next(sys, Refund(ctx.req)), YES, 6) == sys.(worker := Recording(ctx, attempt), reversals := sys.reversals + [attempt])
  {
    RetryReads(sys, ctx, attempt);
    DriveOne(Next(sys, Refund(ctx.req)), YES, 5);
  }

  /** First way: the ledger posted the reversal and its answer was lost. */
  lemma LostReversalIsRepeated(sys: Sys, ctx: Ctx, attempt: nat, lost: Outcome)
    requires InOrder(sys) && sys.worker == Reversing(ctx, attempt) && Hidden(lost)
    ensures var sys' := Drive(Next(Next(sys, Advance(Answer(Yes, lost))), Refund(ctx.req)), YES, 6);
            && sys'.reversals == sys.reversals + [attempt, attempt]
            && sys'.processed == sys.processed
  {
    var broken := Next(sys, Advance(Answer(Yes, lost)));
    assert broken == sys.(worker := Stopped, reversals := sys.reversals + [attempt]);
    RetryReversesAgain(broken, ctx, attempt);
  }

  /** Second way: the call ended between the ledger's answer and the refund row. */
  lemma CrashedRecordingRepeats(sys: Sys, ctx: Ctx, attempt: nat)
    requires InOrder(sys) && sys.worker == Reversing(ctx, attempt)
    ensures var sys' := Drive(Next(Next(Next(sys, Advance(YES)), Crash), Refund(ctx.req)), YES, 6);
            && sys'.reversals == sys.reversals + [attempt, attempt]
            && sys'.processed == sys.processed
  {
    var broken := Next(Next(sys, Advance(YES)), Crash);
    assert broken == sys.(worker := Stopped, reversals := sys.reversals + [attempt]);
    RetryReversesAgain(broken, ctx, attempt);
  }

  /** A crash after the refund row repeats nothing: the key's next call finds the row at once. */
  lemma CrashAtClosingIsHarmless(sys: Sys, ctx: Ctx, attempt: nat, answer: Answer)
    requires InOrder(sys) && sys.worker == Closing(ctx, attempt)
    ensures var sys' := Next(Next(Next(sys, Crash), Refund(ctx.req)), Advance(answer));
            && sys'.worker.Done? && sys'.db == sys.db
            && sys'.processed == sys.processed && sys'.reversals == sys.reversals
            && sys'.worker.refund < |sys.db.refunds| && sys.db.refunds[sys'.worker.refund].key == ctx.req.key
  {
  }

  // ---------------------------------------------------------------- what another call did in between

  /** A call that finds its key's attempt closed asks nobody: it returns the key's refund, if there
      is one, and starts again at the processor only if there is none. */
  lemma ClosedInBetween(sys: Sys, ctx: Ctx, attempt: nat, answer: Answer)
    requires sys.worker == Reading(ctx) && attempt < |sys.db.attempts|
    requires sys.db.attempts[attempt].key == ctx.req.key && sys.db.attempts[attempt].status == LedgerSucceeded
    requires forall a :: 0 <= a < |sys.db.attempts| && a != attempt ==> sys.db.attempts[a].key != ctx.req.key
    ensures var sys' := Next(sys, Advance(answer));
            && sys' == sys.(worker := sys'.worker)
            && (sys'.worker.Done? <==> exists i :: 0 <= i < |sys.db.refunds| && sys.db.refunds[i].key == ctx.req.key)
            && (sys'.worker.Done? ==> sys'.worker.refund < |sys.db.refunds| && sys.db.refunds[sys'.worker.refund].key == ctx.req.key)
            && (!sys'.worker.Done? ==> sys'.worker == Calling(ctx, attempt))
  {
    assert FindAttempt(sys.db.attempts, ctx.req.key) == Some(attempt);
  }

  /** A key that is recorded already is not recorded again. */
  lemma RecordedInBetween(sys: Sys, i: nat, answer: Answer)
    requires sys.worker.Recording? && i < |sys.db.refunds| && sys.db.refunds[i].key == sys.worker.ctx.req.key
    ensures Next(sys, Advance(answer)) == sys.(worker := Closing(sys.worker.ctx, sys.worker.attempt))
  {
  }

  // ---------------------------------------------------------------- a status that lags

  /** The call is between the refund row and the payment's status. */
  predicate Unsettled(w: Worker, p: nat) {
    (w.Closing? || w.Settling?) && w.ctx.req.payment == p
  }

  /** All of the payment is refunded, and its row does not say so. */
  ghost predicate Lagging(db: Db, p: nat) {
    p < |db.payments| && Sum(db.refunds, RefundedOn(p)) == db.payments[p].amount && db.payments[p].status != Refunded
  }

  /** No crash falls between a refund row and the payment's status. */
  predicate SettlesAll(actions: seq<Action>) {
    actions == [] ||
    var (sys, last) := (Exec(actions[..|actions| - 1]), actions[|actions| - 1]);
    && SettlesAll(actions[..|actions| - 1])
    && (last.Crash? ==> !sys.worker.Closing? && !sys.worker.Settling?)
  }

  ghost predicate OnlyUnsettledLag(sys: Sys) {
    forall p :: 0 <= p < |sys.db.payments| && !Unsettled(sys.worker, p) ==> !Lagging(sys.db, p)
  }

  lemma RecordingKeepsStatus(sys: Sys, answer: Answer)
    requires InOrder(sys) && OnlyUnsettledLag(sys) && sys.worker.Recording?
    ensures OnlyUnsettledLag(Next(sys, Advance(answer)))
  {
    var ctx, sys' := sys.worker.ctx, Next(sys, Advance(answer));
    forall p | 0 <= p < |sys'.db.payments| && !Unsettled(sys'.worker, p)
      ensures !Lagging(sys'.db, p)
    {
      Append(sys.db.refunds, RefundRow(ctx.req.payment, ctx.req.org, ctx.req.key, ctx.amount), RefundedOn(p));
      assert !Lagging(sys.db, p);
    }
  }

  lemma SettlingKeepsStatus(sys: Sys, answer: Answer)
    requires InOrder(sys) && OnlyUnsettledLag(sys) && sys.worker.Settling?
    ensures OnlyUnsettledLag(Next(sys, Advance(answer)))
  {
    var ctx, sys' := sys.worker.ctx, Next(sys, Advance(answer));
    SettleKeepsTables(sys.db, sys.processed, sys.pending, ctx, answer);
    forall p | 0 <= p < |sys'.db.payments|
      ensures !Lagging(sys'.db, p)
    {
      assert p != ctx.req.payment ==> !Lagging(sys.db, p);
    }
  }

  /** No other step writes a refund or a payment, or ends a call that is unsettled. */
  lemma OtherStepsWriteNeither(db: Db, w: Worker, answer: Answer)
    requires !w.Recording? && !w.Settling?
    ensures var (db', w') := Turn(db, w, answer);
            && db'.refunds == db.refunds && db'.payments == db.payments
            && (forall p :: Unsettled(w, p) ==> Unsettled(w', p))
  {
  }

  lemma AdvanceKeepsStatus(sys: Sys, answer: Answer)
    requires InOrder(sys) && OnlyUnsettledLag(sys)
    ensures OnlyUnsettledLag(Next(sys, Advance(answer)))
  {
    if sys.worker.Recording? {
      RecordingKeepsStatus(sys, answer);
    } else if sys.worker.Settling? {
      SettlingKeepsStatus(sys, answer);
    } else {
      OtherStepsWriteNeither(sys.db, sys.worker, answer);
      var sys' := Next(sys, Advance(answer));
      forall p | 0 <= p < |sys'.db.payments| && !Unsettled(sys'.worker, p)
        ensures !Lagging(sys'.db, p)
      {
        assert !Unsettled(sys.worker, p) && !Lagging(sys.db, p);
      }
    }
  }

  lemma PayKeepsStatus(sys: Sys, payment: Payment)
    requires InOrder(sys) && OnlyUnsettledLag(sys)
    ensures OnlyUnsettledLag(Next(sys, Pay(payment)))
  {
    var sys', n := Next(sys, Pay(payment)), |sys.db.payments|;
    if sys' != sys {
      forall i | 0 <= i < |sys.db.refunds|
        ensures sys.db.refunds[i].payment != n
      {
        assert RefundInOrder(sys.db, sys.processed, sys.db.refunds[i]);
      }
      Zero(sys.db.refunds, RefundedOn(n));
      forall p | 0 <= p < |sys'.db.payments| && !Unsettled(sys'.worker, p)
        ensures !Lagging(sys'.db, p)
      {
        if p < n {
          assert !Lagging(sys.db, p);
        }
      }
    }
  }

  /** Unless a crash fell there, and outside of the two steps themselves, a payment says REFUNDED
      exactly when its refunds add up to it. */
  lemma {:induction false} StatusIsRight(actions: seq<Action>, p: nat)
    requires SettlesAll(actions) && p < |Exec(actions).db.payments| && !Unsettled(Exec(actions).worker, p)
    ensures var db := Exec(actions).db;
            db.payments[p].status == Refunded <==> Sum(db.refunds, RefundedOn(p)) == db.payments[p].amount
  {
    StatusKept(actions);
    RecordedWithinPayment(actions, p);
    assert !Lagging(Exec(actions).db, p);
  }

  lemma {:induction false} StatusKept(actions: seq<Action>)
    requires SettlesAll(actions)
    ensures OnlyUnsettledLag(Exec(actions))
  {
    if actions != [] {
      var front, last := actions[..|actions| - 1], actions[|actions| - 1];
      StatusKept(front);
      RunInOrder(front);
      match last
      case Advance(answer) => AdvanceKeepsStatus(Exec(front), answer);
      case Pay(payment) => PayKeepsStatus(Exec(front), payment);
      case Crash => assert forall p :: !Unsettled(Exec(front).worker, p);
      case Refund(_) => assert forall p :: Idle(Exec(front).worker) ==> !Unsettled(Exec(front).worker, p);
    }
  }

  /** A crash there, on the last refund of a payment, leaves it lagging. */
  lemma StatusCanLag(sys: Sys, ctx: Ctx)
    requires InOrder(sys) && Unsettled(sys.worker, ctx.req.payment) && sys.worker.ctx == ctx
    ensures var sys' := Next(sys, Crash);
            Lagging(sys'.db, ctx.req.payment) <==> ctx.already + ctx.amount == ctx.paid
  {
  }

  /** The payment lags at this row, and no call is about to correct it. */
  ghost predicate Stuck(sys: Sys, p: nat, row: Payment) {
    Lagging(sys.db, p) && !Unsettled(sys.worker, p) && sys.db.payments[p] == row
  }

  lemma LagStays(sys: Sys, action: Action, p: nat, row: Payment)
    requires InOrder(sys) && Stuck(sys, p, row)
    ensures Stuck(Next(sys, action), p, row)
  {
    if action.Advance? && sys.worker.Recording? {
      LagStaysRecording(sys, action.answer, p, row);
    } else if action.Advance? && !sys.worker.Settling? {
      OtherStepsWriteNeither(sys.db, sys.worker, action.answer);
      LaggingIsNotClosed(sys, action.answer, p);
    }
  }

  lemma LagStaysRecording(sys: Sys, answer: Answer, p: nat, row: Payment)
    requires InOrder(sys) && Stuck(sys, p, row) && sys.worker.Recording?
    ensures Stuck(Next(sys, Advance(answer)), p, row)
  {
    var ctx := sys.worker.ctx;
    assert ctx.req.payment != p;
    Append(sys.db.refunds, RefundRow(ctx.req.payment, ctx.req.org, ctx.req.key, ctx.amount), RefundedOn(p));
  }

  lemma LaggingIsNotClosed(sys: Sys, answer: Answer, p: nat)
    requires !Unsettled(sys.worker, p) && !sys.worker.Recording?
    ensures !Unsettled(Next(sys, Advance(answer)).worker, p)
  {
  }

  lemma NextStuck(sys: Sys, action: Action, next: Sys, p: nat, row: Payment)
    requires InOrder(sys) && Stuck(sys, p, row) && next == Next(sys, action)
    ensures InOrder(next) && Stuck(next, p, row)
  {
    NextKeepsOrder(sys, action);
    LagStays(sys, action, p, row);
  }

  lemma {:induction false} GoStuck(sys: Sys, actions: seq<Action>, p: nat, row: Payment)
    requires InOrder(sys) && Stuck(sys, p, row)
    ensures InOrder(Go(sys, actions)) && Stuck(Go(sys, actions), p, row)
  {
    if actions == [] {
      GoOne(sys, [], Crash);
    } else {
      var front, last := actions[..|actions| - 1], actions[|actions| - 1];
      assert actions == front + [last];
      GoStuck(sys, front, p, row);
      GoOne(sys, front, last);
      NextStuck(Go(sys, front), last, Go(sys, actions), p, row);
    }
  }

  /** No later call ever corrects it. */
  lemma LagIsPermanent(actions: seq<Action>, more: seq<Action>, p: nat)
    requires Lagging(Exec(actions).db, p) && !Unsettled(Exec(actions).worker, p)
    ensures Stuck(Exec(actions + more), p, Exec(actions).db.payments[p])
  {
    RunInOrder(actions);
    GoStuck(Exec(actions), more, p, Exec(actions).db.payments[p]);
    GoIsExec(actions, more);
  }

  /** For every later request of an organization under a new key and for a positive amount is refused. */
  lemma {:induction false} LaggingRefuses(sys: Sys, req: Request, answer: Answer)
    requires InOrder(sys) && Lagging(sys.db, req.payment) && Idle(sys.worker)
    requires FindRefund(sys.db.refunds, req.key).None? && AmountOf(sys.db, req) > 0 && req.org != ""
    ensures Drive(Next(sys, Refund(req)), answer, 3) == sys.(worker := Stopped)
  {
    var sys0 := Next(sys, Refund(req));
    DriveOne(sys0, answer, 0);
    DriveOne(sys0, answer, 1);
    DriveOne(sys0, answer, 2);
    assert Drive(sys0, answer, 1) == sys.(worker := Checking(req));
  }

  // ---------------------------------------------------------------- two calls at once

  /** Two calls with keys of their own that have both read: what they record is both amounts. */
  lemma {:induction false} BothWrite(sys: Sys, c: Ctx, d: Ctx)
    requires c.req.payment == d.req.payment && c.req.key != d.req.key && Insertable(c) && Insertable(d)
    requires FindAttempt(sys.db.attempts, c.req.key).None? && FindRefund(sys.db.refunds, c.req.key).None?
    requires FindAttempt(sys.db.attempts, d.req.key).None? && FindRefund(sys.db.refunds, d.req.key).None?
    ensures var p := c.req.payment;
            var one := Drive(sys.(worker := Inserting(c)), YES, 6);
            var both := Drive(one.(worker := Inserting(d)), YES, 6);
            && Sum(both.db.refunds, RefundedOn(p)) == Sum(sys.db.refunds, RefundedOn(p)) + c.amount + d.amount
            && both.processed == sys.processed + [|sys.db.attempts|, |sys.db.attempts| + 1]
  {
    NewKeyGoesThrough(sys.(worker := Inserting(c)), c);
    var one := AfterRefund(sys.(worker := Inserting(c)), c);
    StillNew(sys, c, d);
    NewKeyGoesThrough(one.(worker := Inserting(d)), d);
    TwoMore(sys.db.refunds, c.req.payment, c, d);
  }

  /** A refund under one key leaves another key new. */
  lemma StillNew(sys: Sys, c: Ctx, d: Ctx)
    requires c.req.key != d.req.key && FindAttempt(sys.db.attempts, d.req.key).None? && FindRefund(sys.db.refunds, d.req.key).None?
    ensures var one := AfterRefund(sys.(worker := Inserting(c)), c);
            FindAttempt(one.db.attempts, d.req.key).None? && FindRefund(one.db.refunds, d.req.key).None?
  {
    FindRefundAppend(sys.db.refunds, RefundRow(c.req.payment, c.req.org, c.req.key, c.amount), d.req.key);
    FindAttemptAppend(sys.db.attempts, Attempt(c.req.payment, c.req.org, c.req.key, c.amount, LedgerSucceeded), d.req.key);
  }

  lemma {:induction false} FindAttemptAppend(attempts: seq<Attempt>, row: Attempt, key: string)
    requires FindAttempt(attempts, key).None? && row.key != key
    ensures FindAttempt(attempts + [row], key).None?
  {
    assert (attempts + [row])[..|attempts|] == attempts;
  }

  lemma TwoMore(refunds: seq<RefundRow>, p: nat, c: Ctx, d: Ctx)
    ensures Sum(refunds + [RefundRow(p, c.req.org, c.req.key, c.amount)] + [RefundRow(p, d.req.org, d.req.key, d.amount)], RefundedOn(p))
            == Sum(refunds, RefundedOn(p)) + c.amount + d.amount
  {
    Append(refunds, RefundRow(p, c.req.org, c.req.key, c.amount), RefundedOn(p));
    Append(refunds + [RefundRow(p, c.req.org, c.req.key, c.amount)], RefundRow(p, d.req.org, d.req.key, d.amount), RefundedOn(p));
  }

  /** Two calls that both read before either writes: each was within what was left, but what they
      record is both amounts, which passes the payment exactly when they do not fit together. */
  lemma {:induction false} ConcurrentRefundsAddUp(sys: Sys, first: Request, second: Request)
    requires Passes(sys.db, first) && Passes(sys.db, second)
    requires first.payment == second.payment && first.key != second.key
    requires FindAttempt(sys.db.attempts, first.key).None? && FindAttempt(sys.db.attempts, second.key).None?
    ensures var (p, a, b) := (first.payment, AmountOf(sys.db, first), AmountOf(sys.db, second));
            var one := Drive(sys.(worker := Inserting(CtxOf(sys.db, first))), YES, 6);
            var both := Drive(one.(worker := Inserting(CtxOf(sys.db, second))), YES, 6);
            && Drive(sys.(worker := Looking(first)), YES, 3) == sys.(worker := Inserting(CtxOf(sys.db, first)))
            && Drive(sys.(worker := Looking(second)), YES, 3) == sys.(worker := Inserting(CtxOf(sys.db, second)))
            && (Sum(both.db.refunds, RefundedOn(p)) > sys.db.payments[p].amount
                <==> a + b > sys.db.payments[p].amount - Sum(sys.db.refunds, RefundedOn(p)))
  {
    ChecksOnlyRead(sys, first);
    ChecksOnlyRead(sys, second);
    BothWrite(sys, CtxOf(sys.db, first), CtxOf(sys.db, second));
  }
}
