/** What the processor has refunded on a payment, against what is recorded and what was paid.
    services/transaction/transaction-service-core.ts:267-407. */
module RefundMoney {
  import opened Sums
  import opened Refunds
  import opened RefundRuns
  import opened RefundKeys

  function AmountOn(attempts: seq<Attempt>, p: nat): nat -> int {
    (a: nat) => if a < |attempts| && attempts[a].payment == p then attempts[a].amount else 0
  }

  /** What the processor has refunded on a payment. */
  function CarriedOut(sys: Sys, p: nat): int {
    Sum(sys.processed, AmountOn(sys.db.attempts, p))
  }

  predicate Recorded(db: Db, a: nat) {
    a < |db.attempts| && FindRefund(db.refunds, db.attempts[a].key).Some?
  }

  /** What it has refunded without a refund row: attempts whose key has none, and repetitions. */
  function Unrecorded(db: Db, processed: seq<nat>, p: nat): int {
    if processed == [] then 0
    else
      var front, a := processed[..|processed| - 1], processed[|processed| - 1];
      Unrecorded(db, front, p) + if Recorded(db, a) && a !in front then 0 else AmountOn(db.attempts, p)(a)
  }

  // ---------------------------------------------------------------- recorded and unrecorded

  /** The processor's total is the recorded total and the unrecorded one. */
  ghost predicate Accounts(sys: Sys) {
    forall p: nat :: CarriedOut(sys, p) == Sum(sys.db.refunds, RefundedOn(p)) + Unrecorded(sys.db, sys.processed, p)
  }

  /** Rows are only added, and no row changes but in its status. */
  ghost predicate TermsStay(attempts: seq<Attempt>, attempts': seq<Attempt>) {
    && |attempts| <= |attempts'|
    && forall a :: 0 <= a < |attempts| ==>
         attempts'[a].payment == attempts[a].payment && attempts'[a].key == attempts[a].key && attempts'[a].amount == attempts[a].amount
  }

  lemma TurnKeepsTerms(db: Db, w: Worker, answer: Answer)
    ensures TermsStay(db.attempts, Turn(db, w, answer).0.attempts)
  {
  }

  lemma {:induction false} SameTotals(db: Db, db': Db, processed: seq<nat>, p: nat)
    requires TermsStay(db.attempts, db'.attempts) && db'.refunds == db.refunds
    requires forall i :: 0 <= i < |processed| ==> processed[i] < |db.attempts|
    ensures Sum(processed, AmountOn(db'.attempts, p)) == Sum(processed, AmountOn(db.attempts, p))
    ensures Unrecorded(db', processed, p) == Unrecorded(db, processed, p)
  {
    if processed != [] {
      SameTotals(db, db', processed[..|processed| - 1], p);
    }
  }

  /** Recording an attempt takes its first carrying out from the unrecorded. */
  lemma {:induction false} RecordingCounts(db: Db, processed: seq<nat>, row: RefundRow, a: nat, p: nat)
    requires a < |db.attempts| && db.attempts[a].key == row.key && !Recorded(db, a)
    requires forall i, j :: 0 <= i < j < |db.attempts| ==> db.attempts[i].key != db.attempts[j].key
    ensures Unrecorded(db.(refunds := db.refunds + [row]), processed, p)
            == Unrecorded(db, processed, p) - if a in processed then AmountOn(db.attempts, p)(a) else 0
  {
    if processed != [] {
      var front, last := processed[..|processed| - 1], processed[|processed| - 1];
      RecordingCounts(db, front, row, a, p);
      if last < |db.attempts| {
        FindRefundAppend(db.refunds, row, db.attempts[last].key);
      }
      assert Recorded(db.(refunds := db.refunds + [row]), last) <==> Recorded(db, last) || last == a;
      assert processed == front + [last];
      assert a in processed <==> a in front || a == last;
    }
  }

  lemma RecordingKeepsAccounts(requestOf: string -> Request, sys: Sys, answer: Answer)
    requires InOrder(sys) && Accounts(sys) && sys.worker.Recording?
    requires RowsAsRequested(requestOf, sys.db) && WorkerAsRequested(requestOf, sys.db, sys.worker)
    ensures Accounts(Next(sys, Advance(answer)))
  {
    var db, ctx, attempt := sys.db, sys.worker.ctx, sys.worker.attempt;
    var row := RefundRow(ctx.req.payment, ctx.req.org, ctx.req.key, ctx.amount);
    assert AttemptInOrder(db, sys.processed, sys.pending, attempt);
    forall p: nat
      ensures CarriedOut(Next(sys, Advance(answer)), p) == Sum(db.refunds + [row], RefundedOn(p)) + Unrecorded(db.(refunds := db.refunds + [row]), sys.processed, p)
    {
      assert CarriedOut(sys, p) == Sum(db.refunds, RefundedOn(p)) + Unrecorded(db, sys.processed, p);
      RecordingCounts(db, sys.processed, row, attempt, p);
      Append(db.refunds, row, RefundedOn(p));
    }
  }

  lemma OneMoreUnrecorded(db: Db, processed: seq<nat>, a: nat, p: nat)
    requires !Recorded(db, a)
    ensures Unrecorded(db, processed + [a], p) == Unrecorded(db, processed, p) + AmountOn(db.attempts, p)(a)
    ensures Sum(processed + [a], AmountOn(db.attempts, p)) == Sum(processed, AmountOn(db.attempts, p)) + AmountOn(db.attempts, p)(a)
  {
    assert (processed + [a])[..|processed|] == processed;
    Append(processed, a, AmountOn(db.attempts, p));
  }

  lemma CallingKeepsAccounts(sys: Sys, answer: Answer)
    requires InOrder(sys) && Accounts(sys) && sys.worker.Calling?
    ensures Accounts(Next(sys, Advance(answer)))
  {
    var a := sys.worker.attempt;
    if TakesEffect(answer.processor) {
      forall p: nat
        ensures Sum(sys.processed + [a], AmountOn(sys.db.attempts, p))
                == Sum(sys.db.refunds, RefundedOn(p)) + Unrecorded(sys.db, sys.processed + [a], p)
      {
        assert CarriedOut(sys, p) == Sum(sys.db.refunds, RefundedOn(p)) + Unrecorded(sys.db, sys.processed, p);
        OneMoreUnrecorded(sys.db, sys.processed, a, p);
      }
    }
  }

  lemma RefundsStay(db: Db, w: Worker, answer: Answer)
    requires !w.Recording?
    ensures Turn(db, w, answer).0.refunds == db.refunds
  {
  }

  lemma OtherStepKeepsAccounts(sys: Sys, answer: Answer)
    requires InOrder(sys) && Accounts(sys) && !sys.worker.Recording? && !sys.worker.Calling?
    ensures Accounts(Next(sys, Advance(answer)))
  {
    var sys' := Next(sys, Advance(answer));
    TurnKeepsTerms(sys.db, sys.worker, answer);
    RefundsStay(sys.db, sys.worker, answer);
    forall p: nat
      ensures CarriedOut(sys', p) == Sum(sys'.db.refunds, RefundedOn(p)) + Unrecorded(sys'.db, sys'.processed, p)
    {
      assert CarriedOut(sys, p) == Sum(sys.db.refunds, RefundedOn(p)) + Unrecorded(sys.db, sys.processed, p);
      SameTotals(sys.db, sys'.db, sys.processed, p);
    }
  }

  lemma NextKeepsAccounts(requestOf: string -> Request, sys: Sys, action: Action)
    requires InOrder(sys) && Accounts(sys)
    requires RowsAsRequested(requestOf, sys.db) && WorkerAsRequested(requestOf, sys.db, sys.worker)
    ensures Accounts(Next(sys, action))
  {
    match action
    case Advance(answer) =>
      if sys.worker.Recording? {
        RecordingKeepsAccounts(requestOf, sys, answer);
      } else if sys.worker.Calling? {
        CallingKeepsAccounts(sys, answer);
      } else {
        OtherStepKeepsAccounts(sys, answer);
      }
    case _ =>
      var sys' := Next(sys, action);
      forall p: nat
        ensures CarriedOut(sys', p) == Sum(sys'.db.refunds, RefundedOn(p)) + Unrecorded(sys'.db, sys'.processed, p)
      {
        assert CarriedOut(sys, p) == Sum(sys.db.refunds, RefundedOn(p)) + Unrecorded(sys.db, sys.processed, p);
        SameTotals(sys.db, sys'.db, sys.processed, p);
      }
  }

  lemma StartAccounts()
    ensures Accounts(START)
  {
  }

  /** In every run with one request per key, what the processor refunded on a payment is what is
      recorded and what is not. */
  lemma {:induction false} CarriedOutIsRecordedOrNot(requestOf: string -> Request, actions: seq<Action>)
    requires OneRequestPerKey(requestOf, actions)
    ensures Accounts(Exec(actions))
  {
    if actions == [] {
      StartAccounts();
    } else {
      var front, last := actions[..|actions| - 1], actions[|actions| - 1];
      CarriedOutIsRecordedOrNot(requestOf, front);
      RunInOrder(front);
      RunAsRequested(requestOf, front);
      NextKeepsAccounts(requestOf, Exec(front), last);
    }
  }

  // ---------------------------------------------------------------- when it stays within the payment

  /** No other key has an attempt on the payment that is PROCESSING or PROCESSOR_SUCCEEDED. */
  predicate OthersSettled(db: Db, req: Request) {
    forall a :: 0 <= a < |db.attempts| && db.attempts[a].payment == req.payment && db.attempts[a].key != req.key ==>
      db.attempts[a].status == AttemptFailed || db.attempts[a].status == LedgerSucceeded
  }

  /** Every request is sent only then; the caller can read it off the attempt rows. */
  predicate Careful(actions: seq<Action>) {
    actions == [] ||
    var (sys, last) := (Exec(actions[..|actions| - 1]), actions[|actions| - 1]);
    && Careful(actions[..|actions| - 1])
    && (last.Refund? && Idle(sys.worker) ==> OthersSettled(sys.db, last.req))
  }

  /** The worker's request, until it has called the processor. */
  function Asking(w: Worker): Option<Request> {
    match w
    case Looking(req) => Some(req)
    case Checking(req) => Some(req)
    case Summing(req, _, _) => Some(req)
    case Inserting(ctx) => Some(ctx.req)
    case Reading(ctx) => Some(ctx.req)
    case Retrying(ctx, _) => Some(ctx.req)
    case Calling(ctx, _) => Some(ctx.req)
    case _ => None
  }

  ghost predicate WithinPayments(sys: Sys) {
    && (forall p :: 0 <= p < |sys.db.payments| ==> CarriedOut(sys, p) <= sys.db.payments[p].amount)
    && (Asking(sys.worker).Some? ==> OthersSettled(sys.db, Asking(sys.worker).value))
  }

  lemma {:induction false} AllRecorded(db: Db, processed: seq<nat>, p: nat)
    requires forall a :: a in processed && a < |db.attempts| && db.attempts[a].payment == p ==> Recorded(db, a)
    requires forall i, j :: 0 <= i < j < |processed| ==> processed[i] != processed[j]
    ensures Unrecorded(db, processed, p) == 0
  {
    if processed != [] {
      var n := |processed| - 1;
      AllRecorded(db, processed[..n], p);
      forall i | 0 <= i < n
        ensures processed[..n][i] != processed[n]
      {
      }
    }
  }

  /** If no attempt on the payment is open, nothing on it is unrecorded, as long as no pending
      refund was carried out. */
  lemma SettledMeansRecorded(sys: Sys, req: Request)
    requires TablesInOrder(sys.db, sys.processed, {}) && OthersSettled(sys.db, req)
    requires forall a :: 0 <= a < |sys.db.attempts| && sys.db.attempts[a].key == req.key ==> a !in sys.processed
    ensures Unrecorded(sys.db, sys.processed, req.payment) == 0
  {
    forall a | a in sys.processed && a < |sys.db.attempts| && sys.db.attempts[a].payment == req.payment
      ensures Recorded(sys.db, a)
    {
      assert AttemptInOrder(sys.db, sys.processed, {}, a);
    }
    AllRecorded(sys.db, sys.processed, req.payment);
  }

  lemma CallingOnlyAppends(sys: Sys, answer: Answer)
    requires sys.worker.Calling?
    ensures var sys' := Next(sys, Advance(answer));
            && sys'.db == sys.db && Asking(sys'.worker).None?
            && (sys'.processed == sys.processed || sys'.processed == sys.processed + [sys.worker.attempt])
  {
  }

  lemma OneMoreFits(requestOf: string -> Request, sys: Sys, ctx: Ctx, attempt: nat, p: nat)
    requires InOrder(sys) && Accounts(sys) && WithinPayments(sys) && sys.worker == Calling(ctx, attempt) && sys.pending == {}
    requires RowsAsRequested(requestOf, sys.db) && CtxAsRequested(requestOf, sys.db, ctx) && p < |sys.db.payments|
    ensures 0 <= AmountOn(sys.db.attempts, p)(attempt)
    ensures CarriedOut(sys, p) + AmountOn(sys.db.attempts, p)(attempt) <= sys.db.payments[p].amount
  {
    assert AsRequested(sys.db, requestOf(sys.db.attempts[attempt].key), sys.db.attempts[attempt].payment, sys.db.attempts[attempt].amount);
    SettledMeansRecorded(sys, ctx.req);
    assert CarriedOut(sys, p) == Sum(sys.db.refunds, RefundedOn(p)) + Unrecorded(sys.db, sys.processed, p);
  }

  lemma CallingStaysWithin(requestOf: string -> Request, sys: Sys, answer: Answer)
    requires InOrder(sys) && Accounts(sys) && WithinPayments(sys) && sys.worker.Calling? && sys.pending == {}
    requires RowsAsRequested(requestOf, sys.db) && CtxAsRequested(requestOf, sys.db, sys.worker.ctx)
    ensures WithinPayments(Next(sys, Advance(answer)))
  {
    var attempt := sys.worker.attempt;
    CallingOnlyAppends(sys, answer);
    forall p | 0 <= p < |sys.db.payments|
      ensures CarriedOut(Next(sys, Advance(answer)), p) <= sys.db.payments[p].amount
    {
      OneMoreFits(requestOf, sys, sys.worker.ctx, attempt, p);
      Append(sys.processed, attempt, AmountOn(sys.db.attempts, p));
    }
  }

  lemma ChecksKeepSettled(db: Db, w: Worker, answer: Answer)
    requires Asking(w).Some? && OthersSettled(db, Asking(w).value)
    requires w.Retrying? ==> w.attempt < |db.attempts| && db.attempts[w.attempt].key == w.ctx.req.key
    ensures var (db', w') := Turn(db, w, answer);
            Asking(w').Some? ==> Asking(w') == Asking(w) && OthersSettled(db', Asking(w).value)
  {
  }

  lemma OtherStepsAskNothing(db: Db, w: Worker, answer: Answer)
    requires Asking(w).None?
    ensures Asking(Turn(db, w, answer).1).None?
  {
  }

  lemma PaymentAmountsStay(db: Db, w: Worker, answer: Answer)
    ensures var db' := Turn(db, w, answer).0;
            |db'.payments| == |db.payments| && forall p :: 0 <= p < |db.payments| ==> db'.payments[p].amount == db.payments[p].amount
  {
  }

  lemma AdvanceStaysWithin(requestOf: string -> Request, sys: Sys, answer: Answer)
    requires InOrder(sys) && Accounts(sys) && WithinPayments(sys) && sys.pending == {}
    requires RowsAsRequested(requestOf, sys.db) && WorkerAsRequested(requestOf, sys.db, sys.worker)
    ensures WithinPayments(Next(sys, Advance(answer)))
  {
    if sys.worker.Calling? {
      CallingStaysWithin(requestOf, sys, answer);
    } else {
      var sys' := Next(sys, Advance(answer));
      TurnKeepsTerms(sys.db, sys.worker, answer);
      PaymentAmountsStay(sys.db, sys.worker, answer);
      forall p | 0 <= p < |sys'.db.payments|
        ensures CarriedOut(sys', p) <= sys'.db.payments[p].amount
      {
        SameWeights(sys.processed, AmountOn(sys'.db.attempts, p), AmountOn(sys.db.attempts, p));
      }
      if Asking(sys.worker).Some? {
        ChecksKeepSettled(sys.db, sys.worker, answer);
      } else {
        OtherStepsAskNothing(sys.db, sys.worker, answer);
      }
    }
  }

  lemma PayStaysWithin(requestOf: string -> Request, sys: Sys, payment: Payment)
    requires WithinPayments(sys) && RowsAsRequested(requestOf, sys.db)
    ensures WithinPayments(Next(sys, Pay(payment)))
  {
    var sys', n := Next(sys, Pay(payment)), |sys.db.payments|;
    if sys' != sys {
      forall a | 0 <= a < |sys.db.attempts|
        ensures sys.db.attempts[a].payment != n
      {
        assert AsRequested(sys.db, requestOf(sys.db.attempts[a].key), sys.db.attempts[a].payment, sys.db.attempts[a].amount);
      }
      Zero(sys.processed, AmountOn(sys.db.attempts, n));
      forall p | 0 <= p < |sys'.db.payments|
        ensures CarriedOut(sys', p) <= sys'.db.payments[p].amount
      {
        if p < n {
          assert CarriedOut(sys, p) <= sys.db.payments[p].amount;
        }
      }
    }
  }

  lemma {:induction false} RunStaysWithin(requestOf: string -> Request, actions: seq<Action>)
    requires OneRequestPerKey(requestOf, actions) && Careful(actions) && Exec(actions).pending == {}
    ensures WithinPayments(Exec(actions))
  {
    if actions != [] {
      var front, last := actions[..|actions| - 1], actions[|actions| - 1];
      RunStaysWithin(requestOf, front);
      match last
      case Advance(answer) =>
        RunInOrder(front);
        RunAsRequested(requestOf, front);
        CarriedOutIsRecordedOrNot(requestOf, front);
        AdvanceStaysWithin(requestOf, Exec(front), answer);
      case Pay(payment) =>
        RunAsRequested(requestOf, front);
        PayStaysWithin(requestOf, Exec(front), payment);
      case _ =>
    }
  }

  /** The processor never refunds more than was paid, if each key names one request, each request is
      sent when no other key's attempt is open, and no refund is carried out after a pending answer. */
  lemma CarriedOutWithinPayment(requestOf: string -> Request, actions: seq<Action>, p: nat)
    requires OneRequestPerKey(requestOf, actions) && Careful(actions) && Exec(actions).pending == {}
    requires p < |Exec(actions).db.payments|
    ensures CarriedOut(Exec(actions), p) <= Exec(actions).db.payments[p].amount
  {
    RunStaysWithin(requestOf, actions);
  }

  // ---------------------------------------------------------------- and when it does not

  /** A request under a new key has its amount refunded whatever is still unrecorded; so asking for
      all that is left passes the payment exactly when something is. */
  lemma {:induction false} NewKeyAddsUp(sys: Sys, req: Request)
    requires InOrder(sys) && Accounts(sys) && Idle(sys.worker)
    requires Passes(sys.db, req) && FindAttempt(sys.db.attempts, req.key).None?
    ensures var (p, sys') := (req.payment, Drive(Next(sys, Refund(req)), YES, 10));
            && CarriedOut(sys', p) == CarriedOut(sys, p) + AmountOf(sys.db, req)
            && Sum(sys'.db.refunds, RefundedOn(p)) == Sum(sys.db.refunds, RefundedOn(p)) + AmountOf(sys.db, req)
            && (AmountOf(sys.db, req) == sys.db.payments[p].amount - Sum(sys.db.refunds, RefundedOn(p)) ==>
                  (CarriedOut(sys', p) > sys.db.payments[p].amount <==> Unrecorded(sys.db, sys.processed, p) > 0))
  {
    UntroubledRefund(sys, req);
    var p, amount := req.payment, AmountOf(sys.db, req);
    OneMoreRow(sys.db.attempts, Attempt(p, req.org, req.key, amount, LedgerSucceeded), sys.processed, |sys.db.attempts|, p);
    Append(sys.db.refunds, RefundRow(p, req.org, req.key, amount), RefundedOn(p));
    assert CarriedOut(sys, p) == Sum(sys.db.refunds, RefundedOn(p)) + Unrecorded(sys.db, sys.processed, p);
  }

  lemma OneMoreRow(attempts: seq<Attempt>, row: Attempt, processed: seq<nat>, n: nat, p: nat)
    requires n == |attempts| && row.payment == p
    requires forall i :: 0 <= i < |processed| ==> processed[i] < n
    ensures Sum(processed + [n], AmountOn(attempts + [row], p)) == Sum(processed, AmountOn(attempts, p)) + row.amount
  {
    Append(processed, n, AmountOn(attempts + [row], p));
    SameWeights(processed, AmountOn(attempts + [row], p), AmountOn(attempts, p));
  }

  predicate PositiveAttempts(db: Db) {
    forall a :: 0 <= a < |db.attempts| ==> db.attempts[a].amount > 0
  }

  lemma {:induction false} AttemptsArePositive(actions: seq<Action>)
    ensures PositiveAttempts(Exec(actions).db)
  {
    if actions != [] {
      AttemptsArePositive(actions[..|actions| - 1]);
    }
  }

  lemma {:induction false} OneIsUnrecorded(db: Db, processed: seq<nat>, a: nat, p: nat)
    requires PositiveAttempts(db) && a < |db.attempts| && db.attempts[a].payment == p && !Recorded(db, a)
    ensures Unrecorded(db, processed, p) >= 0 && (a in processed ==> Unrecorded(db, processed, p) > 0)
  {
    if processed != [] {
      var front, last := processed[..|processed| - 1], processed[|processed| - 1];
      OneIsUnrecorded(db, front, a, p);
      assert processed == front + [last];
    }
  }

  /** In every run, an attempt carried out and left without a refund row is unrecorded money. */
  lemma CarriedOutIsUnrecorded(actions: seq<Action>, attempt: nat)
    requires attempt in Exec(actions).processed && !Recorded(Exec(actions).db, attempt)
    ensures var sys := Exec(actions);
            attempt < |sys.db.attempts| && Unrecorded(sys.db, sys.processed, sys.db.attempts[attempt].payment) > 0
  {
    RunInOrder(actions);
    AttemptsArePositive(actions);
    var sys := Exec(actions);
    OneIsUnrecorded(sys.db, sys.processed, attempt, sys.db.attempts[attempt].payment);
  }

  /** First way to leave one: the processor's answer is lost after it refunded. The key is stuck, a
      second key is not stopped, and one refund is recorded for two. */
  lemma {:induction false} LostAnswerThenNewKey(sys: Sys, ctx: Ctx, attempt: nat, req: Request)
    requires InOrder(sys) && sys.worker == Calling(ctx, attempt)
    requires Passes(sys.db, req) && FindAttempt(sys.db.attempts, req.key).None?
    ensures var lost := Next(sys, Advance(Answer(Lost(true), Yes)));
            var sys' := Drive(Next(lost, Refund(req)), YES, 10);
            && sys'.processed == sys.processed + [attempt, |sys.db.attempts|]
            && sys'.db.refunds == sys.db.refunds + [RefundRow(req.payment, req.org, req.key, AmountOf(sys.db, req))]
            && attempt < |sys'.db.attempts| && sys'.db.attempts[attempt].status == Processing
  {
    var lost := Next(sys, Advance(Answer(Lost(true), Yes)));
    assert lost == sys.(worker := Stopped, processed := sys.processed + [attempt]);
    UntroubledRefund(lost, req);
  }

  /** Second way: the processor refunded and the ledger refuses the reversal. The key could go on,
      but a second key is sent instead. */
  lemma {:induction false} RefusedReversalThenNewKey(sys: Sys, ctx: Ctx, attempt: nat, req: Request)
    requires InOrder(sys) && sys.worker == Reversing(ctx, attempt)
    requires Passes(sys.db, req) && FindAttempt(sys.db.attempts, req.key).None?
    ensures var refused := Next(sys, Advance(Answer(Yes, No)));
            var sys' := Drive(Next(refused, Refund(req)), YES, 10);
            && attempt in sys.processed && sys'.processed == sys.processed + [|sys.db.attempts|]
            && sys'.db.refunds == sys.db.refunds + [RefundRow(req.payment, req.org, req.key, AmountOf(sys.db, req))]
            && attempt < |sys'.db.attempts| && sys'.db.attempts[attempt].status == ProcessorSucceeded
            && !Recorded(sys.db, attempt)
  {
    var refused := Next(sys, Advance(Answer(Yes, No)));
    assert refused == sys.(worker := Stopped);
    assert AttemptInOrder(sys.db, sys.processed, sys.pending, attempt);
    UntroubledRefund(refused, req);
  }

  /** In any run with one request per key: once an attempt is carried out and left unrecorded, asking
      for the rest of its payment under a new key has the processor refund more than was paid. */
  lemma CarelessOverpays(requestOf: string -> Request, actions: seq<Action>, req: Request, attempt: nat)
    requires OneRequestPerKey(requestOf, actions)
    requires var sys := Exec(actions);
             && Idle(sys.worker) && Passes(sys.db, req) && FindAttempt(sys.db.attempts, req.key).None?
             && AmountOf(sys.db, req) == sys.db.payments[req.payment].amount - Sum(sys.db.refunds, RefundedOn(req.payment))
             && attempt in sys.processed && !Recorded(sys.db, attempt)
             && attempt < |sys.db.attempts| && sys.db.attempts[attempt].payment == req.payment
    ensures CarriedOut(Exec(actions + [Refund(req)] + Advances(YES, 10)), req.payment) > Exec(actions).db.payments[req.payment].amount
  {
    RunInOrder(actions);
    CarriedOutIsRecordedOrNot(requestOf, actions);
    CarriedOutIsUnrecorded(actions, attempt);
    NewKeyAddsUp(Exec(actions), req);
    ExecOne(actions, Refund(req));
    DriveIsExec(actions + [Refund(req)], YES, 10);
  }
}
