/** Runs that reach the troubles of a refund: every new request that passes its checks can meet each
    of them. services/transaction/transaction-service-core.ts:232-431. */
module RefundExamples {
  import opened Sums
  import opened Refunds
  import opened RefundRuns
  import opened RefundKeys
  import opened RefundMoney

  /** No call runs, and the request is new and passes its checks. */
  ghost predicate Fresh(sys: Sys, req: Request) {
    Idle(sys.worker) && Passes(sys.db, req) && FindAttempt(sys.db.attempts, req.key).None?
  }

  /** The run that sends the request and lets its call do this many untroubled steps. */
  function Under(before: seq<Action>, req: Request, steps: nat): seq<Action> {
    before + [Refund(req)] + Advances(YES, steps)
  }

  lemma UnderIsDrive(before: seq<Action>, req: Request, steps: nat)
    ensures Exec(Under(before, req, steps)) == Drive(Next(Exec(before), Refund(req)), YES, steps)
  {
    ExecOne(before, Refund(req));
    DriveIsExec(before + [Refund(req)], YES, steps);
  }

  /** One payment of ten, charged and posted, and a request for all of it. */
  const PAYMENT := Payment("org", 10, Succeeded, Some("pi"), Some("txn"))

  function Whole(p: nat, key: string): Request {
    Request("org", p, key, None)
  }

  lemma Opening(key: string)
    requires |key| <= MAX_KEY
    ensures var sys := Exec([Pay(PAYMENT)]);
            sys == START.(db := Db([PAYMENT], [], [])) && Fresh(sys, Whole(0, key)) && AmountOf(sys.db, Whole(0, key)) == 10
  {
    assert [Pay(PAYMENT)][..0] == [];
  }

  // ---------------------------------------------------------------- the steps a new request reaches

  /** The attempt row is there and the processor is to be asked, or it has been and the ledger is. */
  function Claimed(sys: Sys, ctx: Ctx): Sys {
    sys.(db := sys.db.(attempts := sys.db.attempts + [Attempt(ctx.req.payment, ctx.req.org, ctx.req.key, ctx.amount, Processing)]),
         worker := Calling(ctx, |sys.db.attempts|))
  }

  function Carried(sys: Sys, ctx: Ctx): Sys {
    sys.(db := sys.db.(attempts := sys.db.attempts + [Attempt(ctx.req.payment, ctx.req.org, ctx.req.key, ctx.amount, ProcessorSucceeded)]),
         worker := Reversing(ctx, |sys.db.attempts|), processed := sys.processed + [|sys.db.attempts|])
  }

  /** Four steps in, the call is about to ask the processor. */
  lemma ReachesProcessor(before: seq<Action>, req: Request)
    requires Fresh(Exec(before), req)
    ensures Exec(Under(before, req, 4)) == Claimed(Exec(before), CtxOf(Exec(before).db, req))
  {
    var sys := Exec(before);
    var sys0 := Next(sys, Refund(req));
    UnderIsDrive(before, req, 4);
    ChecksOnlyRead(sys, req);
    NewKeyReachesLedger(Drive(sys0, YES, 3), CtxOf(sys.db, req));
    DriveFurther(sys0, YES, 3, 1);
  }

  /** Six steps in, it is about to ask the ledger. */
  lemma ReachesLedger(before: seq<Action>, req: Request)
    requires Fresh(Exec(before), req)
    ensures Exec(Under(before, req, 6)) == Carried(Exec(before), CtxOf(Exec(before).db, req))
  {
    var sys := Exec(before);
    var sys0 := Next(sys, Refund(req));
    UnderIsDrive(before, req, 6);
    ChecksOnlyRead(sys, req);
    NewKeyReachesLedger(Drive(sys0, YES, 3), CtxOf(sys.db, req));
    DriveFurther(sys0, YES, 3, 3);
  }

  /** Nine steps in, it is about to write the payment's status. */
  lemma ReachesStatus(before: seq<Action>, req: Request)
    requires Fresh(Exec(before), req)
    ensures var (sys, ctx) := (Exec(before), CtxOf(Exec(before).db, req));
            Exec(Under(before, req, 9)) == AfterRefund(sys.(worker := Inserting(ctx)), ctx)
  {
    var sys := Exec(before);
    var sys0 := Next(sys, Refund(req));
    UnderIsDrive(before, req, 9);
    ChecksOnlyRead(sys, req);
    NewKeyGoesThrough(Drive(sys0, YES, 3), CtxOf(sys.db, req));
    DriveFurther(sys0, YES, 3, 6);
  }

  // ---------------------------------------------------------------- what can go wrong there

  /** A crash before the status is written, on a request for all that is left. */
  lemma LagIsReachable(before: seq<Action>, req: Request)
    requires Fresh(Exec(before), req)
    requires var db := Exec(before).db; Sum(db.refunds, RefundedOn(req.payment)) + AmountOf(db, req) == db.payments[req.payment].amount
    ensures Lagging(Exec(Under(before, req, 9) + [Crash]).db, req.payment)
    ensures Idle(Exec(Under(before, req, 9) + [Crash]).worker)
  {
    ReachesStatus(before, req);
    RunInOrder(Under(before, req, 9));
    CrashLeavesLag(Exec(before), CtxOf(Exec(before).db, req));
    ExecOne(Under(before, req, 9), Crash);
  }

  lemma CrashLeavesLag(sys: Sys, ctx: Ctx)
    requires InOrder(AfterRefund(sys, ctx)) && ctx.already + ctx.amount == ctx.paid
    ensures Lagging(Next(AfterRefund(sys, ctx), Crash).db, ctx.req.payment) && Idle(Next(AfterRefund(sys, ctx), Crash).worker)
  {
    StatusCanLag(AfterRefund(sys, ctx), ctx);
  }

  /** A pending refund that is carried out, and the retry of its key. */
  lemma PendingTwiceIsReachable(before: seq<Action>, req: Request)
    requires Fresh(Exec(before), req)
    ensures var (sys, n) := (Exec(before), |Exec(before).db.attempts|);
            var told := Under(before, req, 4) + [Advance(Answer(StillPending(true), Yes))] + [Advance(YES)];
            Exec(Under(told, req, 7)).processed == sys.processed + [n, n]
  {
    var run, ctx, n := Under(before, req, 4), CtxOf(Exec(before).db, req), |Exec(before).db.attempts|;
    var told := Advance(Answer(StillPending(true), Yes));
    ReachesProcessor(before, req);
    RunInOrder(run);
    PendingIsRefundedTwice(Exec(run), ctx, n);
    ExecOne(run, told);
    ExecOne(run + [told], Advance(YES));
    UnderIsDrive(run + [told] + [Advance(YES)], req, 7);
  }

  /** A reversal behind a lost answer, and the retry of its key. */
  lemma LostReversalIsReachable(before: seq<Action>, req: Request)
    requires Fresh(Exec(before), req)
    ensures var (sys, n) := (Exec(before), |Exec(before).db.attempts|);
            var broken := Under(before, req, 6) + [Advance(Answer(Yes, Lost(true)))];
            Exec(Under(broken, req, 6)).reversals == sys.reversals + [n, n]
  {
    var run, ctx, n := Under(before, req, 6), CtxOf(Exec(before).db, req), |Exec(before).db.attempts|;
    var lost := Advance(Answer(Yes, Lost(true)));
    ReachesLedger(before, req);
    RunInOrder(run);
    LostReversalIsRepeated(Exec(run), ctx, n, Lost(true));
    ExecOne(run, lost);
    UnderIsDrive(run + [lost], req, 6);
  }

  /** A crash between the ledger's answer and the refund row, and the retry of its key. */
  lemma CrashedRecordingIsReachable(before: seq<Action>, req: Request)
    requires Fresh(Exec(before), req)
    ensures var (sys, n) := (Exec(before), |Exec(before).db.attempts|);
            var broken := Under(before, req, 6) + [Advance(YES)] + [Crash];
            Exec(Under(broken, req, 6)).reversals == sys.reversals + [n, n]
  {
    var run, ctx, n := Under(before, req, 6), CtxOf(Exec(before).db, req), |Exec(before).db.attempts|;
    ReachesLedger(before, req);
    RunInOrder(run);
    CrashedRecordingRepeats(Exec(run), ctx, n);
    ExecOne(run, Advance(YES));
    ExecOne(run + [Advance(YES)], Crash);
    UnderIsDrive(run + [Advance(YES)] + [Crash], req, 6);
  }

  lemma SecondPasses(sys: Sys, sys': Sys, row: Attempt, req: Request)
    requires Passes(sys.db, req) && FindAttempt(sys.db.attempts, req.key).None? && row.key != req.key
    requires sys'.db == sys.db.(attempts := sys.db.attempts + [row])
    ensures Passes(sys'.db, req) && FindAttempt(sys'.db.attempts, req.key).None? && AmountOf(sys'.db, req) == AmountOf(sys.db, req)
  {
    FindAttemptAppend(sys.db.attempts, row, req.key);
  }

  lemma LostThenSecond(sys: Sys, ctx: Ctx, second: Request)
    requires InOrder(Claimed(sys, ctx)) && ctx.req.key != second.key
    requires Passes(sys.db, second) && FindAttempt(sys.db.attempts, second.key).None?
    ensures var sys' := Drive(Next(Next(Claimed(sys, ctx), Advance(Answer(Lost(true), Yes))), Refund(second)), YES, 10);
            && |sys'.processed| == |sys.processed| + 2 && sys.processed <= sys'.processed
            && sys'.db.refunds == sys.db.refunds + [RefundRow(second.payment, second.org, second.key, AmountOf(sys.db, second))]
  {
    var row := Attempt(ctx.req.payment, ctx.req.org, ctx.req.key, ctx.amount, Processing);
    SecondPasses(sys, Claimed(sys, ctx), row, second);
    LostAnswerThenNewKey(Claimed(sys, ctx), ctx, |sys.db.attempts|, second);
  }

  lemma RefusedThenSecond(sys: Sys, ctx: Ctx, second: Request)
    requires InOrder(Carried(sys, ctx)) && ctx.req.key != second.key
    requires Passes(sys.db, second) && FindAttempt(sys.db.attempts, second.key).None?
    ensures var sys' := Drive(Next(Next(Carried(sys, ctx), Advance(Answer(Yes, No))), Refund(second)), YES, 10);
            && |sys'.processed| == |sys.processed| + 2 && sys.processed <= sys'.processed
            && sys'.db.refunds == sys.db.refunds + [RefundRow(second.payment, second.org, second.key, AmountOf(sys.db, second))]
  {
    var row := Attempt(ctx.req.payment, ctx.req.org, ctx.req.key, ctx.amount, ProcessorSucceeded);
    SecondPasses(sys, Carried(sys, ctx), row, second);
    RefusedReversalThenNewKey(Carried(sys, ctx), ctx, |sys.db.attempts|, second);
  }

  /** The processor's answer is lost, and a second key asks: two refunds, one of them recorded. */
  lemma LostAnswerIsReachable(before: seq<Action>, req: Request, second: Request)
    requires Fresh(Exec(before), req) && Fresh(Exec(before), second) && second.key != req.key
    ensures var sys := Exec(before);
            var sys' := Exec(Under(Under(before, req, 4) + [Advance(Answer(Lost(true), Yes))], second, 10));
            && |sys'.processed| == |sys.processed| + 2 && sys.processed <= sys'.processed
            && sys'.db.refunds == sys.db.refunds + [RefundRow(second.payment, second.org, second.key, AmountOf(sys.db, second))]
  {
    var run, lost := Under(before, req, 4), Advance(Answer(Lost(true), Yes));
    ReachesProcessor(before, req);
    RunInOrder(run);
    LostThenSecond(Exec(before), CtxOf(Exec(before).db, req), second);
    ExecOne(run, lost);
    UnderIsDrive(run + [lost], second, 10);
  }

  /** The ledger refuses the reversal, and a second key asks: two refunds, one of them recorded. */
  lemma RefusedReversalIsReachable(before: seq<Action>, req: Request, second: Request)
    requires Fresh(Exec(before), req) && Fresh(Exec(before), second) && second.key != req.key
    ensures var sys := Exec(before);
            var sys' := Exec(Under(Under(before, req, 6) + [Advance(Answer(Yes, No))], second, 10));
            && |sys'.processed| == |sys.processed| + 2 && sys.processed <= sys'.processed
            && sys'.db.refunds == sys.db.refunds + [RefundRow(second.payment, second.org, second.key, AmountOf(sys.db, second))]
  {
    var run, refused := Under(before, req, 6), Advance(Answer(Yes, No));
    ReachesLedger(before, req);
    RunInOrder(run);
    RefusedThenSecond(Exec(before), CtxOf(Exec(before).db, req), second);
    ExecOne(run, refused);
    UnderIsDrive(run + [refused], second, 10);
  }

  /** The same key after that, for another payment or amount: recorded so, and not refunded so. */
  lemma ReusedKeyIsReachable(before: seq<Action>, req: Request, second: Request)
    requires Fresh(Exec(before), req) && Fresh(Exec(before), second) && second.key == req.key
    ensures var (sys, n) := (Exec(before), |Exec(before).db.attempts|);
            var sys' := Exec(Under(Under(before, req, 6) + [Advance(Answer(Yes, No))], second, 7));
            && sys'.processed == sys.processed + [n] && n < |sys'.db.attempts| && sys'.db.attempts[n].payment == req.payment && sys'.db.attempts[n].amount == AmountOf(sys.db, req)
            && sys'.db.refunds == sys.db.refunds + [RefundRow(second.payment, second.org, second.key, AmountOf(sys.db, second))]
  {
    var run, ctx, n := Under(before, req, 6), CtxOf(Exec(before).db, req), |Exec(before).db.attempts|;
    var refused := Advance(Answer(Yes, No));
    ReachesLedger(before, req);
    ExecOne(run, refused);
    RunInOrder(run + [refused]);
    ReusedKeyRecordsAnother(Exec(run + [refused]), second, n);
    UnderIsDrive(run + [refused], second, 7);
  }

  // ---------------------------------------------------------------- in numbers

  /** Two payments, and one key for both of them. */
  lemma OpeningTwo(key: string)
    requires |key| <= MAX_KEY
    ensures var sys := Exec([Pay(PAYMENT), Pay(PAYMENT)]);
            sys == START.(db := Db([PAYMENT, PAYMENT], [], [])) && Fresh(sys, Whole(0, key)) && Fresh(sys, Whole(1, key))
  {
    Opening(key);
    assert [Pay(PAYMENT), Pay(PAYMENT)][..1] == [Pay(PAYMENT)];
    assert Exec([Pay(PAYMENT), Pay(PAYMENT)]).db == Db([PAYMENT, PAYMENT], [], []);
  }

  /** Two payments of ten, one key: the refund of the first is carried out, the second one's recorded. */
  lemma ReusedKeyFromEmpty(key: string)
    requires |key| <= MAX_KEY
    ensures var before := [Pay(PAYMENT), Pay(PAYMENT)];
            var sys := Exec(Under(Under(before, Whole(0, key), 6) + [Advance(Answer(Yes, No))], Whole(1, key), 7));
            |sys.db.refunds| == 1 && sys.db.refunds[0].payment == 1
            && |sys.processed| == 1 && sys.processed[0] < |sys.db.attempts| && sys.db.attempts[sys.processed[0]].payment == 0
  {
    OpeningTwo(key);
    ReusedKeyIsReachable([Pay(PAYMENT), Pay(PAYMENT)], Whole(0, key), Whole(1, key));
  }

  lemma OneRequestUnder(requestOf: string -> Request, before: seq<Action>, req: Request, steps: nat, last: Action)
    requires OneRequestPerKey(requestOf, before) && req == requestOf(req.key) && !last.Refund?
    ensures OneRequestPerKey(requestOf, Under(before, req, steps) + [last])
  {
  }

  /** Ten were paid, the ledger refused the reversal of all ten, and a second key asked for them. */
  lemma SecondKeyOverpays(first: string, second: string)
    requires first != second && |first| <= MAX_KEY && |second| <= MAX_KEY
    ensures var refused := Under([Pay(PAYMENT)], Whole(0, first), 6) + [Advance(Answer(Yes, No))];
            CarriedOut(Exec(Under(refused, Whole(0, second), 10)), 0) > 10
  {
    var before, last := [Pay(PAYMENT)], Advance(Answer(Yes, No));
    var refused := Under(before, Whole(0, first), 6) + [last];
    Opening(first);
    Opening(second);
    OneRequestUnder((key: string) => Whole(0, key), before, Whole(0, first), 6, last);
    ReachesLedger(before, Whole(0, first));
    ExecOne(Under(before, Whole(0, first), 6), last);
    OneLeftOpen(Exec(before), Exec(refused), first, second);
    CarelessOverpays((key: string) => Whole(0, key), refused, Whole(0, second), 0);
  }

  lemma OneLeftOpen(sys: Sys, sys': Sys, first: string, second: string)
    requires sys == START.(db := Db([PAYMENT], [], [])) && first != second && Fresh(sys, Whole(0, first)) && Fresh(sys, Whole(0, second))
    requires sys' == Next(Carried(sys, CtxOf(sys.db, Whole(0, first))), Advance(Answer(Yes, No)))
    ensures Fresh(sys', Whole(0, second)) && AmountOf(sys'.db, Whole(0, second)) == 10 - Sum(sys'.db.refunds, RefundedOn(0))
    ensures sys'.db.payments == [PAYMENT] && sys'.processed == [0] && !Recorded(sys'.db, 0)
    ensures |sys'.db.attempts| == 1 && sys'.db.attempts[0].payment == 0
  {
    FindAttemptAppend(sys.db.attempts, Attempt(0, "org", first, 10, ProcessorSucceeded), second);
  }

  /** Two calls for all of the same payment that both read before either writes. */
  lemma TwoWholeRefundsOverpay()
    ensures var (sys, first, second) := (Exec([Pay(PAYMENT)]), Whole(0, "k"), Whole(0, "l"));
            var one := Drive(sys.(worker := Inserting(CtxOf(sys.db, first))), YES, 6);
            var both := Drive(one.(worker := Inserting(CtxOf(sys.db, second))), YES, 6);
            Sum(both.db.refunds, RefundedOn(0)) > 10
  {
    Opening("k");
    Opening("l");
    ConcurrentRefundsAddUp(Exec([Pay(PAYMENT)]), Whole(0, "k"), Whole(0, "l"));
  }
}
