/** createPayment and refundPayment as the service writes them, one UPDATE after another. Each is
    proved to be the run of one worker of Payments or Refunds, with the answers it is given.
    services/transaction/transaction-service-core.ts:78-230,232-431. */
module TransactionService {
  import opened Sums
  import P = Payments
  import R = Refunds

  class PaymentService {
    var payments: seq<P.Payment>
    var unposted: seq<nat>
    var charges: seq<nat>
    var taken: set<nat>

    constructor ()
      ensures Tables() == P.Db([], []) && charges == [] && taken == {}
    {
      payments, unposted, charges, taken := [], [], [], {};
    }

    function Tables(): P.Db
      reads this
    {
      P.Db(payments, unposted)
    }

    function Alone(w: P.Worker): P.Sys
      reads this
    {
      P.Sys(Tables(), [w], charges, taken)
    }

    /** Find the payment of the key or insert it; the unique key decides a race. */
    method FindOrInsert(request: P.Request, ghost answer: P.Answer) returns (found: P.Option<nat>, inserted: bool, ghost steps: nat)
      modifies this
      ensures inserted ==> found.Some? && found.value < |payments| && payments[found.value].key == request.key
      ensures Alone(if found.None? then P.Stopped
                    else if inserted then P.Charging(found.value) else P.Returned(request.key, found.value, false))
              == P.Drive(old(Alone(P.Looking(request))), answer, steps)
    {
      ghost var start := Alone(P.Looking(request));
      P.DriveOne(start, answer, 0);
      var existing := P.FindKey(payments, request.key);
      if existing.Some? {
        return existing, false, 1;
      }
      assert Alone(P.Inserting(request)) == P.Drive(start, answer, 1);
      P.DriveOne(start, answer, 1);
      if !P.Insertable(request) {
        return P.None, false, 2;
      }
      var id := |payments|;
      payments := payments + [P.Payment(request.key, request.amount, P.Pending, P.None, P.None)];
      return P.Some(id), true, 2;
    }

    /** Charge, and record the outcome on the payment. */
    method ChargeInserted(id: nat, answer: P.Answer) returns (succeeded: bool, ghost steps: nat)
      requires id < |payments|
      modifies this
      ensures |payments| == old(|payments|) && payments[id].key == old(payments[id].key)
      ensures Alone(if succeeded then P.Posting(id) else P.Returned(payments[id].key, id, true))
              == P.Drive(old(Alone(P.Charging(id))), answer, steps)
    {
      ghost var start := Alone(P.Charging(id));
      P.DriveOne(start, answer, 0);
      P.DriveOne(start, answer, 1);
      P.DriveOne(start, answer, 2);
      charges := charges + [id];
      if P.TakesMoney(answer.charge) {
        taken := taken + {id};
      }
      assert Alone(P.Deciding(id, answer.charge)) == P.Drive(start, answer, 1);
      if answer.charge.Accepted? {
        assert Alone(P.MarkingPaid(id, answer.charge.processorId)) == P.Drive(start, answer, 2);
        payments := payments[id := payments[id].(status := P.Succeeded, processorId := answer.charge.processorId)];
        return true, 3;
      }
      var processorId := if answer.charge.NoAnswer? then P.None else answer.charge.processorId;
      assert Alone(P.MarkingFailed(id, processorId)) == P.Drive(start, answer, 2);
      payments := payments[id := payments[id].(status := P.Failed, processorId := processorId)];
      return false, 3;
    }

    /** Post to the ledger and link the payment to it; when either fails, queue the payment. */
    method PostCharged(id: nat, answer: P.Answer) returns (ghost steps: nat)
      requires id < |payments|
      modifies this
      ensures |payments| == old(|payments|) && payments[id].key == old(payments[id].key)
      ensures Alone(P.Returned(payments[id].key, id, true)) == P.Drive(old(Alone(P.Posting(id))), answer, steps)
    {
      ghost var start := Alone(P.Posting(id));
      P.DriveOne(start, answer, 0);
      P.DriveOne(start, answer, 1);
      steps := 1;
      if answer.ledgerId.Some? {
        assert Alone(P.Linking(id, answer.ledgerId.value)) == P.Drive(start, answer, 1);
        if answer.linkWritten {
          payments := payments[id := payments[id].(ledgerId := answer.ledgerId)];
          return 2;
        }
        steps := 2;
      }
      assert Alone(P.Enqueuing(id)) == P.Drive(start, answer, steps);
      P.DriveOne(start, answer, steps);
      unposted := unposted + [id];
      return steps + 1;
    }

    /** createPayment: the payment it returns, and how the call ran as one worker. */
    method CreatePayment(request: P.Request, answer: P.Answer) returns (id: P.Option<nat>, ghost own: bool, ghost steps: nat)
      modifies this
      ensures Alone(if id.Some? then P.Returned(request.key, id.value, own) else P.Stopped)
              == P.Drive(old(Alone(P.Looking(request))), answer, steps)
    {
      ghost var start := Alone(P.Looking(request));
      var inserted;
      id, inserted, steps := FindOrInsert(request, answer);
      own := false;
      if inserted {
        ghost var first := steps;
        var succeeded;
        succeeded, steps := ChargeInserted(id.value, answer);
        P.DriveFurther(start, answer, first, steps);
        steps := first + steps;
        if succeeded {
          first := steps;
          steps := PostCharged(id.value, answer);
          P.DriveFurther(start, answer, first, steps);
          steps := first + steps;
        }
        own := true;
      }
    }
  }

  class RefundService {
    var payments: seq<R.Payment>
    var attempts: seq<R.Attempt>
    var refunds: seq<R.RefundRow>
    var processed: seq<nat>
    var reversals: seq<nat>
    var pending: set<nat>

    function Tables(): R.Db
      reads this
    {
      R.Db(payments, attempts, refunds)
    }

    function Alone(w: R.Worker): R.Sys
      reads this
    {
      R.Sys(Tables(), w, processed, reversals, pending)
    }

    method UpdateAttempt(attempt: nat, status: R.AttemptStatus)
      modifies this`attempts
      ensures Tables() == R.SetAttempt(old(Tables()), attempt, status)
    {
      if attempt < |attempts| {
        attempts := attempts[attempt := attempts[attempt].(status := status)];
      }
    }

    /** The reads before any write: an earlier refund of the key, or the amounts to go on with. */
    method CheckRequest(req: R.Request, ghost answer: R.Answer)
      returns (done: R.Option<nat>, ctx: R.Option<R.Ctx>, ghost steps: nat)
      ensures done == if req.org == "" then R.None else R.FindRefund(refunds, req.key)
      ensures ctx.Some? <==> done.None? && req.org != "" && req.payment < |payments|
                             && payments[req.payment].org == req.org
                             && (payments[req.payment].status == R.Succeeded || payments[req.payment].status == R.PartiallyRefunded)
                             && payments[req.payment].processorId.Some?
                             && payments[req.payment].ledgerId.Some?
                             && Sum(refunds, R.RefundedOn(req.payment)) + (if req.amount.Some? then req.amount.value else payments[req.payment].amount)
                                <= payments[req.payment].amount
      ensures ctx.Some? ==> ctx.value.req == req
      ensures Alone(if done.Some? then R.Done(done.value) else if ctx.Some? then R.Inserting(ctx.value) else R.Stopped)
              == R.Drive(Alone(R.Looking(req)), answer, steps)
    {
      ghost var start := Alone(R.Looking(req));
      R.DriveOne(start, answer, 0);
      R.DriveOne(start, answer, 1);
      R.DriveOne(start, answer, 2);
      if req.org == "" {
        return R.None, R.None, 1;
      }
      done := R.FindRefund(refunds, req.key);
      if done.Some? {
        return done, R.None, 1;
      }
      assert Alone(R.Checking(req)) == R.Drive(start, answer, 1);
      if req.payment >= |payments| || !R.Refundable(payments[req.payment], req.org) {
        return R.None, R.None, 2;
      }
      var paid := payments[req.payment].amount;
      var amount := if req.amount.Some? then req.amount.value else paid;
      assert Alone(R.Summing(req, amount, paid)) == R.Drive(start, answer, 2);
      var already := Sum(refunds, R.RefundedOn(req.payment));
      if already + amount > paid {
        return R.None, R.None, 3;
      }
      return R.None, R.Some(R.Ctx(req, amount, paid, already)), 3;
    }

    /** The attempt row: inserted, or found and acted on by its status. */
    method ClaimAttempt(ctx: R.Ctx, ghost answer: R.Answer) returns (next: R.Worker, ghost steps: nat)
      modifies this
      ensures Alone(next) == R.Drive(old(Alone(R.Inserting(ctx))), answer, steps)
      ensures next.Stopped? || next.Done? || (next.Calling? && next.ctx == ctx) || (next.Reversing? && next.ctx == ctx)
    {
      ghost var start := Alone(R.Inserting(ctx));
      R.DriveOne(start, answer, 0);
      R.DriveOne(start, answer, 1);
      R.DriveOne(start, answer, 2);
      if !R.Insertable(ctx) {
        return R.Stopped, 1;
      }
      var found := R.FindAttempt(attempts, ctx.req.key);
      if found.None? {
        var attempt := |attempts|;
        attempts := attempts + [R.Attempt(ctx.req.payment, ctx.req.org, ctx.req.key, ctx.amount, R.Processing)];
        return R.Calling(ctx, attempt), 1;
      }
      assert Alone(R.Reading(ctx)) == R.Drive(start, answer, 1);
      next := R.AfterReading(Tables(), ctx);
      steps := 2;
      if next.Retrying? {
        UpdateAttempt(next.attempt, R.Processing);
        return R.Calling(ctx, next.attempt), 3;
      }
    }

    /** The processor's refund, and its outcome on the attempt row. A lost answer leaves no trace, and
        a pending one is written FAILED. */
    method CallProcessor(ctx: R.Ctx, attempt: nat, answer: R.Answer) returns (ok: bool, ghost steps: nat)
      modifies this
      ensures Alone(if ok then R.Reversing(ctx, attempt) else R.Stopped) == R.Drive(old(Alone(R.Calling(ctx, attempt))), answer, steps)
    {
      ghost var start := Alone(R.Calling(ctx, attempt));
      R.DriveOne(start, answer, 0);
      R.DriveOne(start, answer, 1);
      if R.TakesEffect(answer.processor) {
        processed := processed + [attempt];
        if answer.processor.StillPending? {
          pending := pending + {attempt};
        }
      }
      if answer.processor.Lost? {
        return false, 1;
      }
      ok := answer.processor.Yes?;
      assert Alone(if ok then R.MarkingSucceeded(ctx, attempt) else R.MarkingFailed(attempt)) == R.Drive(start, answer, 1);
      UpdateAttempt(attempt, if ok then R.ProcessorSucceeded else R.AttemptFailed);
      return ok, 2;
    }

    /** The reversal, the refund row, the attempt row. */
    method RecordReversed(ctx: R.Ctx, attempt: nat, answer: R.Answer) returns (ok: bool, ghost steps: nat)
      modifies this
      ensures Alone(if ok then R.Settling(ctx) else R.Stopped) == R.Drive(old(Alone(R.Reversing(ctx, attempt))), answer, steps)
    {
      ghost var start := Alone(R.Reversing(ctx, attempt));
      R.DriveOne(start, answer, 0);
      R.DriveOne(start, answer, 1);
      R.DriveOne(start, answer, 2);
      if R.TakesEffect(answer.ledger) {
        reversals := reversals + [attempt];
      }
      if !answer.ledger.Yes? {
        return false, 1;
      }
      assert Alone(R.Recording(ctx, attempt)) == R.Drive(start, answer, 1);
      if R.FindRefund(refunds, ctx.req.key).None? {
        refunds := refunds + [R.RefundRow(ctx.req.payment, ctx.req.org, ctx.req.key, ctx.amount)];
      }
      assert Alone(R.Closing(ctx, attempt)) == R.Drive(start, answer, 2);
      UpdateAttempt(attempt, R.LedgerSucceeded);
      return true, 3;
    }

    /** The payment's new status, and the refund that is returned. */
    method Settle(ctx: R.Ctx, ghost answer: R.Answer) returns (refund: R.Option<nat>)
      modifies this
      ensures Alone(if refund.Some? then R.Done(refund.value) else R.Stopped) == R.Drive(old(Alone(R.Settling(ctx))), answer, 1)
    {
      R.DriveOne(Alone(R.Settling(ctx)), answer, 0);
      refund := R.FindRefund(refunds, ctx.req.key);
      var p := ctx.req.payment;
      if p < |payments| {
        var isFullRefund := ctx.already + ctx.amount == ctx.paid;
        payments := payments[p := payments[p].(status := if isFullRefund then R.Refunded else R.PartiallyRefunded)];
      }
    }

    /** From a refund the processor has carried out to the end. */
    method ReverseAndSettle(ctx: R.Ctx, attempt: nat, answer: R.Answer) returns (refund: R.Option<nat>, ghost steps: nat)
      modifies this
      ensures Alone(if refund.Some? then R.Done(refund.value) else R.Stopped) == R.Drive(old(Alone(R.Reversing(ctx, attempt))), answer, steps)
    {
      ghost var start := Alone(R.Reversing(ctx, attempt));
      var ok;
      ok, steps := RecordReversed(ctx, attempt, answer);
      refund := R.None;
      if ok {
        refund := Settle(ctx, answer);
        R.DriveFurther(start, answer, steps, 1);
        steps := steps + 1;
      }
    }

    /** From the claimed attempt to the end. */
    method Carry(claimed: R.Worker, answer: R.Answer) returns (refund: R.Option<nat>, ghost steps: nat)
      requires claimed.Calling? || claimed.Reversing?
      modifies this
      ensures Alone(if refund.Some? then R.Done(refund.value) else R.Stopped) == R.Drive(old(Alone(claimed)), answer, steps)
    {
      ghost var start := Alone(claimed);
      var ctx, attempt := claimed.ctx, claimed.attempt;
      if claimed.Reversing? {
        refund, steps := ReverseAndSettle(ctx, attempt, answer);
        return;
      }
      var ok;
      ok, steps := CallProcessor(ctx, attempt, answer);
      refund := R.None;
      if ok {
        ghost var first := steps;
        refund, steps := ReverseAndSettle(ctx, attempt, answer);
        R.DriveFurther(start, answer, first, steps);
        steps := first + steps;
      }
    }

    /** From the checked request to the end. */
    method ClaimAndCarry(ctx: R.Ctx, answer: R.Answer) returns (refund: R.Option<nat>, ghost steps: nat)
      modifies this
      ensures Alone(if refund.Some? then R.Done(refund.value) else R.Stopped) == R.Drive(old(Alone(R.Inserting(ctx))), answer, steps)
    {
      ghost var start := Alone(R.Inserting(ctx));
      var next;
      next, steps := ClaimAttempt(ctx, answer);
      if next.Stopped? {
        return R.None, steps;
      }
      if next.Done? {
        return R.Some(next.refund), steps;
      }
      ghost var first := steps;
      refund, steps := Carry(next, answer);
      R.DriveFurther(start, answer, first, steps);
      steps := first + steps;
    }

    /** refundPayment: the refund it returns, and how the call ran. */
    method RefundPayment(req: R.Request, answer: R.Answer) returns (refund: R.Option<nat>, ghost steps: nat)
      modifies this
      ensures Alone(if refund.Some? then R.Done(refund.value) else R.Stopped) == R.Drive(old(Alone(R.Looking(req))), answer, steps)
    {
      ghost var start := Alone(R.Looking(req));
      var ctx;
      refund, ctx, steps := CheckRequest(req, answer);
      if refund.None? && ctx.Some? {
        ghost var first := steps;
        refund, steps := ClaimAndCarry(ctx.value, answer);
        R.DriveFurther(start, answer, first, steps);
        steps := first + steps;
      }
    }
  }
}
