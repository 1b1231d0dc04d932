/** Refunding a payment through a processor and a ledger that fail separately, with an attempt row
    that remembers how far each idempotency key got.
    services/transaction/transaction-service-core.ts:232-431, with the constraints of
    migrations/001_transaction_schema.sql:56-66 and migrations/006_processor_proof.sql:17-35.

    Every await is a step. The processor and the ledger are oracles, and a lost answer may hide a
    call that took effect. Amounts are whole multiples of the smallest stored unit. */
module Refunds {
  import opened Steps
  import opened Sums

  datatype Option<+T> = None | Some(value: T)
  datatype PaymentStatus = Pending | Failed | Succeeded | PartiallyRefunded | Refunded
  datatype Payment = Payment(org: string, amount: int, status: PaymentStatus, processorId: Option<string>, ledgerId: Option<string>)
  datatype AttemptStatus = Processing | ProcessorSucceeded | LedgerSucceeded | AttemptFailed
  /** The asker of a row is the organization that sent the request. The tables store the payment's,
      which RowsBelongToTheirAskers proves to be the same. */
  datatype Attempt = Attempt(payment: nat, asker: string, key: string, amount: int, status: AttemptStatus)
  datatype RefundRow = RefundRow(payment: nat, asker: string, key: string, amount: int)
  datatype Request = Request(org: string, payment: nat, key: string, amount: Option<int>)

  datatype Db = Db(payments: seq<Payment>, attempts: seq<Attempt>, refunds: seq<RefundRow>)

  /** How an outside call ends: it answers yes or no, its answer is lost on the way back, or the
      processor says that the refund is still pending, which may yet be carried out. */
  datatype Outcome = Yes | No | Lost(tookEffect: bool) | StillPending(tookEffect: bool)
  datatype Answer = Answer(processor: Outcome, ledger: Outcome)

  /** What a call knows after its checks: its request, the amount, and what it read. */
  datatype Ctx = Ctx(req: Request, amount: int, paid: int, already: int)

  datatype Worker =
    | Looking(req: Request)
    | Checking(req: Request)
    | Summing(req: Request, amount: int, paid: int)
    | Inserting(ctx: Ctx)
    | Reading(ctx: Ctx)
    | Retrying(ctx: Ctx, attempt: nat)
    | Calling(ctx: Ctx, attempt: nat)
    | MarkingFailed(attempt: nat)
    | MarkingSucceeded(ctx: Ctx, attempt: nat)
    | Reversing(ctx: Ctx, attempt: nat)
    | Recording(ctx: Ctx, attempt: nat)
    | Closing(ctx: Ctx, attempt: nat)
    | Settling(ctx: Ctx)
    | Done(refund: nat)
    | Stopped

  function RefundedOn(p: nat): RefundRow -> int {
    (r: RefundRow) => if r.payment == p then r.amount else 0
  }

  function FindRefund(refunds: seq<RefundRow>, key: string): (found: Option<nat>)
    ensures found.Some? ==> found.value < |refunds| && refunds[found.value].key == key
    ensures found.None? ==> forall i :: 0 <= i < |refunds| ==> refunds[i].key != key
  {
    if refunds == [] then None
    else
      var n := |refunds| - 1;
      var earlier := FindRefund(refunds[..n], key);
      assert forall i :: 0 <= i < n ==> refunds[..n][i] == refunds[i];
      if earlier.Some? then earlier else if refunds[n].key == key then Some(n) else None
  }

  function FindAttempt(attempts: seq<Attempt>, key: string): (found: Option<nat>)
    ensures found.Some? ==> found.value < |attempts| && attempts[found.value].key == key
    ensures found.None? ==> forall i :: 0 <= i < |attempts| ==> attempts[i].key != key
  {
    if attempts == [] then None
    else
      var n := |attempts| - 1;
      var earlier := FindAttempt(attempts[..n], key);
      assert forall i :: 0 <= i < n ==> attempts[..n][i] == attempts[i];
      if earlier.Some? then earlier else if attempts[n].key == key then Some(n) else None
  }

  predicate Refundable(p: Payment, org: string) {
    p.org == org && (p.status == Succeeded || p.status == PartiallyRefunded) && p.processorId.Some? && p.ledgerId.Some?
  }

  function SetAttempt(db: Db, attempt: nat, status: AttemptStatus): Db {
    if attempt >= |db.attempts| then db
    else db.(attempts := db.attempts[attempt := db.attempts[attempt].(status := status)])
  }

  const MAX_KEY := 255

  /** The columns of an attempt row accept the request. */
  predicate Insertable(ctx: Ctx) {
    ctx.amount > 0 && |ctx.req.key| <= MAX_KEY
  }

  /** What the attempt found under the key allows. */
  function AfterReading(db: Db, ctx: Ctx): Worker {
    var found := FindAttempt(db.attempts, ctx.req.key);
    if found.None? then Stopped
    else
      match db.attempts[found.value].status
      case Processing => Stopped
      case AttemptFailed => Retrying(ctx, found.value)
      case ProcessorSucceeded => Reversing(ctx, found.value)
      case LedgerSucceeded =>
        var done := FindRefund(db.refunds, ctx.req.key);
        if done.Some? then Done(done.value) else Calling(ctx, found.value)
  }

  function Turn(db: Db, w: Worker, answer: Answer): (Db, Worker) {
    match w
    case Looking(req) =>
      var found := FindRefund(db.refunds, req.key);
      (db, if req.org == "" then Stopped else if found.Some? then Done(found.value) else Checking(req))
    case Checking(req) =>
      if req.payment >= |db.payments| || !Refundable(db.payments[req.payment], req.org) then (db, Stopped)
      else
        var paid := db.payments[req.payment].amount;
        (db, Summing(req, if req.amount.Some? then req.amount.value else paid, paid))
    case Summing(req, amount, paid) =>
      var already := Sum(db.refunds, RefundedOn(req.payment));
      (db, if already + amount > paid then Stopped else Inserting(Ctx(req, amount, paid, already)))
    case Inserting(ctx) =>
      if !Insertable(ctx) then (db, Stopped)
      else if FindAttempt(db.attempts, ctx.req.key).Some? then (db, Reading(ctx))
      else (db.(attempts := db.attempts + [Attempt(ctx.req.payment, ctx.req.org, ctx.req.key, ctx.amount, Processing)]), Calling(ctx, |db.attempts|))
    case Reading(ctx) => (db, AfterReading(db, ctx))
    case Retrying(ctx, attempt) => (SetAttempt(db, attempt, Processing), Calling(ctx, attempt))
    case Calling(ctx, attempt) =>
      (db, match answer.processor
           case Yes => MarkingSucceeded(ctx, attempt)
           case Lost(_) => Stopped
           case _ => MarkingFailed(attempt))
    case MarkingFailed(attempt) => (SetAttempt(db, attempt, AttemptFailed), Stopped)
    case MarkingSucceeded(ctx, attempt) => (SetAttempt(db, attempt, ProcessorSucceeded), Reversing(ctx, attempt))
    case Reversing(ctx, attempt) => (db, if answer.ledger.Yes? then Recording(ctx, attempt) else Stopped)
    case Recording(ctx, attempt) =>
      (if FindRefund(db.refunds, ctx.req.key).Some? then db
       else db.(refunds := db.refunds + [RefundRow(ctx.req.payment, ctx.req.org, ctx.req.key, ctx.amount)]),
       Closing(ctx, attempt))
    case Closing(ctx, attempt) => (SetAttempt(db, attempt, LedgerSucceeded), Settling(ctx))
    case Settling(ctx) =>
      var saved := FindRefund(db.refunds, ctx.req.key);
      (if ctx.req.payment >= |db.payments| then db
       else db.(payments := db.payments[ctx.req.payment := db.payments[ctx.req.payment].(
                  status := if ctx.already + ctx.amount == ctx.paid then Refunded else PartiallyRefunded)]),
       if saved.Some? then Done(saved.value) else Stopped)
    case Done(_) => (db, w)
    case Stopped => (db, w)
  }

  /** An outside call takes effect when it says yes, and sometimes when it does not. */
  predicate TakesEffect(o: Outcome) {
    o.Yes? || (!o.No? && o.tookEffect)
  }

  /** Calls one at a time. processed lists the attempt of every refund the processor carried out,
      reversals the attempt of every reversal the ledger posted, pending the attempts that were
      carried out although the processor had said pending. */
  datatype Sys = Sys(db: Db, worker: Worker, processed: seq<nat>, reversals: seq<nat>, pending: set<nat>)

  datatype Action = Pay(payment: Payment) | Refund(req: Request) | Advance(answer: Answer) | Crash

  const START := Sys(Db([], [], []), Stopped, [], [], {})

  function Next(sys: Sys, action: Action): Sys {
    match action
    case Pay(payment) =>
      if payment.amount <= 0 || payment.status == Refunded || payment.status == PartiallyRefunded then sys
      else sys.(db := sys.db.(payments := sys.db.payments + [payment]))
    case Refund(req) => if sys.worker.Done? || sys.worker.Stopped? then sys.(worker := Looking(req)) else sys
    case Crash => sys.(worker := Stopped)
    case Advance(answer) =>
      var w := sys.worker;
      var (db, w') := Turn(sys.db, w, answer);
      Sys(db, w',
          if w.Calling? && TakesEffect(answer.processor) then sys.processed + [w.attempt] else sys.processed,
          if w.Reversing? && TakesEffect(answer.ledger) then sys.reversals + [w.attempt] else sys.reversals,
          if w.Calling? && TakesEffect(answer.processor) && answer.processor.StillPending? then sys.pending + {w.attempt} else sys.pending)
  }

  function Exec(actions: seq<Action>): Sys {
    if actions == [] then START else Next(Exec(actions[..|actions| - 1]), actions[|actions| - 1])
  }

  /** The given number of steps of the call in progress, with the same answers throughout. */
  function Drive(sys: Sys, answer: Answer, steps: nat): Sys {
    Repeat((s: Sys) => Next(s, Advance(answer)), sys, steps)
  }

  lemma DriveOne(sys: Sys, answer: Answer, steps: nat)
    ensures Drive(sys, answer, 0) == sys
    ensures Drive(sys, answer, steps + 1) == Next(Drive(sys, answer, steps), Advance(answer))
  {
  }

  lemma DriveFurther(sys: Sys, answer: Answer, a: nat, b: nat)
    ensures Drive(sys, answer, a + b) == Drive(Drive(sys, answer, a), answer, b)
  {
    RepeatFurther((s: Sys) => Next(s, Advance(answer)), sys, a, b);
  }

  lemma ExecOne(actions: seq<Action>, action: Action)
    ensures Exec(actions + [action]) == Next(Exec(actions), action)
  {
    assert (actions + [action])[..|actions|] == actions;
  }

  /** A run from any state on. */
  function Go(sys: Sys, actions: seq<Action>): Sys {
    Fold((s: Sys, a: Action) => Next(s, a), sys, actions)
  }

  lemma GoOne(sys: Sys, actions: seq<Action>, action: Action)
    ensures Go(sys, []) == sys
    ensures Go(sys, actions + [action]) == Next(Go(sys, actions), action)
  {
    FoldFurther((s: Sys, a: Action) => Next(s, a), sys, actions, [action]);
    FoldTwice((s: Sys, a: Action) => Next(s, a), Go(sys, actions), action, action);
  }

  lemma {:induction false} GoIsExec(before: seq<Action>, actions: seq<Action>)
    ensures Exec(before + actions) == Go(Exec(before), actions)
    decreases |actions|
  {
    if actions == [] {
      assert before + actions == before;
    } else {
      var n := |actions| - 1;
      GoIsExec(before, actions[..n]);
      assert before + actions == before + actions[..n] + [actions[n]] && actions == actions[..n] + [actions[n]];
      ExecOne(before + actions[..n], actions[n]);
      GoOne(Exec(before), actions[..n], actions[n]);
    }
  }

  function Advances(answer: Answer, steps: nat): seq<Action> {
    seq(steps, i => Advance(answer))
  }

  /** Steps of the call in progress are a part of a run. */
  lemma {:induction false} DriveIsExec(actions: seq<Action>, answer: Answer, steps: nat)
    ensures Exec(actions + Advances(answer, steps)) == Drive(Exec(actions), answer, steps)
  {
    DriveOne(Exec(actions), answer, 0);
    if steps == 0 {
      assert actions + Advances(answer, 0) == actions;
    } else {
      DriveIsExec(actions, answer, steps - 1);
      DriveOne(Exec(actions), answer, steps - 1);
      assert actions + Advances(answer, steps) == actions + Advances(answer, steps - 1) + [Advance(answer)];
      ExecOne(actions + Advances(answer, steps - 1), Advance(answer));
    }
  }

  // ---------------------------------------------------------------- the invariant

  function AmountOf(db: Db, req: Request): int
    requires req.payment < |db.payments|
  {
    if req.amount.Some? then req.amount.value else db.payments[req.payment].amount
  }

  /** What the call in progress may rely on, since no other call runs. */
  ghost predicate CtxInOrder(db: Db, ctx: Ctx, recorded: bool) {
    var p := ctx.req.payment;
    && p < |db.payments| && Refundable(db.payments[p], ctx.req.org) && ctx.req.org != ""
    && ctx.paid == db.payments[p].amount && ctx.amount == AmountOf(db, ctx.req)
    && ctx.already + ctx.amount <= ctx.paid
    && Sum(db.refunds, RefundedOn(p)) == ctx.already + (if recorded then ctx.amount else 0)
    && (FindRefund(db.refunds, ctx.req.key).Some? <==> recorded)
  }

  ghost predicate AttemptIs(db: Db, ctx: Ctx, attempt: nat, status: AttemptStatus) {
    attempt < |db.attempts| && db.attempts[attempt].key == ctx.req.key && db.attempts[attempt].status == status
  }

  ghost predicate WorkerInOrder(sys: Sys) {
    var db := sys.db;
    match sys.worker
    case Checking(req) => FindRefund(db.refunds, req.key).None? && req.org != ""
    case Summing(req, amount, paid) =>
      && req.payment < |db.payments| && Refundable(db.payments[req.payment], req.org) && db.payments[req.payment].amount == paid
      && FindRefund(db.refunds, req.key).None? && req.org != "" && amount == AmountOf(db, req)
    case Inserting(ctx) => CtxInOrder(db, ctx, false)
    case Reading(ctx) => CtxInOrder(db, ctx, false) && Insertable(ctx)
    case Retrying(ctx, attempt) => CtxInOrder(db, ctx, false) && Insertable(ctx) && AttemptIs(db, ctx, attempt, AttemptFailed)
    case Calling(ctx, attempt) =>
      CtxInOrder(db, ctx, false) && Insertable(ctx) && AttemptIs(db, ctx, attempt, Processing) && (attempt in sys.processed ==> attempt in sys.pending)
    case MarkingFailed(attempt) =>
      attempt < |db.attempts| && db.attempts[attempt].status == Processing && (attempt in sys.processed ==> attempt in sys.pending)
    case MarkingSucceeded(ctx, attempt) =>
      CtxInOrder(db, ctx, false) && Insertable(ctx) && AttemptIs(db, ctx, attempt, Processing) && attempt in sys.processed
    case Reversing(ctx, attempt) => CtxInOrder(db, ctx, false) && Insertable(ctx) && AttemptIs(db, ctx, attempt, ProcessorSucceeded)
    case Recording(ctx, attempt) => CtxInOrder(db, ctx, false) && Insertable(ctx) && AttemptIs(db, ctx, attempt, ProcessorSucceeded)
    case Closing(ctx, attempt) => CtxInOrder(db, ctx, true) && Insertable(ctx) && AttemptIs(db, ctx, attempt, ProcessorSucceeded)
    case Settling(ctx) => CtxInOrder(db, ctx, true) && Insertable(ctx)
    case _ => true
  }

  /** Which attempts the processor has carried out. */
  ghost predicate AttemptInOrder(db: Db, processed: seq<nat>, pending: set<nat>, a: nat)
    requires a < |db.attempts|
  {
    match db.attempts[a].status
    case Processing => true
    case AttemptFailed => a in processed ==> a in pending
    case ProcessorSucceeded => a in processed
    case LedgerSucceeded => a in processed && FindRefund(db.refunds, db.attempts[a].key).Some?
  }

  ghost predicate PaymentInOrder(db: Db, p: nat)
    requires p < |db.payments|
  {
    && Sum(db.refunds, RefundedOn(p)) <= db.payments[p].amount
    && (db.payments[p].status == Refunded ==> Sum(db.refunds, RefundedOn(p)) == db.payments[p].amount)
  }

  ghost predicate WasProcessed(db: Db, processed: seq<nat>, key: string) {
    exists a :: 0 <= a < |db.attempts| && db.attempts[a].key == key && a in processed
  }

  ghost predicate RefundInOrder(db: Db, processed: seq<nat>, r: RefundRow) {
    && r.payment < |db.payments| && db.payments[r.payment].processorId.Some? && db.payments[r.payment].ledgerId.Some?
    && r.amount > 0 && WasProcessed(db, processed, r.key)
  }

  ghost predicate TablesInOrder(db: Db, processed: seq<nat>, pending: set<nat>) {
    && (forall p :: 0 <= p < |db.payments| ==> PaymentInOrder(db, p))
    && (forall a :: 0 <= a < |db.attempts| ==> AttemptInOrder(db, processed, pending, a))
    && (forall i :: 0 <= i < |db.refunds| ==> RefundInOrder(db, processed, db.refunds[i]))
    && (forall i, j :: 0 <= i < j < |db.refunds| ==> db.refunds[i].key != db.refunds[j].key)
    && (forall i, j :: 0 <= i < j < |db.attempts| ==> db.attempts[i].key != db.attempts[j].key)
    && (forall i :: 0 <= i < |processed| ==> processed[i] < |db.attempts|)
    && (forall i, j :: 0 <= i < j < |processed| && processed[i] == processed[j] ==> processed[i] in pending)
  }

  ghost predicate InOrder(sys: Sys) {
    TablesInOrder(sys.db, sys.processed, sys.pending) && WorkerInOrder(sys)
  }

  // ---------------------------------------------------------------- every step keeps it

  lemma StatusKeepsTables(db: Db, processed: seq<nat>, pending: set<nat>, attempt: nat, status: AttemptStatus)
    requires TablesInOrder(db, processed, pending) && attempt < |db.attempts|
    requires AttemptInOrder(SetAttempt(db, attempt, status), processed, pending, attempt)
    ensures TablesInOrder(SetAttempt(db, attempt, status), processed, pending)
  {
    var db' := SetAttempt(db, attempt, status);
    forall a | 0 <= a < |db'.attempts|
      ensures AttemptInOrder(db', processed, pending, a)
    {
      assert AttemptInOrder(db, processed, pending, a);
    }
    forall p | 0 <= p < |db'.payments|
      ensures PaymentInOrder(db', p)
    {
      assert PaymentInOrder(db, p);
    }
    forall i | 0 <= i < |db'.refunds|
      ensures RefundInOrder(db', processed, db'.refunds[i])
    {
      ProcessedStays(db, db', processed, processed, i);
    }
  }

  lemma ProcessedStays(db: Db, db': Db, processed: seq<nat>, processed': seq<nat>, i: nat)
    requires i < |db.refunds| && RefundInOrder(db, processed, db.refunds[i])
    requires |db.attempts| <= |db'.attempts| && |db.payments| <= |db'.payments|
    requires forall p :: 0 <= p < |db.payments| ==> db'.payments[p].processorId == db.payments[p].processorId && db'.payments[p].ledgerId == db.payments[p].ledgerId
    requires forall a :: 0 <= a < |db.attempts| ==> db'.attempts[a].key == db.attempts[a].key
    requires forall a :: a in processed ==> a in processed'
    ensures RefundInOrder(db', processed', db.refunds[i])
  {
    var key := db.refunds[i].key;
    var a :| 0 <= a < |db.attempts| && db.attempts[a].key == key && a in processed;
    assert db'.attempts[a].key == key && a in processed';
  }

  lemma InsertKeepsTables(db: Db, processed: seq<nat>, pending: set<nat>, row: Attempt)
    requires TablesInOrder(db, processed, pending) && row.status == Processing && FindAttempt(db.attempts, row.key).None?
    ensures TablesInOrder(db.(attempts := db.attempts + [row]), processed, pending)
  {
    var db' := db.(attempts := db.attempts + [row]);
    forall a | 0 <= a < |db'.attempts|
      ensures AttemptInOrder(db', processed, pending, a)
    {
      if a < |db.attempts| {
        assert AttemptInOrder(db, processed, pending, a);
      }
    }
    forall p | 0 <= p < |db'.payments|
      ensures PaymentInOrder(db', p)
    {
      assert PaymentInOrder(db, p);
    }
    forall i | 0 <= i < |db'.refunds|
      ensures RefundInOrder(db', processed, db'.refunds[i])
    {
      ProcessedStays(db, db', processed, processed, i);
    }
  }

  /** The processor carries out an attempt, for the first time unless it had said pending before. */
  lemma ProcessKeepsTables(db: Db, processed: seq<nat>, pending: set<nat>, attempt: nat, pending': set<nat>)
    requires TablesInOrder(db, processed, pending) && attempt < |db.attempts|
    requires db.attempts[attempt].status == Processing && (attempt in processed ==> attempt in pending)
    requires pending <= pending'
    ensures TablesInOrder(db, processed + [attempt], pending')
  {
    var processed' := processed + [attempt];
    forall a | 0 <= a < |db.attempts|
      ensures AttemptInOrder(db, processed', pending', a)
    {
      assert AttemptInOrder(db, processed, pending, a);
    }
    forall i | 0 <= i < |db.refunds|
      ensures RefundInOrder(db, processed', db.refunds[i])
    {
      ProcessedStays(db, db, processed, processed', i);
    }
  }

  lemma {:induction false} FindRefundAppend(refunds: seq<RefundRow>, row: RefundRow, key: string)
    ensures FindRefund(refunds + [row], key).Some? <==> FindRefund(refunds, key).Some? || row.key == key
  {
    assert (refunds + [row])[..|refunds|] == refunds;
  }

  lemma RecordKeepsTables(db: Db, processed: seq<nat>, pending: set<nat>, ctx: Ctx)
    requires TablesInOrder(db, processed, pending) && CtxInOrder(db, ctx, false) && Insertable(ctx) && WasProcessed(db, processed, ctx.req.key)
    ensures var db' := db.(refunds := db.refunds + [RefundRow(ctx.req.payment, ctx.req.org, ctx.req.key, ctx.amount)]);
            TablesInOrder(db', processed, pending) && CtxInOrder(db', ctx, true)
  {
    var row := RefundRow(ctx.req.payment, ctx.req.org, ctx.req.key, ctx.amount);
    var db' := db.(refunds := db.refunds + [row]);
    forall p | 0 <= p < |db'.payments|
      ensures PaymentInOrder(db', p)
    {
      assert PaymentInOrder(db, p);
      Append(db.refunds, row, RefundedOn(p));
    }
    Append(db.refunds, row, RefundedOn(ctx.req.payment));
    forall a | 0 <= a < |db'.attempts|
      ensures AttemptInOrder(db', processed, pending, a)
    {
      assert AttemptInOrder(db, processed, pending, a);
      FindRefundAppend(db.refunds, row, db.attempts[a].key);
    }
    FindRefundAppend(db.refunds, row, ctx.req.key);
    assert WasProcessed(db', processed, ctx.req.key);
    forall i | 0 <= i < |db'.refunds|
      ensures RefundInOrder(db', processed, db'.refunds[i])
    {
      if i < |db.refunds| {
        ProcessedStays(db, db', processed, processed, i);
      }
    }
  }

  /** The last write: REFUNDED exactly when the refunds now add up to the whole payment. */
  lemma SettleKeepsTables(db: Db, processed: seq<nat>, pending: set<nat>, ctx: Ctx, answer: Answer)
    requires TablesInOrder(db, processed, pending) && CtxInOrder(db, ctx, true)
    ensures var (db', p) := (Turn(db, Settling(ctx), answer).0, ctx.req.payment);
            && TablesInOrder(db', processed, pending)
            && (db'.payments[p].status == Refunded <==> Sum(db'.refunds, RefundedOn(p)) == db'.payments[p].amount)
  {
    var db' := Turn(db, Settling(ctx), answer).0;
    forall p | 0 <= p < |db'.payments|
      ensures PaymentInOrder(db', p)
    {
      assert PaymentInOrder(db, p);
    }
    forall a | 0 <= a < |db'.attempts|
      ensures AttemptInOrder(db', processed, pending, a)
    {
      assert AttemptInOrder(db, processed, pending, a);
    }
    forall i | 0 <= i < |db'.refunds|
      ensures RefundInOrder(db', processed, db'.refunds[i])
    {
      ProcessedStays(db, db', processed, processed, i);
    }
  }

  predicate AtProcessor(w: Worker) {
    w.Retrying? || w.Calling? || w.MarkingFailed? || w.MarkingSucceeded?
  }

  lemma ProcessorPhaseKeepsTables(sys: Sys, answer: Answer)
    requires InOrder(sys) && AtProcessor(sys.worker)
    ensures TablesInOrder(Next(sys, Advance(answer)).db, Next(sys, Advance(answer)).processed, Next(sys, Advance(answer)).pending)
  {
    var db, processed, pending := sys.db, sys.processed, sys.pending;
    match sys.worker
    case Retrying(ctx, attempt) => StatusKeepsTables(db, processed, pending, attempt, Processing);
    case Calling(ctx, attempt) => ProcessKeepsTables(db, processed, pending, attempt, Next(sys, Advance(answer)).pending);
    case MarkingFailed(attempt) => StatusKeepsTables(db, processed, pending, attempt, AttemptFailed);
    case MarkingSucceeded(ctx, attempt) => StatusKeepsTables(db, processed, pending, attempt, ProcessorSucceeded);
  }

  lemma AdvanceKeepsTables(sys: Sys, answer: Answer)
    requires InOrder(sys) && !AtProcessor(sys.worker)
    ensures TablesInOrder(Next(sys, Advance(answer)).db, Next(sys, Advance(answer)).processed, Next(sys, Advance(answer)).pending)
  {
    var db, processed, pending := sys.db, sys.processed, sys.pending;
    match sys.worker
    case Inserting(ctx) =>
      if Insertable(ctx) && FindAttempt(db.attempts, ctx.req.key).None? {
        InsertKeepsTables(db, processed, pending, Attempt(ctx.req.payment, ctx.req.org, ctx.req.key, ctx.amount, Processing));
      }
    case Recording(ctx, attempt) =>
      assert AttemptInOrder(db, processed, pending, attempt);
      RecordKeepsTables(db, processed, pending, ctx);
    case Closing(ctx, attempt) =>
      assert AttemptInOrder(db, processed, pending, attempt);
      StatusKeepsTables(db, processed, pending, attempt, LedgerSucceeded);
    case Settling(ctx) => SettleKeepsTables(db, processed, pending, ctx, answer);
    case _ =>
  }

  lemma CtxStays(db: Db, ctx: Ctx, recorded: bool, attempt: nat, status: AttemptStatus)
    requires CtxInOrder(db, ctx, recorded)
    ensures CtxInOrder(SetAttempt(db, attempt, status), ctx, recorded)
  {
  }

  lemma RetryingKeepsWorker(sys: Sys, answer: Answer)
    requires InOrder(sys) && sys.worker.Retrying?
    ensures WorkerInOrder(Next(sys, Advance(answer)))
  {
    assert AttemptInOrder(sys.db, sys.processed, sys.pending, sys.worker.attempt);
    CtxStays(sys.db, sys.worker.ctx, false, sys.worker.attempt, Processing);
  }

  lemma CallingKeepsWorker(sys: Sys, answer: Answer)
    requires InOrder(sys) && sys.worker.Calling?
    ensures WorkerInOrder(Next(sys, Advance(answer)))
  {
  }

  lemma MarkingKeepsWorker(sys: Sys, answer: Answer)
    requires InOrder(sys) && sys.worker.MarkingSucceeded?
    ensures WorkerInOrder(Next(sys, Advance(answer)))
  {
    CtxStays(sys.db, sys.worker.ctx, false, sys.worker.attempt, ProcessorSucceeded);
  }

  lemma RecordingKeepsWorker(sys: Sys, answer: Answer)
    requires InOrder(sys) && sys.worker.Recording?
    ensures WorkerInOrder(Next(sys, Advance(answer)))
  {
    assert AttemptInOrder(sys.db, sys.processed, sys.pending, sys.worker.attempt);
    RecordKeepsTables(sys.db, sys.processed, sys.pending, sys.worker.ctx);
  }

  lemma ClosingKeepsWorker(sys: Sys, answer: Answer)
    requires InOrder(sys) && sys.worker.Closing?
    ensures WorkerInOrder(Next(sys, Advance(answer)))
  {
    CtxStays(sys.db, sys.worker.ctx, true, sys.worker.attempt, LedgerSucceeded);
  }

  predicate AtChecks(w: Worker) {
    w.Looking? || w.Checking? || w.Summing? || w.Inserting?
  }

  lemma SummingKeepsWorker(sys: Sys, answer: Answer)
    requires InOrder(sys) && sys.worker.Summing?
    ensures WorkerInOrder(Next(sys, Advance(answer)))
  {
  }

  lemma InsertingKeepsWorker(sys: Sys, answer: Answer)
    requires InOrder(sys) && sys.worker.Inserting?
    ensures WorkerInOrder(Next(sys, Advance(answer)))
  {
  }

  lemma ChecksKeepWorker(sys: Sys, answer: Answer)
    requires InOrder(sys) && AtChecks(sys.worker)
    ensures WorkerInOrder(Next(sys, Advance(answer)))
  {
    if sys.worker.Summing? {
      SummingKeepsWorker(sys, answer);
    } else if sys.worker.Inserting? {
      InsertingKeepsWorker(sys, answer);
    }
  }

  lemma LaterKeepsWorker(sys: Sys, answer: Answer)
    requires InOrder(sys) && !AtChecks(sys.worker)
    ensures WorkerInOrder(Next(sys, Advance(answer)))
  {
    match sys.worker
    case Retrying(_, _) => RetryingKeepsWorker(sys, answer);
    case Calling(_, _) => CallingKeepsWorker(sys, answer);
    case MarkingSucceeded(_, _) => MarkingKeepsWorker(sys, answer);
    case Recording(_, _) => RecordingKeepsWorker(sys, answer);
    case Closing(_, _) => ClosingKeepsWorker(sys, answer);
    case Reading(ctx) => ReadingKeepsWorker(sys, ctx, answer);
    case _ =>
  }

  lemma AdvanceKeepsWorker(sys: Sys, answer: Answer)
    requires InOrder(sys)
    ensures WorkerInOrder(Next(sys, Advance(answer)))
  {
    if AtChecks(sys.worker) {
      ChecksKeepWorker(sys, answer);
    } else {
      LaterKeepsWorker(sys, answer);
    }
  }

  lemma ReadingKeepsWorker(sys: Sys, ctx: Ctx, answer: Answer)
    requires TablesInOrder(sys.db, sys.processed, sys.pending) && CtxInOrder(sys.db, ctx, false) && Insertable(ctx)
    ensures WorkerInOrder(sys.(worker := AfterReading(sys.db, ctx)))
  {
    var found := FindAttempt(sys.db.attempts, ctx.req.key);
    if found.Some? {
      assert AttemptInOrder(sys.db, sys.processed, sys.pending, found.value);
    }
  }

  lemma NextKeepsOrder(sys: Sys, action: Action)
    requires InOrder(sys)
    ensures InOrder(Next(sys, action))
  {
    match action
    case Advance(answer) =>
      if AtProcessor(sys.worker) {
        ProcessorPhaseKeepsTables(sys, answer);
      } else {
        AdvanceKeepsTables(sys, answer);
      }
      AdvanceKeepsWorker(sys, answer);
    case Pay(payment) => PayKeepsOrder(sys, payment);
    case _ =>
  }

  lemma PayKeepsOrder(sys: Sys, payment: Payment)
    requires InOrder(sys)
    ensures InOrder(Next(sys, Pay(payment)))
  {
    var db' := Next(sys, Pay(payment)).db;
    if db' != sys.db {
      var n := |sys.db.payments|;
      forall i | 0 <= i < |sys.db.refunds|
        ensures RefundInOrder(db', sys.processed, sys.db.refunds[i]) && sys.db.refunds[i].payment != n
      {
        ProcessedStays(sys.db, db', sys.processed, sys.processed, i);
      }
      Zero(sys.db.refunds, RefundedOn(n));
      forall p | 0 <= p < |db'.payments|
        ensures PaymentInOrder(db', p)
      {
        if p < n {
          assert PaymentInOrder(sys.db, p);
        }
      }
      forall a | 0 <= a < |db'.attempts|
        ensures AttemptInOrder(db', sys.processed, sys.pending, a)
      {
        assert AttemptInOrder(sys.db, sys.processed, sys.pending, a);
      }
    }
  }

  lemma {:induction false} RunInOrder(actions: seq<Action>)
    ensures InOrder(Exec(actions))
  {
    if actions != [] {
      RunInOrder(actions[..|actions| - 1]);
      NextKeepsOrder(Exec(actions[..|actions| - 1]), actions[|actions| - 1]);
    }
  }
}
