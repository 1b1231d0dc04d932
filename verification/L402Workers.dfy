/** Paid agent calls as a protocol: any number of execute calls and reconciliations, each store
    call an atomic step, interleaved in any order and crashing anywhere.
    services/agent-commerce/agent_commerce/l402.py:190-327 and recovery.py:12-80.

    The payment provider is an oracle: a step that waits for it is given its answer. Prices are
    compared with ceilings that floating point computed, so the ceilings are inputs too. */
module L402Workers {
  import opened Authorizations
  import opened Steps

  /** Where a call stands. Reserving to Releasing are execute, Reading to Remarking are
      reconcile_initiated_payment, and both finish by Booking. */
  datatype Worker =
    | Reserving(call: Call, invoice: Invoice, ceiling: int, now: int)
    | Binding(rsv: nat, invoice: Invoice)
    | Initiating(rsv: nat, invoice: Invoice)
    | Paying(rsv: nat, invoice: Invoice)
    | Awaiting(rsv: nat, invoice: Invoice)
    | Settling(rsv: nat, invoice: Invoice, settlement: Settlement)
    | Cleanup(rsv: nat)
    | Releasing(rsv: nat)
    | Reading(rsv: nat)
    | LookingUp(rsv: nat)
    | Remarking(rsv: nat, settlement: Settlement)
    | Booking(rsv: nat, invoice: Invoice, settlement: Settlement)
    | Done(rsv: nat, receipt: nat)
    | Stopped

  /** paid lists the reservation of every pay_invoice call made, in order; late holds the
      reservations that were released while their payment was already initiated. */
  datatype Sys = Sys(db: Db, workers: seq<Worker>, paid: seq<nat>, late: set<nat>)

  datatype Action =
    | Authorize(maxTotal: int, maxPerCall: int, maxRouteFee: int, maxCalls: int,
                agents: set<string>, specialties: set<string>, expiresAt: int, now: int)
    | RevokeAuth(auth: nat)
    | Execute(call: Call, invoice: Invoice, advertised: int, ceiling: int, now: int)
    | Reconcile(rsv: nat)
    | Advance(worker: nat, answer: Option<Settlement>)
    | Crash(worker: nat)

  const START := Sys(EMPTY_DB, [], [], {})

  predicate PaymentReached(s: RsvStatus) {
    s == PaymentInitiated || s == Paid || s == Finalized
  }

  /** What execute does with the reservation that reserve returned. */
  function AfterReserve(db: Db, rsv: nat, invoice: Invoice): Worker
    requires rsv < |db.rsvs|
  {
    var row := db.rsvs[rsv];
    if row.status == Finalized && row.receipt.Some? then Done(rsv, row.receipt.value)
    else if row.status == PaymentInitiated || row.status == Paid then Cleanup(rsv)
    else Binding(rsv, invoice)
  }

  /** What reconcile does with the reservation it read. */
  function AfterReading(db: Db, rsv: nat): Worker {
    if rsv >= |db.rsvs| then Stopped
    else
      var row := db.rsvs[rsv];
      if row.status == Finalized && row.receipt.Some? then Done(rsv, row.receipt.value)
      else if row.status == PaymentInitiated && row.invoice.Some? then LookingUp(rsv)
      else ToBooking(db, rsv)
  }

  /** Reconcile books what the stored row says. */
  function ToBooking(db: Db, rsv: nat): Worker {
    if rsv < |db.rsvs| && db.rsvs[rsv].status == Paid && db.rsvs[rsv].invoice.Some? && db.rsvs[rsv].settlement.Some? then
      Booking(rsv, db.rsvs[rsv].invoice.value, db.rsvs[rsv].settlement.value)
    else Stopped
  }

  /** The tables and the worker after the worker's next step. */
  function Turn(db: Db, w: Worker, answer: Option<Settlement>): (Db, Worker) {
    match w
    case Reserving(call, invoice, ceiling, now) =>
      var s := Reserve(db, call, ceiling, now);
      (s.db, if s.result.Ok? && s.result.value < |s.db.rsvs| then AfterReserve(s.db, s.result.value, invoice) else Stopped)
    case Binding(rsv, invoice) =>
      var s := BindInvoice(db, rsv, invoice);
      (s.db, if s.result.Ok? then Initiating(rsv, invoice) else Cleanup(rsv))
    case Initiating(rsv, invoice) =>
      var s := MarkInitiated(db, rsv);
      (s.db, if s.result.Ok? then Paying(rsv, invoice) else Cleanup(rsv))
    case Paying(rsv, invoice) => (db, Awaiting(rsv, invoice))
    case Awaiting(rsv, invoice) => (db, if answer.Some? then Settling(rsv, invoice, answer.value) else Cleanup(rsv))
    case Settling(rsv, invoice, settlement) =>
      var s := MarkPaid(db, rsv, settlement);
      (s.db, if s.result.Ok? then Booking(rsv, invoice, settlement) else Cleanup(rsv))
    case Cleanup(rsv) =>
      (db, if rsv < |db.rsvs| && !PaymentReached(db.rsvs[rsv].status) then Releasing(rsv) else Stopped)
    case Releasing(rsv) => (Release(db, rsv).db, Stopped)
    case Reading(rsv) => (db, AfterReading(db, rsv))
    case LookingUp(rsv) => (db, if answer.Some? then Remarking(rsv, answer.value) else Stopped)
    case Remarking(rsv, settlement) =>
      var s := MarkPaid(db, rsv, settlement);
      (s.db, if s.result.Ok? then ToBooking(s.db, rsv) else Stopped)
    case Booking(rsv, invoice, settlement) =>
      var s := Finalize(db, rsv, Paid, invoice.amount + settlement.fee);
      (s.db, if s.result.Ok? then Done(rsv, s.result.value) else Stopped)
    case Done(_, _) => (db, w)
    case Stopped => (db, w)
  }

  predicate ReleasesLate(db: Db, w: Worker) {
    w.Releasing? && w.rsv < |db.rsvs| && db.rsvs[w.rsv].status == PaymentInitiated
  }

  function Next(sys: Sys, action: Action): Sys {
    match action
    case Authorize(maxTotal, maxPerCall, maxRouteFee, maxCalls, agents, specialties, expiresAt, now) =>
      sys.(db := Create(sys.db, maxTotal, maxPerCall, maxRouteFee, maxCalls, agents, specialties, expiresAt, now).db)
    case RevokeAuth(auth) => sys.(db := Revoke(sys.db, auth).db)
    case Execute(call, invoice, advertised, ceiling, now) =>
      sys.(workers := sys.workers + [if invoice.amount > advertised then Stopped else Reserving(call, invoice, ceiling, now)])
    case Reconcile(rsv) => sys.(workers := sys.workers + [Reading(rsv)])
    case Crash(worker) =>
      if worker >= |sys.workers| then sys else sys.(workers := sys.workers[worker := Stopped])
    case Advance(worker, answer) =>
      if worker >= |sys.workers| then sys
      else
        var w := sys.workers[worker];
        var (db, w') := Turn(sys.db, w, answer);
        Sys(db, sys.workers[worker := w'],
            if w.Paying? then sys.paid + [w.rsv] else sys.paid,
            if ReleasesLate(sys.db, w) then sys.late + {w.rsv} else sys.late)
  }

  function Exec(actions: seq<Action>): Sys {
    if actions == [] then START
    else Next(Exec(actions[..|actions| - 1]), actions[|actions| - 1])
  }

  /** The given number of steps of one worker, with nobody else moving. */
  function Drive(sys: Sys, worker: nat, answer: Option<Settlement>, steps: nat): Sys {
    Repeat((s: Sys) => Next(s, Advance(worker, answer)), sys, steps)
  }

  lemma DriveOne(sys: Sys, worker: nat, answer: Option<Settlement>, steps: nat)
    ensures Drive(sys, worker, answer, 0) == sys
    ensures Drive(sys, worker, answer, steps + 1) == Next(Drive(sys, worker, answer, steps), Advance(worker, answer))
  {
  }

  lemma DriveFurther(sys: Sys, worker: nat, answer: Option<Settlement>, a: nat, b: nat)
    ensures Drive(sys, worker, answer, a + b) == Drive(Drive(sys, worker, answer, a), worker, answer, b)
  {
    RepeatFurther((s: Sys) => Next(s, Advance(worker, answer)), sys, a, b);
  }

  // ---------------------------------------------------------------- what no store call undoes

  /** What happens to one reservation while any calls run. */
  ghost predicate RowEvolves(r: Reservation, r': Reservation) {
    && r'.call == r.call && r'.reserved == r.reserved && r'.reservedAt == r.reservedAt
    && (r.invoice.Some? ==> r'.invoice.Some? && r'.invoice.value.hash == r.invoice.value.hash)
    && (PaymentReached(r.status) ==> r'.invoice == r.invoice && (PaymentReached(r'.status) || r'.status == Released))
    && (r.status == Paid || r.status == Finalized ==>
          r'.settlement == r.settlement && (r'.status == Paid || r'.status == Finalized))
    && (r.status == Finalized || r.status == Released ==> r' == r)
  }

  /** What happens to the tables: rows stay, an authorization that is not active stays so and
      gets no new reservation, and receipts are only added. */
  ghost predicate Evolves(db: Db, db': Db) {
    && |db.auths| <= |db'.auths|
    && (forall a :: 0 <= a < |db.auths| && db.auths[a].status != Active ==> db'.auths[a].status != Active)
    && |db.rsvs| <= |db'.rsvs|
    && (forall i :: 0 <= i < |db.rsvs| ==> RowEvolves(db.rsvs[i], db'.rsvs[i]))
    && (forall i :: |db.rsvs| <= i < |db'.rsvs| ==> var a := db'.rsvs[i].call.auth; a < |db.auths| ==> db.auths[a].status == Active)
    && db.receipts <= db'.receipts
  }

  lemma EvolvesOnward(a: Db, b: Db, c: Db)
    requires Evolves(a, b) && Evolves(b, c)
    ensures Evolves(a, c)
  {
    forall i | 0 <= i < |a.rsvs|
      ensures RowEvolves(a.rsvs[i], c.rsvs[i])
    {
      assert RowEvolves(a.rsvs[i], b.rsvs[i]) && RowEvolves(b.rsvs[i], c.rsvs[i]);
    }
    forall i | |a.rsvs| <= i < |c.rsvs|
      ensures var o := c.rsvs[i].call.auth; o < |a.auths| ==> a.auths[o].status == Active
    {
      if i < |b.rsvs| {
        assert RowEvolves(b.rsvs[i], c.rsvs[i]);
      }
    }
  }

  /** A call that rewrites one reservation, touches one authorization and adds receipts. */
  lemma RewriteEvolves(db: Db, rsv: nat, row: Reservation, auths: seq<Authorization>, receipts: seq<Receipt>)
    requires rsv < |db.rsvs| && RowEvolves(db.rsvs[rsv], row)
    requires |auths| == |db.auths| && forall a :: 0 <= a < |auths| && db.auths[a].status != Active ==> auths[a].status != Active
    requires db.receipts <= receipts
    ensures Evolves(db, Db(auths, db.rsvs[rsv := row], receipts))
  {
  }

  lemma BindEvolves(db: Db, rsv: nat, invoice: Invoice)
    requires InOrder(db)
    ensures Evolves(db, BindInvoice(db, rsv, invoice).db)
  {
    var db' := BindInvoice(db, rsv, invoice).db;
    if db' != db {
      assert RsvInOrder(db, db.rsvs[rsv], rsv);
      RewriteEvolves(db, rsv, db'.rsvs[rsv], db.auths, db.receipts);
    }
  }

  lemma InitiateEvolves(db: Db, rsv: nat)
    ensures Evolves(db, MarkInitiated(db, rsv).db)
  {
    var db' := MarkInitiated(db, rsv).db;
    if db' != db {
      RewriteEvolves(db, rsv, db'.rsvs[rsv], db.auths, db.receipts);
    }
  }

  lemma PaidEvolves(db: Db, rsv: nat, settlement: Settlement)
    ensures Evolves(db, MarkPaid(db, rsv, settlement).db)
  {
    var db' := MarkPaid(db, rsv, settlement).db;
    if db' != db {
      RewriteEvolves(db, rsv, db'.rsvs[rsv], db.auths, db.receipts);
    }
  }

  lemma ReleaseEvolves(db: Db, rsv: nat)
    ensures Evolves(db, Release(db, rsv).db)
  {
    var db' := Release(db, rsv).db;
    if db' != db {
      RewriteEvolves(db, rsv, db'.rsvs[rsv], db'.auths, db.receipts);
    }
  }

  lemma FinalizeEvolves(db: Db, rsv: nat, seen: RsvStatus, debit: int)
    ensures Evolves(db, Finalize(db, rsv, seen, debit).db)
  {
    var db' := Finalize(db, rsv, seen, debit).db;
    if db' != db {
      RewriteEvolves(db, rsv, db'.rsvs[rsv], db'.auths, db'.receipts);
    }
  }

  lemma ReserveEvolves(db: Db, call: Call, ceiling: int, now: int)
    ensures Evolves(db, Reserve(db, call, ceiling, now).db)
  {
  }

  lemma NothingEvolves(db: Db)
    ensures Evolves(db, db)
  {
  }

  /** The steps of execute up to the settlement. */
  lemma CallEvolves(db: Db, w: Worker, answer: Option<Settlement>)
    requires InOrder(db) && (w.Reserving? || w.Binding? || w.Initiating? || w.Settling?)
    ensures Evolves(db, Turn(db, w, answer).0)
  {
    match w
    case Reserving(call, invoice, ceiling, now) => ReserveEvolves(db, call, ceiling, now);
    case Binding(rsv, invoice) => BindEvolves(db, rsv, invoice);
    case Initiating(rsv, invoice) => InitiateEvolves(db, rsv);
    case Settling(rsv, invoice, settlement) => PaidEvolves(db, rsv, settlement);
  }

  lemma TurnEvolves(db: Db, w: Worker, answer: Option<Settlement>)
    requires InOrder(db)
    ensures Evolves(db, Turn(db, w, answer).0)
  {
    if w.Reserving? || w.Binding? || w.Initiating? || w.Settling? {
      CallEvolves(db, w, answer);
    } else if w.Releasing? {
      ReleaseEvolves(db, w.rsv);
    } else if w.Remarking? {
      PaidEvolves(db, w.rsv, w.settlement);
    } else if w.Booking? {
      FinalizeEvolves(db, w.rsv, Paid, w.invoice.amount + w.settlement.fee);
    } else {
      NothingEvolves(db);
    }
  }

  lemma TurnKeepsOrder(db: Db, w: Worker, answer: Option<Settlement>)
    requires InOrder(db)
    ensures InOrder(Turn(db, w, answer).0)
  {
    match w
    case Reserving(call, invoice, ceiling, now) => ReserveKeepsOrder(db, call, ceiling, now);
    case Binding(rsv, invoice) => BindKeepsOrder(db, rsv, invoice);
    case Initiating(rsv, invoice) => InitiateKeepsOrder(db, rsv);
    case Settling(rsv, invoice, settlement) => PaidKeepsOrder(db, rsv, settlement);
    case Releasing(rsv) => ReleaseKeepsOrder(db, rsv);
    case Remarking(rsv, settlement) => PaidKeepsOrder(db, rsv, settlement);
    case Booking(rsv, invoice, settlement) => FinalizeKeepsOrder(db, rsv, Paid, invoice.amount + settlement.fee);
    case _ =>
  }

  // ---------------------------------------------------------------- what each worker may rely on

  ghost predicate Bound(db: Db, rsv: nat, invoice: Invoice) {
    rsv < |db.rsvs| && db.rsvs[rsv].invoice.Some? && db.rsvs[rsv].invoice.value.hash == invoice.hash
  }

  ghost predicate WorkerInOrder(db: Db, w: Worker) {
    match w
    case Binding(rsv, _) => rsv < |db.rsvs|
    case Cleanup(rsv) => rsv < |db.rsvs|
    case Releasing(rsv) => rsv < |db.rsvs|
    case Initiating(rsv, invoice) => Bound(db, rsv, invoice)
    case Paying(rsv, invoice) => Bound(db, rsv, invoice)
    case Awaiting(rsv, invoice) => Bound(db, rsv, invoice)
    case Settling(rsv, invoice, _) => Bound(db, rsv, invoice)
    case Booking(rsv, invoice, settlement) =>
      && Bound(db, rsv, invoice)
      && (db.rsvs[rsv].status == Paid || db.rsvs[rsv].status == Finalized)
      && db.rsvs[rsv].settlement == Some(settlement)
    case Done(rsv, receipt) => rsv < |db.rsvs| && db.rsvs[rsv].status == Finalized && db.rsvs[rsv].receipt == Some(receipt)
    case _ => true
  }

  /** Whatever other workers do, a worker's facts stay true. */
  lemma OthersKeepFacts(db: Db, db': Db, w: Worker)
    requires Evolves(db, db') && WorkerInOrder(db, w)
    ensures WorkerInOrder(db', w)
  {
    if !w.Reserving? && !w.Stopped? && w.rsv < |db.rsvs| {
      assert RowEvolves(db.rsvs[w.rsv], db'.rsvs[w.rsv]);
    }
  }

  lemma TurnKeepsFacts(db: Db, w: Worker, answer: Option<Settlement>)
    requires InOrder(db) && WorkerInOrder(db, w)
    ensures WorkerInOrder(Turn(db, w, answer).0, Turn(db, w, answer).1)
  {
    if w.Booking? {
      BookingKeepsFacts(db, w.rsv, w.invoice, w.settlement);
    }
  }

  lemma BookingKeepsFacts(db: Db, rsv: nat, invoice: Invoice, settlement: Settlement)
    requires InOrder(db) && rsv < |db.rsvs|
    ensures var s := Finalize(db, rsv, Paid, invoice.amount + settlement.fee);
            s.result.Ok? ==> WorkerInOrder(s.db, Done(rsv, s.result.value))
  {
    var existing := FindReceipt(db.receipts, rsv);
    if existing.Some? {
      assert ReceiptInOrder(db, db.receipts[existing.value], existing.value);
    }
  }

  // ---------------------------------------------------------------- the invariant of the system

  /** The payment of a reservation has been set off: its status says so, or it was released late. */
  ghost predicate SetOff(sys: Sys, rsv: nat) {
    && rsv < |sys.db.rsvs|
    && (PaymentReached(sys.db.rsvs[rsv].status) || (sys.db.rsvs[rsv].status == Released && rsv in sys.late))
  }

  ghost predicate PaymentsInOrder(sys: Sys) {
    && (forall i :: 0 <= i < |sys.paid| ==> SetOff(sys, sys.paid[i]))
    && (forall i, j :: 0 <= i < j < |sys.paid| ==> sys.paid[i] != sys.paid[j])
    && (forall k :: 0 <= k < |sys.workers| && sys.workers[k].Paying? ==>
          SetOff(sys, sys.workers[k].rsv) && sys.workers[k].rsv !in sys.paid)
    && (forall j, k :: 0 <= j < k < |sys.workers| && sys.workers[j].Paying? && sys.workers[k].Paying? ==>
          sys.workers[j].rsv != sys.workers[k].rsv)
  }

  ghost predicate LateInOrder(sys: Sys) {
    forall r :: r in sys.late ==> r < |sys.db.rsvs| && sys.db.rsvs[r].status == Released
  }

  ghost predicate SysInOrder(sys: Sys) {
    && InOrder(sys.db)
    && (forall k :: 0 <= k < |sys.workers| ==> WorkerInOrder(sys.db, sys.workers[k]))
    && PaymentsInOrder(sys)
    && LateInOrder(sys)
  }

  /** A payment that was set off stays so; only a late release takes it out of its status. */
  lemma SetOffStays(sys: Sys, worker: nat, answer: Option<Settlement>, rsv: nat)
    requires InOrder(sys.db) && SetOff(sys, rsv)
    ensures SetOff(Next(sys, Advance(worker, answer)), rsv)
  {
    if worker < |sys.workers| {
      var w := sys.workers[worker];
      var db' := Turn(sys.db, w, answer).0;
      TurnEvolves(sys.db, w, answer);
      assert RowEvolves(sys.db.rsvs[rsv], db'.rsvs[rsv]);
    }
  }

  lemma AdvanceKeepsPayments(sys: Sys, worker: nat, answer: Option<Settlement>)
    requires SysInOrder(sys)
    ensures PaymentsInOrder(Next(sys, Advance(worker, answer)))
  {
    var sys' := Next(sys, Advance(worker, answer));
    if worker < |sys.workers| {
      forall r | SetOff(sys, r)
        ensures SetOff(sys', r)
      {
        SetOffStays(sys, worker, answer, r);
      }
      PaymentsAfterTurn(sys, sys', worker, answer);
    }
  }

  lemma PaymentsAfterTurn(sys: Sys, sys': Sys, worker: nat, answer: Option<Settlement>)
    requires PaymentsInOrder(sys)
    requires worker < |sys.workers| && sys' == Next(sys, Advance(worker, answer))
    requires forall r :: SetOff(sys, r) ==> SetOff(sys', r)
    ensures PaymentsInOrder(sys')
  {
    var w, w' := sys.workers[worker], sys'.workers[worker];
    if w'.Paying? {
      assert w.Initiating? && SetOff(sys', w'.rsv);
      assert !SetOff(sys, w'.rsv);
    }
  }

  lemma AdvanceKeepsLate(sys: Sys, worker: nat, answer: Option<Settlement>)
    requires InOrder(sys.db) && LateInOrder(sys)
    ensures LateInOrder(Next(sys, Advance(worker, answer)))
  {
    if worker < |sys.workers| {
      var w := sys.workers[worker];
      TurnEvolves(sys.db, w, answer);
      if ReleasesLate(sys.db, w) {
        assert RsvInOrder(sys.db, sys.db.rsvs[w.rsv], w.rsv);
      }
    }
  }

  lemma AdvanceKeepsWorkers(sys: Sys, worker: nat, answer: Option<Settlement>)
    requires SysInOrder(sys)
    ensures var sys' := Next(sys, Advance(worker, answer));
            InOrder(sys'.db) && forall k :: 0 <= k < |sys'.workers| ==> WorkerInOrder(sys'.db, sys'.workers[k])
  {
    if worker < |sys.workers| {
      var w := sys.workers[worker];
      var db' := Turn(sys.db, w, answer).0;
      TurnKeepsOrder(sys.db, w, answer);
      TurnKeepsFacts(sys.db, w, answer);
      TurnEvolves(sys.db, w, answer);
      forall k | 0 <= k < |sys.workers|
        ensures WorkerInOrder(db', sys.workers[k]) || k == worker
      {
        OthersKeepFacts(sys.db, db', sys.workers[k]);
      }
    }
  }

  /** An administrator's call, which leaves every reservation alone. */
  lemma SameRowsKeepSys(sys: Sys, db: Db)
    requires SysInOrder(sys) && InOrder(db) && db.rsvs == sys.db.rsvs
    ensures SysInOrder(sys.(db := db))
  {
    var sys' := sys.(db := db);
    assert forall r :: SetOff(sys, r) <==> SetOff(sys', r);
    forall k | 0 <= k < |sys.workers|
      ensures WorkerInOrder(db, sys.workers[k])
    {
      assert WorkerInOrder(sys.db, sys.workers[k]);
    }
  }

  lemma StartKeepsSys(sys: Sys, w: Worker)
    requires SysInOrder(sys) && (w.Stopped? || w.Reserving? || w.Reading?)
    ensures SysInOrder(sys.(workers := sys.workers + [w]))
  {
    var sys' := sys.(workers := sys.workers + [w]);
    assert forall r :: SetOff(sys, r) <==> SetOff(sys', r);
  }

  lemma CrashKeepsSys(sys: Sys, worker: nat)
    requires SysInOrder(sys)
    ensures SysInOrder(Next(sys, Crash(worker)))
  {
    var sys' := Next(sys, Crash(worker));
    assert forall r :: SetOff(sys, r) <==> SetOff(sys', r);
  }

  lemma NextKeepsOrder(sys: Sys, action: Action)
    requires SysInOrder(sys)
    ensures SysInOrder(Next(sys, action))
  {
    match action
    case Authorize(maxTotal, maxPerCall, maxRouteFee, maxCalls, agents, specialties, expiresAt, now) =>
      CreateKeepsOrder(sys.db, maxTotal, maxPerCall, maxRouteFee, maxCalls, agents, specialties, expiresAt, now);
      SameRowsKeepSys(sys, Next(sys, action).db);
    case RevokeAuth(auth) =>
      RevokeKeepsOrder(sys.db, auth);
      SameRowsKeepSys(sys, Next(sys, action).db);
    case Advance(worker, answer) =>
      AdvanceKeepsWorkers(sys, worker, answer);
      AdvanceKeepsPayments(sys, worker, answer);
      AdvanceKeepsLate(sys, worker, answer);
    case Execute(call, invoice, advertised, ceiling, now) =>
      StartKeepsSys(sys, if invoice.amount > advertised then Stopped else Reserving(call, invoice, ceiling, now));
    case Reconcile(rsv) => StartKeepsSys(sys, Reading(rsv));
    case Crash(worker) => CrashKeepsSys(sys, worker);
  }

  lemma {:induction false} RunInOrder(actions: seq<Action>)
    ensures SysInOrder(Exec(actions))
  {
    if actions != [] {
      RunInOrder(actions[..|actions| - 1]);
      NextKeepsOrder(Exec(actions[..|actions| - 1]), actions[|actions| - 1]);
    }
  }

  // ---------------------------------------------------------------- over every run

  /** pay_invoice is called at most once per reservation, hence at most once per authorization
      and idempotency key, in every interleaving with any crashes. */
  lemma PaysAtMostOnce(actions: seq<Action>, i: nat, j: nat)
    requires var sys := Exec(actions); i < j < |sys.paid|
    ensures var sys := Exec(actions);
            && sys.paid[i] < |sys.db.rsvs| && sys.paid[j] < |sys.db.rsvs|
            && sys.paid[i] != sys.paid[j]
            && var (c, d) := (sys.db.rsvs[sys.paid[i]].call, sys.db.rsvs[sys.paid[j]].call);
               c.auth != d.auth || c.key != d.key
  {
    RunInOrder(actions);
    var sys := Exec(actions);
    assert SetOff(sys, sys.paid[i]) && SetOff(sys, sys.paid[j]);
  }

  /** Every reservation that was paid for is still on its way to a receipt, or has one, or was
      released late; and a late release is final, so that payment can never be booked. */
  lemma PaidIsAccountedFor(actions: seq<Action>, i: nat)
    requires i < |Exec(actions).paid|
    ensures var sys := Exec(actions);
            && sys.paid[i] < |sys.db.rsvs|
            && (PaymentReached(sys.db.rsvs[sys.paid[i]].status) <==> sys.paid[i] !in sys.late)
  {
    RunInOrder(actions);
    assert SetOff(Exec(actions), Exec(actions).paid[i]);
  }

  lemma LateIsLost(actions: seq<Action>, rsv: nat, s: Settlement)
    requires rsv in Exec(actions).late
    ensures var db := Exec(actions).db;
            && rsv < |db.rsvs| && db.rsvs[rsv].status == Released
            && MarkPaid(db, rsv, s).result.Err?
            && forall k :: 0 <= k < |db.receipts| ==> db.receipts[k].reservation != rsv
  {
    RunInOrder(actions);
    var db := Exec(actions).db;
    forall k | 0 <= k < |db.receipts|
      ensures db.receipts[k].reservation != rsv
    {
      assert ReceiptInOrder(db, db.receipts[k], k);
    }
  }

  /** Every caller that finishes a reservation, by execute or by reconcile, gets one receipt. */
  lemma SameReceiptForAll(actions: seq<Action>, j: nat, k: nat)
    requires var sys := Exec(actions);
             && j < |sys.workers| && k < |sys.workers|
             && sys.workers[j].Done? && sys.workers[k].Done? && sys.workers[j].rsv == sys.workers[k].rsv
    ensures var sys := Exec(actions);
            && sys.workers[j].receipt == sys.workers[k].receipt < |sys.db.receipts|
            && sys.db.receipts[sys.workers[j].receipt].reservation == sys.workers[j].rsv
  {
    RunInOrder(actions);
    var sys := Exec(actions);
    assert WorkerInOrder(sys.db, sys.workers[j]) && WorkerInOrder(sys.db, sys.workers[k]);
    assert RsvInOrder(sys.db, sys.db.rsvs[sys.workers[j].rsv], sys.workers[j].rsv);
  }

  /** In every run a reservation has at most one receipt, and only a finalized one has it. */
  lemma OneReceiptPerReservation(actions: seq<Action>, j: nat, k: nat)
    requires var receipts := Exec(actions).db.receipts;
             j < |receipts| && k < |receipts| && receipts[j].reservation == receipts[k].reservation
    ensures var (db, rsv) := (Exec(actions).db, Exec(actions).db.receipts[j].reservation);
            j == k && rsv < |db.rsvs| && db.rsvs[rsv].status == Finalized && db.rsvs[rsv].receipt == Some(j)
  {
    RunInOrder(actions);
    OneReceiptEach(Exec(actions).db, Exec(actions).db.receipts[j].reservation, j, k);
  }

  lemma NextEvolves(sys: Sys, action: Action)
    requires InOrder(sys.db)
    ensures Evolves(sys.db, Next(sys, action).db)
  {
    if action.Advance? && action.worker < |sys.workers| {
      TurnEvolves(sys.db, sys.workers[action.worker], action.answer);
    }
  }

  lemma LastActionEvolves(actions: seq<Action>)
    requires actions != []
    ensures Evolves(Exec(actions[..|actions| - 1]).db, Exec(actions).db)
  {
    RunInOrder(actions[..|actions| - 1]);
    NextEvolves(Exec(actions[..|actions| - 1]), actions[|actions| - 1]);
  }

  /** From any moment of a run to any later one: an authorization that is not active never
      becomes active and gets no new reservation, a paid reservation only becomes finalized,
      a finalized or released one never changes, and receipts only accumulate. */
  lemma {:induction false} RunEvolves(before: seq<Action>, after: seq<Action>)
    ensures Evolves(Exec(before).db, Exec(before + after).db)
    decreases |after|
  {
    if after == [] {
      assert before + after == before;
    } else {
      var all, front := before + after, before + after[..|after| - 1];
      assert all[..|all| - 1] == front;
      RunEvolves(before, after[..|after| - 1]);
      LastActionEvolves(all);
      EvolvesOnward(Exec(before).db, Exec(front).db, Exec(all).db);
    }
  }
}
