/** The budget rail as the services write it: tables updated in place inside a transaction, and a
    service that drives them. Each store call is proved to be its function in Authorizations, and
    each service call to be a run of one worker of L402Workers.
    services/agent-commerce/agent_commerce/authorization.py:81-447, receipts.py:45-150,
    l402.py:190-327, recovery.py:12-80 and storage.py:190-201. */
module AuthorizationStore {
  import opened Sums
  import opened Authorizations
  import opened L402Workers

  class Database {
    var auths: seq<Authorization>
    var rsvs: seq<Reservation>
    var receipts: seq<Receipt>
    var begun: Db

    constructor ()
      ensures Tables() == begun == EMPTY_DB
    {
      auths, rsvs, receipts, begun := [], [], [], EMPTY_DB;
    }

    function Tables(): Db
      reads this
    {
      Db(auths, rsvs, receipts)
    }

    /** BEGIN: the tables as they now are is what a ROLLBACK comes back to. */
    method Begin()
      modifies this`begun
      ensures begun == Tables()
    {
      begun := Tables();
    }

    /** ROLLBACK: the tables are as they were when the transaction began, whatever it wrote. */
    method Rollback()
      modifies this`auths, this`rsvs, this`receipts
      ensures Tables() == begun
    {
      auths, rsvs, receipts := begun.auths, begun.rsvs, begun.receipts;
    }
  }

  class Store {
    const db: Database

    constructor (db: Database)
      ensures this.db == db
    {
      this.db := db;
    }

    method CreateAuthorization(maxTotal: int, maxPerCall: int, maxRouteFee: int, maxCalls: int,
                               agents: set<string>, specialties: set<string>, expiresAt: int, now: int)
      returns (r: Result<nat>)
      modifies db
      ensures Step(db.Tables(), r)
              == Create(old(db.Tables()), maxTotal, maxPerCall, maxRouteFee, maxCalls, agents, specialties, expiresAt, now)
    {
      if maxTotal <= 0 || maxPerCall <= 0 || maxCalls <= 0 {
        return Err(InvalidLimits);
      }
      if maxPerCall > maxTotal || maxRouteFee < 0 || expiresAt <= now {
        return Err(InvalidLimits);
      }
      r := Ok(|db.auths|);
      db.auths := db.auths + [Authorization(maxTotal, maxPerCall, maxRouteFee, maxCalls, agents, specialties, expiresAt, Active, 0, 0, 0)];
    }

    method RevokeAuthorization(auth: nat) returns (r: Result<nat>)
      modifies db
      ensures Step(db.Tables(), r) == Revoke(old(db.Tables()), auth)
    {
      if auth >= |db.auths| {
        return Err(Denied);
      }
      r := Ok(auth);
      if db.auths[auth].status == Revoked {
        assert db.auths == db.auths[auth := db.auths[auth].(status := Revoked)];
        return;
      }
      db.auths := db.auths[auth := db.auths[auth].(status := Revoked)];
    }

    method ReserveBudget(call: Call, ceiling: int, now: int) returns (r: Result<nat>)
      modifies db
      ensures Step(db.Tables(), r) == Reserve(old(db.Tables()), call, ceiling, now)
    {
      if call.quoted <= 0 {
        return Err(Denied);
      }
      db.Begin();
      var existing := FindKey(db.rsvs, call.auth, call.key);
      if existing.Some? {
        return if db.rsvs[existing.value].call != call then Err(Conflict) else Ok(existing.value);
      }
      if call.auth >= |db.auths| {
        return Err(Denied);
      }
      var row := db.auths[call.auth];
      if row.status == Revoked {
        return Err(WasRevoked);
      }
      if row.status != Active {
        return Err(Denied);
      }
      if row.expiresAt <= now {
        db.auths := db.auths[call.auth := row.(status := Expired)];
        db.Rollback();
        return Err(PastExpiry);
      }
      if (row.agents != {} && call.agent !in row.agents) || (row.specialties != {} && call.specialty !in row.specialties) {
        return Err(Denied);
      }
      if call.quoted > row.maxPerCall {
        return Err(OverBudget);
      }
      var openCount := Sum(db.rsvs, OpenOne(call.auth));
      if row.callCount + openCount >= row.maxCalls {
        return Err(OverBudget);
      }
      var reserved := ceiling + row.maxRouteFee;
      if reserved > row.maxPerCall + row.maxRouteFee {
        return Err(OverBudget);
      }
      var available := row.maxTotal - row.spent - row.reserved;
      if reserved > available {
        return Err(OverBudget);
      }
      if reserved <= 0 {
        return Err(ConstraintViolated);
      }
      r := Ok(|db.rsvs|);
      db.rsvs := db.rsvs + [Reservation(call, reserved, now, Reserved, None, None, None)];
      db.auths := db.auths[call.auth := row.(reserved := row.reserved + reserved)];
    }

    method Bind(rsv: nat, invoice: Invoice) returns (r: Result<nat>)
      modifies db
      ensures Step(db.Tables(), r) == BindInvoice(old(db.Tables()), rsv, invoice)
    {
      if invoice.amount <= 0 || invoice.hash == "" || rsv >= |db.rsvs| {
        return Err(Denied);
      }
      var row := db.rsvs[rsv];
      if row.status != Reserved && row.status != InvoiceBound {
        return Err(Denied);
      }
      if invoice.amount > row.reserved {
        return Err(OverBudget);
      }
      if row.invoice.Some? && row.invoice.value.hash != invoice.hash {
        return Err(Conflict);
      }
      db.rsvs := db.rsvs[rsv := row.(invoice := Some(invoice), status := InvoiceBound)];
      r := Ok(rsv);
    }

    method MarkPaymentInitiated(rsv: nat) returns (r: Result<nat>)
      modifies db
      ensures Step(db.Tables(), r) == MarkInitiated(old(db.Tables()), rsv)
    {
      if rsv >= |db.rsvs| || db.rsvs[rsv].status != InvoiceBound {
        return Err(Denied);
      }
      db.rsvs := db.rsvs[rsv := db.rsvs[rsv].(status := PaymentInitiated)];
      r := Ok(rsv);
    }

    method Settle(rsv: nat, s: Settlement) returns (r: Result<nat>)
      modifies db
      ensures Step(db.Tables(), r) == MarkPaid(old(db.Tables()), rsv, s)
    {
      if s.fee < 0 {
        return Err(InvalidLimits);
      }
      if rsv >= |db.rsvs| {
        return Err(Denied);
      }
      var row := db.rsvs[rsv];
      if row.status == Paid {
        return if row.settlement != Some(s) then Err(Conflict) else Ok(rsv);
      }
      if row.status != PaymentInitiated || row.invoice.None? {
        return Err(Denied);
      }
      var debit := row.invoice.value.amount + s.fee;
      if debit > row.reserved {
        return Err(OverBudget);
      }
      db.rsvs := db.rsvs[rsv := row.(settlement := Some(s), status := Paid)];
      r := Ok(rsv);
    }

    method ReleaseReservation(rsv: nat) returns (r: Result<nat>)
      modifies db
      ensures Step(db.Tables(), r) == Release(old(db.Tables()), rsv)
    {
      if rsv >= |db.rsvs| {
        return Err(Denied);
      }
      var row := db.rsvs[rsv];
      if row.status == Released || row.status == Finalized {
        return Ok(rsv);
      }
      if row.status == Paid || row.call.auth >= |db.auths| {
        return Err(Denied);
      }
      var auth := db.auths[row.call.auth];
      db.auths := db.auths[row.call.auth := auth.(reserved := auth.reserved - row.reserved)];
      db.rsvs := db.rsvs[rsv := row.(status := Released)];
      r := Ok(rsv);
    }

    /** finalize_paid_call inserts the receipt first, then moves reserved to spent, then closes the row. */
    method FinalizePaidCall(rsv: nat, seen: RsvStatus, debit: int) returns (r: Result<nat>)
      modifies db
      ensures Step(db.Tables(), r) == Finalize(old(db.Tables()), rsv, seen, debit)
    {
      if seen != Paid {
        return Err(Denied);
      }
      var existing := FindReceipt(db.receipts, rsv);
      if existing.Some? {
        return Ok(existing.value);
      }
      if rsv >= |db.rsvs| || db.rsvs[rsv].status != Paid {
        return Err(Conflict);
      }
      var row := db.rsvs[rsv];
      if debit > row.reserved || row.call.auth >= |db.auths| {
        return Err(Denied);
      }
      var auth := db.auths[row.call.auth];
      if auth.spent + debit > auth.maxTotal {
        return Err(Denied);
      }
      var receipt := |db.receipts|;
      db.receipts := db.receipts + [Receipt(rsv, row.call.auth, debit)];
      db.auths := db.auths[row.call.auth := Charged(auth, row.reserved, debit)];
      db.rsvs := db.rsvs[rsv := row.(status := Finalized, receipt := Some(receipt))];
      r := Ok(receipt);
    }
  }

  /** How a call that ends leaves its worker. */
  function Ended(rsv: nat, receipt: Option<nat>): Worker {
    if receipt.Some? then Done(rsv, receipt.value) else Stopped
  }

  lemma DriveThrough(start: Sys, mid: Sys, answer: Option<Settlement>, a: nat, b: nat)
    requires Drive(start, 0, answer, a) == mid
    ensures Drive(start, 0, answer, a + b) == Drive(mid, 0, answer, b)
  {
    DriveFurther(start, 0, answer, a, b);
  }

  /** The service behind execute and reconcile, with the payments it asked the provider for. */
  class Service {
    const store: Store
    var payments: seq<nat>

    constructor (store: Store)
      ensures this.store == store && payments == []
    {
      this.store := store;
      payments := [];
    }

    /** The state as a system with one worker. */
    function Alone(w: Worker): Sys
      reads this, store.db
    {
      Sys(store.db.Tables(), [w], payments, {})
    }

    /** execute up to the payment: a bound invoice and an initiated payment, or an exception. */
    method BindAndInitiate(rsv: nat, invoice: Invoice, ghost answer: Option<Settlement>) returns (ok: bool, ghost steps: nat)
      modifies store.db
      ensures Alone(if ok then Paying(rsv, invoice) else Cleanup(rsv)) == Drive(old(Alone(Binding(rsv, invoice))), 0, answer, steps)
    {
      ghost var start := Alone(Binding(rsv, invoice));
      DriveOne(start, 0, answer, 0);
      var r := store.Bind(rsv, invoice);
      if r.Err? {
        return false, 1;
      }
      assert Alone(Initiating(rsv, invoice)) == Drive(start, 0, answer, 1);
      DriveOne(start, 0, answer, 1);
      r := store.MarkPaymentInitiated(rsv);
      return r.Ok?, 2;
    }

    /** The payment itself, and recording its settlement. */
    method PayAndSettle(rsv: nat, invoice: Invoice, answer: Option<Settlement>) returns (paid: bool, ghost steps: nat)
      modifies this, store.db
      ensures paid ==> answer.Some?
      ensures payments == old(payments) + [rsv]
      ensures Alone(if paid then Booking(rsv, invoice, answer.value) else Cleanup(rsv)) == Drive(old(Alone(Paying(rsv, invoice))), 0, answer, steps)
    {
      ghost var start := Alone(Paying(rsv, invoice));
      DriveOne(start, 0, answer, 0);
      payments := payments + [rsv];
      assert Alone(Awaiting(rsv, invoice)) == Drive(start, 0, answer, 1);
      DriveOne(start, 0, answer, 1);
      if answer.None? {
        return false, 2;
      }
      assert Alone(Settling(rsv, invoice, answer.value)) == Drive(start, 0, answer, 2);
      DriveOne(start, 0, answer, 2);
      var r := store.Settle(rsv, answer.value);
      return r.Ok?, 3;
    }

    /** The part of execute inside its try: bind, initiate, pay, mark paid. */
    method PayReserved(rsv: nat, invoice: Invoice, answer: Option<Settlement>) returns (paid: bool, ghost steps: nat)
      modifies this, store.db
      ensures paid ==> answer.Some?
      ensures Alone(if paid then Booking(rsv, invoice, answer.value) else Cleanup(rsv)) == Drive(old(Alone(Binding(rsv, invoice))), 0, answer, steps)
    {
      ghost var start := Alone(Binding(rsv, invoice));
      paid, steps := BindAndInitiate(rsv, invoice, answer);
      if paid {
        ghost var before, bound := steps, Alone(Paying(rsv, invoice));
        paid, steps := PayAndSettle(rsv, invoice, answer);
        DriveThrough(start, bound, answer, before, steps);
        steps := before + steps;
      }
    }

    /** The except branch: a reservation whose payment has not been reached is released. */
    method CleanUp(rsv: nat, ghost answer: Option<Settlement>) returns (ghost steps: nat)
      modifies store.db
      ensures Alone(Stopped) == Drive(old(Alone(Cleanup(rsv))), 0, answer, steps)
    {
      ghost var start := Alone(Cleanup(rsv));
      DriveOne(start, 0, answer, 0);
      if rsv < |store.db.rsvs| && !PaymentReached(store.db.rsvs[rsv].status) {
        assert Alone(Releasing(rsv)) == Drive(start, 0, answer, 1);
        DriveOne(start, 0, answer, 1);
        var r := store.ReleaseReservation(rsv);
        return 2;
      }
      return 1;
    }

    /** Both ways of finishing: write the receipt, or find the one that is there. */
    method Book(rsv: nat, invoice: Invoice, s: Settlement, ghost answer: Option<Settlement>) returns (receipt: Option<nat>, ghost steps: nat)
      modifies store.db
      ensures Alone(Ended(rsv, receipt)) == Drive(old(Alone(Booking(rsv, invoice, s))), 0, answer, steps)
    {
      DriveOne(Alone(Booking(rsv, invoice, s)), 0, answer, 0);
      var r := store.FinalizePaidCall(rsv, Paid, invoice.amount + s.fee);
      return if r.Ok? then Some(r.value) else None, 1;
    }

    /** execute from the reservation that reserve returned. */
    method PayAndBook(rsv: nat, invoice: Invoice, answer: Option<Settlement>) returns (receipt: Option<nat>, ghost steps: nat)
      modifies this, store.db
      ensures Alone(Ended(rsv, receipt)) == Drive(old(Alone(Binding(rsv, invoice))), 0, answer, steps)
    {
      ghost var start := Alone(Binding(rsv, invoice));
      var paid;
      paid, steps := PayReserved(rsv, invoice, answer);
      ghost var before, tried := steps, Alone(if paid then Booking(rsv, invoice, answer.value) else Cleanup(rsv));
      if paid {
        receipt, steps := Book(rsv, invoice, answer.value, answer);
      } else {
        steps := CleanUp(rsv, answer);
        receipt := None;
      }
      DriveThrough(start, tried, answer, before, steps);
      steps := before + steps;
    }

    /** The first step of execute's database work. */
    method ReserveFor(call: Call, invoice: Invoice, ceiling: int, now: int, ghost answer: Option<Settlement>) returns (id: Option<nat>)
      modifies store.db
      ensures id.Some? ==> id.value < |store.db.rsvs|
      ensures Alone(if id.Some? then AfterReserve(store.db.Tables(), id.value, invoice) else Stopped)
              == Drive(old(Alone(Reserving(call, invoice, ceiling, now))), 0, answer, 1)
    {
      DriveOne(Alone(Reserving(call, invoice, ceiling, now)), 0, answer, 0);
      var r := store.ReserveBudget(call, ceiling, now);
      return if r.Ok? && r.value < |store.db.rsvs| then Some(r.value) else None;
    }

    /** What execute does with the reservation: return its receipt, refuse to pay again, or pay. */
    method Continue(id: nat, invoice: Invoice, answer: Option<Settlement>) returns (receipt: Option<nat>, ghost steps: nat)
      requires id < |store.db.rsvs|
      modifies this, store.db
      ensures Alone(if receipt.Some? then Done(id, receipt.value) else Stopped)
              == Drive(old(Alone(AfterReserve(store.db.Tables(), id, invoice))), 0, answer, steps)
    {
      var row := store.db.rsvs[id];
      if row.status == Finalized && row.receipt.Some? {
        DriveOne(Alone(Done(id, row.receipt.value)), 0, answer, 0);
        return Some(row.receipt.value), 0;
      }
      if row.status == PaymentInitiated || row.status == Paid {
        receipt := None;
        steps := CleanUp(id, answer);
      } else {
        receipt, steps := PayAndBook(id, invoice, answer);
      }
    }

    /** execute, with the provider's answer to its payment: the run of one worker. */
    method ExecuteCall(call: Call, invoice: Invoice, advertised: int, ceiling: int, now: int, answer: Option<Settlement>)
      returns (receipt: Option<nat>, ghost rsv: nat, ghost steps: nat)
      modifies this, store.db
      ensures var start := old(Alone(if invoice.amount > advertised then Stopped else Reserving(call, invoice, ceiling, now)));
              Alone(Ended(rsv, receipt)) == Drive(start, 0, answer, steps)
    {
      ghost var start := Alone(if invoice.amount > advertised then Stopped else Reserving(call, invoice, ceiling, now));
      if invoice.amount > advertised {
        DriveOne(start, 0, answer, 0);
        return None, 0, 0;
      }
      var id := ReserveFor(call, invoice, ceiling, now, answer);
      if id.None? {
        return None, 0, 1;
      }
      ghost var reserved := Drive(start, 0, answer, 1);
      receipt, steps := Continue(id.value, invoice, answer);
      DriveThrough(start, reserved, answer, 1, steps);
      return receipt, id.value, 1 + steps;
    }

    /** The lookup half of reconcile: settle an initiated payment the provider can prove. */
    method LookUp(rsv: nat, answer: Option<Settlement>) returns (ok: bool, ghost steps: nat)
      modifies store.db
      ensures Alone(if ok then ToBooking(store.db.Tables(), rsv) else Stopped) == Drive(old(Alone(LookingUp(rsv))), 0, answer, steps)
    {
      ghost var start := Alone(LookingUp(rsv));
      DriveOne(start, 0, answer, 0);
      if answer.None? {
        return false, 1;
      }
      assert Alone(Remarking(rsv, answer.value)) == Drive(start, 0, answer, 1);
      DriveOne(start, 0, answer, 1);
      var r := store.Settle(rsv, answer.value);
      return r.Ok?, 2;
    }

    /** Read the row: it is finalized, or awaits its payment, or is booked as it stands. */
    method ReadRow(rsv: nat, ghost answer: Option<Settlement>) returns (ok: bool, pending: bool, receipt: Option<nat>)
      ensures Alone(if pending then LookingUp(rsv) else if ok then ToBooking(store.db.Tables(), rsv)
                    else Ended(rsv, receipt))
              == Drive(Alone(Reading(rsv)), 0, answer, 1)
    {
      DriveOne(Alone(Reading(rsv)), 0, answer, 0);
      if rsv >= |store.db.rsvs| {
        return false, false, None;
      }
      var row := store.db.rsvs[rsv];
      if row.status == Finalized && row.receipt.Some? {
        return false, false, row.receipt;
      }
      return true, row.status == PaymentInitiated && row.invoice.Some?, None;
    }

    /** The first half of reconcile: read the row and, if it awaits its payment, look that up. */
    method ReadAndLookUp(rsv: nat, answer: Option<Settlement>)
      returns (ok: bool, receipt: Option<nat>, ghost next: Worker, ghost steps: nat)
      modifies store.db
      ensures next == if ok then ToBooking(store.db.Tables(), rsv) else Ended(rsv, receipt)
      ensures Alone(next) == Drive(old(Alone(Reading(rsv))), 0, answer, steps)
    {
      ghost var start := Alone(Reading(rsv));
      var pending;
      ok, pending, receipt := ReadRow(rsv, answer);
      next, steps := if ok then ToBooking(store.db.Tables(), rsv) else Ended(rsv, receipt), 1;
      if pending {
        ghost var asked := Alone(LookingUp(rsv));
        ok, steps := LookUp(rsv, answer);
        DriveThrough(start, asked, answer, 1, steps);
        receipt, steps := None, 1 + steps;
        next := if ok then ToBooking(store.db.Tables(), rsv) else Stopped;
      }
    }

    /** The second half: book what the stored row says, if it is paid. */
    method BookStored(rsv: nat, ghost next: Worker, ghost answer: Option<Settlement>) returns (receipt: Option<nat>, ghost steps: nat)
      requires next == ToBooking(store.db.Tables(), rsv)
      modifies store.db
      ensures Alone(Ended(rsv, receipt)) == Drive(old(Alone(next)), 0, answer, steps)
    {
      if rsv < |store.db.rsvs| {
        var row := store.db.rsvs[rsv];
        if row.status == Paid && row.invoice.Some? && row.settlement.Some? {
          receipt, steps := Book(rsv, row.invoice.value, row.settlement.value, answer);
          return;
        }
      }
      DriveOne(Alone(Stopped), 0, answer, 0);
      return None, 0;
    }

    /** reconcile_initiated_payment, with the provider's answer to its lookup. It never pays. */
    method ReconcilePayment(rsv: nat, answer: Option<Settlement>) returns (receipt: Option<nat>, ghost steps: nat)
      modifies store.db
      ensures Alone(Ended(rsv, receipt)) == Drive(old(Alone(Reading(rsv))), 0, answer, steps)
    {
      ghost var start := Alone(Reading(rsv));
      var ok;
      ghost var next;
      ok, receipt, next, steps := ReadAndLookUp(rsv, answer);
      if ok {
        ghost var before, read := steps, Alone(next);
        receipt, steps := BookStored(rsv, next, answer);
        DriveThrough(start, read, answer, before, steps);
        steps := before + steps;
      }
    }
  }
}
