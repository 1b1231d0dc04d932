/** One paid call from its reservation to its end, and every answer it can get: what reserve
    admits and refuses, and what a whole execute leaves behind when nobody else moves.
    services/agent-commerce/agent_commerce/authorization.py:202-281 and l402.py:190-327. */
module L402Calls {
  import opened Sums
  import opened Authorizations
  import opened L402Workers

  // ---------------------------------------------------------------- what reserve admits

  ghost predicate Unused(db: Db, call: Call) {
    forall i :: 0 <= i < |db.rsvs| ==> db.rsvs[i].call.auth != call.auth || db.rsvs[i].call.key != call.key
  }

  ghost predicate Covers(a: Authorization, call: Call) {
    (a.agents == {} || call.agent in a.agents) && (a.specialties == {} || call.specialty in a.specialties)
  }

  /** How many of the authorization's calls are under way. */
  function OpenCalls(rsvs: seq<Reservation>, auth: nat): int {
    if rsvs == [] then 0
    else
      var n := |rsvs| - 1;
      OpenCalls(rsvs[..n], auth)
      + if rsvs[n].call.auth == auth && rsvs[n].status in {Reserved, InvoiceBound, PaymentInitiated, Paid} then 1 else 0
  }

  lemma {:induction false} OpenCallsIsSum(rsvs: seq<Reservation>, auth: nat)
    ensures OpenCalls(rsvs, auth) == Sum(rsvs, OpenOne(auth))
  {
    if rsvs != [] {
      OpenCallsIsSum(rsvs[..|rsvs| - 1], auth);
    }
  }

  /** The call fits a price limit, a call slot and the money that is left. */
  ghost predicate HasRoom(a: Authorization, open: int, call: Call, ceiling: int) {
    && call.quoted <= a.maxPerCall
    && ceiling <= a.maxPerCall
    && a.callCount + open + 1 <= a.maxCalls
    && a.spent + a.reserved + ceiling + a.maxRouteFee <= a.maxTotal
  }

  ghost predicate Reservable(db: Db, call: Call, ceiling: int, now: int) {
    && call.quoted > 0
    && call.auth < |db.auths|
    && var a := db.auths[call.auth];
       && a.status == Active && now < a.expiresAt
       && Covers(a, call)
       && HasRoom(a, OpenCalls(db.rsvs, call.auth), call, ceiling)
       && 0 < ceiling + a.maxRouteFee
  }

  /** Under an unused key, a call is reserved exactly when an authorization in force covers it and
      has room for it, and the row says what was asked, for how much and when. */
  lemma ReserveExactly(db: Db, call: Call, ceiling: int, now: int)
    requires Unused(db, call)
    ensures var s := Reserve(db, call, ceiling, now);
            && (s.result.Ok? <==> Reservable(db, call, ceiling, now))
            && (s.result.Err? ==> s.db == db)
            && (s.result.Ok? ==>
                  var a := db.auths[call.auth];
                  && s.result.value == |db.rsvs|
                  && s.db.rsvs == db.rsvs + [Reservation(call, ceiling + a.maxRouteFee, now, Reserved, None, None, None)]
                  && s.db.auths == db.auths[call.auth := a.(reserved := a.reserved + ceiling + a.maxRouteFee)]
                  && s.db.receipts == db.receipts)
  {
    assert FindKey(db.rsvs, call.auth, call.key).None?;
    OpenCallsIsSum(db.rsvs, call.auth);
  }

  /** And every refusal has its own condition. */
  lemma RefusalsAreExact(db: Db, call: Call, ceiling: int, now: int)
    requires Unused(db, call) && call.quoted > 0 && call.auth < |db.auths|
    ensures var (a, r) := (db.auths[call.auth], Reserve(db, call, ceiling, now).result);
            var inForce := a.status == Active && now < a.expiresAt;
            var fits := HasRoom(a, OpenCalls(db.rsvs, call.auth), call, ceiling);
            && (r == Err(WasRevoked) <==> a.status == Revoked)
            && (r == Err(PastExpiry) <==> a.status == Active && a.expiresAt <= now)
            && (r == Err(Denied) <==> a.status == Consumed || a.status == Expired || (inForce && !Covers(a, call)))
            && (r == Err(OverBudget) <==> inForce && Covers(a, call) && !fits)
            && (r == Err(ConstraintViolated) <==> inForce && Covers(a, call) && fits && ceiling + a.maxRouteFee <= 0)
  {
    assert FindKey(db.rsvs, call.auth, call.key).None?;
    OpenCallsIsSum(db.rsvs, call.auth);
  }

  /** A call without a price or without an authorization is denied, and so is revoking nothing. */
  lemma UnknownIsDenied(db: Db, call: Call, ceiling: int, now: int)
    requires call.quoted <= 0 || (Unused(db, call) && call.auth >= |db.auths|)
    ensures Reserve(db, call, ceiling, now) == Step(db, Err(Denied))
    ensures call.auth >= |db.auths| ==> Revoke(db, call.auth) == Step(db, Err(Denied))
  {
    if call.quoted > 0 {
      assert FindKey(db.rsvs, call.auth, call.key).None?;
    }
  }

  // ---------------------------------------------------------------- what each later step answers

  /** An invoice is bound exactly to an unpaid reservation that covers it and has no other one; the
      refusals say which of these it missed, and change nothing. */
  lemma BindAnswers(db: Db, rsv: nat, invoice: Invoice)
    ensures var s := BindInvoice(db, rsv, invoice);
            var waits := rsv < |db.rsvs| && db.rsvs[rsv].status in {Reserved, InvoiceBound} && invoice.hash != "" && 0 < invoice.amount;
            && (s.result == Err(Denied) <==> !waits)
            && (s.result == Err(OverBudget) <==> waits && db.rsvs[rsv].reserved < invoice.amount)
            && (s.result == Err(Conflict) <==>
                  waits && invoice.amount <= db.rsvs[rsv].reserved
                  && db.rsvs[rsv].invoice.Some? && db.rsvs[rsv].invoice.value.hash != invoice.hash)
            && (if s.result.Ok? then
                  s.result.value == rsv
                  && s.db == db.(rsvs := db.rsvs[rsv := db.rsvs[rsv].(invoice := Some(invoice), status := InvoiceBound)])
                else s.db == db && s.result.error in {Denied, OverBudget, Conflict})
  {
  }

  /** A payment is set off exactly from a bound invoice. */
  lemma InitiateAnswers(db: Db, rsv: nat)
    ensures var s := MarkInitiated(db, rsv);
            && (s.result == Ok(rsv) <==> rsv < |db.rsvs| && db.rsvs[rsv].status == InvoiceBound)
            && (s.result != Ok(rsv) ==> s.result == Err(Denied) && s.db == db)
            && (s.result == Ok(rsv) ==>
                  && |s.db.rsvs| == |db.rsvs| && s.db.rsvs[rsv].status == PaymentInitiated
                  && s.db.(rsvs := s.db.rsvs[rsv := s.db.rsvs[rsv].(status := InvoiceBound)]) == db)
  {
  }

  /** A settlement is recorded exactly on an initiated payment that it fits; a recorded one is only
      ever repeated; the refusals say what was missed, and change nothing. */
  lemma SettleAnswers(db: Db, rsv: nat, s: Settlement)
    requires InOrder(db)
    ensures var (r, known) := (MarkPaid(db, rsv, s), s.fee >= 0 && rsv < |db.rsvs|);
            && (r.result == Err(InvalidLimits) <==> s.fee < 0)
            && (r.result == Err(Denied) <==> s.fee >= 0 && (rsv >= |db.rsvs| || db.rsvs[rsv].status !in {Paid, PaymentInitiated}))
            && (r.result == Err(Conflict) <==> known && db.rsvs[rsv].status == Paid && db.rsvs[rsv].settlement != Some(s))
            && (r.result == Err(OverBudget) <==>
                  known && db.rsvs[rsv].status == PaymentInitiated
                  && db.rsvs[rsv].invoice.Some? && db.rsvs[rsv].reserved < db.rsvs[rsv].invoice.value.amount + s.fee)
            && (if r.result.Ok? then
                  r.result.value == rsv
                  && r.db == (if db.rsvs[rsv].status == Paid then db
                              else db.(rsvs := db.rsvs[rsv := db.rsvs[rsv].(settlement := Some(s), status := Paid)]))
                else r.db == db && r.result.error in {InvalidLimits, Denied, Conflict, OverBudget})
  {
    if rsv < |db.rsvs| {
      assert RsvInOrder(db, db.rsvs[rsv], rsv);
    }
  }

  /** A reservation is given back exactly until it is paid: its amount is free again and its row is
      released; one that is closed is left as it is. */
  lemma ReleaseAnswers(db: Db, rsv: nat)
    requires InOrder(db)
    ensures var s := Release(db, rsv);
            && (s.result == Err(Denied) <==> rsv >= |db.rsvs| || db.rsvs[rsv].status == Paid)
            && (s.result != Err(Denied) ==> s.result == Ok(rsv))
            && (s.result == Err(Denied) || db.rsvs[rsv].status in {Released, Finalized} ==> s.db == db)
            && (s.result == Ok(rsv) && db.rsvs[rsv].status in {Reserved, InvoiceBound, PaymentInitiated} ==>
                  var (row, auth) := (db.rsvs[rsv], db.rsvs[rsv].call.auth);
                  && auth < |db.auths|
                  && s.db.rsvs == db.rsvs[rsv := row.(status := Released)]
                  && s.db.auths == db.auths[auth := db.auths[auth].(reserved := db.auths[auth].reserved - row.reserved)]
                  && s.db.receipts == db.receipts)
  {
    if rsv < |db.rsvs| {
      assert RsvInOrder(db, db.rsvs[rsv], rsv);
    }
  }

  ghost predicate Receipted(db: Db, rsv: nat) {
    exists k :: 0 <= k < |db.receipts| && db.receipts[k].reservation == rsv
  }

  /** A receipt is written exactly for a paid reservation without one, for a debit it covers; one
      that exists is given again; and a reservation that moved on in between is a conflict. */
  lemma FinalizeAnswers(db: Db, rsv: nat, seen: RsvStatus, debit: int)
    requires InOrder(db)
    ensures var s := Finalize(db, rsv, seen, debit);
            && (s.result == Err(Denied) <==>
                  seen != Paid || (rsv < |db.rsvs| && db.rsvs[rsv].status == Paid && db.rsvs[rsv].reserved < debit))
            && (s.result == Err(Conflict) <==>
                  seen == Paid && !Receipted(db, rsv) && (rsv >= |db.rsvs| || db.rsvs[rsv].status != Paid))
            && (s.result.Err? ==> s.db == db && s.result.error in {Denied, Conflict})
            && (s.result.Ok? ==> s.result.value < |s.db.receipts| && s.db.receipts[s.result.value].reservation == rsv)
            && (s.result.Ok? && Receipted(db, rsv) ==> s.db == db)
  {
    if rsv < |db.rsvs| && db.rsvs[rsv].status == Paid {
      FinalizeOfPaid(db, rsv, debit);
    }
  }

  lemma FinalizeOfPaid(db: Db, rsv: nat, debit: int)
    requires InOrder(db) && rsv < |db.rsvs| && db.rsvs[rsv].status == Paid
    ensures !Receipted(db, rsv)
    ensures Finalize(db, rsv, Paid, debit).result == if debit <= db.rsvs[rsv].reserved then Ok(|db.receipts|) else Err(Denied)
  {
    forall k | 0 <= k < |db.receipts|
      ensures db.receipts[k].reservation != rsv
    {
      assert ReceiptInOrder(db, db.receipts[k], k);
    }
    OpenInsideReserved(db, rsv);
    assert AuthInOrder(db, db.rsvs[rsv].call.auth);
  }

  // ---------------------------------------------------------------- a whole call, nobody else moving

  /** The system with one worker somewhere and given tables and payments. */
  function With(sys: Sys, k: nat, db: Db, w: Worker, paid: seq<nat>): Sys
    requires k < |sys.workers|
  {
    Sys(db, sys.workers[k := w], paid, sys.late)
  }

  lemma OneMore(start: Sys, steps: nat, sys: Sys, k: nat, db: Db, w: Worker, paid: seq<nat>, answer: Option<Settlement>)
    requires k < |sys.workers| && !ReleasesLate(db, w)
    requires Drive(start, k, answer, steps) == With(sys, k, db, w, paid)
    ensures Drive(start, k, answer, steps + 1)
            == With(sys, k, Turn(db, w, answer).0, Turn(db, w, answer).1, if w.Paying? then paid + [w.rsv] else paid)
  {
    DriveOne(start, k, answer, steps);
    var w' := Turn(db, w, answer).1;
    assert sys.workers[k := w][k := w'] == sys.workers[k := w'];
  }

  /** The tables with one more reservation, and with its authorization as given. */
  function Rows(db: Db, a: Authorization, row: Reservation): Db
    requires row.call.auth < |db.auths|
  {
    Db(db.auths[row.call.auth := a], db.rsvs + [row], db.receipts)
  }

  /** The row of a call, and its authorization while the row is open. */
  function RowOf(db: Db, call: Call, ceiling: int, now: int, status: RsvStatus, invoice: Option<Invoice>): Reservation
    requires call.auth < |db.auths|
  {
    Reservation(call, ceiling + db.auths[call.auth].maxRouteFee, now, status, invoice, None, None)
  }

  function Holding(a: Authorization, ceiling: int): Authorization {
    a.(reserved := a.reserved + ceiling + a.maxRouteFee)
  }

  /** The tables while the call's row is open: one row more, and its amount held. */
  function Held(db: Db, call: Call, ceiling: int, now: int, status: RsvStatus, invoice: Option<Invoice>): Db
    requires call.auth < |db.auths|
  {
    Rows(db, Holding(db.auths[call.auth], ceiling), RowOf(db, call, ceiling, now, status, invoice))
  }

  lemma Reserves(db: Db, call: Call, invoice: Invoice, ceiling: int, now: int, answer: Option<Settlement>)
    requires Unused(db, call) && Reservable(db, call, ceiling, now)
    ensures Turn(db, Reserving(call, invoice, ceiling, now), answer)
            == (Held(db, call, ceiling, now, Reserved, None), Binding(|db.rsvs|, invoice))
  {
    ReserveExactly(db, call, ceiling, now);
  }

  /** The invoice may be bound to a reservation of that amount. */
  ghost predicate Bindable(invoice: Invoice, reserved: int) {
    invoice.hash != "" && 0 < invoice.amount <= reserved
  }

  lemma Binds(db: Db, call: Call, invoice: Invoice, ceiling: int, now: int, answer: Option<Settlement>)
    requires call.auth < |db.auths|
    ensures var held := Held(db, call, ceiling, now, Reserved, None);
            Turn(held, Binding(|db.rsvs|, invoice), answer)
            == if Bindable(invoice, ceiling + db.auths[call.auth].maxRouteFee)
               then (Held(db, call, ceiling, now, InvoiceBound, Some(invoice)), Initiating(|db.rsvs|, invoice))
               else (held, Cleanup(|db.rsvs|))
  {
    var row := RowOf(db, call, ceiling, now, Reserved, None);
    assert (db.rsvs + [row])[|db.rsvs| := row.(invoice := Some(invoice), status := InvoiceBound)]
        == db.rsvs + [row.(invoice := Some(invoice), status := InvoiceBound)];
  }

  lemma Initiates(db: Db, call: Call, invoice: Invoice, ceiling: int, now: int, answer: Option<Settlement>)
    requires call.auth < |db.auths|
    ensures Turn(Held(db, call, ceiling, now, InvoiceBound, Some(invoice)), Initiating(|db.rsvs|, invoice), answer)
            == (Held(db, call, ceiling, now, PaymentInitiated, Some(invoice)), Paying(|db.rsvs|, invoice))
  {
    var row := RowOf(db, call, ceiling, now, InvoiceBound, Some(invoice));
    assert (db.rsvs + [row])[|db.rsvs| := row.(status := PaymentInitiated)] == db.rsvs + [row.(status := PaymentInitiated)];
  }

  /** The settlement can be recorded against a reservation of that amount. */
  ghost predicate Settles(invoice: Invoice, s: Settlement, reserved: int) {
    s.fee >= 0 && invoice.amount + s.fee <= reserved
  }

  lemma Records(db: Db, call: Call, invoice: Invoice, ceiling: int, now: int, s: Settlement)
    requires call.auth < |db.auths|
    ensures var initiated := Held(db, call, ceiling, now, PaymentInitiated, Some(invoice));
            Turn(initiated, Settling(|db.rsvs|, invoice, s), Some(s))
            == if Settles(invoice, s, ceiling + db.auths[call.auth].maxRouteFee)
               then (Settled(db, call, invoice, ceiling, now, s), Booking(|db.rsvs|, invoice, s))
               else (initiated, Cleanup(|db.rsvs|))
  {
    var row := RowOf(db, call, ceiling, now, PaymentInitiated, Some(invoice));
    assert (db.rsvs + [row])[|db.rsvs| := row.(settlement := Some(s), status := Paid)]
        == db.rsvs + [row.(settlement := Some(s), status := Paid)];
  }

  /** A cleanup gives an unpaid reservation back and leaves an initiated payment alone. */
  lemma CleansUp(db: Db, call: Call, ceiling: int, now: int, answer: Option<Settlement>)
    requires call.auth < |db.auths|
    ensures var (held, n) := (Held(db, call, ceiling, now, Reserved, None), |db.rsvs|);
            && Turn(held, Cleanup(n), answer) == (held, Releasing(n))
            && Turn(held, Releasing(n), answer)
               == (db.(rsvs := db.rsvs + [RowOf(db, call, ceiling, now, Released, None)]), Stopped)
  {
    var row := RowOf(db, call, ceiling, now, Reserved, None);
    assert (db.rsvs + [row])[|db.rsvs| := row.(status := Released)] == db.rsvs + [row.(status := Released)];
    assert db.auths[call.auth := Holding(db.auths[call.auth], ceiling)][call.auth := db.auths[call.auth]] == db.auths;
  }

  /** The authorization after a call that cost it the debit. */
  function Spent(a: Authorization, debit: int): Authorization {
    a.(spent := a.spent + debit, callCount := a.callCount + 1,
       status := if a.callCount + 1 < a.maxCalls && a.spent + debit < a.maxTotal then a.status else Consumed)
  }

  /** The tables after a call that went through. */
  function Booked(db: Db, call: Call, invoice: Invoice, ceiling: int, now: int, s: Settlement): Db
    requires call.auth < |db.auths|
  {
    Rows(db, Spent(db.auths[call.auth], invoice.amount + s.fee),
         RowOf(db, call, ceiling, now, Finalized, Some(invoice)).(settlement := Some(s), receipt := Some(|db.receipts|)))
    .(receipts := db.receipts + [Receipt(|db.rsvs|, call.auth, invoice.amount + s.fee)])
  }

  /** The tables between the settlement of the call and its receipt. */
  function Settled(db: Db, call: Call, invoice: Invoice, ceiling: int, now: int, s: Settlement): Db
    requires call.auth < |db.auths|
  {
    Rows(db, Holding(db.auths[call.auth], ceiling), RowOf(db, call, ceiling, now, Paid, Some(invoice)).(settlement := Some(s)))
  }

  lemma BooksRow(db: Db, call: Call, invoice: Invoice, ceiling: int, now: int, s: Settlement)
    requires InOrder(db) && call.auth < |db.auths|
    requires Settles(invoice, s, ceiling + db.auths[call.auth].maxRouteFee)
    requires HasRoom(db.auths[call.auth], OpenCalls(db.rsvs, call.auth), call, ceiling)
    ensures Turn(Settled(db, call, invoice, ceiling, now, s), Booking(|db.rsvs|, invoice, s), Some(s))
            == (Booked(db, call, invoice, ceiling, now, s), Done(|db.rsvs|, |db.receipts|))
  {
    var (a, n) := (db.auths[call.auth], |db.rsvs|);
    var paid := RowOf(db, call, ceiling, now, Paid, Some(invoice)).(settlement := Some(s));
    var held := Rows(db, Holding(a, ceiling), paid);
    forall k | 0 <= k < |db.receipts|
      ensures db.receipts[k].reservation != n
    {
      assert ReceiptInOrder(db, db.receipts[k], k);
    }
    assert FindReceipt(held.receipts, n).None?;
    ReservedNonNegative(db, call.auth);
    var debit := invoice.amount + s.fee;
    assert Charged(Holding(a, ceiling), paid.reserved, debit) == Spent(a, debit);
    assert held.auths[call.auth := Spent(a, debit)] == db.auths[call.auth := Spent(a, debit)];
    assert held.rsvs[n := paid.(status := Finalized, receipt := Some(|db.receipts|))]
        == db.rsvs + [paid.(status := Finalized, receipt := Some(|db.receipts|))];
  }

  lemma ReservedNonNegative(db: Db, auth: nat)
    requires InOrder(db) && auth < |db.auths|
    ensures db.auths[auth].reserved >= 0
  {
    forall i | 0 <= i < |db.rsvs|
      ensures OpenAmount(auth)(db.rsvs[i]) >= 0
    {
      assert RsvInOrder(db, db.rsvs[i], i);
    }
    NonNegative(db.rsvs, OpenAmount(auth));
    assert AuthInOrder(db, auth);
  }

  /** A state with a call just started in it, and the state that call's worker leaves. */
  function Started(sys: Sys, call: Call, invoice: Invoice, ceiling: int, now: int): Sys {
    Next(sys, Execute(call, invoice, invoice.amount, ceiling, now))
  }

  function Leaves(sys: Sys, db: Db, w: Worker, paid: seq<nat>): Sys {
    Sys(db, sys.workers + [w], paid, sys.late)
  }

  lemma WithLast(sys: Sys, call: Call, invoice: Invoice, ceiling: int, now: int, db: Db, w: Worker, paid: seq<nat>)
    ensures With(Started(sys, call, invoice, ceiling, now), |sys.workers|, db, w, paid) == Leaves(sys, db, w, paid)
  {
  }

  lemma OneMoreOf(sys: Sys, call: Call, invoice: Invoice, ceiling: int, now: int, answer: Option<Settlement>,
                  steps: nat, db: Db, w: Worker, paid: seq<nat>)
    requires !ReleasesLate(db, w)
    requires Drive(Started(sys, call, invoice, ceiling, now), |sys.workers|, answer, steps) == Leaves(sys, db, w, paid)
    ensures Drive(Started(sys, call, invoice, ceiling, now), |sys.workers|, answer, steps + 1)
            == Leaves(sys, Turn(db, w, answer).0, Turn(db, w, answer).1, if w.Paying? then paid + [w.rsv] else paid)
  {
    var start := Started(sys, call, invoice, ceiling, now);
    WithLast(sys, call, invoice, ceiling, now, db, w, paid);
    OneMore(start, steps, start, |sys.workers|, db, w, paid, answer);
    WithLast(sys, call, invoice, ceiling, now, Turn(db, w, answer).0, Turn(db, w, answer).1,
             if w.Paying? then paid + [w.rsv] else paid);
  }

  lemma StartsReserving(sys: Sys, call: Call, invoice: Invoice, ceiling: int, now: int, answer: Option<Settlement>)
    ensures Drive(Started(sys, call, invoice, ceiling, now), |sys.workers|, answer, 0)
            == Leaves(sys, sys.db, Reserving(call, invoice, ceiling, now), sys.paid)
  {
    DriveOne(Started(sys, call, invoice, ceiling, now), |sys.workers|, answer, 0);
  }

  /** An invoice above the advertised ceiling is not paid and touches nothing. */
  lemma DearCall(sys: Sys, call: Call, invoice: Invoice, advertised: int, ceiling: int, now: int)
    ensures Next(sys, Execute(call, invoice, advertised, ceiling, now))
            == if invoice.amount <= advertised then Started(sys, call, invoice, ceiling, now)
               else Leaves(sys, sys.db, Stopped, sys.paid)
  {
  }

  /** A call that is not reservable ends at once and touches nothing. */
  lemma RefusedCall(sys: Sys, call: Call, invoice: Invoice, ceiling: int, now: int, answer: Option<Settlement>)
    requires Unused(sys.db, call) && !Reservable(sys.db, call, ceiling, now)
    ensures Drive(Started(sys, call, invoice, ceiling, now), |sys.workers|, answer, 1) == Leaves(sys, sys.db, Stopped, sys.paid)
  {
    StartsReserving(sys, call, invoice, ceiling, now, answer);
    OneMoreOf(sys, call, invoice, ceiling, now, answer, 0, sys.db, Reserving(call, invoice, ceiling, now), sys.paid);
    ReserveExactly(sys.db, call, ceiling, now);
  }

  /** A call whose invoice does not fit its reservation ends with a released row, with nothing
      paid and every authorization as it was. */
  lemma UnboundCall(sys: Sys, call: Call, invoice: Invoice, ceiling: int, now: int, answer: Option<Settlement>)
    requires Unused(sys.db, call) && Reservable(sys.db, call, ceiling, now)
    requires !Bindable(invoice, ceiling + sys.db.auths[call.auth].maxRouteFee)
    ensures Drive(Started(sys, call, invoice, ceiling, now), |sys.workers|, answer, 4)
            == Leaves(sys, sys.db.(rsvs := sys.db.rsvs + [RowOf(sys.db, call, ceiling, now, Released, None)]), Stopped, sys.paid)
  {
    var (db, n) := (sys.db, |sys.db.rsvs|);
    var held := Held(db, call, ceiling, now, Reserved, None);
    StartsReserving(sys, call, invoice, ceiling, now, answer);
    Reserves(db, call, invoice, ceiling, now, answer);
    OneMoreOf(sys, call, invoice, ceiling, now, answer, 0, db, Reserving(call, invoice, ceiling, now), sys.paid);
    Binds(db, call, invoice, ceiling, now, answer);
    OneMoreOf(sys, call, invoice, ceiling, now, answer, 1, held, Binding(n, invoice), sys.paid);
    CleansUp(db, call, ceiling, now, answer);
    OneMoreOf(sys, call, invoice, ceiling, now, answer, 2, held, Cleanup(n), sys.paid);
    OneMoreOf(sys, call, invoice, ceiling, now, answer, 3, held, Releasing(n), sys.paid);
  }

  /** Every other call pays once, for its own new reservation. */
  lemma PaysOnce(sys: Sys, call: Call, invoice: Invoice, ceiling: int, now: int, answer: Option<Settlement>)
    requires Unused(sys.db, call) && Reservable(sys.db, call, ceiling, now)
    requires Bindable(invoice, ceiling + sys.db.auths[call.auth].maxRouteFee)
    ensures var (db, n) := (sys.db, |sys.db.rsvs|);
            Drive(Started(sys, call, invoice, ceiling, now), |sys.workers|, answer, 4)
            == Leaves(sys, Held(db, call, ceiling, now, PaymentInitiated, Some(invoice)), Awaiting(n, invoice), sys.paid + [n])
  {
    var (db, n) := (sys.db, |sys.db.rsvs|);
    StartsReserving(sys, call, invoice, ceiling, now, answer);
    Reserves(db, call, invoice, ceiling, now, answer);
    OneMoreOf(sys, call, invoice, ceiling, now, answer, 0, db, Reserving(call, invoice, ceiling, now), sys.paid);
    Binds(db, call, invoice, ceiling, now, answer);
    OneMoreOf(sys, call, invoice, ceiling, now, answer, 1, Held(db, call, ceiling, now, Reserved, None), Binding(n, invoice), sys.paid);
    Initiates(db, call, invoice, ceiling, now, answer);
    OneMoreOf(sys, call, invoice, ceiling, now, answer, 2, Held(db, call, ceiling, now, InvoiceBound, Some(invoice)),
              Initiating(n, invoice), sys.paid);
    OneMoreOf(sys, call, invoice, ceiling, now, answer, 3, Held(db, call, ceiling, now, PaymentInitiated, Some(invoice)),
              Paying(n, invoice), sys.paid);
  }

  /** A payment without a settlement that fits leaves its money held for a reconciliation: the row
      stays initiated, and nothing is spent. */
  lemma UnsettledCall(sys: Sys, call: Call, invoice: Invoice, ceiling: int, now: int, answer: Option<Settlement>)
    requires Unused(sys.db, call) && Reservable(sys.db, call, ceiling, now)
    requires Bindable(invoice, ceiling + sys.db.auths[call.auth].maxRouteFee)
    requires answer.Some? ==> !Settles(invoice, answer.value, ceiling + sys.db.auths[call.auth].maxRouteFee)
    ensures var (db, n) := (sys.db, |sys.db.rsvs|);
            Drive(Started(sys, call, invoice, ceiling, now), |sys.workers|, answer, if answer.Some? then 7 else 6)
            == Leaves(sys, Held(db, call, ceiling, now, PaymentInitiated, Some(invoice)), Stopped, sys.paid + [n])
  {
    var (db, n) := (sys.db, |sys.db.rsvs|);
    var initiated := Held(db, call, ceiling, now, PaymentInitiated, Some(invoice));
    PaysOnce(sys, call, invoice, ceiling, now, answer);
    OneMoreOf(sys, call, invoice, ceiling, now, answer, 4, initiated, Awaiting(n, invoice), sys.paid + [n]);
    if answer.Some? {
      Records(db, call, invoice, ceiling, now, answer.value);
      OneMoreOf(sys, call, invoice, ceiling, now, answer, 5, initiated, Settling(n, invoice, answer.value), sys.paid + [n]);
      OneMoreOf(sys, call, invoice, ceiling, now, answer, 6, initiated, Cleanup(n), sys.paid + [n]);
    } else {
      OneMoreOf(sys, call, invoice, ceiling, now, answer, 5, initiated, Cleanup(n), sys.paid + [n]);
    }
  }

  lemma SettledFrom(sys: Sys, call: Call, invoice: Invoice, ceiling: int, now: int, s: Settlement)
    requires InOrder(sys.db) && Unused(sys.db, call) && Reservable(sys.db, call, ceiling, now)
    requires Bindable(invoice, ceiling + sys.db.auths[call.auth].maxRouteFee)
    requires Settles(invoice, s, ceiling + sys.db.auths[call.auth].maxRouteFee)
    ensures var (db, n) := (sys.db, |sys.db.rsvs|);
            Drive(Started(sys, call, invoice, ceiling, now), |sys.workers|, Some(s), 7)
            == Leaves(sys, Booked(db, call, invoice, ceiling, now, s), Done(n, |db.receipts|), sys.paid + [n])
  {
    var (db, n) := (sys.db, |sys.db.rsvs|);
    var initiated := Held(db, call, ceiling, now, PaymentInitiated, Some(invoice));
    PaysOnce(sys, call, invoice, ceiling, now, Some(s));
    OneMoreOf(sys, call, invoice, ceiling, now, Some(s), 4, initiated, Awaiting(n, invoice), sys.paid + [n]);
    Records(db, call, invoice, ceiling, now, s);
    OneMoreOf(sys, call, invoice, ceiling, now, Some(s), 5, initiated, Settling(n, invoice, s), sys.paid + [n]);
    BooksRow(db, call, invoice, ceiling, now, s);
    OneMoreOf(sys, call, invoice, ceiling, now, Some(s), 6, Settled(db, call, invoice, ceiling, now, s), Booking(n, invoice, s), sys.paid + [n]);
  }

  /** And a settlement that fits is booked, in every reachable state: one payment, one finalized
      row with its invoice and settlement, one receipt for the invoice plus the fee, which is what
      the authorization spent; what was held beyond it is free again. */
  lemma SettledCall(actions: seq<Action>, call: Call, invoice: Invoice, ceiling: int, now: int, s: Settlement)
    requires var db := Exec(actions).db;
             && Unused(db, call) && Reservable(db, call, ceiling, now)
             && Bindable(invoice, ceiling + db.auths[call.auth].maxRouteFee)
             && Settles(invoice, s, ceiling + db.auths[call.auth].maxRouteFee)
    ensures var (sys, db) := (Exec(actions), Exec(actions).db);
            Drive(Started(sys, call, invoice, ceiling, now), |sys.workers|, Some(s), 7)
            == Leaves(sys, Booked(db, call, invoice, ceiling, now, s), Done(|db.rsvs|, |db.receipts|), sys.paid + [|db.rsvs|])
  {
    RunInOrder(actions);
    SettledFrom(Exec(actions), call, invoice, ceiling, now, s);
  }

  /** Whatever step of the payment raises, in any state, the call goes on to clean up. */
  lemma ExceptionsCleanUp(db: Db, w: Worker, answer: Option<Settlement>)
    requires match w
             case Binding(rsv, invoice) => BindInvoice(db, rsv, invoice).result.Err?
             case Initiating(rsv, _) => MarkInitiated(db, rsv).result.Err?
             case Awaiting(_, _) => answer.None?
             case Settling(rsv, _, settlement) => MarkPaid(db, rsv, settlement).result.Err?
             case _ => false
    ensures Turn(db, w, answer) == (db, Cleanup(w.rsv))
  {
  }

  /** And it gives the reservation back exactly if it then reads that no payment was reached. */
  lemma CleanupDecides(db: Db, rsv: nat, answer: Option<Settlement>)
    requires rsv < |db.rsvs|
    ensures Turn(db, Cleanup(rsv), answer)
            == (db, if db.rsvs[rsv].status in {Reserved, InvoiceBound, Released} then Releasing(rsv) else Stopped)
  {
  }

  // ---------------------------------------------------------------- a call under a used key

  /** A call is repeated once its reservation is past paying, or given back: the tables and the
      payments stay, and it gets the receipt exactly if there is one. */
  lemma RepeatedCall(sys: Sys, i: nat, invoice: Invoice, ceiling: int, now: int, answer: Option<Settlement>)
    requires InOrder(sys.db) && i < |sys.db.rsvs| && sys.db.rsvs[i].call.quoted > 0
    requires PaymentReached(sys.db.rsvs[i].status) || sys.db.rsvs[i].status == Released
    ensures var row := sys.db.rsvs[i];
            && (row.status == Finalized ==> row.receipt.Some?)
            && Drive(Started(sys, row.call, invoice, ceiling, now), |sys.workers|, answer,
                     if row.status == Finalized then 1 else if row.status == Released then 4 else 2)
               == Leaves(sys, sys.db, if row.status == Finalized then Done(i, row.receipt.value) else Stopped, sys.paid)
  {
    var (db, row) := (sys.db, sys.db.rsvs[i]);
    assert RsvInOrder(db, row, i);
    assert FindKey(db.rsvs, row.call.auth, row.call.key) == Some(i);
    StartsReserving(sys, row.call, invoice, ceiling, now, answer);
    OneMoreOf(sys, row.call, invoice, ceiling, now, answer, 0, db, Reserving(row.call, invoice, ceiling, now), sys.paid);
    if row.status == Released {
      OneMoreOf(sys, row.call, invoice, ceiling, now, answer, 1, db, Binding(i, invoice), sys.paid);
      OneMoreOf(sys, row.call, invoice, ceiling, now, answer, 2, db, Cleanup(i), sys.paid);
      OneMoreOf(sys, row.call, invoice, ceiling, now, answer, 3, db, Releasing(i), sys.paid);
    } else if row.status != Finalized {
      OneMoreOf(sys, row.call, invoice, ceiling, now, answer, 1, db, Cleanup(i), sys.paid);
    }
  }

  /** Other details under the key end at once and touch nothing. */
  lemma OtherCallUnderKey(sys: Sys, i: nat, call: Call, invoice: Invoice, ceiling: int, now: int, answer: Option<Settlement>)
    requires InOrder(sys.db) && i < |sys.db.rsvs| && call != sys.db.rsvs[i].call
    requires call.auth == sys.db.rsvs[i].call.auth && call.key == sys.db.rsvs[i].call.key
    ensures Drive(Started(sys, call, invoice, ceiling, now), |sys.workers|, answer, 1) == Leaves(sys, sys.db, Stopped, sys.paid)
  {
    assert FindKey(sys.db.rsvs, call.auth, call.key) == Some(i);
    StartsReserving(sys, call, invoice, ceiling, now, answer);
    OneMoreOf(sys, call, invoice, ceiling, now, answer, 0, sys.db, Reserving(call, invoice, ceiling, now), sys.paid);
  }

  /** A call that crashed before its payment is taken up where it stopped: its retry pays once,
      for the same reservation, if it brings an invoice that row can take. */
  lemma InterruptedCall(sys: Sys, i: nat, invoice: Invoice, ceiling: int, now: int, answer: Option<Settlement>)
    requires InOrder(sys.db) && i < |sys.db.rsvs| && sys.db.rsvs[i].call.quoted > 0
    requires var row := sys.db.rsvs[i];
             && (row.status == Reserved || row.status == InvoiceBound)
             && Bindable(invoice, row.reserved)
             && (row.invoice.Some? ==> row.invoice.value.hash == invoice.hash)
    ensures var row := sys.db.rsvs[i];
            Drive(Started(sys, row.call, invoice, ceiling, now), |sys.workers|, answer, 4)
            == Leaves(sys, sys.db.(rsvs := sys.db.rsvs[i := row.(status := PaymentInitiated, invoice := Some(invoice))]),
                      Awaiting(i, invoice), sys.paid + [i])
  {
    var (db, row) := (sys.db, sys.db.rsvs[i]);
    var bound := db.(rsvs := db.rsvs[i := row.(status := InvoiceBound, invoice := Some(invoice))]);
    var initiated := db.(rsvs := db.rsvs[i := row.(status := PaymentInitiated, invoice := Some(invoice))]);
    assert FindKey(db.rsvs, row.call.auth, row.call.key) == Some(i);
    StartsReserving(sys, row.call, invoice, ceiling, now, answer);
    OneMoreOf(sys, row.call, invoice, ceiling, now, answer, 0, db, Reserving(row.call, invoice, ceiling, now), sys.paid);
    OneMoreOf(sys, row.call, invoice, ceiling, now, answer, 1, db, Binding(i, invoice), sys.paid);
    assert bound.rsvs[i := initiated.rsvs[i]] == initiated.rsvs;
    OneMoreOf(sys, row.call, invoice, ceiling, now, answer, 2, bound, Initiating(i, invoice), sys.paid);
    OneMoreOf(sys, row.call, invoice, ceiling, now, answer, 3, initiated, Paying(i, invoice), sys.paid);
  }

  // ---------------------------------------------------------------- a reconciliation that books nothing

  lemma OneMoreLookup(sys: Sys, rsv: nat, answer: Option<Settlement>, steps: nat, w: Worker)
    requires !ReleasesLate(sys.db, w) && !w.Paying? && Turn(sys.db, w, answer).0 == sys.db
    requires Drive(Next(sys, Reconcile(rsv)), |sys.workers|, answer, steps) == Leaves(sys, sys.db, w, sys.paid)
    ensures Drive(Next(sys, Reconcile(rsv)), |sys.workers|, answer, steps + 1) == Leaves(sys, sys.db, Turn(sys.db, w, answer).1, sys.paid)
  {
    var start, w' := Next(sys, Reconcile(rsv)), Turn(sys.db, w, answer).1;
    assert With(start, |sys.workers|, sys.db, w, sys.paid) == Leaves(sys, sys.db, w, sys.paid);
    OneMore(start, steps, start, |sys.workers|, sys.db, w, sys.paid, answer);
    assert With(start, |sys.workers|, sys.db, w', sys.paid) == Leaves(sys, sys.db, w', sys.paid);
  }

  /** Reconciling a finalized reservation returns its receipt; one that was never paid for, given
      back or unknown gives nothing, like an initiated one without a settlement that fits, which
      waits on. None of them changes anything. */
  lemma ReconcileChangesNothing(sys: Sys, rsv: nat, answer: Option<Settlement>)
    requires InOrder(sys.db)
    requires rsv < |sys.db.rsvs| ==> sys.db.rsvs[rsv].status != Paid
    requires rsv < |sys.db.rsvs| && sys.db.rsvs[rsv].status == PaymentInitiated && answer.Some? ==>
               sys.db.rsvs[rsv].invoice.Some? && !Settles(sys.db.rsvs[rsv].invoice.value, answer.value, sys.db.rsvs[rsv].reserved)
    ensures var finalized := rsv < |sys.db.rsvs| && sys.db.rsvs[rsv].status == Finalized;
            && (finalized ==> sys.db.rsvs[rsv].receipt.Some?)
            && Drive(Next(sys, Reconcile(rsv)), |sys.workers|, answer, 3)
               == Leaves(sys, sys.db, if finalized then Done(rsv, sys.db.rsvs[rsv].receipt.value) else Stopped, sys.paid)
  {
    if rsv < |sys.db.rsvs| {
      assert RsvInOrder(sys.db, sys.db.rsvs[rsv], rsv);
    }
    DriveOne(Next(sys, Reconcile(rsv)), |sys.workers|, answer, 0);
    OneMoreLookup(sys, rsv, answer, 0, Reading(rsv));
    var read := AfterReading(sys.db, rsv);
    OneMoreLookup(sys, rsv, answer, 1, read);
    OneMoreLookup(sys, rsv, answer, 2, Turn(sys.db, read, answer).1);
  }
}
