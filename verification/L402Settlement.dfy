/** What a run of paid calls books: each settled payment exactly once, at the stored invoice plus
    the stored fee, by whichever call or reconciliation gets there first. */
module L402Settlement {
  import opened Sums
  import opened Authorizations
  import opened L402Workers
  import opened L402Keys

  // ---------------------------------------------------------------- money booked exactly once

  ghost predicate HasInvoice(w: Worker) {
    w.Reserving? || w.Binding? || w.Initiating? || w.Paying? || w.Awaiting? || w.Settling? || w.Booking?
  }

  /** What a finalized reservation cost its authorization. */
  function Booked(auth: nat): Reservation -> int {
    (r: Reservation) =>
      if r.call.auth == auth && r.status == Finalized && r.invoice.Some? && r.settlement.Some?
      then r.invoice.value.amount + r.settlement.value.fee else 0
  }

  ghost predicate SpentIsBooked(db: Db, auth: nat)
    requires auth < |db.auths|
  {
    db.auths[auth].spent == Sum(db.rsvs, Booked(auth))
  }

  ghost predicate AllBooked(db: Db) {
    forall auth :: 0 <= auth < |db.auths| ==> SpentIsBooked(db, auth)
  }

  /** Every invoice a worker holds or a row stores satisfies a property of invoices. */
  ghost predicate InvoicesAre(good: Invoice -> bool, sys: Sys) {
    && (forall k :: 0 <= k < |sys.workers| && HasInvoice(sys.workers[k]) ==> good(sys.workers[k].invoice))
    && (forall i :: 0 <= i < |sys.db.rsvs| && sys.db.rsvs[i].invoice.Some? ==> good(sys.db.rsvs[i].invoice.value))
  }

  /** The property holds of every invoice that a call brings and that passes its price ceiling. */
  ghost predicate BringsOnly(good: Invoice -> bool, actions: seq<Action>) {
    forall i :: 0 <= i < |actions| && actions[i].Execute? && actions[i].invoice.amount <= actions[i].advertised ==> good(actions[i].invoice)
  }

  ghost predicate RowsAre(good: Invoice -> bool, db: Db) {
    forall i :: 0 <= i < |db.rsvs| && db.rsvs[i].invoice.Some? ==> good(db.rsvs[i].invoice.value)
  }

  lemma TurnKeepsInvoices(good: Invoice -> bool, db: Db, w: Worker, answer: Option<Settlement>)
    requires RowsAre(good, db) && (HasInvoice(w) ==> good(w.invoice))
    ensures var (db', w') := Turn(db, w, answer);
            RowsAre(good, db') && (HasInvoice(w') ==> good(w'.invoice))
  {
  }

  lemma NextKeepsInvoices(good: Invoice -> bool, sys: Sys, action: Action)
    requires InvoicesAre(good, sys)
    requires action.Execute? && action.invoice.amount <= action.advertised ==> good(action.invoice)
    ensures InvoicesAre(good, Next(sys, action))
  {
    if action.Advance? && action.worker < |sys.workers| {
      TurnKeepsInvoices(good, sys.db, sys.workers[action.worker], action.answer);
    }
  }

  lemma {:induction false} RunKeepsInvoices(good: Invoice -> bool, actions: seq<Action>)
    requires BringsOnly(good, actions)
    ensures InvoicesAre(good, Exec(actions))
  {
    if actions != [] {
      RunKeepsInvoices(good, actions[..|actions| - 1]);
      NextKeepsInvoices(good, Exec(actions[..|actions| - 1]), actions[|actions| - 1]);
    }
  }

  /** The price ceiling: no invoice above what every caller was advertised is ever bound or paid. */
  lemma CeilingHolds(actions: seq<Action>, bound: int, k: nat)
    requires forall i :: 0 <= i < |actions| && actions[i].Execute? ==> actions[i].advertised <= bound
    requires k < |Exec(actions).workers| && HasInvoice(Exec(actions).workers[k])
    ensures Exec(actions).workers[k].invoice.amount <= bound
  {
    RunKeepsInvoices((v: Invoice) => v.amount <= bound, actions);
  }

  /** One payment hash names one invoice, so it has one amount. */
  function Priced(amountOf: string -> int): Invoice -> bool {
    (v: Invoice) => v.amount == amountOf(v.hash)
  }

  /** A worker about to book holds the amount that the row stores. */
  ghost predicate HoldsStored(sys: Sys, k: nat)
    requires k < |sys.workers|
  {
    var w := sys.workers[k];
    w.Booking? ==>
      w.rsv < |sys.db.rsvs| && sys.db.rsvs[w.rsv].invoice.Some? && w.invoice.amount == sys.db.rsvs[w.rsv].invoice.value.amount
  }

  ghost predicate AllHoldStored(sys: Sys) {
    forall k :: 0 <= k < |sys.workers| ==> HoldsStored(sys, k)
  }

  /** What such a worker will charge is what the stored row says. */
  lemma DebitIsStored(sys: Sys, worker: nat)
    requires SysInOrder(sys) && worker < |sys.workers| && sys.workers[worker].Booking? && HoldsStored(sys, worker)
    ensures var w := sys.workers[worker];
            && w.rsv < |sys.db.rsvs|
            && sys.db.rsvs[w.rsv].invoice.Some? && sys.db.rsvs[w.rsv].settlement.Some?
            && w.invoice.amount + w.settlement.fee == sys.db.rsvs[w.rsv].invoice.value.amount + sys.db.rsvs[w.rsv].settlement.value.fee
  {
    assert WorkerInOrder(sys.db, sys.workers[worker]);
  }

  /** And its finalization cannot be refused. */
  lemma BookingNeverFails(sys: Sys, worker: nat)
    requires SysInOrder(sys) && worker < |sys.workers| && sys.workers[worker].Booking? && HoldsStored(sys, worker)
    ensures var w := sys.workers[worker];
            Finalize(sys.db, w.rsv, Paid, w.invoice.amount + w.settlement.fee).result.Ok?
  {
    var w := sys.workers[worker];
    assert WorkerInOrder(sys.db, w);
    DebitIsStored(sys, worker);
    assert RsvInOrder(sys.db, sys.db.rsvs[w.rsv], w.rsv);
    if sys.db.rsvs[w.rsv].status == Paid {
      PaidCanBeFinalized(sys.db, w.rsv);
    }
  }

  lemma FinalizeBooks(db: Db, rsv: nat, debit: int, auth: nat)
    requires auth < |db.auths| && SpentIsBooked(db, auth)
    requires rsv < |db.rsvs| && db.rsvs[rsv].invoice.Some? && db.rsvs[rsv].settlement.Some?
    requires debit == db.rsvs[rsv].invoice.value.amount + db.rsvs[rsv].settlement.value.fee
    ensures SpentIsBooked(Finalize(db, rsv, Paid, debit).db, auth)
  {
    var db' := Finalize(db, rsv, Paid, debit).db;
    if db' != db {
      Update(db.rsvs, rsv, db'.rsvs[rsv], Booked(auth));
    }
  }

  lemma RewriteBooksNothing(db: Db, rsv: nat, row: Reservation, auths: seq<Authorization>, auth: nat)
    requires auth < |db.auths| && SpentIsBooked(db, auth) && rsv < |db.rsvs|
    requires |auths| == |db.auths| && auths[auth].spent == db.auths[auth].spent
    requires Booked(auth)(row) == Booked(auth)(db.rsvs[rsv])
    ensures SpentIsBooked(Db(auths, db.rsvs[rsv := row], db.receipts), auth)
  {
    Update(db.rsvs, rsv, row, Booked(auth));
  }

  lemma ReserveBooksNothing(db: Db, call: Call, ceiling: int, now: int, auth: nat)
    requires auth < |db.auths| && SpentIsBooked(db, auth)
    ensures var db' := Reserve(db, call, ceiling, now).db;
            auth < |db'.auths| && SpentIsBooked(db', auth)
  {
    var db' := Reserve(db, call, ceiling, now).db;
    if db' != db {
      Append(db.rsvs, db'.rsvs[|db.rsvs|], Booked(auth));
    }
  }

  /** A store call other than finalization books nothing. */
  lemma OthersBookNothing(db: Db, w: Worker, answer: Option<Settlement>, auth: nat)
    requires !w.Booking? && auth < |db.auths| && SpentIsBooked(db, auth)
    ensures auth < |Turn(db, w, answer).0.auths| && SpentIsBooked(Turn(db, w, answer).0, auth)
  {
    var db' := Turn(db, w, answer).0;
    if w.Reserving? {
      ReserveBooksNothing(db, w.call, w.ceiling, w.now, auth);
    } else if db' != db {
      RewriteBooksNothing(db, w.rsv, db'.rsvs[w.rsv], db'.auths, auth);
    }
  }

  lemma NextKeepsBooked(sys: Sys, action: Action, auth: nat)
    requires SysInOrder(sys) && AllHoldStored(sys) && AllBooked(sys.db)
    requires auth < |Next(sys, action).db.auths|
    ensures SpentIsBooked(Next(sys, action).db, auth)
  {
    if action.Advance? && action.worker < |sys.workers| {
      var w := sys.workers[action.worker];
      if w.Booking? {
        DebitIsStored(sys, action.worker);
        FinalizeBooks(sys.db, w.rsv, w.invoice.amount + w.settlement.fee, auth);
      } else {
        OthersBookNothing(sys.db, w, action.answer, auth);
      }
    } else if auth >= |sys.db.auths| {
      forall i | 0 <= i < |sys.db.rsvs|
        ensures sys.db.rsvs[i].call.auth != auth
      {
        assert RsvInOrder(sys.db, sys.db.rsvs[i], i);
      }
      Zero(sys.db.rsvs, Booked(auth));
    } else {
      assert SpentIsBooked(sys.db, auth);
    }
  }

  /** At every moment of the run the workers about to book hold the stored amount. */
  ghost predicate StoredThroughout(actions: seq<Action>) {
    AllHoldStored(Exec(actions)) && (actions == [] || StoredThroughout(actions[..|actions| - 1]))
  }

  /** Then spent_sats is exactly invoice plus fee over the finalized reservations, each once,
      whoever finalized it and however often it was tried, and no booking fails. */
  lemma {:induction false} StoredMeansBookedOnce(actions: seq<Action>)
    requires StoredThroughout(actions)
    ensures AllBooked(Exec(actions).db)
    ensures forall k :: 0 <= k < |Exec(actions).workers| && Exec(actions).workers[k].Booking? ==>
              Turn(Exec(actions).db, Exec(actions).workers[k], None).1.Done?
  {
    var sys := Exec(actions);
    RunInOrder(actions);
    if actions != [] {
      var n := |actions| - 1;
      StoredMeansBookedOnce(actions[..n]);
      RunInOrder(actions[..n]);
      forall auth | 0 <= auth < |sys.db.auths|
        ensures SpentIsBooked(sys.db, auth)
      {
        NextKeepsBooked(Exec(actions[..n]), actions[n], auth);
      }
    }
    forall k | 0 <= k < |sys.workers| && sys.workers[k].Booking?
      ensures Turn(sys.db, sys.workers[k], None).1.Done?
    {
      BookingNeverFails(sys, k);
    }
  }

  /** The condition is exact, booking by booking: a worker that books a paid reservation leaves
      spent_sats equal to what is stored exactly when the amount it holds is the stored one. */
  lemma BooksRightExactly(sys: Sys, worker: nat)
    requires SysInOrder(sys) && AllBooked(sys.db)
    requires worker < |sys.workers| && sys.workers[worker].Booking? && sys.db.rsvs[sys.workers[worker].rsv].status == Paid
    requires Turn(sys.db, sys.workers[worker], None).1.Done?
    ensures var auth := sys.db.rsvs[sys.workers[worker].rsv].call.auth;
            var db' := Turn(sys.db, sys.workers[worker], None).0;
            auth < |db'.auths| && (SpentIsBooked(db', auth) <==> HoldsStored(sys, worker))
  {
    var w := sys.workers[worker];
    var row := sys.db.rsvs[w.rsv];
    assert WorkerInOrder(sys.db, w);
    assert RsvInOrder(sys.db, row, w.rsv);
    assert SpentIsBooked(sys.db, row.call.auth);
    forall k | 0 <= k < |sys.db.receipts|
      ensures sys.db.receipts[k].reservation != w.rsv
    {
      assert ReceiptInOrder(sys.db, sys.db.receipts[k], k);
    }
    Update(sys.db.rsvs, w.rsv, Turn(sys.db, w, None).0.rsvs[w.rsv], Booked(row.call.auth));
  }

  // ---------------------------------------------------------------- two ways to meet the condition

  lemma PricedHoldStored(amountOf: string -> int, sys: Sys)
    requires SysInOrder(sys) && InvoicesAre(Priced(amountOf), sys)
    ensures AllHoldStored(sys)
  {
    forall k | 0 <= k < |sys.workers|
      ensures HoldsStored(sys, k)
    {
      assert WorkerInOrder(sys.db, sys.workers[k]);
    }
  }

  lemma {:induction false} PricedThroughout(amountOf: string -> int, actions: seq<Action>)
    requires BringsOnly(Priced(amountOf), actions)
    ensures StoredThroughout(actions)
  {
    RunInOrder(actions);
    RunKeepsInvoices(Priced(amountOf), actions);
    PricedHoldStored(amountOf, Exec(actions));
    if actions != [] {
      PricedThroughout(amountOf, actions[..|actions| - 1]);
    }
  }

  /** Over every run in which a payment hash has one amount, whatever overlaps. */
  lemma SettledMoneyIsBookedOnce(amountOf: string -> int, actions: seq<Action>)
    requires BringsOnly(Priced(amountOf), actions)
    ensures var sys := Exec(actions);
            && AllBooked(sys.db)
            && (forall k :: 0 <= k < |sys.workers| && sys.workers[k].Booking? ==>
                  Turn(sys.db, sys.workers[k], None).1.Done?)
  {
    PricedThroughout(amountOf, actions);
    StoredMeansBookedOnce(actions);
  }

  /** A worker that has bound its invoice holds exactly what the row stores. */
  ghost predicate HoldsOwn(db: Db, w: Worker) {
    w.Initiating? || w.Paying? || w.Awaiting? || w.Settling? || w.Booking? ==>
      w.rsv < |db.rsvs| && db.rsvs[w.rsv].invoice == Some(w.invoice)
  }

  ghost predicate AllHoldOwn(sys: Sys) {
    forall k :: 0 <= k < |sys.workers| ==> HoldsOwn(sys.db, sys.workers[k])
  }

  lemma TurnHoldsOwn(db: Db, w: Worker, answer: Option<Settlement>)
    requires HoldsOwn(db, w)
    ensures HoldsOwn(Turn(db, w, answer).0, Turn(db, w, answer).1)
  {
  }

  /** Only a call on the same key, before its payment, can rebind the invoice of a reservation. */
  lemma OthersHoldOwn(db: Db, mover: Worker, answer: Option<Settlement>, w: Worker)
    requires InOrder(db) && WorkerInOrder(db, w) && WorkerInOrder(db, mover) && HoldsOwn(db, w)
    requires Calling(mover) && Calling(w) ==> KeyOf(db, mover) != KeyOf(db, w)
    ensures HoldsOwn(Turn(db, mover, answer).0, w)
  {
    if HasInvoice(w) && !w.Reserving? && !w.Binding? {
      if mover.Binding? && mover.rsv == w.rsv {
        BoundStays(db, mover, answer, w);
      } else {
        OnlyBindingRebinds(db, mover, answer, w.rsv);
      }
    }
  }

  lemma OnlyBindingRebinds(db: Db, mover: Worker, answer: Option<Settlement>, rsv: nat)
    requires rsv < |db.rsvs| && (mover.Binding? ==> mover.rsv != rsv)
    ensures var db' := Turn(db, mover, answer).0;
            rsv < |db'.rsvs| && db'.rsvs[rsv].invoice == db.rsvs[rsv].invoice
  {
  }

  /** A call of another key does not bind the reservation, and a booking finds it paid. */
  lemma BoundStays(db: Db, mover: Worker, answer: Option<Settlement>, w: Worker)
    requires WorkerInOrder(db, w) && mover.Binding? && HasInvoice(w) && !w.Reserving? && !w.Binding? && mover.rsv == w.rsv
    requires Calling(w) ==> KeyOf(db, mover) != KeyOf(db, w)
    requires HoldsOwn(db, w)
    ensures HoldsOwn(Turn(db, mover, answer).0, w)
  {
  }

  lemma NextHoldsOwn(sys: Sys, action: Action)
    requires SysInOrder(sys) && Solo(sys) && AllHoldOwn(sys)
    ensures AllHoldOwn(Next(sys, action))
  {
    if action.Advance? && action.worker < |sys.workers| {
      var mover, sys' := sys.workers[action.worker], Next(sys, action);
      TurnHoldsOwn(sys.db, mover, action.answer);
      forall k | 0 <= k < |sys'.workers|
        ensures HoldsOwn(sys'.db, sys'.workers[k])
      {
        if k != action.worker {
          assert WorkerInOrder(sys.db, sys.workers[k]) && WorkerInOrder(sys.db, mover);
          OthersHoldOwn(sys.db, mover, action.answer, sys.workers[k]);
        }
      }
    } else {
      forall k | 0 <= k < |Next(sys, action).workers|
        ensures HoldsOwn(Next(sys, action).db, Next(sys, action).workers[k])
      {
        if k < |sys.workers| {
          assert HoldsOwn(sys.db, sys.workers[k]);
        }
      }
    }
  }

  lemma {:induction false} NoOverlapThroughout(actions: seq<Action>)
    requires NoOverlap(actions)
    ensures AllHoldOwn(Exec(actions)) && StoredThroughout(actions)
  {
    if actions != [] {
      var front := actions[..|actions| - 1];
      NoOverlapThroughout(front);
      RunInOrder(front);
      SoloRun(front);
      NextHoldsOwn(Exec(front), actions[|actions| - 1]);
    }
    forall k | 0 <= k < |Exec(actions).workers|
      ensures HoldsStored(Exec(actions), k)
    {
      assert HoldsOwn(Exec(actions).db, Exec(actions).workers[k]);
    }
  }

  /** Over every run in which the calls on one key do not overlap, whatever invoices they bring. */
  lemma NoOverlapIsBookedOnce(actions: seq<Action>)
    requires NoOverlap(actions)
    ensures var sys := Exec(actions);
            && AllBooked(sys.db)
            && (forall k :: 0 <= k < |sys.workers| && sys.workers[k].Booking? ==>
                  Turn(sys.db, sys.workers[k], None).1.Done?)
  {
    NoOverlapThroughout(actions);
    StoredMeansBookedOnce(actions);
  }

  // ---------------------------------------------------------------- when it is missed

  /** One payment hash at two amounts, on one key: the second call rebinds the invoice. */
  function RebindRun(): seq<Action> {
    var call := Call(0, "key", "orchestration", "agent", "specialty", 10);
    [Authorize(100, 50, 0, 5, {}, {}, 10, 0), Execute(call, Invoice("a", 10), 10, 10, 0), Execute(call, Invoice("a", 5), 10, 10, 0)]
  }

  const SETTLED := Settlement("provider", "payment", 0, "preimage")

  lemma {:induction false} RebindStarts()
    ensures var sys := Exec(RebindRun());
            && sys.db.auths == [Authorization(100, 50, 0, 5, {}, {}, 10, Active, 0, 0, 0)] && sys.db.rsvs == [] && sys.db.receipts == []
            && |sys.workers| == 2
            && sys.workers[0] == Reserving(RebindRun()[1].call, Invoice("a", 10), 10, 0)
            && sys.workers[1] == Reserving(RebindRun()[1].call, Invoice("a", 5), 10, 0)
            && sys.paid == [] && sys.late == {}
  {
    var run := RebindRun();
    ExecOne([], run[0]);
    ExecOne([] + [run[0]], run[1]);
    ExecOne([] + [run[0]] + [run[1]], run[2]);
    assert [] + [run[0]] + [run[1]] + [run[2]] == run;
  }

  /** Both calls have bound the invoice and the first goes on to pay: the row keeps the second amount. */
  lemma {:induction false} RebindPays(sys: Sys, answer: Option<Settlement>)
    requires |sys.workers| == 2 && sys.workers[0] == Binding(0, Invoice("a", 10)) && sys.workers[1] == Binding(0, Invoice("a", 5))
    requires |sys.db.rsvs| == 1 && sys.db.rsvs[0].status == Reserved && sys.db.rsvs[0].invoice.None? && sys.db.rsvs[0].reserved == 10
    ensures var row := sys.db.rsvs[0].(invoice := Some(Invoice("a", 5)), status := PaymentInitiated);
            Go(Go(sys, [0, 1]), [0, 0]) ==
            Sys(sys.db.(rsvs := [row]), [Awaiting(0, Invoice("a", 10)), Initiating(0, Invoice("a", 5))], sys.paid + [0], sys.late)
  {
    GoTwice(sys, 0, 1);
    var sys1 := Next(sys, Advance(0, None));
    assert sys1.db.rsvs[0] == sys.db.rsvs[0].(invoice := Some(Invoice("a", 10)), status := InvoiceBound);
    var sys2 := Next(sys1, Advance(1, None));
    assert sys2.db.rsvs[0] == sys.db.rsvs[0].(invoice := Some(Invoice("a", 5)), status := InvoiceBound);
    GoTwice(sys2, 0, 0);
    var sys3 := Next(sys2, Advance(0, None));
    assert sys3.workers == [Paying(0, Invoice("a", 10)), Initiating(0, Invoice("a", 5))];
  }

  lemma {:induction false} RebindBooks(sys: Sys)
    requires |sys.workers| == 2 && sys.workers[0] == Awaiting(0, Invoice("a", 10))
    requires |sys.db.rsvs| == 1 && sys.db.rsvs[0].status == PaymentInitiated && sys.db.rsvs[0].invoice == Some(Invoice("a", 5))
    requires sys.db.rsvs[0].reserved == 10 && sys.db.rsvs[0].call.auth == 0
    requires |sys.db.auths| == 1 && sys.db.auths[0].spent == 0 && sys.db.auths[0].maxTotal == 100 && sys.db.receipts == []
    ensures var step := Advance(0, Some(SETTLED));
            var sys' := Next(Next(Next(sys, step), step), step);
            && |sys'.db.auths| == 1 && sys'.db.auths[0].spent == 10
            && sys'.db.rsvs == [sys.db.rsvs[0].(settlement := Some(SETTLED), status := Finalized, receipt := Some(0))]
  {
    var step := Advance(0, Some(SETTLED));
    var sys1 := Next(sys, step);
    assert sys1 == sys.(workers := sys.workers[0 := Settling(0, Invoice("a", 10), SETTLED)]);
    var sys2 := Next(sys1, step);
    assert sys2.db.rsvs == [sys.db.rsvs[0].(settlement := Some(SETTLED), status := Paid)];
    assert sys2.workers[0] == Booking(0, Invoice("a", 10), SETTLED);
  }

  /** Two overlapping calls with one hash and amounts ten and five: ten is spent and five stored. */
  lemma {:induction false} RebindBooksWrong() returns (run: seq<Action>)
    ensures !NoOverlap(RebindRun()) && RebindRun() <= run
    ensures var db := Exec(run).db;
            && |db.auths| == 1 && |db.rsvs| == 1 && db.rsvs[0].call.auth == 0 && db.rsvs[0].status == Finalized
            && db.rsvs[0].invoice == Some(Invoice("a", 5)) && db.rsvs[0].settlement == Some(SETTLED)
            && db.auths[0].spent == 10 && Sum(db.rsvs, Booked(0)) == 5
  {
    var start, call := RebindRun(), RebindRun()[1].call;
    var sys := Exec(start);
    RebindStarts();
    RebindOverlaps();
    assert Refusal(sys.db, call, 10, 0).None?;
    BothReserve(sys, 0, 1);
    var sys2 := Go(sys, [0, 1]);
    RebindPays(sys2, None);
    var sys6 := Go(Go(sys2, [0, 1]), [0, 0]);
    RebindBooks(sys6);
    GoIsExec(start, [0, 1]);
    GoIsExec(start + Advances([0, 1]), [0, 1]);
    GoIsExec(start + Advances([0, 1]) + Advances([0, 1]), [0, 0]);
    run := start + Advances([0, 1]) + Advances([0, 1]) + Advances([0, 0]);
    var step := Advance(0, Some(SETTLED));
    ExecOne(run, step);
    ExecOne(run + [step], step);
    ExecOne(run + [step] + [step], step);
    run := run + [step] + [step] + [step];
    Single(Exec(run).db.rsvs[0], Booked(0));
  }

  lemma RebindOverlaps()
    ensures !NoOverlap(RebindRun())
  {
    var run := RebindRun();
    ExecOne([], run[0]);
    ExecOne([] + [run[0]], run[1]);
    assert [] + [run[0]] + [run[1]] == run[..2];
    var sys := Exec(run[..2]);
    assert Calling(sys.workers[0]) && KeyOf(sys.db, sys.workers[0]) == (0, "key");
  }

  // ---------------------------------------------------------------- recovery

  lemma {:induction false} ReadsPaid(sys: Sys, rsv: nat)
    requires rsv < |sys.db.rsvs| && sys.db.rsvs[rsv].status == Paid
    requires sys.db.rsvs[rsv].invoice.Some? && sys.db.rsvs[rsv].settlement.Some?
    ensures var row := sys.db.rsvs[rsv];
            Drive(Next(sys, Reconcile(rsv)), |sys.workers|, None, 1)
            == sys.(workers := sys.workers + [Booking(rsv, row.invoice.value, row.settlement.value)])
  {
    var sys1 := Next(sys, Reconcile(rsv));
    DriveOne(sys1, |sys.workers|, None, 0);
  }

  lemma Books(sys: Sys, worker: nat, answer: Option<Settlement>)
    requires InOrder(sys.db) && worker < |sys.workers| && sys.workers[worker].Booking?
    requires var w := sys.workers[worker];
             w.rsv < |sys.db.rsvs| && sys.db.rsvs[w.rsv].status == Paid
             && sys.db.rsvs[w.rsv].invoice == Some(w.invoice) && sys.db.rsvs[w.rsv].settlement == Some(w.settlement)
    ensures var sys' := Next(sys, Advance(worker, answer));
            var rsv := sys.workers[worker].rsv;
            && sys'.workers[worker] == Done(rsv, |sys.db.receipts|)
            && rsv < |sys'.db.rsvs| && sys'.db.rsvs[rsv].status == Finalized
            && sys'.db.rsvs[rsv].settlement == sys.db.rsvs[rsv].settlement
            && sys'.paid == sys.paid
  {
    PaidCanBeFinalized(sys.db, sys.workers[worker].rsv);
  }

  /** One uninterrupted reconciliation of a paid reservation ends with its receipt, and pays nothing. */
  lemma {:induction false} ReconcileBooksPaid(actions: seq<Action>, rsv: nat)
    requires rsv < |Exec(actions).db.rsvs| && Exec(actions).db.rsvs[rsv].status == Paid
    ensures var sys, n := Exec(actions), |Exec(actions).workers|;
            var sys' := Drive(Next(sys, Reconcile(rsv)), n, None, 2);
            && n < |sys'.workers| && sys'.workers[n] == Done(rsv, |sys.db.receipts|)
            && rsv < |sys'.db.rsvs| && sys'.db.rsvs[rsv].status == Finalized
            && sys'.paid == sys.paid
  {
    RunInOrder(actions);
    var sys, n := Exec(actions), |Exec(actions).workers|;
    assert RsvInOrder(sys.db, sys.db.rsvs[rsv], rsv);
    ReadsPaid(sys, rsv);
    DriveOne(Next(sys, Reconcile(rsv)), n, None, 1);
    Books(Drive(Next(sys, Reconcile(rsv)), n, None, 1), n, None);
  }

  lemma {:induction false} ReconcileMarksPaid(sys: Sys, rsv: nat, s: Settlement)
    requires rsv < |sys.db.rsvs| && sys.db.rsvs[rsv].status == PaymentInitiated
    requires sys.db.rsvs[rsv].invoice.Some? && 0 <= s.fee <= sys.db.rsvs[rsv].reserved - sys.db.rsvs[rsv].invoice.value.amount
    ensures Drive(Next(sys, Reconcile(rsv)), |sys.workers|, Some(s), 3)
            == sys.(db := MarkPaid(sys.db, rsv, s).db, workers := sys.workers + [Booking(rsv, sys.db.rsvs[rsv].invoice.value, s)])
  {
    var n, sys0 := |sys.workers|, Next(sys, Reconcile(rsv));
    DriveOne(sys0, n, Some(s), 0);
    DriveOne(sys0, n, Some(s), 1);
    DriveOne(sys0, n, Some(s), 2);
    assert Drive(sys0, n, Some(s), 1) == sys.(workers := sys.workers + [LookingUp(rsv)]);
    assert Drive(sys0, n, Some(s), 2) == sys.(workers := sys.workers + [Remarking(rsv, s)]);
  }

  /** So does that of an initiated one, when the provider proves a settlement within the reserved amount. */
  lemma {:induction false} ReconcileBooksInitiated(actions: seq<Action>, rsv: nat, s: Settlement)
    requires rsv < |Exec(actions).db.rsvs| && Exec(actions).db.rsvs[rsv].status == PaymentInitiated
    requires var row := Exec(actions).db.rsvs[rsv];
             row.invoice.Some? && 0 <= s.fee <= row.reserved - row.invoice.value.amount
    ensures var sys, n := Exec(actions), |Exec(actions).workers|;
            var sys' := Drive(Next(sys, Reconcile(rsv)), n, Some(s), 4);
            && n < |sys'.workers| && sys'.workers[n] == Done(rsv, |sys.db.receipts|)
            && rsv < |sys'.db.rsvs| && sys'.db.rsvs[rsv].status == Finalized && sys'.db.rsvs[rsv].settlement == Some(s)
            && sys'.paid == sys.paid
  {
    RunInOrder(actions);
    var sys, n := Exec(actions), |Exec(actions).workers|;
    ReconcileMarksPaid(sys, rsv, s);
    PaidKeepsOrder(sys.db, rsv, s);
    DriveOne(Next(sys, Reconcile(rsv)), n, Some(s), 3);
    Books(Drive(Next(sys, Reconcile(rsv)), n, Some(s), 3), n, Some(s));
  }
}
