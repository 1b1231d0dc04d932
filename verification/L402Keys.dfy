/** When a payment can be lost: when a reservation is released while its payment is initiated,
    which takes two execute calls on one idempotency key at once.
    services/agent-commerce/agent_commerce/l402.py:219-268 and authorization.py:418-431. */
module L402Keys {
  import opened Authorizations
  import opened L402Workers
  import opened Steps

  // ---------------------------------------------------------------- when a payment can be lost

  predicate Calling(w: Worker) {
    w.Reserving? || w.Binding? || w.Initiating? || w.Paying? || w.Awaiting? || w.Settling? || w.Cleanup? || w.Releasing?
  }

  /** The authorization and idempotency key an execute call works for. */
  function KeyOf(db: Db, w: Worker): (nat, string)
    requires Calling(w)
  {
    if w.Reserving? then (w.call.auth, w.call.key)
    else if w.rsv < |db.rsvs| then (db.rsvs[w.rsv].call.auth, db.rsvs[w.rsv].call.key)
    else (0, "")
  }

  /** An execute call starts only when no other is under way on its authorization and key. */
  ghost predicate StartsAlone(sys: Sys, action: Action) {
    action.Execute? ==>
      forall k :: 0 <= k < |sys.workers| && Calling(sys.workers[k]) ==> KeyOf(sys.db, sys.workers[k]) != (action.call.auth, action.call.key)
  }

  /** Calls on one key follow one another: a retry comes after its predecessor returned, failed or
      crashed. Reconciliations may come at any time. */
  ghost predicate NoOverlap(actions: seq<Action>) {
    actions == [] || (NoOverlap(actions[..|actions| - 1]) && StartsAlone(Exec(actions[..|actions| - 1]), actions[|actions| - 1]))
  }

  ghost predicate Solo(sys: Sys) {
    && (forall j, k :: 0 <= j < k < |sys.workers| && Calling(sys.workers[j]) && Calling(sys.workers[k]) ==>
          KeyOf(sys.db, sys.workers[j]) != KeyOf(sys.db, sys.workers[k]))
    && (forall k :: 0 <= k < |sys.workers| && sys.workers[k].Releasing? && sys.workers[k].rsv < |sys.db.rsvs| ==>
          !PaymentReached(sys.db.rsvs[sys.workers[k].rsv].status))
    && sys.late == {}
  }

  /** A worker's key never changes, whoever moves. */
  lemma KeysStay(db: Db, db': Db, w: Worker)
    requires Evolves(db, db') && WorkerInOrder(db, w) && Calling(w)
    ensures KeyOf(db', w) == KeyOf(db, w)
  {
    if !w.Reserving? {
      assert RowEvolves(db.rsvs[w.rsv], db'.rsvs[w.rsv]);
    }
  }

  lemma TurnKeepsKey(db: Db, w: Worker, answer: Option<Settlement>)
    requires InOrder(db) && WorkerInOrder(db, w)
    requires Calling(Turn(db, w, answer).1)
    ensures Calling(w) && KeyOf(Turn(db, w, answer).0, Turn(db, w, answer).1) == KeyOf(db, w)
  {
  }

  /** Only a call's own worker can set off its payment. */
  lemma OnlyCallersSetOff(db: Db, w: Worker, answer: Option<Settlement>, rsv: nat)
    requires rsv < |db.rsvs| && !PaymentReached(db.rsvs[rsv].status)
    requires var db' := Turn(db, w, answer).0; rsv < |db'.rsvs| && PaymentReached(db'.rsvs[rsv].status)
    ensures w.Initiating? && w.rsv == rsv
  {
  }

  lemma AdvanceKeepsSolo(sys: Sys, worker: nat, answer: Option<Settlement>)
    requires SysInOrder(sys) && Solo(sys) && worker < |sys.workers|
    ensures Solo(Next(sys, Advance(worker, answer)))
  {
    var sys', w := Next(sys, Advance(worker, answer)), sys.workers[worker];
    TurnEvolves(sys.db, w, answer);
    if Calling(sys'.workers[worker]) {
      TurnKeepsKey(sys.db, w, answer);
    }
    forall k | 0 <= k < |sys.workers| && k != worker && Calling(sys.workers[k])
      ensures KeyOf(sys'.db, sys.workers[k]) == KeyOf(sys.db, sys.workers[k])
    {
      KeysStay(sys.db, sys'.db, sys.workers[k]);
    }
    forall k | 0 <= k < |sys'.workers| && sys'.workers[k].Releasing? && sys'.workers[k].rsv < |sys'.db.rsvs|
      ensures !PaymentReached(sys'.db.rsvs[sys'.workers[k].rsv].status)
    {
      var rsv := sys'.workers[k].rsv;
      if k != worker && PaymentReached(sys'.db.rsvs[rsv].status) {
        assert WorkerInOrder(sys.db, sys.workers[k]);
        OnlyCallersSetOff(sys.db, w, answer, rsv);
        assert false;
      }
    }
  }

  lemma StartKeepsSolo(sys: Sys, w: Worker)
    requires Solo(sys)
    requires w.Stopped? || w.Reading? || w.Reserving?
    requires w.Reserving? ==>
               forall k :: 0 <= k < |sys.workers| && Calling(sys.workers[k]) ==> KeyOf(sys.db, sys.workers[k]) != (w.call.auth, w.call.key)
    ensures Solo(sys.(workers := sys.workers + [w]))
  {
  }

  lemma AdminKeepsSolo(sys: Sys, db: Db)
    requires Solo(sys) && db.rsvs == sys.db.rsvs
    ensures Solo(sys.(db := db))
  {
    assert forall k :: 0 <= k < |sys.workers| && Calling(sys.workers[k]) ==> KeyOf(db, sys.workers[k]) == KeyOf(sys.db, sys.workers[k]);
  }

  lemma NextKeepsSolo(sys: Sys, action: Action)
    requires SysInOrder(sys) && Solo(sys) && StartsAlone(sys, action)
    ensures Solo(Next(sys, action))
  {
    match action
    case Advance(worker, answer) =>
      if worker < |sys.workers| {
        AdvanceKeepsSolo(sys, worker, answer);
      }
    case Execute(call, invoice, advertised, ceiling, now) =>
      StartKeepsSolo(sys, if invoice.amount > advertised then Stopped else Reserving(call, invoice, ceiling, now));
    case Reconcile(rsv) => StartKeepsSolo(sys, Reading(rsv));
    case Crash(worker) =>
    case _ => AdminKeepsSolo(sys, Next(sys, action).db);
  }

  lemma {:induction false} SoloRun(actions: seq<Action>)
    requires NoOverlap(actions)
    ensures Solo(Exec(actions))
  {
    if actions != [] {
      var front, last := actions[..|actions| - 1], actions[|actions| - 1];
      SoloRun(front);
      RunInOrder(front);
      NextKeepsSolo(Exec(front), last);
    }
  }

  /** If execute calls on one idempotency key never overlap, no payment is ever lost: each one made
      is initiated, paid or finalized, whatever retries, reconciliations and crashes happen. */
  lemma OwnKeysLoseNothing(actions: seq<Action>, i: nat)
    requires NoOverlap(actions) && i < |Exec(actions).paid|
    ensures var sys := Exec(actions);
            sys.paid[i] < |sys.db.rsvs| && PaymentReached(sys.db.rsvs[sys.paid[i]].status)
  {
    SoloRun(actions);
    PaidIsAccountedFor(actions, i);
  }

  // ---------------------------------------------------------------- overlapping calls

  /** Two calls on one key, one about to start its payment and the other about to release: from
      here three steps lose a payment, in any state they meet in. */
  lemma {:induction false} LateReleaseLosesPayment(sys: Sys, payer: nat, releaser: nat)
    requires payer < |sys.workers| && releaser < |sys.workers|
    requires sys.workers[payer].Initiating? && sys.workers[releaser].Releasing?
    requires var rsv := sys.workers[payer].rsv;
             && sys.workers[releaser].rsv == rsv < |sys.db.rsvs|
             && sys.db.rsvs[rsv].status == InvoiceBound && sys.db.rsvs[rsv].call.auth < |sys.db.auths|
    ensures var sys' := Next(Next(Next(sys, Advance(payer, None)), Advance(releaser, None)), Advance(payer, None));
            var rsv := sys.workers[payer].rsv;
            && sys'.paid == sys.paid + [rsv] && sys'.late == sys.late + {rsv}
            && rsv < |sys'.db.rsvs| && sys'.db.rsvs[rsv].status == Released
  {
    var rsv := sys.workers[payer].rsv;
    var sys1 := Next(sys, Advance(payer, None));
    assert sys1.db.rsvs[rsv].status == PaymentInitiated && sys1.workers[payer].Paying?;
    var sys2 := Next(sys1, Advance(releaser, None));
    assert sys2.db.rsvs[rsv].status == Released && sys2.late == sys.late + {rsv};
  }

  /** The workers of a schedule move one after another. */
  function Go(sys: Sys, schedule: seq<nat>): Sys {
    Fold((s: Sys, k: nat) => Next(s, Advance(k, None)), sys, schedule)
  }

  lemma GoFurther(sys: Sys, s: seq<nat>, t: seq<nat>)
    ensures Go(sys, s + t) == Go(Go(sys, s), t)
  {
    FoldFurther((s: Sys, k: nat) => Next(s, Advance(k, None)), sys, s, t);
  }

  lemma GoTwice(sys: Sys, i: nat, j: nat)
    ensures Go(sys, [i]) == Next(sys, Advance(i, None))
    ensures Go(sys, [i, j]) == Next(Next(sys, Advance(i, None)), Advance(j, None))
  {
    FoldTwice((s: Sys, k: nat) => Next(s, Advance(k, None)), sys, i, j);
  }

  lemma GoThrice(sys: Sys, i: nat, j: nat, k: nat)
    ensures Go(sys, [i, j, k]) == Next(Next(Next(sys, Advance(i, None)), Advance(j, None)), Advance(k, None))
  {
    FoldThrice((s: Sys, w: nat) => Next(s, Advance(w, None)), sys, i, j, k);
  }

  function Advances(schedule: seq<nat>): seq<Action> {
    seq(|schedule|, i requires 0 <= i < |schedule| => Advance(schedule[i], None))
  }

  /** A schedule is a run. */
  lemma {:induction false} GoIsExec(actions: seq<Action>, schedule: seq<nat>)
    ensures Exec(actions + Advances(schedule)) == Go(Exec(actions), schedule)
    decreases |schedule|
  {
    if schedule == [] {
      assert actions + Advances(schedule) == actions;
    } else {
      var n := |schedule| - 1;
      var all := actions + Advances(schedule);
      assert all[..|all| - 1] == actions + Advances(schedule[..n]);
      GoIsExec(actions, schedule[..n]);
    }
  }

  /** The invoice can be bound to a fresh reservation of the amount. */
  predicate Bindable(invoice: Invoice, reserved: int) {
    0 < invoice.amount <= reserved && invoice.hash != ""
  }

  /** The second invoice cannot be bound after the first. */
  predicate Clashes(first: Invoice, second: Invoice, reserved: int) {
    first.hash != second.hash || !Bindable(second, reserved)
  }

  lemma {:induction false} BothReserve(sys: Sys, p: nat, q: nat)
    requires p < |sys.workers| && q < |sys.workers| && p != q
    requires sys.workers[p].Reserving? && sys.workers[q].Reserving?
    requires var w := sys.workers[p];
             && sys.workers[q].call == w.call && w.call.quoted > 0
             && FindKey(sys.db.rsvs, w.call.auth, w.call.key).None? && Refusal(sys.db, w.call, w.ceiling, w.now).None?
    ensures var (v, w, r) := (sys.workers[p], sys.workers[q], |sys.db.rsvs|);
            var sys' := Go(sys, [p, q]);
            && sys'.workers == sys.workers[p := Binding(r, v.invoice)][q := Binding(r, w.invoice)]
            && sys'.db == Reserve(sys.db, v.call, v.ceiling, v.now).db
            && sys'.paid == sys.paid && sys'.late == sys.late
  {
    var v, w, r := sys.workers[p], sys.workers[q], |sys.db.rsvs|;
    GoTwice(sys, p, q);
    var sys1 := Next(sys, Advance(p, None));
    assert sys1 == sys.(db := Reserve(sys.db, v.call, v.ceiling, v.now).db, workers := sys.workers[p := Binding(r, v.invoice)]);
    FindNew(sys.db.rsvs, sys1.db.rsvs[r]);
  }

  lemma FindNew(rsvs: seq<Reservation>, row: Reservation)
    requires FindKey(rsvs, row.call.auth, row.call.key).None?
    ensures FindKey(rsvs + [row], row.call.auth, row.call.key) == Some(|rsvs|)
  {
  }

  lemma {:induction false} SecondBindFails(sys: Sys, p: nat, q: nat)
    requires p < |sys.workers| && q < |sys.workers| && p != q
    requires sys.workers[p].Binding? && sys.workers[q].Binding? && sys.workers[p].rsv == sys.workers[q].rsv < |sys.db.rsvs|
    requires sys.db.rsvs[sys.workers[p].rsv].status == Reserved && sys.db.rsvs[sys.workers[p].rsv].invoice.None?
    requires Bindable(sys.workers[p].invoice, sys.db.rsvs[sys.workers[p].rsv].reserved)
    requires Clashes(sys.workers[p].invoice, sys.workers[q].invoice, sys.db.rsvs[sys.workers[p].rsv].reserved)
    ensures var (v, r) := (sys.workers[p], sys.workers[p].rsv);
            Go(sys, [p, q, q]) == sys.(db := BindInvoice(sys.db, r, v.invoice).db,
                                       workers := sys.workers[p := Initiating(r, v.invoice)][q := Releasing(r)])
  {
    var v, r := sys.workers[p], sys.workers[p].rsv;
    GoThrice(sys, p, q, q);
    var sys1 := Next(sys, Advance(p, None));
    assert sys1 == sys.(db := BindInvoice(sys.db, r, v.invoice).db, workers := sys.workers[p := Initiating(r, v.invoice)]);
    var sys2 := Next(sys1, Advance(q, None));
    assert sys2 == sys1.(workers := sys1.workers[q := Cleanup(r)]);
  }

  /** Two calls of one key that overlap, the first bringing an invoice that can be bound and the
      second one that then cannot, as when their hashes differ: they have a schedule that makes a
      payment and loses it. */
  lemma {:induction false} OverlapCanLose(sys: Sys, p: nat, q: nat)
    requires p < |sys.workers| && q < |sys.workers| && p != q
    requires sys.workers[p].Reserving? && sys.workers[q].Reserving?
    requires var w := sys.workers[p];
             && sys.workers[q].call == w.call && w.call.quoted > 0
             && FindKey(sys.db.rsvs, w.call.auth, w.call.key).None? && Refusal(sys.db, w.call, w.ceiling, w.now).None?
             && Bindable(w.invoice, w.ceiling + sys.db.auths[w.call.auth].maxRouteFee)
             && Clashes(w.invoice, sys.workers[q].invoice, w.ceiling + sys.db.auths[w.call.auth].maxRouteFee)
    ensures var sys' := Go(sys, [p, q] + [p, q, q] + [p, q, p]);
            && sys'.paid == sys.paid + [|sys.db.rsvs|] && sys'.late == sys.late + {|sys.db.rsvs|}
  {
    BothReserve(sys, p, q);
    var sys2 := Go(sys, [p, q]);
    SecondBindFails(sys2, p, q);
    var sys5 := Go(sys2, [p, q, q]);
    GoFurther(sys, [p, q], [p, q, q]);
    LateReleaseLosesPayment(sys5, p, q);
    GoThrice(sys5, p, q, p);
    GoFurther(sys, [p, q] + [p, q, q], [p, q, p]);
  }

  /** So after any run in which a call would be admitted, starting it twice at once can lose its
      payment for good. */
  lemma {:induction false} SharedKeyLosesPayment(before: seq<Action>, first: Action, second: Action)
    requires first.Execute? && second.Execute? && first.call == second.call && first.call.quoted > 0
    requires first.invoice.amount <= first.advertised && second.invoice.amount <= second.advertised
    requires var db := Exec(before).db;
             && FindKey(db.rsvs, first.call.auth, first.call.key).None? && Refusal(db, first.call, first.ceiling, first.now).None?
             && var reserved := first.ceiling + db.auths[first.call.auth].maxRouteFee;
                Bindable(first.invoice, reserved) && Clashes(first.invoice, second.invoice, reserved)
    ensures var (p, q) := (|Exec(before).workers|, |Exec(before).workers| + 1);
            var run := before + [first] + [second] + Advances([p, q] + [p, q, q] + [p, q, p]);
            var (sys, r) := (Exec(run), |Exec(before).db.rsvs|);
            && sys.paid == Exec(before).paid + [r] && sys.late == Exec(before).late + {r}
  {
    var sys, p := Exec(before), |Exec(before).workers|;
    ExecOne(before, first);
    ExecOne(before + [first], second);
    OverlapCanLose(Exec(before + [first] + [second]), p, p + 1);
    GoIsExec(before + [first] + [second], [p, p + 1] + [p, p + 1, p + 1] + [p, p + 1, p]);
  }

  lemma ExecOne(actions: seq<Action>, action: Action)
    ensures Exec(actions + [action]) == Next(Exec(actions), action)
  {
    assert (actions + [action])[..|actions|] == actions;
  }
}
