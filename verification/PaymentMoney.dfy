/** Whether the money of a payment has moved, against what its status says.
    services/transaction/transaction-service-core.ts:78-230 and
    services/transaction/transaction-service-processor.ts:167-188,228-265. */
module PaymentMoney {
  import opened Payments

  ghost predicate WorkerMoney(sys: Sys, w: Worker) {
    match w
    case Deciding(id, charge) => id in sys.charges && (TakesMoney(charge) <==> id in sys.taken)
    case MarkingPaid(id, _) => id in sys.charges && id in sys.taken
    case MarkingFailed(id, _) => id in sys.charges
    case _ => true
  }

  ghost predicate RowMoney(sys: Sys, id: nat)
    requires id < |sys.db.payments|
  {
    match sys.db.payments[id].status
    case Pending => true
    case Succeeded => id in sys.charges && id in sys.taken
    case Failed => id in sys.charges
  }

  ghost predicate MoneyInOrder(sys: Sys) {
    && (forall k :: 0 <= k < |sys.workers| ==> WorkerMoney(sys, sys.workers[k]))
    && (forall id :: 0 <= id < |sys.db.payments| ==> RowMoney(sys, id))
    && (forall id :: id in sys.taken ==> id in sys.charges)
  }

  lemma TurnKeepsMoney(sys: Sys, worker: nat, answer: Answer)
    requires InOrder(sys) && MoneyInOrder(sys) && worker < |sys.workers|
    ensures var sys' := Next(sys, Advance(worker, answer));
            && WorkerMoney(sys', sys'.workers[worker])
            && (forall id :: id in sys'.taken ==> id in sys'.charges)
  {
    assert WorkerInOrder(sys.db, sys.workers[worker]) && WorkerMoney(sys, sys.workers[worker]);
  }

  lemma TurnKeepsRows(sys: Sys, worker: nat, answer: Answer)
    requires InOrder(sys) && MoneyInOrder(sys) && worker < |sys.workers|
    ensures var sys' := Next(sys, Advance(worker, answer));
            forall id :: 0 <= id < |sys'.db.payments| ==> RowMoney(sys', id)
  {
    var w, sys' := sys.workers[worker], Next(sys, Advance(worker, answer));
    assert WorkerInOrder(sys.db, w) && WorkerMoney(sys, w);
    TurnTouchesOnly(sys.db, w, answer);
    forall id | 0 <= id < |sys'.db.payments|
      ensures RowMoney(sys', id)
    {
      if id < |sys.db.payments| {
        assert RowMoney(sys, id);
      }
    }
  }

  /** No other call is at a charge of the same payment. */
  lemma OthersKeepMoney(sys: Sys, worker: nat, answer: Answer, k: nat)
    requires InOrder(sys) && MoneyInOrder(sys) && worker < |sys.workers| && k < |sys.workers| && k != worker
    ensures WorkerMoney(Next(sys, Advance(worker, answer)), sys.workers[k])
  {
    var mover, w := sys.workers[worker], sys.workers[k];
    assert WorkerMoney(sys, w);
    if mover.Charging? {
      assert Owns(mover, mover.id);
      assert !Owns(w, mover.id);
    }
  }

  lemma NextKeepsMoney(sys: Sys, action: Action)
    requires InOrder(sys) && MoneyInOrder(sys)
    ensures MoneyInOrder(Next(sys, action))
  {
    if action.Advance? && action.worker < |sys.workers| {
      var worker, answer := action.worker, action.answer;
      TurnKeepsMoney(sys, worker, answer);
      TurnKeepsRows(sys, worker, answer);
      forall k | 0 <= k < |sys.workers| && k != worker
        ensures WorkerMoney(Next(sys, action), sys.workers[k])
      {
        OthersKeepMoney(sys, worker, answer, k);
      }
    } else {
      var sys' := Next(sys, action);
      forall id | 0 <= id < |sys'.db.payments|
        ensures RowMoney(sys', id)
      {
        assert RowMoney(sys, id);
      }
      forall k | 0 <= k < |sys'.workers|
        ensures WorkerMoney(sys', sys'.workers[k])
      {
        assert k < |sys.workers| ==> WorkerMoney(sys, sys.workers[k]);
      }
    }
  }

  lemma {:induction false} RunMoneyInOrder(actions: seq<Action>)
    ensures InOrder(Exec(actions)) && MoneyInOrder(Exec(actions))
  {
    RunInOrder(actions);
    if actions != [] {
      var front, last := actions[..|actions| - 1], actions[|actions| - 1];
      RunMoneyInOrder(front);
      NextKeepsMoney(Exec(front), last);
    }
  }

  /** SUCCEEDED means that the processor was asked once and took the money. */
  lemma SucceededTookMoney(actions: seq<Action>, id: nat)
    requires id < |Exec(actions).db.payments| && Exec(actions).db.payments[id].status == Succeeded
    ensures var sys := Exec(actions);
            && id in sys.taken
            && exists i :: 0 <= i < |sys.charges| && sys.charges[i] == id && forall j :: 0 <= j < |sys.charges| && j != i ==> sys.charges[j] != id
  {
    RunMoneyInOrder(actions);
    var sys := Exec(actions);
    assert RowMoney(sys, id);
    var i :| 0 <= i < |sys.charges| && sys.charges[i] == id;
    forall j | 0 <= j < |sys.charges| && j != i
      ensures sys.charges[j] != id
    {
      if j < i {
        assert sys.charges[j] != sys.charges[i];
      }
    }
  }

  // ---------------------------------------------------------------- FAILED is final

  /** The payment stands at this failed row, and the processor was asked about it among its first n calls. */
  ghost predicate FailedFor(sys: Sys, id: nat, row: Payment, n: nat) {
    && id < |sys.db.payments| && sys.db.payments[id] == row && row.status == Failed
    && n <= |sys.charges| && id in sys.charges[..n]
  }

  lemma FailedStays(sys: Sys, action: Action, id: nat, row: Payment, n: nat)
    requires InOrder(sys) && FailedFor(sys, id, row, n)
    ensures FailedFor(Next(sys, action), id, row, n)
  {
    var sys' := Next(sys, action);
    assert sys.charges[..n] == sys'.charges[..n];
    if action.Advance? && action.worker < |sys.workers| {
      var w := sys.workers[action.worker];
      assert WorkerInOrder(sys.db, w);
      TurnTouchesOnly(sys.db, w, action.answer);
    }
  }

  lemma StaysInOrder(sys: Sys, action: Action)
    requires InOrder(sys)
    ensures InOrder(Next(sys, action))
  {
    if action.Advance? {
      AdvanceKeepsOrder(sys, action.worker, action.answer);
    }
  }

  lemma {:induction false} GoFailed(sys: Sys, actions: seq<Action>, id: nat, row: Payment, n: nat)
    requires InOrder(sys) && FailedFor(sys, id, row, n)
    ensures InOrder(Go(sys, actions)) && FailedFor(Go(sys, actions), id, row, n)
  {
    GoOne(sys, [], Crash(0));
    if actions != [] {
      var front, last := actions[..|actions| - 1], actions[|actions| - 1];
      GoFailed(sys, front, id, row, n);
      StaysInOrder(Go(sys, front), last);
      FailedStays(Go(sys, front), last, id, row, n);
      GoOne(sys, front, last);
      assert actions == front + [last];
    }
  }

  /** Whatever is sent later, the row never changes, the processor is not asked about it again, and
      every call of the key is answered with it. */
  lemma FailedIsFinal(actions: seq<Action>, more: seq<Action>, id: nat, k: nat)
    requires id < |Exec(actions).db.payments| && Exec(actions).db.payments[id].status == Failed
    ensures var (sys, sys') := (Exec(actions), Exec(actions + more));
            && id < |sys'.db.payments| && sys'.db.payments[id] == sys.db.payments[id]
            && |sys.charges| <= |sys'.charges|
            && (forall i :: |sys.charges| <= i < |sys'.charges| ==> sys'.charges[i] != id)
            && (k < |sys'.workers| && sys'.workers[k].Returned? && sys'.workers[k].key == sys.db.payments[id].key ==> sys'.workers[k].id == id)
  {
    RunMoneyInOrder(actions);
    var sys, sys', n := Exec(actions), Exec(actions + more), |Exec(actions).charges|;
    assert RowMoney(sys, id) && sys.charges[..n] == sys.charges;
    GoFailed(sys, more, id, sys.db.payments[id], n);
    GoIsExec(actions, more);
    if k < |sys'.workers| && sys'.workers[k].Returned? {
      assert WorkerInOrder(sys'.db, sys'.workers[k]);
    }
  }

  // ---------------------------------------------------------------- the answer to its charge

  /** The payment that this step charges. */
  function ChargedBy(sys: Sys, action: Action): Option<nat> {
    if action.Advance? && action.worker < |sys.workers| && sys.workers[action.worker].Charging? then Some(sys.workers[action.worker].id) else None
  }

  /** The answer the processor gave to the charge of this payment. */
  function AnswerTo(actions: seq<Action>, id: nat): Option<Charge> {
    if actions == [] then None
    else
      var front, last := actions[..|actions| - 1], actions[|actions| - 1];
      if ChargedBy(Exec(front), last) == Some(id) then Some(last.answer.charge) else AnswerTo(front, id)
  }

  /** After one more step. */
  function Heard(sys: Sys, action: Action, given: nat -> Option<Charge>): nat -> Option<Charge> {
    (id: nat) => if ChargedBy(sys, action) == Some(id) then Some(action.answer.charge) else given(id)
  }

  predicate WasAccepted(answer: Option<Charge>) {
    answer.Some? && answer.value.Accepted?
  }

  predicate WasNot(answer: Option<Charge>) {
    answer.Some? && !answer.value.Accepted?
  }

  ghost predicate WorkerHeard(given: nat -> Option<Charge>, w: Worker) {
    match w
    case Charging(id) => given(id).None?
    case Deciding(id, charge) => given(id) == Some(charge)
    case MarkingPaid(id, _) => WasAccepted(given(id))
    case MarkingFailed(id, _) => WasNot(given(id))
    case _ => true
  }

  ghost predicate RowHeard(given: nat -> Option<Charge>, db: Db, id: nat)
    requires id < |db.payments|
  {
    match db.payments[id].status
    case Pending => true
    case Succeeded => WasAccepted(given(id))
    case Failed => WasNot(given(id))
  }

  /** What was answered agrees with the workers, the rows and the money taken. */
  ghost predicate AllHeard(sys: Sys, given: nat -> Option<Charge>) {
    && (forall k :: 0 <= k < |sys.workers| ==> WorkerHeard(given, sys.workers[k]))
    && (forall id :: 0 <= id < |sys.db.payments| ==> RowHeard(given, sys.db, id))
    && (forall id: nat :: given(id).Some? ==> id < |sys.db.payments|)
    && (forall id: nat :: id in sys.taken <==> given(id).Some? && TakesMoney(given(id).value))
  }

  lemma MoverHears(sys: Sys, worker: nat, answer: Answer, given: nat -> Option<Charge>)
    requires InOrder(sys) && AllHeard(sys, given) && worker < |sys.workers|
    ensures var (sys', given') := (Next(sys, Advance(worker, answer)), Heard(sys, Advance(worker, answer), given));
            && WorkerHeard(given', sys'.workers[worker])
            && (forall id: nat :: given'(id).Some? ==> id < |sys'.db.payments|)
            && (forall id: nat :: id in sys'.taken <==> given'(id).Some? && TakesMoney(given'(id).value))
  {
    assert WorkerInOrder(sys.db, sys.workers[worker]) && WorkerHeard(given, sys.workers[worker]);
  }

  lemma RowsHear(sys: Sys, worker: nat, answer: Answer, given: nat -> Option<Charge>, id: nat)
    requires InOrder(sys) && AllHeard(sys, given) && worker < |sys.workers|
    requires id < |Next(sys, Advance(worker, answer)).db.payments|
    ensures RowHeard(Heard(sys, Advance(worker, answer), given), Next(sys, Advance(worker, answer)).db, id)
  {
    var w := sys.workers[worker];
    assert WorkerInOrder(sys.db, w) && WorkerHeard(given, w);
    TurnTouchesOnly(sys.db, w, answer);
    if id < |sys.db.payments| {
      assert RowHeard(given, sys.db, id);
    }
  }

  lemma OthersHear(sys: Sys, worker: nat, answer: Answer, given: nat -> Option<Charge>, k: nat)
    requires InOrder(sys) && AllHeard(sys, given) && worker < |sys.workers| && k < |sys.workers| && k != worker
    ensures WorkerHeard(Heard(sys, Advance(worker, answer), given), sys.workers[k])
  {
    var mover, w := sys.workers[worker], sys.workers[k];
    assert WorkerHeard(given, w);
    if mover.Charging? {
      assert Owns(mover, mover.id);
      assert !Owns(w, mover.id);
    }
  }

  lemma NextHears(sys: Sys, action: Action, given: nat -> Option<Charge>)
    requires InOrder(sys) && AllHeard(sys, given)
    ensures AllHeard(Next(sys, action), Heard(sys, action, given))
  {
    var sys', given' := Next(sys, action), Heard(sys, action, given);
    if action.Advance? && action.worker < |sys.workers| {
      MoverHears(sys, action.worker, action.answer, given);
      forall id | 0 <= id < |sys'.db.payments|
        ensures RowHeard(given', sys'.db, id)
      {
        RowsHear(sys, action.worker, action.answer, given, id);
      }
      forall k | 0 <= k < |sys.workers| && k != action.worker
        ensures WorkerHeard(given', sys.workers[k])
      {
        OthersHear(sys, action.worker, action.answer, given, k);
      }
    } else {
      forall id | 0 <= id < |sys'.db.payments|
        ensures RowHeard(given', sys'.db, id)
      {
        assert RowHeard(given, sys.db, id);
      }
      forall k | 0 <= k < |sys'.workers|
        ensures WorkerHeard(given', sys'.workers[k])
      {
        assert k < |sys.workers| ==> WorkerHeard(given, sys.workers[k]);
      }
    }
  }

  function Given(actions: seq<Action>): nat -> Option<Charge> {
    (id: nat) => AnswerTo(actions, id)
  }

  lemma SameHeard(sys: Sys, f: nat -> Option<Charge>, g: nat -> Option<Charge>)
    requires AllHeard(sys, f) && forall id: nat :: f(id) == g(id)
    ensures AllHeard(sys, g)
  {
    forall id | 0 <= id < |sys.db.payments|
      ensures RowHeard(g, sys.db, id)
    {
      assert RowHeard(f, sys.db, id);
    }
    forall k | 0 <= k < |sys.workers|
      ensures WorkerHeard(g, sys.workers[k])
    {
      assert WorkerHeard(f, sys.workers[k]);
    }
  }

  lemma {:induction false} RunHears(actions: seq<Action>)
    ensures AllHeard(Exec(actions), Given(actions))
  {
    if actions != [] {
      var front, last := actions[..|actions| - 1], actions[|actions| - 1];
      RunHears(front);
      RunInOrder(front);
      NextHears(Exec(front), last, Given(front));
      SameHeard(Exec(actions), Heard(Exec(front), last, Given(front)), Given(actions));
    }
  }

  /** A charge that takes the money and is not answered so. */
  predicate FailsAnyway(charge: Charge) {
    TakesMoney(charge) && !charge.Accepted?
  }

  /** In every run a SUCCEEDED payment was answered as accepted. A FAILED one was answered otherwise,
      and its money was taken exactly when that answer hid it. */
  lemma StatusAndMoney(actions: seq<Action>, id: nat)
    requires id < |Exec(actions).db.payments|
    ensures var (row, answer) := (Exec(actions).db.payments[id], AnswerTo(actions, id));
            && (row.status == Succeeded ==> answer.Some? && answer.value.Accepted? && id in Exec(actions).taken)
            && (row.status == Failed ==>
                  answer.Some? && !answer.value.Accepted? && (id in Exec(actions).taken <==> FailsAnyway(answer.value)))
  {
    RunHears(actions);
    assert RowHeard(Given(actions), Exec(actions).db, id);
  }

  lemma {:induction false} AnswerWasGiven(actions: seq<Action>, id: nat)
    requires AnswerTo(actions, id).Some?
    ensures exists i :: 0 <= i < |actions| && actions[i].Advance? && AnswerTo(actions, id) == Some(actions[i].answer.charge)
  {
    var front, last := actions[..|actions| - 1], actions[|actions| - 1];
    if ChargedBy(Exec(front), last) == Some(id) {
      assert actions[|actions| - 1] == last;
    } else {
      AnswerWasGiven(front, id);
      var i :| 0 <= i < |front| && front[i].Advance? && AnswerTo(front, id) == Some(front[i].answer.charge);
      assert actions[i] == front[i];
    }
  }

  /** So over every run in which no charge takes the money behind such an answer, FAILED means that no
      money was taken. */
  lemma FailedTookNothing(actions: seq<Action>, id: nat)
    requires forall i :: 0 <= i < |actions| && actions[i].Advance? ==> !FailsAnyway(actions[i].answer.charge)
    requires id < |Exec(actions).db.payments| && Exec(actions).db.payments[id].status == Failed
    ensures id !in Exec(actions).taken
  {
    StatusAndMoney(actions, id);
    AnswerWasGiven(actions, id);
  }

  // ---------------------------------------------------------------- and may have taken the money

  /** A new payment alone, with the money taken behind such an answer, after three steps. */
  lemma {:induction false} ChargeFails(sys: Sys, w: nat, id: nat, answer: Answer)
    requires w < |sys.workers| && sys.workers[w] == Charging(id) && id < |sys.db.payments| && FailsAnyway(answer.charge)
    ensures var sys' := Next(Next(Next(sys, Advance(w, answer)), Advance(w, answer)), Advance(w, answer));
            && id < |sys'.db.payments| && sys'.db.payments[id].status == Failed && id in sys'.taken
  {
    var sys1 := Next(sys, Advance(w, answer));
    assert sys1 == sys.(workers := sys.workers[w := Deciding(id, answer.charge)], charges := sys.charges + [id], taken := sys.taken + {id});
    var processorId := if answer.charge.NoAnswer? then None else answer.charge.processorId;
    var sys2 := Next(sys1, Advance(w, answer));
    assert sys2 == sys1.(workers := sys1.workers[w := MarkingFailed(id, processorId)]);
  }

  lemma {:induction false} NewKeyCharges(sys: Sys, request: Request, answer: Answer)
    requires Insertable(request) && FindKey(sys.db.payments, request.key).None?
    ensures var (w, sys0) := (|sys.workers|, Next(sys, Create(request)));
            var sys' := Next(Next(sys0, Advance(w, answer)), Advance(w, answer));
            && |sys'.workers| == w + 1 && sys'.workers[w] == Charging(|sys.db.payments|)
            && |sys'.db.payments| == |sys.db.payments| + 1
  {
    var w, sys0 := |sys.workers|, Next(sys, Create(request));
    var sys1 := Next(sys0, Advance(w, answer));
    assert sys1 == sys0.(workers := sys0.workers[w := Inserting(request)]);
  }

  /** After any run, a new key can end so: its payment says FAILED for good and the money is gone. */
  lemma {:induction false} FailedMayBeTaken(before: seq<Action>, request: Request, answer: Answer)
    requires Insertable(request) && FindKey(Exec(before).db.payments, request.key).None? && FailsAnyway(answer.charge)
    ensures var (w, id) := (|Exec(before).workers|, |Exec(before).db.payments|);
            var a := Advance(w, answer);
            var sys' := Exec(before + [Create(request)] + [a] + [a] + [a] + [a] + [a]);
            id < |sys'.db.payments| && sys'.db.payments[id].status == Failed && id in sys'.taken
  {
    var w := |Exec(before).workers|;
    var a, run := Advance(w, answer), before + [Create(request)];
    NewKeyCharges(Exec(before), request, answer);
    ExecOne(before, Create(request));
    ExecOne(run, a);
    ExecOne(run + [a], a);
    ChargeFails(Exec(run + [a] + [a]), w, |Exec(before).db.payments|, answer);
    ExecOne(run + [a] + [a], a);
    ExecOne(run + [a] + [a] + [a], a);
    ExecOne(run + [a] + [a] + [a] + [a], a);
  }
}
