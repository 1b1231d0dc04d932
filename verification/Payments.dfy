/** Creating a payment once per idempotency key, by any number of concurrent calls that may crash
    at any await. services/transaction/transaction-service-core.ts:78-230, with the unique key and
    the amount check of migrations/001_transaction_schema.sql:8-29.

    The processor and the ledger are oracles: a step that waits for one is given its answer. An
    exception outside the branches the code handles ends the call, as a crash does. */
module Payments {
  import opened Steps

  datatype Option<+T> = None | Some(value: T)
  datatype Status = Pending | Succeeded | Failed
  datatype Payment = Payment(key: string, amount: int, status: Status, processorId: Option<string>, ledgerId: Option<string>)
  datatype Request = Request(key: string, amount: int)

  /** How a charge ends. One that is still processing, or whose answer is lost or cannot be read, is
      written FAILED like a declined one, and may have taken the money all the same. */
  datatype Charge =
    | Accepted(processorId: Option<string>)
    | Declined(processorId: Option<string>)
    | Unsettled(processorId: Option<string>, tookEffect: bool)
    | NoAnswer(tookEffect: bool)

  /** How the outside calls of a payment end: the charge, the ledger post, and the write of the
      ledger id, whose failure the code also handles. */
  datatype Answer = Answer(charge: Charge, ledgerId: Option<string>, linkWritten: bool)

  datatype Db = Db(payments: seq<Payment>, unposted: seq<nat>)

  /** Where a createPayment call stands. Returned says whose request it was, what it returned,
      and whether this call inserted the payment itself. */
  datatype Worker =
    | Looking(request: Request)
    | Inserting(request: Request)
    | Rereading(request: Request)
    | Charging(id: nat)
    | Deciding(id: nat, charge: Charge)
    | MarkingPaid(id: nat, processorId: Option<string>)
    | MarkingFailed(id: nat, processorId: Option<string>)
    | Posting(id: nat)
    | Linking(id: nat, ledgerId: string)
    | Enqueuing(id: nat)
    | Returned(key: string, id: nat, own: bool)
    | Stopped

  /** charges lists the payment of every charge call made to the processor, in order; taken has the
      payments whose charge took the money. */
  datatype Sys = Sys(db: Db, workers: seq<Worker>, charges: seq<nat>, taken: set<nat>)

  datatype Action = Create(request: Request) | Advance(worker: nat, answer: Answer) | Crash(worker: nat)

  const START := Sys(Db([], []), [], [], {})

  function FindKey(payments: seq<Payment>, key: string): (found: Option<nat>)
    ensures found.Some? ==> found.value < |payments| && payments[found.value].key == key
    ensures found.None? ==> forall i :: 0 <= i < |payments| ==> payments[i].key != key
  {
    if payments == [] then None
    else
      var n := |payments| - 1;
      var earlier := FindKey(payments[..n], key);
      assert forall i :: 0 <= i < n ==> payments[..n][i] == payments[i];
      if earlier.Some? then earlier else if payments[n].key == key then Some(n) else None
  }

  function SetRow(db: Db, id: nat, row: Payment): Db
    requires id < |db.payments|
  {
    db.(payments := db.payments[id := row])
  }

  /** getPayment at the end of the call. */
  function ReturnOwn(db: Db, id: nat): Worker {
    if id < |db.payments| then Returned(db.payments[id].key, id, true) else Stopped
  }

  const MAX_KEY := 255

  /** The columns of a payment row accept the request. */
  predicate Insertable(request: Request) {
    request.amount > 0 && |request.key| <= MAX_KEY
  }

  function Turn(db: Db, w: Worker, answer: Answer): (Db, Worker) {
    match w
    case Looking(request) =>
      var found := FindKey(db.payments, request.key);
      (db, if found.Some? then Returned(request.key, found.value, false) else Inserting(request))
    case Inserting(request) =>
      if !Insertable(request) then (db, Stopped)
      else if FindKey(db.payments, request.key).Some? then (db, Rereading(request))
      else (db.(payments := db.payments + [Payment(request.key, request.amount, Pending, None, None)]), Charging(|db.payments|))
    case Rereading(request) =>
      var found := FindKey(db.payments, request.key);
      (db, if found.Some? then Returned(request.key, found.value, false) else Stopped)
    case Charging(id) => (db, Deciding(id, answer.charge))
    case Deciding(id, charge) =>
      (db, match charge
           case Accepted(processorId) => MarkingPaid(id, processorId)
           case Declined(processorId) => MarkingFailed(id, processorId)
           case Unsettled(processorId, _) => MarkingFailed(id, processorId)
           case NoAnswer(_) => MarkingFailed(id, None))
    case MarkingFailed(id, processorId) =>
      if id >= |db.payments| then (db, Stopped)
      else
        var db' := SetRow(db, id, db.payments[id].(status := Failed, processorId := processorId));
        (db', ReturnOwn(db', id))
    case MarkingPaid(id, processorId) =>
      if id >= |db.payments| then (db, Stopped)
      else (SetRow(db, id, db.payments[id].(status := Succeeded, processorId := processorId)), Posting(id))
    case Posting(id) => (db, if answer.ledgerId.Some? then Linking(id, answer.ledgerId.value) else Enqueuing(id))
    case Linking(id, ledgerId) =>
      if !answer.linkWritten || id >= |db.payments| then (db, Enqueuing(id))
      else
        var db' := SetRow(db, id, db.payments[id].(ledgerId := Some(ledgerId)));
        (db', ReturnOwn(db', id))
    case Enqueuing(id) => (db.(unposted := db.unposted + [id]), ReturnOwn(db, id))
    case Returned(_, _, _) => (db, w)
    case Stopped => (db, w)
  }

  predicate TakesMoney(charge: Charge) {
    charge.Accepted? || (!charge.Declined? && charge.tookEffect)
  }

  function Next(sys: Sys, action: Action): Sys {
    match action
    case Create(request) => sys.(workers := sys.workers + [Looking(request)])
    case Crash(worker) => if worker >= |sys.workers| then sys else sys.(workers := sys.workers[worker := Stopped])
    case Advance(worker, answer) =>
      if worker >= |sys.workers| then sys
      else
        var w := sys.workers[worker];
        var (db, w') := Turn(sys.db, w, answer);
        Sys(db, sys.workers[worker := w'],
            if w.Charging? then sys.charges + [w.id] else sys.charges,
            if w.Charging? && TakesMoney(answer.charge) then sys.taken + {w.id} else sys.taken)
  }

  function Exec(actions: seq<Action>): Sys {
    if actions == [] then START else Next(Exec(actions[..|actions| - 1]), actions[|actions| - 1])
  }

  /** The given number of steps of the first call, with nobody else moving. */
  function Drive(sys: Sys, answer: Answer, steps: nat): Sys {
    Repeat((s: Sys) => Next(s, Advance(0, answer)), sys, steps)
  }

  lemma DriveOne(sys: Sys, answer: Answer, steps: nat)
    ensures Drive(sys, answer, 0) == sys
    ensures Drive(sys, answer, steps + 1) == Next(Drive(sys, answer, steps), Advance(0, answer))
  {
  }

  lemma DriveFurther(sys: Sys, answer: Answer, a: nat, b: nat)
    ensures Drive(sys, answer, a + b) == Drive(Drive(sys, answer, a), answer, b)
  {
    RepeatFurther((s: Sys) => Next(s, Advance(0, answer)), sys, a, b);
  }

  lemma ExecOne(actions: seq<Action>, action: Action)
    ensures Exec(actions + [action]) == Next(Exec(actions), action)
  {
    assert (actions + [action])[..|actions|] == actions;
  }

  /** A run from any state on. */
  function Go(sys: Sys, actions: seq<Action>): Sys {
    Fold((s: Sys, a: Action) => Next(s, a), sys, actions)
  }

  lemma GoOne(sys: Sys, actions: seq<Action>, action: Action)
    ensures Go(sys, []) == sys
    ensures Go(sys, actions + [action]) == Next(Go(sys, actions), action)
  {
    FoldFurther((s: Sys, a: Action) => Next(s, a), sys, actions, [action]);
    FoldTwice((s: Sys, a: Action) => Next(s, a), Go(sys, actions), action, action);
  }

  lemma {:induction false} GoIsExec(before: seq<Action>, actions: seq<Action>)
    ensures Exec(before + actions) == Go(Exec(before), actions)
    decreases |actions|
  {
    if actions == [] {
      assert before + actions == before;
    } else {
      var n := |actions| - 1;
      GoIsExec(before, actions[..n]);
      assert before + actions == before + actions[..n] + [actions[n]] && actions == actions[..n] + [actions[n]];
      ExecOne(before + actions[..n], actions[n]);
      GoOne(Exec(before), actions[..n], actions[n]);
    }
  }

  // ---------------------------------------------------------------- the invariant

  /** The call that inserted a payment is the only one that works on it. */
  predicate Owns(w: Worker, id: nat) {
    match w
    case Charging(i) => i == id
    case Deciding(i, _) => i == id
    case MarkingPaid(i, _) => i == id
    case MarkingFailed(i, _) => i == id
    case Posting(i) => i == id
    case Linking(i, _) => i == id
    case Enqueuing(i) => i == id
    case Returned(_, i, own) => own && i == id
    case _ => false
  }

  /** A payment that its call has finished with: failed, or succeeded and posted or queued for it. */
  predicate Finished(db: Db, id: nat)
    requires id < |db.payments|
  {
    var row := db.payments[id];
    row.status == Failed || (row.status == Succeeded && (row.ledgerId.Some? || id in db.unposted))
  }

  ghost predicate WorkerInOrder(db: Db, w: Worker) {
    match w
    case Charging(id) => id < |db.payments| && db.payments[id].status == Pending
    case Deciding(id, _) => id < |db.payments| && db.payments[id].status == Pending
    case MarkingPaid(id, _) => id < |db.payments| && db.payments[id].status == Pending
    case MarkingFailed(id, _) => id < |db.payments| && db.payments[id].status == Pending
    case Posting(id) => id < |db.payments| && db.payments[id].status == Succeeded
    case Linking(id, _) => id < |db.payments| && db.payments[id].status == Succeeded
    case Enqueuing(id) => id < |db.payments| && db.payments[id].status == Succeeded
    case Returned(key, id, own) => id < |db.payments| && db.payments[id].key == key && (own ==> Finished(db, id))
    case _ => true
  }

  ghost predicate KeysUnique(payments: seq<Payment>) {
    forall i, j :: 0 <= i < j < |payments| ==> payments[i].key != payments[j].key
  }

  ghost predicate OwnersInOrder(sys: Sys) {
    forall j, k, id: nat :: 0 <= j < k < |sys.workers| && Owns(sys.workers[j], id) ==> !Owns(sys.workers[k], id)
  }

  ghost predicate ChargesInOrder(sys: Sys) {
    && (forall i :: 0 <= i < |sys.charges| ==> sys.charges[i] < |sys.db.payments|)
    && (forall i, j :: 0 <= i < j < |sys.charges| ==> sys.charges[i] != sys.charges[j])
    && (forall k :: 0 <= k < |sys.workers| && sys.workers[k].Charging? ==> sys.workers[k].id !in sys.charges)
  }

  ghost predicate InOrder(sys: Sys) {
    && KeysUnique(sys.db.payments)
    && (forall k :: 0 <= k < |sys.workers| ==> WorkerInOrder(sys.db, sys.workers[k]))
    && OwnersInOrder(sys)
    && ChargesInOrder(sys)
  }

  /** A step changes no row but its owner's, and never a key. */
  ghost predicate TouchesOnly(db: Db, db': Db, w: Worker) {
    && |db.payments| <= |db'.payments|
    && (forall i :: 0 <= i < |db.payments| ==> db'.payments[i].key == db.payments[i].key)
    && (forall i :: 0 <= i < |db.payments| && !Owns(w, i) ==> db'.payments[i] == db.payments[i])
    && db.unposted <= db'.unposted
  }

  lemma TurnTouchesOnly(db: Db, w: Worker, answer: Answer)
    ensures TouchesOnly(db, Turn(db, w, answer).0, w)
  {
  }

  lemma OthersKeepFacts(db: Db, db': Db, mover: Worker, w: Worker)
    requires TouchesOnly(db, db', mover) && WorkerInOrder(db, w)
    requires forall id: nat :: Owns(w, id) ==> !Owns(mover, id)
    ensures WorkerInOrder(db', w)
  {
    if w.Returned? && w.own {
      assert Owns(w, w.id);
    }
  }

  lemma TurnKeepsFacts(db: Db, w: Worker, answer: Answer)
    requires WorkerInOrder(db, w) && KeysUnique(db.payments)
    ensures var (db', w') := Turn(db, w, answer);
            && WorkerInOrder(db', w') && KeysUnique(db'.payments)
            && (forall id: nat :: Owns(w', id) ==> Owns(w, id) || id == |db.payments|)
  {
  }

  lemma AdvanceKeepsOrder(sys: Sys, worker: nat, answer: Answer)
    requires InOrder(sys)
    ensures InOrder(Next(sys, Advance(worker, answer)))
  {
    if worker < |sys.workers| {
      var w := sys.workers[worker];
      var sys' := Next(sys, Advance(worker, answer));
      TurnTouchesOnly(sys.db, w, answer);
      TurnKeepsFacts(sys.db, w, answer);
      forall k | 0 <= k < |sys.workers| && k != worker
        ensures WorkerInOrder(sys'.db, sys.workers[k])
      {
        OthersKeepFacts(sys.db, sys'.db, w, sys.workers[k]);
      }
      AdvanceKeepsOwners(sys, worker, answer);
      AdvanceKeepsCharges(sys, worker, answer);
    }
  }

  lemma AdvanceKeepsOwners(sys: Sys, worker: nat, answer: Answer)
    requires InOrder(sys) && worker < |sys.workers|
    ensures OwnersInOrder(Next(sys, Advance(worker, answer)))
  {
    var w := sys.workers[worker];
    TurnKeepsFacts(sys.db, w, answer);
    forall k, id: nat | 0 <= k < |sys.workers| && Owns(sys.workers[k], id)
      ensures id < |sys.db.payments|
    {
      assert WorkerInOrder(sys.db, sys.workers[k]);
    }
  }

  lemma AdvanceKeepsCharges(sys: Sys, worker: nat, answer: Answer)
    requires InOrder(sys) && worker < |sys.workers|
    ensures ChargesInOrder(Next(sys, Advance(worker, answer)))
  {
    var w := sys.workers[worker];
    assert WorkerInOrder(sys.db, w);
    if w.Charging? {
      assert Owns(w, w.id);
      forall k | 0 <= k < |sys.workers| && k != worker && sys.workers[k].Charging?
        ensures sys.workers[k].id != w.id
      {
        assert Owns(sys.workers[k], sys.workers[k].id);
      }
    }
  }

  lemma {:induction false} RunInOrder(actions: seq<Action>)
    ensures InOrder(Exec(actions))
  {
    if actions != [] {
      var front, last := actions[..|actions| - 1], actions[|actions| - 1];
      RunInOrder(front);
      if last.Advance? {
        AdvanceKeepsOrder(Exec(front), last.worker, last.answer);
      }
    }
  }

  // ---------------------------------------------------------------- over every run

  /** The processor is charged at most once per idempotency key. */
  lemma ChargesAtMostOnce(actions: seq<Action>, i: nat, j: nat)
    requires i < j < |Exec(actions).charges|
    ensures var sys := Exec(actions);
            && sys.charges[i] < |sys.db.payments| && sys.charges[j] < |sys.db.payments|
            && sys.db.payments[sys.charges[i]].key != sys.db.payments[sys.charges[j]].key
  {
    RunInOrder(actions);
    assert Exec(actions).charges[i] != Exec(actions).charges[j];
  }

  /** Once the call that inserted a payment has returned, the payment failed, or it succeeded and
      is posted to the ledger or queued to be. */
  lemma ReturnedIsFinished(actions: seq<Action>, k: nat)
    requires k < |Exec(actions).workers| && Exec(actions).workers[k].Returned? && Exec(actions).workers[k].own
    ensures var sys := Exec(actions);
            sys.workers[k].id < |sys.db.payments| && Finished(sys.db, sys.workers[k].id)
  {
    RunInOrder(actions);
    assert WorkerInOrder(Exec(actions).db, Exec(actions).workers[k]);
  }

  /** All calls with one key return the same payment, and it carries that key. */
  lemma SamePaymentForAll(actions: seq<Action>, j: nat, k: nat)
    requires var ws := Exec(actions).workers;
             j < |ws| && k < |ws| && ws[j].Returned? && ws[k].Returned?
    ensures var sys := Exec(actions);
            && sys.workers[j].id < |sys.db.payments|
            && sys.db.payments[sys.workers[j].id].key == sys.workers[j].key
            && (sys.workers[j].key == sys.workers[k].key <==> sys.workers[j].id == sys.workers[k].id)
  {
    RunInOrder(actions);
    var sys := Exec(actions);
    assert WorkerInOrder(sys.db, sys.workers[j]) && WorkerInOrder(sys.db, sys.workers[k]);
  }

  ghost predicate HasOwner(sys: Sys, id: nat) {
    exists k :: 0 <= k < |sys.workers| && Owns(sys.workers[k], id)
  }

  lemma AdvanceKeepsOwner(sys: Sys, worker: nat, answer: Answer, id: nat)
    requires InOrder(sys) && worker < |sys.workers|
    requires id < |sys.db.payments| ==> HasOwner(sys, id)
    requires id < |Next(sys, Advance(worker, answer)).db.payments|
    ensures HasOwner(Next(sys, Advance(worker, answer)), id)
  {
    var sys' := Next(sys, Advance(worker, answer));
    assert WorkerInOrder(sys.db, sys.workers[worker]);
    if id < |sys.db.payments| {
      var k :| 0 <= k < |sys.workers| && Owns(sys.workers[k], id);
      assert Owns(sys'.workers[k], id);
    } else {
      assert Owns(sys'.workers[worker], id);
    }
  }

  /** Without a crash every payment has the call that inserted it. */
  lemma {:induction false} NoCrashKeepsOwners(actions: seq<Action>, id: nat)
    requires forall i :: 0 <= i < |actions| ==> !actions[i].Crash?
    requires id < |Exec(actions).db.payments|
    ensures HasOwner(Exec(actions), id)
  {
    var front, last := actions[..|actions| - 1], actions[|actions| - 1];
    var sys := Exec(front);
    RunInOrder(front);
    if id < |sys.db.payments| {
      NoCrashKeepsOwners(front, id);
    }
    if last.Advance? && last.worker < |sys.workers| {
      AdvanceKeepsOwner(sys, last.worker, last.answer, id);
    } else {
      var k :| 0 <= k < |sys.workers| && Owns(sys.workers[k], id);
      assert Owns(Exec(actions).workers[k], id);
    }
  }

  /** So when every call of such a run has ended, every payment is finished with. */
  lemma QuietRunFinishesAll(actions: seq<Action>, id: nat)
    requires forall i :: 0 <= i < |actions| ==> !actions[i].Crash?
    requires forall k :: 0 <= k < |Exec(actions).workers| ==> Exec(actions).workers[k].Returned? || Exec(actions).workers[k].Stopped?
    requires id < |Exec(actions).db.payments|
    ensures Finished(Exec(actions).db, id)
  {
    NoCrashKeepsOwners(actions, id);
    var k :| 0 <= k < |Exec(actions).workers| && Owns(Exec(actions).workers[k], id);
    ReturnedIsFinished(actions, k);
  }
}
