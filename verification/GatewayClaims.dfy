/** The gateway's claim on an idempotency key: leased, completed or failed, with one stored receipt,
    under any number of workers that may crash, stall past their lease, or race.
    services/gateway/gateway_store.py:330-467,526-531 and production_main.py:392-470, with the
    constraints of migrations/005_gateway_core.sql:38-72.

    Every store call is a step; the clock moves only by its own action. The event id a worker
    draws is fresh, so its own number stands for it. */
module GatewayClaims {
  const LEASE := 300
  const MAX_KEY := 255

  datatype Option<+T> = None | Some(value: T)
  datatype Slot = Slot(merchant: string, key: string)
  datatype Status = Processing | Completed | Failed
  datatype Row = Row(hash: string, status: Status, event: Option<nat>, claimedAt: int)
  datatype Receipt = Receipt(slot: Slot, hash: string, payload: string)
  datatype Db = Db(rows: map<Slot, Row>, receipts: map<nat, Receipt>)

  /** How the downstream payment ends: a receipt, an exception, or an HTTP error passed through. */
  datatype Outcome = Paid(payload: string) | Error | HttpError

  /** How a write in its own transaction ends: committed and acknowledged, not made, or with an
      exception on the way out that leaves open whether it was committed. */
  datatype Write = Written | Unwritten | Lost(tookEffect: bool)
  datatype Answer = Answer(outcome: Outcome, saved: Write, completed: Write)

  datatype Claim = New | Retry | Reclaimed | Replay(event: Option<nat>) | Conflict | InProgress

  /** Where a process_payment call stands; since is when it claimed its key, and payload the receipt
      it was paid with, or returns. */
  datatype Worker =
    | Claiming(slot: Slot, hash: string)
    | Working(slot: Slot, hash: string, since: int)
    | Saving(slot: Slot, hash: string, since: int, payload: string)
    | Completing(slot: Slot, hash: string, since: int, payload: string)
    | Failing(slot: Slot, since: int)
    | Replaying(slot: Slot, hash: string, stored: Option<nat>)
    | Returned(slot: Slot, hash: string, event: nat, payload: string)
    | Missing
    | Stopped

  datatype Sys = Sys(db: Db, workers: seq<Worker>, clock: int)
  datatype Action = Submit(slot: Slot, hash: string) | Advance(worker: nat, answer: Answer) | Crash(worker: nat) | Tick(seconds: nat)

  const START := Sys(Db(map[], map[]), [], 0)

  // ---------------------------------------------------------------- the store calls

  function ClaimState(db: Db, slot: Slot, hash: string, clock: int): Claim {
    if slot !in db.rows then New
    else
      var row := db.rows[slot];
      if row.hash != hash then Conflict
      else if row.status == Completed then Replay(row.event)
      else if row.status == Failed then Retry
      else if row.claimedAt <= clock - LEASE then Reclaimed
      else InProgress
  }

  function Claimed(db: Db, slot: Slot, hash: string, clock: int): Db {
    match ClaimState(db, slot, hash, clock)
    case New => db.(rows := db.rows[slot := Row(hash, Processing, None, clock)])
    case Retry => db.(rows := db.rows[slot := db.rows[slot].(status := Processing, claimedAt := clock)])
    case Reclaimed => db.(rows := db.rows[slot := db.rows[slot].(claimedAt := clock)])
    case _ => db
  }

  /** The merchant already has a receipt of another event under this key. */
  predicate Taken(db: Db, slot: Slot, event: nat) {
    exists e :: e in db.receipts && e != event && db.receipts[e].slot == slot
  }

  function Save(db: Db, event: nat, receipt: Receipt): Db {
    db.(receipts := db.receipts[event := if event in db.receipts then db.receipts[event].(payload := receipt.payload) else receipt])
  }

  function SetStatus(db: Db, slot: Slot, status: Status, event: Option<nat>): Db {
    if slot !in db.rows then db
    else db.(rows := db.rows[slot := db.rows[slot].(status := status, event := if event.Some? then event else db.rows[slot].event)])
  }

  predicate HasReceipt(db: Db, slot: Slot, event: nat) {
    event in db.receipts && db.receipts[event].slot.merchant == slot.merchant
  }

  // ---------------------------------------------------------------- the protocol

  predicate Commits(write: Write) {
    write.Written? || (write.Lost? && write.tookEffect)
  }

  function AfterClaim(claim: Claim, slot: Slot, hash: string, clock: int): Worker {
    match claim
    case New => Working(slot, hash, clock)
    case Retry => Working(slot, hash, clock)
    case Reclaimed => Working(slot, hash, clock)
    case Replay(event) => Replaying(slot, hash, event)
    case Conflict => Stopped
    case InProgress => Stopped
  }

  function Turn(db: Db, me: nat, clock: int, w: Worker, answer: Answer): (Db, Worker) {
    match w
    case Claiming(slot, hash) =>
      if slot.key == "" || |slot.key| > MAX_KEY then (db, Stopped)
      else (Claimed(db, slot, hash, clock), AfterClaim(ClaimState(db, slot, hash, clock), slot, hash, clock))
    case Working(slot, hash, since) =>
      (db, match answer.outcome
           case Paid(payload) => Saving(slot, hash, since, payload)
           case Error => Failing(slot, since)
           case HttpError => Stopped)
    case Saving(slot, hash, since, payload) =>
      var stored := Commits(answer.saved) && !Taken(db, slot, me);
      (if stored then Save(db, me, Receipt(slot, hash, payload)) else db,
       if stored && answer.saved.Written? then Completing(slot, hash, since, payload) else Failing(slot, since))
    case Completing(slot, hash, since, payload) =>
      (if Commits(answer.completed) then SetStatus(db, slot, Completed, Some(me)) else db,
       if answer.completed.Written? then Returned(slot, hash, me, payload) else Failing(slot, since))
    case Failing(slot, since) => (SetStatus(db, slot, Failed, None), Stopped)
    case Replaying(slot, hash, event) =>
      (db, if event.Some? && HasReceipt(db, slot, event.value) then Returned(slot, hash, event.value, db.receipts[event.value].payload)
           else Missing)
    case Returned(_, _, _, _) => (db, w)
    case Missing => (db, w)
    case Stopped => (db, w)
  }

  function Next(sys: Sys, action: Action): Sys {
    match action
    case Submit(slot, hash) => sys.(workers := sys.workers + [Claiming(slot, hash)])
    case Tick(seconds) => sys.(clock := sys.clock + seconds)
    case Crash(worker) => if worker >= |sys.workers| then sys else sys.(workers := sys.workers[worker := Stopped])
    case Advance(worker, answer) =>
      if worker >= |sys.workers| then sys
      else
        var (db, w) := Turn(sys.db, worker, sys.clock, sys.workers[worker], answer);
        sys.(db := db, workers := sys.workers[worker := w])
  }

  function Exec(actions: seq<Action>): Sys {
    if actions == [] then START else Next(Exec(actions[..|actions| - 1]), actions[|actions| - 1])
  }

  // ---------------------------------------------------------------- the invariant of every run

  ghost predicate ReceiptsInOrder(db: Db) {
    && (forall e :: e in db.receipts ==>
          db.receipts[e].slot in db.rows && db.receipts[e].hash == db.rows[db.receipts[e].slot].hash)
    && (forall e, f :: e in db.receipts && f in db.receipts && e != f ==> db.receipts[e].slot != db.receipts[f].slot)
  }

  ghost predicate IsReceiptOf(db: Db, slot: Slot, event: nat) {
    event in db.receipts && db.receipts[event].slot == slot
  }

  ghost predicate RowInOrder(db: Db, slot: Slot)
    requires slot in db.rows
  {
    && (db.rows[slot].event.Some? ==> IsReceiptOf(db, slot, db.rows[slot].event.value))
    && (db.rows[slot].status == Completed ==> db.rows[slot].event.Some?)
  }

  ghost predicate TablesInOrder(db: Db) {
    ReceiptsInOrder(db) && forall slot :: slot in db.rows ==> RowInOrder(db, slot)
  }

  ghost predicate WorkerInOrder(db: Db, k: nat, w: Worker) {
    match w
    case Claiming(_, _) => k !in db.receipts
    case Working(slot, hash, _) => slot in db.rows && db.rows[slot].hash == hash && k !in db.receipts
    case Saving(slot, hash, _, _) => slot in db.rows && db.rows[slot].hash == hash && k !in db.receipts
    case Completing(slot, hash, _, _) => slot in db.rows && db.rows[slot].hash == hash && IsReceiptOf(db, slot, k)
    case Failing(slot, _) => slot in db.rows
    case Replaying(slot, hash, event) => slot in db.rows && db.rows[slot].hash == hash && event.Some? && IsReceiptOf(db, slot, event.value)
    case Returned(slot, hash, event, _) => slot in db.rows && db.rows[slot].hash == hash && IsReceiptOf(db, slot, event)
    case Missing => false
    case Stopped => true
  }

  ghost predicate InOrder(sys: Sys) {
    && TablesInOrder(sys.db)
    && (forall k :: 0 <= k < |sys.workers| ==> WorkerInOrder(sys.db, k, sys.workers[k]))
    && (forall e :: e in sys.db.receipts ==> e < |sys.workers|)
  }

  /** What no step undoes: a key keeps its row and its request hash, and an event its receipt's
      owner and hash. Only worker me can add the receipt of event me. */
  ghost predicate Evolves(db: Db, db': Db, me: nat) {
    && (forall slot :: slot in db.rows ==> slot in db'.rows && db'.rows[slot].hash == db.rows[slot].hash)
    && (forall e :: e in db.receipts ==> e in db'.receipts && db'.receipts[e].slot == db.receipts[e].slot && db'.receipts[e].hash == db.receipts[e].hash)
    && (forall e :: e in db'.receipts && e != me ==> e in db.receipts)
  }

  lemma TurnEvolves(db: Db, me: nat, clock: int, w: Worker, answer: Answer)
    ensures Evolves(db, Turn(db, me, clock, w, answer).0, me)
  {
  }

  lemma SaveKeepsTables(db: Db, event: nat, receipt: Receipt)
    requires TablesInOrder(db) && receipt.slot in db.rows && db.rows[receipt.slot].hash == receipt.hash
    requires event !in db.receipts && !Taken(db, receipt.slot, event)
    ensures TablesInOrder(Save(db, event, receipt))
  {
    forall slot | slot in db.rows
      ensures RowInOrder(Save(db, event, receipt), slot)
    {
      assert RowInOrder(db, slot);
    }
  }

  lemma StatusKeepsTables(db: Db, slot: Slot, status: Status, event: Option<nat>)
    requires TablesInOrder(db)
    requires event.Some? ==> IsReceiptOf(db, slot, event.value)
    requires status == Completed ==> event.Some?
    ensures TablesInOrder(SetStatus(db, slot, status, event))
  {
    var db' := SetStatus(db, slot, status, event);
    forall s | s in db'.rows
      ensures RowInOrder(db', s)
    {
      assert RowInOrder(db, s);
    }
  }

  lemma ClaimKeepsTables(db: Db, slot: Slot, hash: string, clock: int)
    requires TablesInOrder(db)
    ensures TablesInOrder(Claimed(db, slot, hash, clock))
  {
    var db' := Claimed(db, slot, hash, clock);
    forall s | s in db'.rows
      ensures RowInOrder(db', s)
    {
      if s in db.rows {
        assert RowInOrder(db, s);
      }
    }
  }

  lemma TurnKeepsTables(db: Db, me: nat, clock: int, w: Worker, answer: Answer)
    requires TablesInOrder(db) && WorkerInOrder(db, me, w)
    ensures TablesInOrder(Turn(db, me, clock, w, answer).0)
  {
    match w
    case Claiming(slot, hash) => ClaimKeepsTables(db, slot, hash, clock);
    case Saving(slot, hash, since, payload) =>
      if Commits(answer.saved) && !Taken(db, slot, me) {
        SaveKeepsTables(db, me, Receipt(slot, hash, payload));
      }
    case Completing(slot, hash, since, payload) => StatusKeepsTables(db, slot, Completed, Some(me));
    case Failing(slot, since) => StatusKeepsTables(db, slot, Failed, None);
    case _ =>
  }

  lemma TurnKeepsFacts(db: Db, me: nat, clock: int, w: Worker, answer: Answer)
    requires WorkerInOrder(db, me, w) && TablesInOrder(db)
    ensures WorkerInOrder(Turn(db, me, clock, w, answer).0, me, Turn(db, me, clock, w, answer).1)
  {
    if w.Claiming? && w.slot in db.rows {
      assert RowInOrder(db, w.slot);
    }
  }

  lemma OthersKeepFacts(db: Db, db': Db, me: nat, k: nat, w: Worker)
    requires Evolves(db, db', me) && WorkerInOrder(db, k, w) && k != me
    ensures WorkerInOrder(db', k, w)
  {
  }

  lemma NextKeepsOrder(sys: Sys, action: Action)
    requires InOrder(sys)
    ensures InOrder(Next(sys, action))
  {
    if action.Advance? && action.worker < |sys.workers| {
      var me, w := action.worker, sys.workers[action.worker];
      var sys' := Next(sys, action);
      TurnEvolves(sys.db, me, sys.clock, w, action.answer);
      TurnKeepsTables(sys.db, me, sys.clock, w, action.answer);
      TurnKeepsFacts(sys.db, me, sys.clock, w, action.answer);
      forall k | 0 <= k < |sys.workers| && k != me
        ensures WorkerInOrder(sys'.db, k, sys.workers[k])
      {
        OthersKeepFacts(sys.db, sys'.db, me, k, sys.workers[k]);
      }
    }
  }

  lemma {:induction false} RunInOrder(actions: seq<Action>)
    ensures InOrder(Exec(actions))
  {
    if actions != [] {
      RunInOrder(actions[..|actions| - 1]);
      NextKeepsOrder(Exec(actions[..|actions| - 1]), actions[|actions| - 1]);
    }
  }

  // ---------------------------------------------------------------- over every run

  /** A replay always finds its merchant's stored receipt: no call ends without it, and every
      receipt that is returned was stored under the key, and for the request, of the call. */
  lemma ReplayFindsReceipt(actions: seq<Action>, k: nat)
    requires k < |Exec(actions).workers|
    ensures var sys := Exec(actions);
            var w := sys.workers[k];
            && !w.Missing?
            && (w.Replaying? ==> w.stored.Some? && HasReceipt(sys.db, w.slot, w.stored.value))
            && (w.Returned? ==> IsReceiptOf(sys.db, w.slot, w.event) && sys.db.receipts[w.event].hash == w.hash)
  {
    RunInOrder(actions);
    assert WorkerInOrder(Exec(actions).db, k, Exec(actions).workers[k]);
  }

  /** All calls that return a receipt for a key return the same one. */
  lemma SameReceiptForAll(actions: seq<Action>, j: nat, k: nat)
    requires var ws := Exec(actions).workers;
             j < |ws| && k < |ws| && ws[j].Returned? && ws[k].Returned? && ws[j].slot == ws[k].slot
    ensures Exec(actions).workers[j].event == Exec(actions).workers[k].event
  {
    RunInOrder(actions);
    var sys := Exec(actions);
    assert WorkerInOrder(sys.db, j, sys.workers[j]) && WorkerInOrder(sys.db, k, sys.workers[k]);
  }

  lemma NextKeepsHashes(sys: Sys, action: Action, slot: Slot)
    requires slot in sys.db.rows
    ensures slot in Next(sys, action).db.rows && Next(sys, action).db.rows[slot].hash == sys.db.rows[slot].hash
  {
    if action.Advance? && action.worker < |sys.workers| {
      TurnEvolves(sys.db, action.worker, sys.clock, sys.workers[action.worker], action.answer);
    }
  }

  /** A key's request hash never changes, and its row never goes away. */
  lemma {:induction false} HashNeverChanges(before: seq<Action>, after: seq<Action>, slot: Slot)
    requires slot in Exec(before).db.rows
    ensures slot in Exec(before + after).db.rows
    ensures Exec(before + after).db.rows[slot].hash == Exec(before).db.rows[slot].hash
    decreases |after|
  {
    if after == [] {
      assert before + after == before;
    } else {
      var n := |after| - 1;
      assert (before + after)[..|before| + n] == before + after[..n];
      HashNeverChanges(before, after[..n], slot);
      NextKeepsHashes(Exec(before + after[..n]), after[n], slot);
    }
  }
}
