/** Gateway calls from beginning to end: when an untroubled call completes its key, and runs that
    reach the troubles of module GatewayLeases.
    services/gateway/gateway_store.py:330-467 and production_main.py:392-470. */
module GatewayRuns {
  import opened GatewayClaims
  import opened GatewayLeases

  function Untroubled(payload: string): Answer {
    Answer(Paid(payload), Written, Written)
  }

  lemma ExecOne(actions: seq<Action>, action: Action)
    ensures Exec(actions + [action]) == Next(Exec(actions), action)
  {
    assert (actions + [action])[..|actions|] == actions;
  }

  /** A claim of the key goes through: it is new, failed, or past its lease, and asks for the same. */
  predicate Claimable(db: Db, slot: Slot, hash: string, clock: int) {
    0 < |slot.key| <= MAX_KEY && (ClaimState(db, slot, hash, clock).New? || ClaimState(db, slot, hash, clock).Retry? || ClaimState(db, slot, hash, clock).Reclaimed?)
  }

  ghost predicate HasAnyReceipt(db: Db, slot: Slot) {
    exists e :: IsReceiptOf(db, slot, e)
  }

  /** Claimed and paid downstream, about to save its receipt. */
  function AtSaving(sys: Sys, slot: Slot, hash: string, payload: string): Sys {
    Sys(Claimed(sys.db, slot, hash, sys.clock), sys.workers + [Saving(slot, hash, sys.clock, payload)], sys.clock)
  }

  lemma ReachesSaving(sys: Sys, slot: Slot, hash: string, payload: string)
    requires Claimable(sys.db, slot, hash, sys.clock)
    ensures var (me, a) := (|sys.workers|, Advance(|sys.workers|, Untroubled(payload)));
            Next(Next(Next(sys, Submit(slot, hash)), a), a) == AtSaving(sys, slot, hash, payload)
  {
    var me, a := |sys.workers|, Advance(|sys.workers|, Untroubled(payload));
    var sys1 := Next(Next(sys, Submit(slot, hash)), a);
    assert sys1.workers == sys.workers + [Working(slot, hash, sys.clock)];
    assert sys1.db == Claimed(sys.db, slot, hash, sys.clock);
  }

  /** From the payment on, an untroubled call stores its receipt and completes the key exactly when
      no receipt is stored under it; otherwise it leaves the key failed. */
  lemma SavingEnds(sys: Sys, me: nat, slot: Slot, hash: string, since: int, payload: string)
    requires me < |sys.workers| && sys.workers[me] == Saving(slot, hash, since, payload)
    requires slot in sys.db.rows && me !in sys.db.receipts
    ensures var a := Advance(me, Untroubled(payload));
            var sys' := Next(Next(sys, a), a);
            && |sys'.workers| == |sys.workers| && (forall k :: 0 <= k < |sys.workers| && k != me ==> sys'.workers[k] == sys.workers[k])
            && slot in sys'.db.rows
            && (HasAnyReceipt(sys.db, slot) ==> sys'.workers[me].Stopped? && sys'.db.rows[slot].status == Failed && sys'.db.receipts == sys.db.receipts)
            && (!HasAnyReceipt(sys.db, slot) ==>
                  && sys'.workers[me] == Returned(slot, hash, me, payload) && IsReceiptOf(sys'.db, slot, me)
                  && sys'.db.receipts[me] == Receipt(slot, hash, payload)
                  && sys'.db.rows[slot].status == Completed && sys'.db.rows[slot].event == Some(me))
  {
    assert Taken(sys.db, slot, me) <==> HasAnyReceipt(sys.db, slot) by {
      if HasAnyReceipt(sys.db, slot) {
        var e :| IsReceiptOf(sys.db, slot, e);
        assert e in sys.db.receipts && e != me && sys.db.receipts[e].slot == slot;
      }
      if Taken(sys.db, slot, me) {
        var e :| e in sys.db.receipts && e != me && sys.db.receipts[e].slot == slot;
        assert IsReceiptOf(sys.db, slot, e);
      }
    }
  }

  /** In any state of any run, a key that can be claimed is completed by an untroubled call exactly
      when no receipt is stored under it. */
  lemma UntroubledCompletes(sys: Sys, slot: Slot, hash: string, payload: string)
    requires InOrder(sys) && Claimable(sys.db, slot, hash, sys.clock)
    ensures var (me, a) := (|sys.workers|, Advance(|sys.workers|, Untroubled(payload)));
            var sys' := Next(Next(Next(Next(Next(sys, Submit(slot, hash)), a), a), a), a);
            && |sys'.workers| == me + 1 && sys'.workers[..me] == sys.workers
            && (sys'.workers[me] == Returned(slot, hash, me, payload) <==> !HasAnyReceipt(sys.db, slot))
            && (IsCompleted(sys'.db, slot) <==> !HasAnyReceipt(sys.db, slot))
            && (!HasAnyReceipt(sys.db, slot) ==> IsReceiptOf(sys'.db, slot, me) && sys'.db.receipts[me] == Receipt(slot, hash, payload))
  {
    var me, paid := |sys.workers|, AtSaving(sys, slot, hash, payload);
    ReachesSaving(sys, slot, hash, payload);
    assert forall e :: IsReceiptOf(paid.db, slot, e) <==> IsReceiptOf(sys.db, slot, e);
    assert HasAnyReceipt(paid.db, slot) <==> HasAnyReceipt(sys.db, slot);
    SavingEnds(paid, me, slot, hash, sys.clock, payload);
  }

  // ---------------------------------------------------------------- how every other call ends

  /** The state with one worker more. */
  function Ended(sys: Sys, db: Db, w: Worker): Sys {
    Sys(db, sys.workers + [w], sys.clock)
  }

  /** The state after a call was sent and its worker has done so many steps with one answer. */
  function Served(sys: Sys, slot: Slot, hash: string, answer: Answer, steps: nat): Sys {
    if steps == 0 then Next(sys, Submit(slot, hash))
    else Next(Served(sys, slot, hash, answer, steps - 1), Advance(|sys.workers|, answer))
  }

  lemma ServedOne(sys: Sys, slot: Slot, hash: string, answer: Answer, steps: nat, db: Db, w: Worker)
    requires Served(sys, slot, hash, answer, steps) == Ended(sys, db, w)
    ensures Served(sys, slot, hash, answer, steps + 1)
            == Ended(sys, Turn(db, |sys.workers|, sys.clock, w, answer).0, Turn(db, |sys.workers|, sys.clock, w, answer).1)
  {
    var w' := Turn(db, |sys.workers|, sys.clock, w, answer).1;
    assert (sys.workers + [w])[|sys.workers| := w'] == sys.workers + [w'];
  }

  lemma ServedNone(sys: Sys, slot: Slot, hash: string, answer: Answer)
    ensures Served(sys, slot, hash, answer, 0) == Ended(sys, sys.db, Claiming(slot, hash))
  {
  }

  /** A key that is blank or too long, that another request has, or that a call works on within its
      lease, is refused at once, and nothing changes. */
  lemma RefusedAtOnce(sys: Sys, slot: Slot, hash: string, answer: Answer)
    requires || slot.key == "" || |slot.key| > 255
             || (slot in sys.db.rows && sys.db.rows[slot].hash != hash)
             || (slot in sys.db.rows && sys.db.rows[slot].status == Processing && sys.clock < sys.db.rows[slot].claimedAt + 300)
    ensures Served(sys, slot, hash, answer, 1) == Ended(sys, sys.db, Stopped)
  {
    ServedNone(sys, slot, hash, answer);
    ServedOne(sys, slot, hash, answer, 0, sys.db, Claiming(slot, hash));
  }

  /** A completed key gives its request the stored receipt again, and nothing changes. */
  lemma CompletedReplays(sys: Sys, slot: Slot, hash: string, answer: Answer)
    requires InOrder(sys) && 0 < |slot.key| <= MAX_KEY && slot in sys.db.rows
    requires sys.db.rows[slot].hash == hash && sys.db.rows[slot].status == Completed
    ensures var e := sys.db.rows[slot].event;
            && e.Some? && e.value in sys.db.receipts && sys.db.receipts[e.value].slot == slot
            && Served(sys, slot, hash, answer, 2) == Ended(sys, sys.db, Returned(slot, hash, e.value, sys.db.receipts[e.value].payload))
  {
    assert RowInOrder(sys.db, slot);
    ServedNone(sys, slot, hash, answer);
    ServedOne(sys, slot, hash, answer, 0, sys.db, Claiming(slot, hash));
    ServedOne(sys, slot, hash, answer, 1, sys.db, Replaying(slot, hash, sys.db.rows[slot].event));
  }

  /** And never another merchant's: a replay returns the receipt of the event exactly if it is the
      merchant's own. */
  lemma ReplaysOwnOnly(db: Db, me: nat, clock: int, slot: Slot, hash: string, event: nat, answer: Answer)
    ensures var (db', w) := Turn(db, me, clock, Replaying(slot, hash, Some(event)), answer);
            && db' == db && (w.Returned? || w.Missing?)
            && (w.Returned? <==> event in db.receipts && db.receipts[event].slot.merchant == slot.merchant)
            && (w.Returned? ==> w == Returned(slot, hash, event, db.receipts[event].payload))
  {
  }

  /** The row of a claimed key, as a new claim and a repeated one leave it. */
  function ClaimedRow(db: Db, slot: Slot, hash: string, clock: int): Row {
    if slot in db.rows then db.rows[slot].(status := Processing, claimedAt := clock) else Row(hash, Processing, None, clock)
  }

  lemma ClaimWrites(sys: Sys, slot: Slot, hash: string, answer: Answer)
    requires Claimable(sys.db, slot, hash, sys.clock)
    ensures Served(sys, slot, hash, answer, 1)
            == Ended(sys, sys.db.(rows := sys.db.rows[slot := ClaimedRow(sys.db, slot, hash, sys.clock)]), Working(slot, hash, sys.clock))
  {
    ServedNone(sys, slot, hash, answer);
    ServedOne(sys, slot, hash, answer, 0, sys.db, Claiming(slot, hash));
  }

  /** A payment that raises leaves its key failed and stores nothing; an HTTP error that is passed
      through leaves it claimed until its lease runs out. */
  lemma UnpaidCall(sys: Sys, slot: Slot, hash: string, answer: Answer)
    requires Claimable(sys.db, slot, hash, sys.clock) && !answer.outcome.Paid?
    ensures var row := ClaimedRow(sys.db, slot, hash, sys.clock);
            Served(sys, slot, hash, answer, if answer.outcome.Error? then 3 else 2)
            == Ended(sys, sys.db.(rows := sys.db.rows[slot := if answer.outcome.Error? then row.(status := Failed) else row]), Stopped)
  {
    var row := ClaimedRow(sys.db, slot, hash, sys.clock);
    var db := sys.db.(rows := sys.db.rows[slot := row]);
    ClaimWrites(sys, slot, hash, answer);
    ServedOne(sys, slot, hash, answer, 1, db, Working(slot, hash, sys.clock));
    if answer.outcome.Error? {
      ServedOne(sys, slot, hash, answer, 2, db, Failing(slot, sys.clock));
      assert db.rows[slot := row.(status := Failed)] == sys.db.rows[slot := row.(status := Failed)];
    }
  }

  /** So does a receipt that is not written: the key is left failed, and nothing is stored. */
  lemma UnsavedCall(sys: Sys, slot: Slot, hash: string, answer: Answer)
    requires Claimable(sys.db, slot, hash, sys.clock) && answer.outcome.Paid?
    requires answer.saved == Unwritten || answer.saved == Lost(false)
    ensures var row := ClaimedRow(sys.db, slot, hash, sys.clock);
            Served(sys, slot, hash, answer, 4) == Ended(sys, sys.db.(rows := sys.db.rows[slot := row.(status := Failed)]), Stopped)
  {
    var row := ClaimedRow(sys.db, slot, hash, sys.clock);
    var db := sys.db.(rows := sys.db.rows[slot := row]);
    ClaimWrites(sys, slot, hash, answer);
    ServedOne(sys, slot, hash, answer, 1, db, Working(slot, hash, sys.clock));
    ServedOne(sys, slot, hash, answer, 2, db, Saving(slot, hash, sys.clock, answer.outcome.payload));
    ServedOne(sys, slot, hash, answer, 3, db, Failing(slot, sys.clock));
    assert db.rows[slot := row.(status := Failed)] == sys.db.rows[slot := row.(status := Failed)];
  }

  /** A key can be claimed exactly when it is not blank or too long and is new, or its request's and
      failed or past its lease. */
  lemma ClaimableExactly(db: Db, slot: Slot, hash: string, clock: int)
    ensures Claimable(db, slot, hash, clock) <==>
            && 0 < |slot.key| <= 255
            && (slot in db.rows ==>
                  && db.rows[slot].hash == hash
                  && (db.rows[slot].status == Failed || (db.rows[slot].status == Processing && db.rows[slot].claimedAt + 300 <= clock)))
  {
  }

  // ---------------------------------------------------------------- stranded keys

  /** An exception from the completing UPDATE strands the key as a crash does; one raised after the
      commit does so by the worker's next step (module GatewayLeases, LostCompletionFails). */
  lemma FailedCompletionStrands(sys: Sys, k: nat, answer: Answer)
    requires InOrder(sys) && k < |sys.workers| && sys.workers[k].Completing? && !Commits(answer.completed)
    requires !IsCompleted(sys.db, sys.workers[k].slot)
    ensures Stranded(Next(sys, Advance(k, answer)), sys.workers[k].slot, k)
  {
    var slot := sys.workers[k].slot;
    assert WorkerInOrder(sys.db, k, sys.workers[k]);
    forall j | 0 <= j < |sys.workers| && sys.workers[j].Completing? && sys.workers[j].slot == slot
      ensures j == k
    {
      assert WorkerInOrder(sys.db, j, sys.workers[j]);
    }
  }

  /** A new call of a key without a receipt, saved and not yet completed. */
  lemma SavesReceipt(sys: Sys, slot: Slot, hash: string, payload: string)
    requires InOrder(sys) && Claimable(sys.db, slot, hash, sys.clock) && !HasAnyReceipt(sys.db, slot)
    ensures var (me, a) := (|sys.workers|, Advance(|sys.workers|, Untroubled(payload)));
            var sys' := Next(Next(Next(Next(sys, Submit(slot, hash)), a), a), a);
            && |sys'.workers| == me + 1 && sys'.workers[me] == Completing(slot, hash, sys.clock, payload) && !IsCompleted(sys'.db, slot)
            && sys'.clock == sys.clock
  {
    var me, paid := |sys.workers|, AtSaving(sys, slot, hash, payload);
    ReachesSaving(sys, slot, hash, payload);
    if Taken(paid.db, slot, me) {
      var e :| e in paid.db.receipts && e != me && paid.db.receipts[e].slot == slot;
      assert IsReceiptOf(sys.db, slot, e);
    }
  }

  function UpToCompletion(before: seq<Action>, slot: Slot, hash: string, payload: string): seq<Action> {
    var a := Advance(|Exec(before).workers|, Untroubled(payload));
    before + [Submit(slot, hash)] + [a] + [a] + [a]
  }

  lemma ReachesCompletion(before: seq<Action>, slot: Slot, hash: string, payload: string)
    requires var sys := Exec(before); Claimable(sys.db, slot, hash, sys.clock) && !HasAnyReceipt(sys.db, slot)
    ensures var (me, sys') := (|Exec(before).workers|, Exec(UpToCompletion(before, slot, hash, payload)));
            && InOrder(sys') && |sys'.workers| == me + 1 && sys'.workers[me] == Completing(slot, hash, Exec(before).clock, payload)
            && !IsCompleted(sys'.db, slot) && sys'.clock == Exec(before).clock
  {
    var sys, me := Exec(before), |Exec(before).workers|;
    var a, run := Advance(me, Untroubled(payload)), before + [Submit(slot, hash)];
    RunInOrder(before);
    SavesReceipt(sys, slot, hash, payload);
    ExecOne(before, Submit(slot, hash));
    ExecOne(run, a);
    ExecOne(run + [a], a);
    ExecOne(run + [a] + [a], a);
    RunInOrder(run + [a] + [a] + [a]);
  }

  /** After any run, a call of a claimable key without a receipt can strand it: by a crash, or by
      an exception, between the receipt and the completion. */
  lemma StrandingIsReachable(before: seq<Action>, slot: Slot, hash: string, payload: string, last: Action)
    requires var sys := Exec(before); Claimable(sys.db, slot, hash, sys.clock) && !HasAnyReceipt(sys.db, slot)
    requires var me := |Exec(before).workers|; last == Crash(me) || last == Advance(me, Answer(Paid(payload), Written, Unwritten))
    ensures Stranded(Exec(UpToCompletion(before, slot, hash, payload) + [last]), slot, |Exec(before).workers|)
  {
    var me, run := |Exec(before).workers|, UpToCompletion(before, slot, hash, payload);
    ReachesCompletion(before, slot, hash, payload);
    ExecOne(run, last);
    if last.Crash? {
      CrashAfterSaveStrands(Exec(run), me);
    } else {
      FailedCompletionStrands(Exec(run), me, last.answer);
    }
  }

  /** Or by a save that is committed and then raises. */
  lemma LostSaveIsReachable(before: seq<Action>, slot: Slot, hash: string, payload: string)
    requires var sys := Exec(before); Claimable(sys.db, slot, hash, sys.clock) && !HasAnyReceipt(sys.db, slot)
    ensures var (me, a) := (|Exec(before).workers|, Advance(|Exec(before).workers|, Untroubled(payload)));
            Stranded(Exec(before + [Submit(slot, hash)] + [a] + [a] + [Advance(me, Answer(Paid(payload), Lost(true), Unwritten))]), slot, me)
  {
    var sys, me := Exec(before), |Exec(before).workers|;
    var a, run := Advance(me, Untroubled(payload)), before + [Submit(slot, hash)];
    var last := Answer(Paid(payload), Lost(true), Unwritten);
    ReachesSaving(sys, slot, hash, payload);
    ExecOne(before, Submit(slot, hash));
    ExecOne(run, a);
    ExecOne(run + [a], a);
    RunInOrder(before);
    RunInOrder(run + [a] + [a]);
    var paid := AtSaving(sys, slot, hash, payload);
    if Taken(paid.db, slot, me) {
      var e :| e in paid.db.receipts && e != me && paid.db.receipts[e].slot == slot;
      assert IsReceiptOf(sys.db, slot, e);
    }
    LostSaveStrands(paid, me, last);
    ExecOne(run + [a] + [a], Advance(me, last));
  }

  /** Or, after the key was completed for a moment, by a completing write that is committed and then
      raises, with every worker within its lease. */
  lemma LostCompletionIsReachable(before: seq<Action>, slot: Slot, hash: string, payload: string)
    requires var sys := Exec(before); Claimable(sys.db, slot, hash, sys.clock) && !HasAnyReceipt(sys.db, slot)
    ensures var (me, a) := (|Exec(before).workers|, Advance(|Exec(before).workers|, Untroubled(payload)));
            var run := UpToCompletion(before, slot, hash, payload) + [Advance(me, Answer(Paid(payload), Written, Lost(true)))];
            && IsCompleted(Exec(run).db, slot)
            && Timely(Exec(run), a) && Stranded(Exec(run + [a]), slot, me)
  {
    var me, run := |Exec(before).workers|, UpToCompletion(before, slot, hash, payload);
    var last, a := Answer(Paid(payload), Written, Lost(true)), Advance(|Exec(before).workers|, Untroubled(payload));
    ReachesCompletion(before, slot, hash, payload);
    LostCompletionFails(Exec(run), me, last, Untroubled(payload));
    ExecOne(run, Advance(me, last));
    ExecOne(run + [Advance(me, last)], a);
  }

  // ---------------------------------------------------------------- a stale worker

  /** Past the lease of one worker, another claims the key and completes it. */
  lemma SecondCompletes(sys: Sys, slot: Slot, hash: string, payload: string)
    requires InOrder(sys) && Claimable(sys.db, slot, hash, sys.clock) && !HasAnyReceipt(sys.db, slot)
    requires InOrder(Next(AtSaving(sys, slot, hash, payload), Tick(LEASE)))
    ensures var (me, second) := (|sys.workers|, |sys.workers| + 1);
            var (late, b) := (Next(AtSaving(sys, slot, hash, payload), Tick(LEASE)), Advance(second, Untroubled(payload)));
            var sys' := Next(Next(Next(Next(Next(late, Submit(slot, hash)), b), b), b), b);
            && |sys'.workers| == second + 1 && sys'.workers[me] == Saving(slot, hash, sys.clock, payload)
            && IsCompleted(sys'.db, slot) && IsReceiptOf(sys'.db, slot, second)
  {
    var late := Next(AtSaving(sys, slot, hash, payload), Tick(LEASE));
    assert ClaimState(late.db, slot, hash, late.clock) == Reclaimed;
    assert forall e :: IsReceiptOf(late.db, slot, e) ==> IsReceiptOf(sys.db, slot, e);
    UntroubledCompletes(late, slot, hash, payload);
    var sys' := Next(late, Submit(slot, hash));
    assert late.workers[|sys.workers|] == Saving(slot, hash, sys.clock, payload);
  }

  /** After any run: a worker stalls past its lease, a second one completes the key, and the first
      then turns the completed key to failed, though its receipt is stored. */
  lemma StaleFailureIsReachable(before: seq<Action>, slot: Slot, hash: string, payload: string)
    requires var sys := Exec(before); Claimable(sys.db, slot, hash, sys.clock) && !HasAnyReceipt(sys.db, slot)
    ensures var (me, second) := (|Exec(before).workers|, |Exec(before).workers| + 1);
            var (a, b) := (Advance(me, Untroubled(payload)), Advance(second, Untroubled(payload)));
            var stalled := before + [Submit(slot, hash)] + [a] + [a] + [Tick(LEASE)];
            var sys' := Exec(stalled + [Submit(slot, hash)] + [b] + [b] + [b] + [b] + [a] + [a]);
            && slot in sys'.db.rows && sys'.db.rows[slot].status == Failed && IsReceiptOf(sys'.db, slot, second)
  {
    var sys, me, second := Exec(before), |Exec(before).workers|, |Exec(before).workers| + 1;
    var a, b := Advance(me, Untroubled(payload)), Advance(second, Untroubled(payload));
    var stalled := before + [Submit(slot, hash)] + [a] + [a] + [Tick(LEASE)];
    ReachesSaving(sys, slot, hash, payload);
    ExecOne(before, Submit(slot, hash));
    ExecOne(before + [Submit(slot, hash)], a);
    ExecOne(before + [Submit(slot, hash)] + [a], a);
    ExecOne(before + [Submit(slot, hash)] + [a] + [a], Tick(LEASE));
    RunInOrder(before);
    RunInOrder(stalled);
    SecondCompletes(sys, slot, hash, payload);
    var run := stalled + [Submit(slot, hash)];
    ExecOne(stalled, Submit(slot, hash));
    ExecOne(run, b);
    ExecOne(run + [b], b);
    ExecOne(run + [b] + [b], b);
    ExecOne(run + [b] + [b] + [b], b);
    var done := run + [b] + [b] + [b] + [b];
    StaleWorkerFailsCompleted(Exec(done), me, Untroubled(payload), second);
    ExecOne(done, a);
    ExecOne(done + [a], a);
  }

  lemma EmptyIsClaimable(slot: Slot, hash: string)
    requires 0 < |slot.key| <= MAX_KEY
    ensures Claimable(Exec([]).db, slot, hash, Exec([]).clock) && !HasAnyReceipt(Exec([]).db, slot)
  {
  }

  /** The very first key of an empty gateway can be stranded, and is then never completed. */
  lemma FirstKeyStrandedForever(slot: Slot, hash: string, payload: string, after: seq<Action>)
    requires 0 < |slot.key| <= MAX_KEY
    ensures !IsCompleted(Exec(UpToCompletion([], slot, hash, payload) + [Crash(0)] + after).db, slot)
  {
    EmptyIsClaimable(slot, hash);
    StrandingIsReachable([], slot, hash, payload, Crash(0));
    StrandedForever(UpToCompletion([], slot, hash, payload) + [Crash(0)], after, slot, 0);
  }
}
