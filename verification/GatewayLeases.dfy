/** The lease on a gateway claim: what it gives when every worker stops acting before its lease
    runs out, and what a stale worker or a crash can do.
    services/gateway/gateway_store.py:330-467 and production_main.py:404-470. */
module GatewayLeases {
  import opened GatewayClaims

  /** The worker has claimed its key and not let go of it. */
  predicate Owner(w: Worker) {
    w.Working? || w.Saving? || w.Completing? || w.Failing?
  }

  predicate Fresh(w: Worker, clock: int) {
    Owner(w) && clock < w.since + LEASE
  }

  /** No worker acts on its claim after the lease. */
  predicate Timely(sys: Sys, action: Action) {
    action.Advance? && action.worker < |sys.workers| && Owner(sys.workers[action.worker]) ==> Fresh(sys.workers[action.worker], sys.clock)
  }

  predicate TimelyRun(actions: seq<Action>) {
    actions == [] || (TimelyRun(actions[..|actions| - 1]) && Timely(Exec(actions[..|actions| - 1]), actions[|actions| - 1]))
  }

  /** The row is the worker's claim: still processing, or completed by a write whose exception the
      worker is about to answer by failing the row. */
  ghost predicate HoldsLease(db: Db, w: Worker)
    requires Owner(w)
  {
    && w.slot in db.rows && db.rows[w.slot].claimedAt == w.since
    && (db.rows[w.slot].status == Processing || (w.Failing? && db.rows[w.slot].status == Completed))
  }

  ghost predicate LeasesInOrder(sys: Sys) {
    && (forall k :: 0 <= k < |sys.workers| && Fresh(sys.workers[k], sys.clock) ==> HoldsLease(sys.db, sys.workers[k]))
    && (forall j, k :: 0 <= j < k < |sys.workers| && Fresh(sys.workers[j], sys.clock) && Fresh(sys.workers[k], sys.clock) ==>
          sys.workers[j].slot != sys.workers[k].slot)
  }

  /** A step touches the row of its worker's key only. */
  lemma TurnTouchesOnly(db: Db, me: nat, clock: int, w: Worker, answer: Answer, slot: Slot)
    requires slot in db.rows
    requires (Owner(w) || w.Claiming?) ==> w.slot != slot
    ensures var db' := Turn(db, me, clock, w, answer).0;
            slot in db'.rows && db'.rows[slot] == db.rows[slot]
  {
  }

  /** A claim that succeeds finds no fresh owner. */
  lemma ClaimFindsNoOwner(sys: Sys, slot: Slot, hash: string, k: nat)
    requires LeasesInOrder(sys) && k < |sys.workers| && Fresh(sys.workers[k], sys.clock) && sys.workers[k].slot == slot
    ensures Claimed(sys.db, slot, hash, sys.clock) == sys.db
    ensures !Owner(AfterClaim(ClaimState(sys.db, slot, hash, sys.clock), slot, hash, sys.clock))
  {
    assert HoldsLease(sys.db, sys.workers[k]);
  }

  lemma ClaimKeepsLeases(sys: Sys, worker: nat, answer: Answer)
    requires LeasesInOrder(sys) && worker < |sys.workers| && sys.workers[worker].Claiming?
    ensures LeasesInOrder(Next(sys, Advance(worker, answer)))
  {
    var w, sys' := sys.workers[worker], Next(sys, Advance(worker, answer));
    forall k | 0 <= k < |sys.workers| && k != worker && Fresh(sys.workers[k], sys.clock)
      ensures HoldsLease(sys'.db, sys.workers[k])
      ensures Owner(sys'.workers[worker]) ==> sys.workers[k].slot != w.slot
    {
      assert HoldsLease(sys.db, sys.workers[k]);
      if sys.workers[k].slot == w.slot {
        ClaimFindsNoOwner(sys, w.slot, w.hash, k);
      } else {
        TurnTouchesOnly(sys.db, worker, sys.clock, w, answer, sys.workers[k].slot);
      }
    }
  }

  lemma OwnerKeepsLeases(sys: Sys, worker: nat, answer: Answer)
    requires LeasesInOrder(sys) && worker < |sys.workers| && Fresh(sys.workers[worker], sys.clock)
    ensures LeasesInOrder(Next(sys, Advance(worker, answer)))
  {
    var w, sys' := sys.workers[worker], Next(sys, Advance(worker, answer));
    assert HoldsLease(sys.db, w);
    forall k | 0 <= k < |sys.workers| && k != worker && Fresh(sys.workers[k], sys.clock)
      ensures HoldsLease(sys'.db, sys.workers[k]) && sys.workers[k].slot != w.slot
    {
      assert HoldsLease(sys.db, sys.workers[k]);
      TurnTouchesOnly(sys.db, worker, sys.clock, w, answer, sys.workers[k].slot);
    }
  }

  lemma NextKeepsLeases(sys: Sys, action: Action)
    requires LeasesInOrder(sys) && Timely(sys, action)
    ensures LeasesInOrder(Next(sys, action))
  {
    if action.Advance? && action.worker < |sys.workers| {
      if sys.workers[action.worker].Claiming? {
        ClaimKeepsLeases(sys, action.worker, action.answer);
      } else if Owner(sys.workers[action.worker]) {
        OwnerKeepsLeases(sys, action.worker, action.answer);
      }
    }
  }

  /** If every worker stops acting before its lease runs out, at most one worker owns a key at a
      time, and its key's row is its claim, even when its last write raised after it was committed. */
  lemma {:induction false} OneOwnerPerKey(actions: seq<Action>)
    requires TimelyRun(actions)
    ensures LeasesInOrder(Exec(actions))
  {
    if actions != [] {
      OneOwnerPerKey(actions[..|actions| - 1]);
      NextKeepsLeases(Exec(actions[..|actions| - 1]), actions[|actions| - 1]);
    }
  }

  ghost predicate IsCompleted(db: Db, slot: Slot) {
    slot in db.rows && db.rows[slot].status == Completed
  }

  /** The step is not a completing write that is committed and then raises. */
  predicate CompletesCleanly(sys: Sys, action: Action) {
    action.Advance? && action.worker < |sys.workers| && sys.workers[action.worker].Completing? ==> action.answer.completed != Lost(true)
  }

  predicate CleanRun(actions: seq<Action>) {
    actions == [] || (CleanRun(actions[..|actions| - 1]) && CompletesCleanly(Exec(actions[..|actions| - 1]), actions[|actions| - 1]))
  }

  /** No owner within its lease finds its key completed. */
  ghost predicate OwnersProcess(sys: Sys) {
    forall k :: 0 <= k < |sys.workers| && Fresh(sys.workers[k], sys.clock) ==> !IsCompleted(sys.db, sys.workers[k].slot)
  }

  lemma ClaimKeepsProcessing(sys: Sys, worker: nat, answer: Answer)
    requires LeasesInOrder(sys) && OwnersProcess(sys) && worker < |sys.workers| && sys.workers[worker].Claiming?
    ensures OwnersProcess(Next(sys, Advance(worker, answer)))
  {
    var w, sys' := sys.workers[worker], Next(sys, Advance(worker, answer));
    forall k | 0 <= k < |sys.workers| && k != worker && Fresh(sys.workers[k], sys.clock)
      ensures !IsCompleted(sys'.db, sys.workers[k].slot)
    {
      assert HoldsLease(sys.db, sys.workers[k]);
      if sys.workers[k].slot != w.slot {
        TurnTouchesOnly(sys.db, worker, sys.clock, w, answer, sys.workers[k].slot);
      }
    }
  }

  lemma OwnerKeepsProcessing(sys: Sys, worker: nat, answer: Answer)
    requires LeasesInOrder(sys) && OwnersProcess(sys) && worker < |sys.workers| && Fresh(sys.workers[worker], sys.clock)
    requires CompletesCleanly(sys, Advance(worker, answer))
    ensures OwnersProcess(Next(sys, Advance(worker, answer)))
  {
    var w, sys' := sys.workers[worker], Next(sys, Advance(worker, answer));
    assert HoldsLease(sys.db, w) && !IsCompleted(sys.db, w.slot);
    forall k | 0 <= k < |sys.workers| && k != worker && Fresh(sys.workers[k], sys.clock)
      ensures !IsCompleted(sys'.db, sys.workers[k].slot)
    {
      assert HoldsLease(sys.db, sys.workers[k]);
      TurnTouchesOnly(sys.db, worker, sys.clock, w, answer, sys.workers[k].slot);
    }
  }

  lemma NextKeepsProcessing(sys: Sys, action: Action)
    requires LeasesInOrder(sys) && OwnersProcess(sys) && Timely(sys, action) && CompletesCleanly(sys, action)
    ensures OwnersProcess(Next(sys, action))
  {
    if action.Advance? && action.worker < |sys.workers| {
      if sys.workers[action.worker].Claiming? {
        ClaimKeepsProcessing(sys, action.worker, action.answer);
      } else if Owner(sys.workers[action.worker]) {
        OwnerKeepsProcessing(sys, action.worker, action.answer);
      }
    }
  }

  lemma {:induction false} CleanOwnersProcess(actions: seq<Action>)
    requires TimelyRun(actions) && CleanRun(actions)
    ensures OwnersProcess(Exec(actions))
  {
    if actions != [] {
      CleanOwnersProcess(actions[..|actions| - 1]);
      OneOwnerPerKey(actions[..|actions| - 1]);
      NextKeepsProcessing(Exec(actions[..|actions| - 1]), actions[|actions| - 1]);
    }
  }

  lemma NextKeepsCompleted(sys: Sys, action: Action, slot: Slot)
    requires LeasesInOrder(sys) && OwnersProcess(sys) && Timely(sys, action) && IsCompleted(sys.db, slot)
    ensures slot in Next(sys, action).db.rows && Next(sys, action).db.rows[slot] == sys.db.rows[slot]
  {
    if action.Advance? && action.worker < |sys.workers| {
      var w := sys.workers[action.worker];
      if Owner(w) {
        assert !IsCompleted(sys.db, w.slot);
      }
      if !w.Claiming? || w.slot != slot {
        TurnTouchesOnly(sys.db, action.worker, sys.clock, w, action.answer, slot);
      }
    }
  }

  /** And COMPLETED is final: the row, with its receipt's event, never changes again, if moreover no
      completing write is committed and then raises. */
  lemma {:induction false} CompletedIsFinal(before: seq<Action>, after: seq<Action>, slot: Slot)
    requires TimelyRun(before + after) && CleanRun(before + after) && IsCompleted(Exec(before).db, slot)
    ensures slot in Exec(before + after).db.rows
    ensures Exec(before + after).db.rows[slot] == Exec(before).db.rows[slot]
    decreases |after|
  {
    if after == [] {
      assert before + after == before;
    } else {
      var n := |after| - 1;
      var all := before + after;
      assert all[..|all| - 1] == before + after[..n] && all[|all| - 1] == after[n];
      CompletedIsFinal(before, after[..n], slot);
      OneOwnerPerKey(before + after[..n]);
      CleanOwnersProcess(before + after[..n]);
      NextKeepsCompleted(Exec(before + after[..n]), after[n], slot);
    }
  }

  /** The key has a receipt but no completion, and nobody left to complete it. */
  ghost predicate Stranded(sys: Sys, slot: Slot, event: nat) {
    && IsReceiptOf(sys.db, slot, event)
    && !IsCompleted(sys.db, slot)
    && (forall k :: 0 <= k < |sys.workers| ==> !(sys.workers[k].Completing? && sys.workers[k].slot == slot))
  }

  /** Such a write, in any state: the key is completed, and failed by the same worker's next step,
      well within its lease, with the receipt still stored. */
  lemma LostCompletionFails(sys: Sys, k: nat, answer: Answer, next: Answer)
    requires InOrder(sys) && k < |sys.workers| && sys.workers[k].Completing? && answer.completed == Lost(true)
    ensures var slot := sys.workers[k].slot;
            var (sys1, sys2) := (Next(sys, Advance(k, answer)), Next(Next(sys, Advance(k, answer)), Advance(k, next)));
            && IsCompleted(sys1.db, slot) && sys1.clock == sys2.clock == sys.clock
            && (Fresh(sys.workers[k], sys.clock) ==> Timely(sys, Advance(k, answer)) && Timely(sys1, Advance(k, next)))
            && slot in sys2.db.rows && sys2.db.rows[slot].status == Failed && Stranded(sys2, slot, k)
  {
    var slot, sys2 := sys.workers[k].slot, Next(Next(sys, Advance(k, answer)), Advance(k, next));
    assert WorkerInOrder(sys.db, k, sys.workers[k]);
    forall j | 0 <= j < |sys2.workers|
      ensures !(sys2.workers[j].Completing? && sys2.workers[j].slot == slot)
    {
      assert WorkerInOrder(sys.db, j, sys.workers[j]);
    }
  }

  // ---------------------------------------------------------------- stale workers and crashes

  /** A worker that saves after its key was completed by another fails the completed key. */
  lemma StaleWorkerFailsCompleted(sys: Sys, k: nat, answer: Answer, event: nat)
    requires k < |sys.workers| && sys.workers[k].Saving?
    requires IsCompleted(sys.db, sys.workers[k].slot) && IsReceiptOf(sys.db, sys.workers[k].slot, event) && event != k
    ensures var slot := sys.workers[k].slot;
            var sys' := Next(Next(sys, Advance(k, answer)), Advance(k, answer));
            && slot in sys'.db.rows && sys'.db.rows[slot].status == Failed
            && IsReceiptOf(sys'.db, slot, event)
  {
    var slot := sys.workers[k].slot;
    assert Taken(sys.db, slot, k);
    var sys1 := Next(sys, Advance(k, answer));
    assert sys1.workers[k].Failing? && sys1.workers[k].slot == slot && sys1.db == sys.db;
  }

  /** A crash between saving the receipt and completing the key strands it, if no other worker
      of the key has saved one, which the one receipt per key rules out. */
  lemma CrashAfterSaveStrands(sys: Sys, k: nat)
    requires InOrder(sys) && k < |sys.workers| && sys.workers[k].Completing?
    requires !IsCompleted(sys.db, sys.workers[k].slot)
    ensures Stranded(Next(sys, Crash(k)), sys.workers[k].slot, k)
  {
    var slot := sys.workers[k].slot;
    assert WorkerInOrder(sys.db, k, sys.workers[k]);
    forall j | 0 <= j < |sys.workers| && sys.workers[j].Completing? && sys.workers[j].slot == slot
      ensures j == k
    {
      assert WorkerInOrder(sys.db, j, sys.workers[j]);
    }
  }

  /** Every worker of the key that is about to complete it has saved the key's one receipt. */
  lemma OnlyOneCompletes(sys: Sys, slot: Slot, k: nat)
    requires InOrder(sys) && IsReceiptOf(sys.db, slot, k)
    ensures forall j :: 0 <= j < |sys.workers| && sys.workers[j].Completing? && sys.workers[j].slot == slot ==> j == k
  {
    forall j | 0 <= j < |sys.workers| && sys.workers[j].Completing? && sys.workers[j].slot == slot
      ensures j == k
    {
      assert WorkerInOrder(sys.db, j, sys.workers[j]);
    }
  }

  /** A receipt whose write is committed and then raises strands the key as well. */
  lemma LostSaveStrands(sys: Sys, k: nat, answer: Answer)
    requires InOrder(sys) && k < |sys.workers| && sys.workers[k].Saving? && answer.saved == Lost(true)
    requires !Taken(sys.db, sys.workers[k].slot, k) && !IsCompleted(sys.db, sys.workers[k].slot)
    ensures Stranded(Next(sys, Advance(k, answer)), sys.workers[k].slot, k)
  {
    var slot, sys' := sys.workers[k].slot, Next(sys, Advance(k, answer));
    NextKeepsOrder(sys, Advance(k, answer));
    OnlyOneCompletes(sys', slot, k);
  }

  lemma NextKeepsStranded(sys: Sys, action: Action, slot: Slot, event: nat)
    requires InOrder(sys) && Stranded(sys, slot, event)
    ensures Stranded(Next(sys, action), slot, event)
  {
    if action.Advance? && action.worker < |sys.workers| {
      var me, w := action.worker, sys.workers[action.worker];
      assert WorkerInOrder(sys.db, me, w);
      if w.Saving? && w.slot == slot {
        assert event != me;
        assert Taken(sys.db, slot, me);
      }
    }
  }

  /** A stranded key is never completed: every later attempt pays downstream and then fails on
      the receipt that is already there. */
  lemma {:induction false} StrandedForever(before: seq<Action>, after: seq<Action>, slot: Slot, event: nat)
    requires Stranded(Exec(before), slot, event)
    ensures Stranded(Exec(before + after), slot, event)
    decreases |after|
  {
    if after == [] {
      assert before + after == before;
    } else {
      var n := |after| - 1;
      assert (before + after)[..|before| + n] == before + after[..n];
      StrandedForever(before, after[..n], slot, event);
      RunInOrder(before + after[..n]);
      NextKeepsStranded(Exec(before + after[..n]), after[n], slot, event);
    }
  }
}
