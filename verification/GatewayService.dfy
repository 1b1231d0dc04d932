/** The gateway's store and its payment endpoint as they are written: conditional UPDATEs on two
    tables, and a call that claims, pays, saves and completes, or fails.
    services/gateway/gateway_store.py:330-467,526-531 and production_main.py:392-470. */
module GatewayService {
  import opened GatewayClaims

  class GatewayStore {
    var rows: map<Slot, Row>
    var receipts: map<nat, Receipt>

    constructor ()
      ensures Tables() == Db(map[], map[])
    {
      rows, receipts := map[], map[];
    }

    function Tables(): Db
      reads this
    {
      Db(rows, receipts)
    }

    method ClaimIdempotency(slot: Slot, hash: string, clock: int) returns (claim: Claim)
      modifies this`rows
      ensures claim == ClaimState(old(Tables()), slot, hash, clock)
      ensures Tables() == Claimed(old(Tables()), slot, hash, clock)
    {
      if slot !in rows {
        rows := rows[slot := Row(hash, Processing, None, clock)];
        return New;
      }
      var row := rows[slot];
      if row.hash != hash {
        return Conflict;
      }
      if row.status == Completed {
        return Replay(row.event);
      }
      if row.status == Processing {
        if row.claimedAt > clock - LEASE {
          return InProgress;
        }
        rows := rows[slot := row.(claimedAt := clock)];
        return Reclaimed;
      }
      rows := rows[slot := row.(status := Processing, claimedAt := clock)];
      return Retry;
    }

    /** Whether the INSERT went through; a second receipt for the key trips the unique constraint. */
    method SaveReceipt(event: nat, receipt: Receipt) returns (saved: bool)
      modifies this`receipts
      ensures saved <==> forall e :: e in old(receipts) && e != event ==> old(receipts)[e].slot != receipt.slot
      ensures !saved ==> receipts == old(receipts)
      ensures saved ==>
                receipts == old(receipts)[event := if event in old(receipts) then old(receipts)[event].(payload := receipt.payload) else receipt]
      ensures saved <==> !Taken(old(Tables()), receipt.slot, event)
      ensures Tables() == if saved then Save(old(Tables()), event, receipt) else old(Tables())
    {
      if exists e :: e in receipts && e != event && receipts[e].slot == receipt.slot {
        return false;
      }
      receipts := receipts[event := if event in receipts then receipts[event].(payload := receipt.payload) else receipt];
      return true;
    }

    method CompleteIdempotency(slot: Slot, event: nat)
      modifies this`rows
      ensures Tables() == SetStatus(old(Tables()), slot, Completed, Some(event))
    {
      if slot in rows {
        rows := rows[slot := rows[slot].(status := Completed, event := Some(event))];
      }
    }

    method FailIdempotency(slot: Slot)
      modifies this`rows
      ensures Tables() == SetStatus(old(Tables()), slot, Failed, None)
    {
      if slot in rows {
        rows := rows[slot := rows[slot].(status := Failed)];
      }
    }
  }

  /** The steps that worker me takes from w, one after another at one time, with one answer. */
  function Run(db: Db, me: nat, clock: int, w: Worker, answer: Answer, steps: nat): (Db, Worker)
    decreases steps
  {
    if steps == 0 then (db, w)
    else
      var (db', w') := Turn(db, me, clock, w, answer);
      Run(db', me, clock, w', answer, steps - 1)
  }

  /** process_payment, with what comes of the downstream payment and of the two writes after it:
      it claims, pays, saves, completes, and on an exception fails; five steps at most. */
  method ProcessPayment(store: GatewayStore, me: nat, slot: Slot, hash: string, clock: int, answer: Answer)
    returns (event: Option<nat>, payload: string, ghost end: Worker)
    modifies store
    ensures (store.Tables(), end) == Run(old(store.Tables()), me, clock, Claiming(slot, hash), answer, 5)
    ensures event.Some? <==> end.Returned?
    ensures event.Some? ==> end == Returned(slot, hash, event.value, payload)
  {
    if slot.key == "" || |slot.key| > MAX_KEY {
      return None, "", Stopped;
    }
    var claim := store.ClaimIdempotency(slot, hash, clock);
    if claim.Conflict? || claim.InProgress? {
      return None, "", Stopped;
    }
    if claim.Replay? {
      var found := claim.event.Some? && HasReceipt(store.Tables(), slot, claim.event.value);
      if !found {
        return None, "", Missing;
      }
      payload := store.receipts[claim.event.value].payload;
      return claim.event, payload, Returned(slot, hash, claim.event.value, payload);
    }
    event, payload, end := PayAndSave(store, me, slot, hash, clock, answer);
  }

  method PayAndSave(store: GatewayStore, me: nat, slot: Slot, hash: string, clock: int, answer: Answer)
    returns (event: Option<nat>, payload: string, ghost end: Worker)
    modifies store
    ensures (store.Tables(), end) == Run(old(store.Tables()), me, clock, Working(slot, hash, clock), answer, 4)
    ensures event.Some? <==> end.Returned?
    ensures event.Some? ==> end == Returned(slot, hash, event.value, payload)
  {
    if answer.outcome.HttpError? {
      return None, "", Stopped;
    }
    var saved, completed := false, false;
    if answer.outcome.Paid? && Commits(answer.saved) {
      saved := store.SaveReceipt(me, Receipt(slot, hash, answer.outcome.payload));
    }
    if saved && answer.saved.Written? {
      if Commits(answer.completed) {
        store.CompleteIdempotency(slot, me);
      }
      completed := answer.completed.Written?;
    }
    if completed {
      return Some(me), answer.outcome.payload, Returned(slot, hash, me, answer.outcome.payload);
    }
    store.FailIdempotency(slot);
    return None, "", Stopped;
  }
}
