/** The royalty service on its own tables and a ledger service, proved against module
    RoyaltyObligations. services/transaction/royalty-service-core.ts:37-255 and
    services/transaction/royalty-service-ledger-client.ts:71-246. */
module RoyaltyService {
  import opened RoyaltyMath
  import opened Ledger
  import opened RoyaltyLedger
  import opened RoyaltyObligations
  import RoyaltySplit
  import LedgerService

  /** Once an account cannot be had, the owners after it change nothing more. */
  lemma {:induction false} StopsAtRefused(b: Books, org: string, payouts: seq<Payout>, n: nat)
    requires n <= |payouts| && EnsureOwners(b, org, payouts[..n]).result.Err?
    ensures EnsureOwners(b, org, payouts) == EnsureOwners(b, org, payouts[..n])
    decreases |payouts| - n
  {
    if n == |payouts| {
      assert payouts[..n] == payouts;
    } else {
      assert payouts[..n + 1][..n] == payouts[..n];
      StopsAtRefused(b, org, payouts, n + 1);
    }
  }

  class LedgerClient {
    const ledger: LedgerService.Service

    constructor (ledger: LedgerService.Service)
      ensures this.ledger == ledger
    {
      this.ledger := ledger;
    }

    method EnsureAccount(org: string, code: string) returns (r: Ledger.Result<nat>)
      requires ledger.Valid()
      modifies ledger
      ensures ledger.Valid()
      ensures Outcome(ledger.Tables(), r) == Ensure(old(ledger.Tables()), org, code)
    {
      var found := FindAccount(ledger.accounts, org, code);
      if found.Some? {
        return Ledger.Result.Ok(found.value);
      }
      r := ledger.OpenAccount(org, code);
    }

    /** One credit line per payout, opening the owner's account on the way, up to the first account
        that cannot be had. */
    method OwnerLines(org: string, payouts: seq<Payout>) returns (ghost ids: Ledger.Result<seq<nat>>, lines: Ledger.Result<seq<Line>>)
      requires ledger.Valid()
      modifies ledger
      ensures ledger.Valid()
      ensures EnsuredAll(ledger.Tables(), ids) == EnsureOwners(old(ledger.Tables()), org, payouts)
      ensures ids.Err? ==> lines == Ledger.Result.Err(ids.error)
      ensures ids.Ok? ==> lines == Ledger.Result.Ok(CreditLines(ids.value, payouts))
    {
      ghost var had: seq<nat> := [];
      var credits: seq<Line> := [];
      for i := 0 to |payouts|
        invariant ledger.Valid()
        invariant |had| == i
        invariant EnsuredAll(ledger.Tables(), Ledger.Result.Ok(had)) == EnsureOwners(old(ledger.Tables()), org, payouts[..i])
        invariant credits == CreditLines(had, payouts[..i])
      {
        assert payouts[..i + 1][..i] == payouts[..i];
        var account := EnsureAccount(org, payouts[i].owner);
        if account.Err? {
          ids, lines := Ledger.Result.Err(account.error), Ledger.Result.Err(account.error);
          StopsAtRefused(old(ledger.Tables()), org, payouts, i + 1);
          return;
        }
        had := had + [account.value];
        credits := credits + [Line(account.value, Credit, 100 * payouts[i].cents)];
        assert credits == CreditLines(had, payouts[..i + 1]);
      }
      assert payouts[..|payouts|] == payouts;
      ids, lines := Ledger.Result.Ok(had), Ledger.Result.Ok(credits);
    }

    method PostSplitTransaction(org: string, key: string, reference: string, debitCode: string, gross: int, payouts: seq<Payout>, now: int)
      returns (r: Ledger.Result<nat>)
      requires ledger.Valid()
      modifies ledger
      ensures ledger.Valid()
      ensures Outcome(ledger.Tables(), r) == PostSplit(old(ledger.Tables()), org, key, reference, debitCode, gross, payouts, now)
    {
      var debit := EnsureAccount(org, debitCode);
      if debit.Err? {
        return debit;
      }
      var ids, credits := OwnerLines(org, payouts);
      if credits.Err? {
        return Ledger.Result.Err(credits.error);
      }
      r := ledger.PostTransaction(org, Some(key), Text(reference), [Line(debit.value, Debit, gross)] + credits.value, now);
    }

    method PostHoldTransaction(org: string, key: string, event: string, gross: int, now: int) returns (r: Ledger.Result<nat>)
      requires ledger.Valid()
      modifies ledger
      ensures ledger.Valid()
      ensures Outcome(ledger.Tables(), r) == PostHold(old(ledger.Tables()), org, key, event, gross, now)
    {
      var expense := EnsureAccount(org, EXPENSE_CODE);
      if expense.Err? {
        return expense;
      }
      var held := EnsureAccount(org, HELD_CODE);
      if held.Err? {
        return held;
      }
      r := ledger.PostTransaction(org, Some(key), Text(event), [Line(expense.value, Debit, gross), Line(held.value, Credit, gross)], now);
    }
  }

  class Service {
    const client: LedgerClient
    var obligations: seq<Obligation>
    var payouts: seq<PayoutRow>
    var reversals: seq<ReversalRow>

    constructor (client: LedgerClient)
      ensures this.client == client
      ensures obligations == [] && payouts == [] && reversals == []
    {
      this.client := client;
      obligations, payouts, reversals := [], [], [];
    }

    function State(): World
      reads this, client.ledger
    {
      World(client.ledger.Tables(), obligations, payouts, reversals)
    }

    method InsertObligation(req: Request, status: RoyaltyStatus, link: Option<nat>, paid: seq<Payout>) returns (r: Reply)
      modifies this
      ensures Step(State(), r) == RecordRow(old(State()), req, status, link, paid)
    {
      var id := |obligations|;
      var begin := payouts;
      if !RowFits(req) {
        return Failed(ConstraintViolated);
      }
      var rows := obligations + [Obligation(req.org, req.eventId, req.key, req.requestHash, req.gross, req.splits, status, link, false)];
      var ok := InsertPayouts(id, paid);
      if !ok {
        payouts := begin;
        return Failed(ConstraintViolated);
      }
      obligations := rows;
      r := Done(id);
    }

    /** Inserts payout rows until one breaks the amount > 0 constraint. */
    method InsertPayouts(id: nat, paid: seq<Payout>) returns (ok: bool)
      modifies this`payouts
      ensures ok <==> AllPaid(paid)
      ensures ok ==> payouts == old(payouts) + PayoutRows(id, paid)
    {
      for i := 0 to |paid|
        invariant AllPaid(paid[..i])
        invariant payouts == old(payouts) + PayoutRows(id, paid[..i])
      {
        if paid[i].cents <= 0 {
          return false;
        }
        payouts := payouts + [PayoutRow(id, paid[i])];
        assert PayoutRows(id, paid[..i + 1]) == PayoutRows(id, paid[..i]) + [PayoutRow(id, paid[i])];
      }
      assert paid[..|paid|] == paid;
      ok := true;
    }

    method CreateObligation(req: Request, now: int) returns (r: Reply)
      requires client.ledger.Valid()
      modifies this, client.ledger
      ensures client.ledger.Valid()
      ensures Step(State(), r) == Create(old(State()), req, now)
    {
      var existing := FindByKey(obligations, req.key);
      if existing.Some? {
        if obligations[existing.value].requestHash != req.requestHash {
          return Failed(IdempotencyConflict);
        }
        return Done(existing.value);
      }
      var status, link := BLOCKED, None;
      var paid: seq<Payout> := [];
      if req.decision == Hold {
        status := HELD;
        var txn := client.PostHoldTransaction(req.org, req.key, req.eventId, req.gross, now);
        if txn.Err? {
          return Failed(LedgerFailed(txn.error));
        }
        link := Some(txn.value);
      } else if req.decision == Allow {
        var breakdown := RoyaltySplit.ComputeRoyaltyTypeScript(req.gross, req.splits);
        if breakdown.Err? {
          return Failed(SplitFailed(breakdown.error));
        }
        paid := breakdown.value;
        var txn := client.PostSplitTransaction(req.org, req.key, req.eventId, EXPENSE_CODE, req.gross, paid, now);
        if txn.Err? {
          return Failed(LedgerFailed(txn.error));
        }
        link := Some(txn.value);
        status := POSTED;
      }
      r := InsertObligation(req, status, link, paid);
    }

    method ReleaseObligation(eventId: string, releaseKey: string, now: int) returns (r: Reply)
      requires client.ledger.Valid()
      modifies this, client.ledger
      ensures client.ledger.Valid()
      ensures Step(State(), r) == Release(old(State()), eventId, releaseKey, now)
    {
      var found := FindByEvent(obligations, eventId);
      if found.None? {
        return Failed(ObligationNotFound);
      }
      var id, row := found.value, obligations[found.value];
      if row.status == POSTED {
        return Done(id);
      }
      if row.status != HELD {
        return Failed(InvalidState(row.status));
      }
      var breakdown := RoyaltySplit.ComputeRoyaltyTypeScript(row.gross, row.splits);
      if breakdown.Err? {
        return Failed(SplitFailed(breakdown.error));
      }
      var txn := client.PostSplitTransaction(row.org, releaseKey + "-release", row.eventId + "-release", HELD_CODE, row.gross, breakdown.value, now);
      if txn.Err? {
        return Failed(LedgerFailed(txn.error));
      }
      var begin := payouts;
      var ok := InsertPayouts(id, breakdown.value);
      if !ok {
        payouts := begin;
        return Failed(ConstraintViolated);
      }
      obligations := obligations[id := row.(status := POSTED, ledgerTxn := Some(txn.value), viaRelease := true)];
      r := Done(id);
    }

    method ReverseObligationByEvent(eventId: string, reversalEvent: string, reversalKey: string, now: int) returns (r: Reply)
      requires client.ledger.Valid()
      modifies this, client.ledger
      ensures client.ledger.Valid()
      ensures Step(State(), r) == ReverseObligation(old(State()), eventId, reversalEvent, reversalKey, now)
    {
      var known := FindReversal(reversals, reversalKey);
      if known.Some? {
        return Done(reversals[known.value].obligation);
      }
      var found := FindByEvent(obligations, eventId);
      if found.None? {
        return Failed(ObligationNotFound);
      }
      var id, row := found.value, obligations[found.value];
      if row.status == REVERSED {
        return Failed(InvalidState(REVERSED));
      }
      if row.ledgerTxn.None? {
        return Failed(NoLedgerTransaction);
      }
      var reversal := client.ledger.ReverseTransaction(row.org, row.ledgerTxn.value, now);
      if reversal.Err? {
        return Failed(LedgerFailed(reversal.error));
      }
      if !ReversalFits(reversalEvent, reversalKey) {
        return Failed(ConstraintViolated);
      }
      obligations := obligations[id := row.(status := REVERSED)];
      reversals := reversals + [ReversalRow(id, reversalEvent, reversalKey, reversal.value)];
      r := Done(id);
    }
  }
}
