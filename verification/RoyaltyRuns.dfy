/** What runs of the royalty service keep of its own tables: the request each row was made for, the
    way its status goes, its payouts and its reversal; and what a used key, event or reversal
    answers in every later state. services/transaction/royalty-service-core.ts:37-255. */
module RoyaltyRuns {
  import opened Sums
  import opened RoyaltyMath
  import opened Ledger
  import opened RoyaltyLedger
  import opened RoyaltyObligations

  // ---------------------------------------------------------------- the invariant of the service's tables

  /** The payouts recorded for one obligation, in order. */
  function PaidOut(payouts: seq<PayoutRow>, id: nat): seq<Payout> {
    if payouts == [] then []
    else
      var last := payouts[|payouts| - 1];
      PaidOut(payouts[..|payouts| - 1], id) + if last.obligation == id then [last.payout] else []
  }

  function ReversalOf(id: nat): ReversalRow -> int {
    (r: ReversalRow) => if r.obligation == id then 1 else 0
  }

  /** A blocked row has neither a transaction nor payouts, a held one a transaction, a posted one
      both; and a row has one reversal exactly if it is reversed. */
  ghost predicate RowOrderly(w: World, i: nat)
    requires i < |w.obligations|
  {
    var ob, paid := w.obligations[i], PaidOut(w.payouts, i);
    && (ob.ledgerTxn.None? <==> ob.status == BLOCKED)
    && (ob.status == BLOCKED || ob.status == HELD ==> paid == [] && !ob.viaRelease)
    && (ob.status == POSTED ==> paid == PayoutsOf(ob))
    && (ob.status == REVERSED ==> paid == [] || paid == PayoutsOf(ob))
    && Sum(w.reversals, ReversalOf(i)) == if ob.status == REVERSED then 1 else 0
  }

  ghost predicate PayoutsInRange(payouts: seq<PayoutRow>, n: nat) {
    forall k :: 0 <= k < |payouts| ==> payouts[k].obligation < n
  }

  ghost predicate KeysUnique(w: World) {
    && (forall i, j :: 0 <= i < j < |w.obligations| ==> w.obligations[i].key != w.obligations[j].key)
    && (forall j, k :: 0 <= j < k < |w.reversals| ==> w.reversals[j].key != w.reversals[k].key)
  }

  ghost predicate Orderly(w: World) {
    && (forall i :: 0 <= i < |w.obligations| ==> RowOrderly(w, i))
    && KeysUnique(w)
    && PayoutsInRange(w.payouts, |w.obligations|)
    && (forall k :: 0 <= k < |w.reversals| ==> w.reversals[k].obligation < |w.obligations|)
  }

  lemma MorePayoutsInRange(payouts: seq<PayoutRow>, id: nat, more: seq<Payout>, n: nat)
    requires PayoutsInRange(payouts, n) && id < n
    ensures PayoutsInRange(payouts + PayoutRows(id, more), n)
  {
  }

  lemma {:induction false} PaidOutMore(payouts: seq<PayoutRow>, id: nat, more: seq<Payout>, i: nat)
    ensures PaidOut(payouts + PayoutRows(id, more), i) == PaidOut(payouts, i) + if i == id then more else []
    decreases |more|
  {
    if more == [] {
      assert payouts + PayoutRows(id, more) == payouts;
    } else {
      var n := |more| - 1;
      var all := payouts + PayoutRows(id, more);
      assert all[..|all| - 1] == payouts + PayoutRows(id, more[..n]);
      PaidOutMore(payouts, id, more[..n], i);
      assert more == more[..n] + [more[n]];
    }
  }

  lemma {:induction false} NothingPaidOut(payouts: seq<PayoutRow>, id: nat)
    requires forall k :: 0 <= k < |payouts| ==> payouts[k].obligation != id
    ensures PaidOut(payouts, id) == []
  {
    if payouts != [] {
      NothingPaidOut(payouts[..|payouts| - 1], id);
    }
  }

  /** A new row, with the payouts of its status. */
  lemma RecordKeepsOrder(w: World, req: Request, status: RoyaltyStatus, link: Option<nat>, payouts: seq<Payout>)
    requires Orderly(w) && FindByKey(w.obligations, req.key).None?
    requires status != REVERSED && (link.None? <==> status == BLOCKED)
    requires status == POSTED ==> Compute(req.gross, req.splits) == RoyaltyMath.Ok(payouts)
    requires status != POSTED ==> payouts == []
    ensures Orderly(RecordRow(w, req, status, link, payouts).world)
  {
    var w', n := RecordRow(w, req, status, link, payouts).world, |w.obligations|;
    if w' != w {
      NothingPaidOut(w.payouts, n);
      Zero(w.reversals, ReversalOf(n));
      MorePayoutsInRange(w.payouts, n, payouts, n + 1);
      forall i | 0 <= i < |w'.obligations|
        ensures RowOrderly(w', i)
      {
        PaidOutMore(w.payouts, n, payouts, i);
        if i < n {
          assert RowOrderly(w, i);
        }
      }
    }
  }

  lemma OtherBooks(w: World, books: Books)
    requires Orderly(w)
    ensures Orderly(w.(books := books))
  {
    forall i | 0 <= i < |w.obligations|
      ensures RowOrderly(w.(books := books), i)
    {
      assert RowOrderly(w, i);
    }
  }

  lemma CreateKeepsOrder(w: World, req: Request, now: int)
    requires Orderly(w)
    ensures Orderly(Create(w, req, now).world)
  {
    if FindByKey(w.obligations, req.key).None? {
      match req.decision
      case Block => RecordKeepsOrder(w, req, BLOCKED, None, []);
      case Hold =>
        var posted := PostHold(w.books, req.org, req.key, req.eventId, req.gross, now);
        OtherBooks(w, posted.books);
        if posted.result.Ok? {
          RecordKeepsOrder(w.(books := posted.books), req, HELD, Some(posted.result.value), []);
        }
      case Allow =>
        var breakdown := Compute(req.gross, req.splits);
        if breakdown.Ok? {
          var posted := PostAllow(w.books, req.org, req.key, req.eventId, req.gross, breakdown.value, now);
          OtherBooks(w, posted.books);
          if posted.result.Ok? {
            RecordKeepsOrder(w.(books := posted.books), req, POSTED, Some(posted.result.value), breakdown.value);
          }
        }
    }
  }

  lemma MarkKeepsOrder(w: World, id: nat, txn: nat, payouts: seq<Payout>)
    requires Orderly(w) && id < |w.obligations| && w.obligations[id].status == HELD
    requires Compute(w.obligations[id].gross, w.obligations[id].splits) == RoyaltyMath.Ok(payouts)
    ensures Orderly(MarkReleased(w, id, txn, payouts).world)
  {
    var w' := MarkReleased(w, id, txn, payouts).world;
    if w' != w {
      forall i | 0 <= i < |w'.obligations|
        ensures RowOrderly(w', i)
      {
        MarkedRow(w, id, txn, payouts, i);
      }
      MorePayoutsInRange(w.payouts, id, payouts, |w.obligations|);
    }
  }

  lemma MarkedRow(w: World, id: nat, txn: nat, payouts: seq<Payout>, i: nat)
    requires id < |w.obligations| && w.obligations[id].status == HELD && i < |w.obligations| && RowOrderly(w, i) && RowOrderly(w, id)
    requires Compute(w.obligations[id].gross, w.obligations[id].splits) == RoyaltyMath.Ok(payouts) && AllPaid(payouts)
    ensures RowOrderly(MarkReleased(w, id, txn, payouts).world, i)
  {
    PaidOutMore(w.payouts, id, payouts, i);
  }

  lemma ReleaseKeepsOrder(w: World, eventId: string, releaseKey: string, now: int)
    requires Orderly(w)
    ensures Orderly(Release(w, eventId, releaseKey, now).world)
  {
    var found := FindByEvent(w.obligations, eventId);
    if found.Some? && w.obligations[found.value].status == HELD {
      var row := w.obligations[found.value];
      var breakdown := Compute(row.gross, row.splits);
      if breakdown.Ok? {
        var posted := PostRelease(w.books, row.org, releaseKey, row.eventId, row.gross, breakdown.value, now);
        OtherBooks(w, posted.books);
        if posted.result.Ok? {
          MarkKeepsOrder(w.(books := posted.books), found.value, posted.result.value, breakdown.value);
        }
      }
    }
  }

  /** The tables with one row reversed. */
  function Reversed(w: World, id: nat, row: ReversalRow): World
    requires id < |w.obligations|
  {
    w.(obligations := w.obligations[id := w.obligations[id].(status := REVERSED)], reversals := w.reversals + [row])
  }

  lemma ReversedRow(w: World, id: nat, row: ReversalRow, i: nat)
    requires id < |w.obligations| && row.obligation == id && i < |w.obligations| && RowOrderly(w, i)
    requires w.obligations[id].status == HELD || w.obligations[id].status == POSTED
    ensures RowOrderly(Reversed(w, id, row), i)
  {
    Append(w.reversals, row, ReversalOf(i));
  }

  lemma ReversedKeepsOrder(w: World, id: nat, row: ReversalRow)
    requires Orderly(w) && id < |w.obligations| && row.obligation == id && FindReversal(w.reversals, row.key).None?
    requires w.obligations[id].status == HELD || w.obligations[id].status == POSTED
    ensures Orderly(Reversed(w, id, row))
  {
    forall i | 0 <= i < |w.obligations|
      ensures RowOrderly(Reversed(w, id, row), i)
    {
      ReversedRow(w, id, row, i);
    }
  }

  lemma ReverseKeepsOrder(w: World, eventId: string, reversalEvent: string, reversalKey: string, now: int)
    requires Orderly(w)
    ensures Orderly(ReverseObligation(w, eventId, reversalEvent, reversalKey, now).world)
  {
    if ReachesReversal(w, eventId, reversalKey) {
      var id := FindByEvent(w.obligations, eventId).value;
      var row := w.obligations[id];
      assert RowOrderly(w, id);
      var reversal := Reverse(w.books, row.org, row.ledgerTxn.value, now);
      OtherBooks(w, reversal.books);
      if reversal.result.Ok? && ReversalFits(reversalEvent, reversalKey) {
        ReversedKeepsOrder(w.(books := reversal.books), id, ReversalRow(id, reversalEvent, reversalKey, reversal.result.value));
      }
    }
  }

  lemma ServeKeepsOrder(w: World, call: Call)
    requires Orderly(w)
    ensures Orderly(Serve(w, call))
  {
    match call
    case CreateCall(req, now) => CreateKeepsOrder(w, req, now);
    case ReleaseCall(eventId, releaseKey, now) => ReleaseKeepsOrder(w, eventId, releaseKey, now);
    case ReverseCall(eventId, reversalEvent, reversalKey, now) => ReverseKeepsOrder(w, eventId, reversalEvent, reversalKey, now);
  }

  /** From a service without rows, over any books, every run is orderly. */
  lemma {:induction false} RunIsOrderly(books: Books, calls: seq<Call>)
    ensures Orderly(ServeAll(World(books, [], [], []), calls))
  {
    if calls != [] {
      RunIsOrderly(books, calls[..|calls| - 1]);
      ServeKeepsOrder(ServeAll(World(books, [], [], []), calls[..|calls| - 1]), calls[|calls| - 1]);
    }
  }

  // ---------------------------------------------------------------- what no call undoes

  /** A row keeps its request, and its status only goes on: held, posted, reversed. */
  ghost predicate RowMoves(ob: Obligation, ob': Obligation) {
    && ob'.(status := ob.status, ledgerTxn := ob.ledgerTxn, viaRelease := ob.viaRelease) == ob
    && (ob'.status == ob.status ==> ob' == ob)
    && (ob'.status != ob.status ==>
          (ob.status == HELD && ob'.status == POSTED) || ((ob.status == HELD || ob.status == POSTED) && ob'.status == REVERSED))
  }

  ghost predicate TablesMove(w: World, w': World) {
    && |w.obligations| <= |w'.obligations|
    && (forall i :: 0 <= i < |w.obligations| ==> RowMoves(w.obligations[i], w'.obligations[i]))
    && w.payouts <= w'.payouts
    && w.reversals <= w'.reversals
  }

  lemma RecordMoves(w: World, books: Books, req: Request, status: RoyaltyStatus, link: Option<nat>, payouts: seq<Payout>)
    ensures TablesMove(w, w.(books := books))
    ensures TablesMove(w, RecordRow(w.(books := books), req, status, link, payouts).world)
  {
  }

  lemma CreateMoves(w: World, req: Request, now: int)
    ensures TablesMove(w, Create(w, req, now).world)
  {
    match req.decision
    case Block => RecordMoves(w, w.books, req, BLOCKED, None, []);
    case Hold =>
      var posted := PostHold(w.books, req.org, req.key, req.eventId, req.gross, now);
      RecordMoves(w, posted.books, req, HELD, if posted.result.Ok? then Some(posted.result.value) else None, []);
    case Allow =>
      var breakdown := Compute(req.gross, req.splits);
      RecordMoves(w, w.books, req, BLOCKED, None, []);
      if breakdown.Ok? {
        var posted := PostAllow(w.books, req.org, req.key, req.eventId, req.gross, breakdown.value, now);
        RecordMoves(w, posted.books, req, POSTED, if posted.result.Ok? then Some(posted.result.value) else None, breakdown.value);
      }
  }

  lemma MarkMoves(w: World, books: Books, id: nat, txn: nat, payouts: seq<Payout>)
    requires id < |w.obligations| && w.obligations[id].status == HELD
    ensures TablesMove(w, w.(books := books))
    ensures TablesMove(w, MarkReleased(w.(books := books), id, txn, payouts).world)
  {
  }

  lemma ReleaseMoves(w: World, eventId: string, releaseKey: string, now: int)
    ensures TablesMove(w, Release(w, eventId, releaseKey, now).world)
  {
    var found := FindByEvent(w.obligations, eventId);
    if found.Some? && w.obligations[found.value].status == HELD {
      var row := w.obligations[found.value];
      var breakdown := Compute(row.gross, row.splits);
      if breakdown.Ok? {
        var posted := PostRelease(w.books, row.org, releaseKey, row.eventId, row.gross, breakdown.value, now);
        MarkMoves(w, posted.books, found.value, if posted.result.Ok? then posted.result.value else 0, breakdown.value);
      }
    }
  }

  lemma ReversedMoves(w: World, books: Books, id: nat, row: ReversalRow)
    requires id < |w.obligations| && (w.obligations[id].status == HELD || w.obligations[id].status == POSTED)
    ensures TablesMove(w, w.(books := books))
    ensures TablesMove(w, Reversed(w, id, row).(books := books))
  {
  }

  lemma ReverseMoves(w: World, eventId: string, reversalEvent: string, reversalKey: string, now: int)
    requires Orderly(w)
    ensures TablesMove(w, ReverseObligation(w, eventId, reversalEvent, reversalKey, now).world)
  {
    if ReachesReversal(w, eventId, reversalKey) {
      var id := FindByEvent(w.obligations, eventId).value;
      var row := w.obligations[id];
      assert RowOrderly(w, id);
      var reversal := Reverse(w.books, row.org, row.ledgerTxn.value, now);
      ReversedMoves(w, reversal.books, id,
                    ReversalRow(id, reversalEvent, reversalKey, if reversal.result.Ok? then reversal.result.value else 0));
    }
  }

  lemma ServeMoves(w: World, call: Call)
    requires Orderly(w)
    ensures TablesMove(w, Serve(w, call))
  {
    match call
    case CreateCall(req, now) => CreateMoves(w, req, now);
    case ReleaseCall(eventId, releaseKey, now) => ReleaseMoves(w, eventId, releaseKey, now);
    case ReverseCall(eventId, reversalEvent, reversalKey, now) => ReverseMoves(w, eventId, reversalEvent, reversalKey, now);
  }

  lemma MovesOnward(a: World, b: World, c: World)
    requires TablesMove(a, b) && TablesMove(b, c)
    ensures TablesMove(a, c)
  {
    forall i | 0 <= i < |a.obligations|
      ensures RowMoves(a.obligations[i], c.obligations[i])
    {
      assert RowMoves(a.obligations[i], b.obligations[i]) && RowMoves(b.obligations[i], c.obligations[i]);
    }
  }

  /** From any moment of a run to any later one. */
  lemma {:induction false} RunMoves(w: World, calls: seq<Call>)
    requires Orderly(w)
    ensures Orderly(ServeAll(w, calls)) && TablesMove(w, ServeAll(w, calls))
  {
    if calls != [] {
      var front := ServeAll(w, calls[..|calls| - 1]);
      RunMoves(w, calls[..|calls| - 1]);
      ServeMoves(front, calls[|calls| - 1]);
      ServeKeepsOrder(front, calls[|calls| - 1]);
      MovesOnward(w, front, ServeAll(w, calls));
    }
  }

  // ---------------------------------------------------------------- what a used name answers from then on

  lemma KeyIsBound(w: World, i: nat, req: Request, now: int)
    requires KeysUnique(w) && i < |w.obligations| && req.key == w.obligations[i].key
    ensures Create(w, req, now) == Step(w, if req.requestHash == w.obligations[i].requestHash then Done(i) else Failed(IdempotencyConflict))
  {
    assert FindByKey(w.obligations, req.key) == Some(i);
  }

  /** A create key belongs for good to the request whose hash it was recorded with: in every later
      state that request gets the same obligation back, any other one under the key is refused,
      and neither changes anything. */
  lemma KeyBindsForever(w: World, calls: seq<Call>, i: nat, req: Request, now: int)
    requires Orderly(w) && i < |w.obligations| && req.key == w.obligations[i].key
    ensures var w' := ServeAll(w, calls);
            Create(w', req, now) == Step(w', if req.requestHash == w.obligations[i].requestHash then Done(i) else Failed(IdempotencyConflict))
  {
    var w' := ServeAll(w, calls);
    RunMoves(w, calls);
    assert RowMoves(w.obligations[i], w'.obligations[i]);
    KeyIsBound(w', i, req, now);
  }

  /** The obligation an event names: its first row, in every state from then on. */
  ghost predicate FirstOf(w: World, eventId: string, i: nat) {
    && i < |w.obligations| && w.obligations[i].eventId == eventId
    && forall j :: 0 <= j < i ==> w.obligations[j].eventId != eventId
  }

  lemma MovedStaysFirst(w: World, w': World, eventId: string, i: nat)
    requires TablesMove(w, w') && FirstOf(w, eventId, i)
    ensures FirstOf(w', eventId, i) && FindByEvent(w'.obligations, eventId) == Some(i)
    ensures RowMoves(w.obligations[i], w'.obligations[i])
  {
    forall j | 0 <= j < i
      ensures w'.obligations[j].eventId != eventId
    {
      assert RowMoves(w.obligations[j], w'.obligations[j]);
    }
  }

  lemma StaysFirst(w: World, calls: seq<Call>, eventId: string, i: nat)
    requires Orderly(w) && FirstOf(w, eventId, i)
    ensures Orderly(ServeAll(w, calls)) && FirstOf(ServeAll(w, calls), eventId, i)
    ensures FindByEvent(ServeAll(w, calls).obligations, eventId) == Some(i)
    ensures RowMoves(w.obligations[i], ServeAll(w, calls).obligations[i])
  {
    RunMoves(w, calls);
    MovedStaysFirst(w, ServeAll(w, calls), eventId, i);
  }

  /** An event is released at most once: after it is posted, every later release, under any key,
      returns it or finds it reversed, and changes nothing. */
  lemma PostedIsNotReleasedAgain(w: World, calls: seq<Call>, eventId: string, i: nat, releaseKey: string, now: int)
    requires Orderly(w) && FirstOf(w, eventId, i) && w.obligations[i].status == POSTED
    ensures var w' := ServeAll(w, calls);
            && i < |w'.obligations| && (w'.obligations[i].status == POSTED || w'.obligations[i].status == REVERSED)
            && Release(w', eventId, releaseKey, now)
               == Step(w', if w'.obligations[i].status == POSTED then Done(i) else Failed(InvalidState(REVERSED)))
  {
    StaysFirst(w, calls, eventId, i);
  }

  /** A reversed event stays so: no later call releases or reverses it. */
  lemma ReversedForever(w: World, calls: seq<Call>, eventId: string, i: nat, key: string, event: string, now: int)
    requires Orderly(w) && FirstOf(w, eventId, i) && w.obligations[i].status == REVERSED
    ensures var w' := ServeAll(w, calls);
            && i < |w'.obligations| && w'.obligations[i] == w.obligations[i]
            && Release(w', eventId, key, now) == Step(w', Failed(InvalidState(REVERSED)))
            && ReverseObligation(w', eventId, event, key, now)
               == Step(w', match FindReversal(w'.reversals, key)
                           case Some(r) => Done(w'.reversals[r].obligation)
                           case None => Failed(InvalidState(REVERSED)))
  {
    StaysFirst(w, calls, eventId, i);
  }

  /** A blocked event never moves money: no later call releases or reverses it. */
  lemma BlockedForever(w: World, calls: seq<Call>, eventId: string, i: nat, key: string, event: string, now: int)
    requires Orderly(w) && FirstOf(w, eventId, i) && w.obligations[i].status == BLOCKED
    ensures var w' := ServeAll(w, calls);
            && i < |w'.obligations| && w'.obligations[i] == w.obligations[i] && w.obligations[i].ledgerTxn.None?
            && Release(w', eventId, key, now) == Step(w', Failed(InvalidState(BLOCKED)))
            && (FindReversal(w'.reversals, key).None? ==>
                  ReverseObligation(w', eventId, event, key, now) == Step(w', Failed(NoLedgerTransaction)))
  {
    StaysFirst(w, calls, eventId, i);
    assert RowOrderly(w, i);
  }

  /** A reversal key is used once: in every later state it returns the obligation it reversed, which
      is reversed, and changes nothing. */
  lemma ReversalKeyBindsForever(w: World, calls: seq<Call>, k: nat, eventId: string, event: string, now: int)
    requires Orderly(w) && k < |w.reversals|
    ensures var (w', row) := (ServeAll(w, calls), w.reversals[k]);
            && ReverseObligation(w', eventId, event, row.key, now) == Step(w', Done(row.obligation))
            && row.obligation < |w'.obligations| && w'.obligations[row.obligation].status == REVERSED
  {
    var (w', row) := (ServeAll(w, calls), w.reversals[k]);
    RunMoves(w, calls);
    assert w'.reversals[k] == row;
    assert FindReversal(w'.reversals, row.key) == Some(k);
    assert RowOrderly(w', row.obligation);
    Member(w'.reversals, k, ReversalOf(row.obligation));
  }

  /** An event that no row names is neither released nor reversed. */
  lemma UnknownEvent(w: World, eventId: string, key: string, event: string, now: int)
    requires forall i :: 0 <= i < |w.obligations| ==> w.obligations[i].eventId != eventId
    ensures Release(w, eventId, key, now) == Step(w, Failed(ObligationNotFound))
    ensures (forall k :: 0 <= k < |w.reversals| ==> w.reversals[k].key != key) ==>
              ReverseObligation(w, eventId, event, key, now) == Step(w, Failed(ObligationNotFound))
  {
  }

  // ---------------------------------------------------------------- what a call that goes through records

  /** The world after a call that recorded the request in a new row of this status. */
  ghost predicate Recorded(w: World, req: Request, status: RoyaltyStatus, w': World) {
    var n := |w.obligations|;
    && |w'.obligations| == n + 1 && w'.obligations[..n] == w.obligations
    && var ob := w'.obligations[n];
       && ob.org == req.org && ob.eventId == req.eventId && ob.key == req.key && ob.requestHash == req.requestHash
       && ob.gross == req.gross && ob.splits == req.splits && ob.status == status
       && PaidOut(w'.payouts, n) == (if status == POSTED then PayoutsOf(ob) else [])
       && w'.reversals == w.reversals
  }

  lemma RecordRecords(w: World, books: Books, req: Request, status: RoyaltyStatus, link: Option<nat>, payouts: seq<Payout>)
    requires Orderly(w)
    requires if status == POSTED then Compute(req.gross, req.splits) == RoyaltyMath.Ok(payouts) else payouts == []
    ensures var s := RecordRow(w.(books := books), req, status, link, payouts);
            && (s.reply.Failed? ==> s.world == w.(books := books))
            && (s.reply.Done? ==> s.reply.id == |w.obligations| && Recorded(w, req, status, s.world))
  {
    NothingPaidOut(w.payouts, |w.obligations|);
    PaidOutMore(w.payouts, |w.obligations|, payouts, |w.obligations|);
  }

  /** A create under a new key either records nothing of its own, or one row with every field of
      the request and the status its decision asks for; a blocked one leaves the ledger alone. */
  lemma CreateRecordsTheRequest(w: World, req: Request, now: int)
    requires Orderly(w) && forall i :: 0 <= i < |w.obligations| ==> w.obligations[i].key != req.key
    ensures var s := Create(w, req, now);
            && (s.reply.Failed? ==> s.world == w.(books := s.world.books))
            && (s.reply.Done? ==>
                  s.reply.id == |w.obligations| && Recorded(w, req, match req.decision case Allow => POSTED case Hold => HELD case Block => BLOCKED, s.world))
            && (req.decision == Block ==> s.world.books == w.books)
  {
    match req.decision
    case Block => RecordRecords(w, w.books, req, BLOCKED, None, []);
    case Hold =>
      var posted := PostHold(w.books, req.org, req.key, req.eventId, req.gross, now);
      RecordRecords(w, posted.books, req, HELD, if posted.result.Ok? then Some(posted.result.value) else None, []);
    case Allow =>
      var breakdown := Compute(req.gross, req.splits);
      if breakdown.Ok? {
        var posted := PostAllow(w.books, req.org, req.key, req.eventId, req.gross, breakdown.value, now);
        RecordRecords(w, posted.books, req, POSTED, if posted.result.Ok? then Some(posted.result.value) else None, breakdown.value);
      }
  }

  /** A release that goes through posts the row and records its computed payouts; one that does not
      leaves the service's tables alone. */
  lemma ReleasePostsTheRow(w: World, eventId: string, i: nat, releaseKey: string, now: int)
    requires Orderly(w) && FirstOf(w, eventId, i) && w.obligations[i].status == HELD
    ensures var s := Release(w, eventId, releaseKey, now);
            && (s.reply.Failed? ==> s.world == w.(books := s.world.books))
            && (s.reply.Done? ==>
                  && s.reply.id == i && |s.world.obligations| == |w.obligations|
                  && s.world.obligations[i].status == POSTED && s.world.obligations[i].ledgerTxn.Some?
                  && Compute(w.obligations[i].gross, w.obligations[i].splits) == RoyaltyMath.Ok(PaidOut(s.world.payouts, i))
                  && s.world.reversals == w.reversals)
  {
    var s := Release(w, eventId, releaseKey, now);
    assert FindByEvent(w.obligations, eventId) == Some(i);
    ReleaseKeepsOrder(w, eventId, releaseKey, now);
    if s.reply.Done? {
      assert RowOrderly(s.world, i);
    }
  }

  /** A reversal that goes through marks the row and records the ledger's transaction under the
      reversal's event and key; one that does not leaves the service's tables alone. */
  lemma ReverseRecordsTheReversal(w: World, eventId: string, i: nat, event: string, key: string, now: int)
    requires Orderly(w) && FirstOf(w, eventId, i) && (w.obligations[i].status == HELD || w.obligations[i].status == POSTED)
    requires forall k :: 0 <= k < |w.reversals| ==> w.reversals[k].key != key
    ensures var s := ReverseObligation(w, eventId, event, key, now);
            && (s.reply.Failed? ==> s.world == w.(books := s.world.books))
            && (s.reply.Done? ==>
                  && s.reply.id == i
                  && s.world.obligations == w.obligations[i := w.obligations[i].(status := REVERSED)]
                  && s.world.payouts == w.payouts
                  && |s.world.reversals| == |w.reversals| + 1 && w.reversals < s.world.reversals
                  && var row := s.world.reversals[|w.reversals|];
                     && row.obligation == i && row.eventId == event && row.key == key
                     && w.obligations[i].ledgerTxn.Some?
                     && Reverse(w.books, w.obligations[i].org, w.obligations[i].ledgerTxn.value, now).result == Ledger.Ok(row.ledgerTxn))
  {
    assert FindByEvent(w.obligations, eventId) == Some(i);
    assert RowOrderly(w, i);
  }

  // ---------------------------------------------------------------- what each call answers

  /** The columns of an obligation row can hold the request. */
  ghost predicate Storable(req: Request) {
    && 0 < req.gross < AMOUNT_LIMIT
    && |req.eventId| <= 255 && |req.key| <= 255 && |req.requestHash| <= 64
    && |req.details.correlationId| <= 255 && |req.details.tenantId| <= 255
    && |req.details.trackId| <= 255 && |req.details.creatorId| <= 255 && |req.details.policy| <= 50
  }

  lemma RecordAnswers(w: World, req: Request, status: RoyaltyStatus, link: Option<nat>, payouts: seq<Payout>)
    ensures var s := RecordRow(w, req, status, link, payouts);
            && s.world.books == w.books
            && s.reply == if Storable(req) && (forall i :: 0 <= i < |payouts| ==> payouts[i].cents > 0)
                          then Done(|w.obligations|) else Failed(ConstraintViolated)
  {
  }

  lemma MarkAnswers(w: World, i: nat, txn: nat, payouts: seq<Payout>)
    requires i < |w.obligations|
    ensures var s := MarkReleased(w, i, txn, payouts);
            && s.world.books == w.books
            && s.reply == if (forall k :: 0 <= k < |payouts| ==> payouts[k].cents > 0) then Done(i) else Failed(ConstraintViolated)
  {
  }

  /** A blocked create under a new key is recorded exactly if its row can hold it. */
  lemma BlockAnswers(w: World, req: Request, now: int)
    requires req.decision == Block && forall i :: 0 <= i < |w.obligations| ==> w.obligations[i].key != req.key
    ensures Create(w, req, now).reply == if Storable(req) then Done(|w.obligations|) else Failed(ConstraintViolated)
  {
  }

  /** A held one exactly if moreover the ledger takes the hold, whose refusal is passed on; what the
      ledger posted stays posted either way. */
  lemma HoldAnswers(w: World, req: Request, now: int)
    requires req.decision == Hold && forall i :: 0 <= i < |w.obligations| ==> w.obligations[i].key != req.key
    ensures var (s, posted) := (Create(w, req, now), PostHold(w.books, req.org, req.key, req.eventId, req.gross, now));
            && s.world.books == posted.books
            && s.reply == match posted.result
                          case Err(e) => Failed(LedgerFailed(e))
                          case Ok(_) => if Storable(req) then Done(|w.obligations|) else Failed(ConstraintViolated)
  {
  }

  /** And an allowed one exactly if the split can be computed, the ledger takes it, and the rows can
      hold it and its payouts. */
  lemma AllowAnswers(w: World, req: Request, now: int)
    requires req.decision == Allow && forall i :: 0 <= i < |w.obligations| ==> w.obligations[i].key != req.key
    ensures var s := Create(w, req, now);
            match Compute(req.gross, req.splits)
            case Err(e) => s == Step(w, Failed(SplitFailed(e)))
            case Ok(payouts) =>
              var posted := PostAllow(w.books, req.org, req.key, req.eventId, req.gross, payouts, now);
              && s.world.books == posted.books
              && s.reply == match posted.result
                            case Err(e) => Failed(LedgerFailed(e))
                            case Ok(_) => if Storable(req) && (forall i :: 0 <= i < |payouts| ==> payouts[i].cents > 0)
                                          then Done(|w.obligations|) else Failed(ConstraintViolated)
  {
    var breakdown := Compute(req.gross, req.splits);
    if breakdown.Ok? {
      var posted := PostAllow(w.books, req.org, req.key, req.eventId, req.gross, breakdown.value, now);
      RecordAnswers(w.(books := posted.books), req, POSTED, if posted.result.Ok? then Some(posted.result.value) else None, breakdown.value);
    }
  }

  lemma PostedAnswers(w: World, i: nat, posted: Outcome, payouts: seq<Payout>)
    requires i < |w.obligations|
    ensures var s := AfterPosting(w, i, posted, payouts);
            && s.world.books == posted.books
            && s.reply == match posted.result
                          case Err(e) => Failed(LedgerFailed(e))
                          case Ok(_) => if (forall k :: 0 <= k < |payouts| ==> payouts[k].cents > 0) then Done(i) else Failed(ConstraintViolated)
  {
    if posted.result.Ok? {
      MarkAnswers(w.(books := posted.books), i, posted.result.value, payouts);
    }
  }

  /** A release of a held event answers likewise. */
  lemma ReleaseAnswers(w: World, eventId: string, i: nat, releaseKey: string, now: int)
    requires FirstOf(w, eventId, i) && w.obligations[i].status == HELD
    ensures var (s, row) := (Release(w, eventId, releaseKey, now), w.obligations[i]);
            match Compute(row.gross, row.splits)
            case Err(e) => s == Step(w, Failed(SplitFailed(e)))
            case Ok(payouts) =>
              var posted := PostRelease(w.books, row.org, releaseKey, row.eventId, row.gross, payouts, now);
              && s.world.books == posted.books
              && s.reply == match posted.result
                            case Err(e) => Failed(LedgerFailed(e))
                            case Ok(_) => if (forall k :: 0 <= k < |payouts| ==> payouts[k].cents > 0) then Done(i) else Failed(ConstraintViolated)
  {
    var row := w.obligations[i];
    assert Release(w, eventId, releaseKey, now) == ReleaseRow(w, i, releaseKey, now) by {
      assert FindByEvent(w.obligations, eventId) == Some(i);
    }
    var breakdown := Compute(row.gross, row.splits);
    if breakdown.Ok? {
      PostedAnswers(w, i, PostRelease(w.books, row.org, releaseKey, row.eventId, row.gross, breakdown.value, now), breakdown.value);
    }
  }

  /** A reversal of an event with a transaction is recorded exactly if the ledger takes it back and
      the row can hold the reversal's texts; what the ledger posted stays posted either way. */
  lemma ReverseAnswers(w: World, eventId: string, i: nat, event: string, key: string, now: int)
    requires Orderly(w) && FirstOf(w, eventId, i) && (w.obligations[i].status == HELD || w.obligations[i].status == POSTED)
    requires forall k :: 0 <= k < |w.reversals| ==> w.reversals[k].key != key
    ensures var (s, row) := (ReverseObligation(w, eventId, event, key, now), w.obligations[i]);
            && row.ledgerTxn.Some?
            && var reversal := Reverse(w.books, row.org, row.ledgerTxn.value, now);
               && s.world.books == reversal.books
               && s.reply == match reversal.result
                             case Err(e) => Failed(LedgerFailed(e))
                             case Ok(_) => if |event| <= 255 && |key| <= 255 then Done(i) else Failed(ConstraintViolated)
  {
    assert FindByEvent(w.obligations, eventId) == Some(i);
    assert RowOrderly(w, i);
  }
}
