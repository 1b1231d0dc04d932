/** Royalty obligations over the ledger: create (allow, hold or block), release and reverse.
    services/transaction/royalty-service-core.ts:37-255, with migrations/004_royalty_loop.sql. */
module RoyaltyObligations {
  import opened Sums
  import opened RoyaltyMath
  import opened Ledger
  import opened RoyaltyLedger
  import RoyaltySplit

  datatype Decision = Allow | Hold | Block
  datatype RoyaltyStatus = BLOCKED | HELD | POSTED | REVERSED

  /** One row. viaRelease is history, not a column: nothing below branches on it. */
  datatype Obligation = Obligation(org: string, eventId: string, key: string, requestHash: string,
                                   gross: int, splits: seq<Split>, status: RoyaltyStatus, ledgerTxn: Option<nat>,
                                   viaRelease: bool)
  datatype PayoutRow = PayoutRow(obligation: nat, payout: Payout)
  datatype ReversalRow = ReversalRow(obligation: nat, eventId: string, key: string, ledgerTxn: nat)

  /** Texts that the row stores and nothing reads back. */
  datatype Details = Details(correlationId: string, tenantId: string, trackId: string, creatorId: string, policy: string)
  datatype Request = Request(org: string, eventId: string, key: string, requestHash: string,
                             gross: int, splits: seq<Split>, decision: Decision, details: Details)

  /** The ledger's tables beside the service's own three. */
  datatype World = World(books: Books, obligations: seq<Obligation>, payouts: seq<PayoutRow>, reversals: seq<ReversalRow>)

  datatype Failure =
    | IdempotencyConflict
    | ObligationNotFound
    | InvalidState(status: RoyaltyStatus)
    | NoLedgerTransaction
    | SplitFailed(split: RoyaltyError)
    | LedgerFailed(ledger: LedgerError)
    | ConstraintViolated
  datatype Reply = Done(id: nat) | Failed(failure: Failure)
  datatype Step = Step(world: World, reply: Reply)

  const MAX_TEXT := 255
  const MAX_HASH := 64
  const MAX_POLICY := 50

  // ---------------------------------------------------------------- the operations, as functions

  function FindByKey(obligations: seq<Obligation>, key: string): (found: Option<nat>)
    ensures found.Some? ==> found.value < |obligations| && obligations[found.value].key == key
    ensures found.None? ==> forall i :: 0 <= i < |obligations| ==> obligations[i].key != key
  {
    if obligations == [] then None
    else
      var n := |obligations| - 1;
      var earlier := FindByKey(obligations[..n], key);
      if earlier.Some? then earlier
      else if obligations[n].key == key then Some(n)
      else
        assert forall i :: 0 <= i < n ==> obligations[..n][i] == obligations[i];
        None
  }

  function FindByEvent(obligations: seq<Obligation>, eventId: string): (found: Option<nat>)
    ensures found.Some? ==> found.value < |obligations| && obligations[found.value].eventId == eventId
    ensures found.Some? ==> forall i :: 0 <= i < found.value ==> obligations[i].eventId != eventId
    ensures found.None? ==> forall i :: 0 <= i < |obligations| ==> obligations[i].eventId != eventId
  {
    if obligations == [] then None
    else
      var n := |obligations| - 1;
      var earlier := FindByEvent(obligations[..n], eventId);
      assert forall i :: 0 <= i < n ==> obligations[..n][i] == obligations[i];
      if earlier.Some? then earlier else if obligations[n].eventId == eventId then Some(n) else None
  }

  function FindReversal(reversals: seq<ReversalRow>, key: string): (found: Option<nat>)
    ensures found.Some? ==> found.value < |reversals| && reversals[found.value].key == key
    ensures found.None? ==> forall i :: 0 <= i < |reversals| ==> reversals[i].key != key
  {
    if reversals == [] then None
    else
      var n := |reversals| - 1;
      var earlier := FindReversal(reversals[..n], key);
      assert forall i :: 0 <= i < n ==> reversals[..n][i] == reversals[i];
      if earlier.Some? then earlier else if reversals[n].key == key then Some(n) else None
  }

  /** computeRoyalty, as the service calls it. */
  function Compute(gross: int, splits: seq<Split>): RoyaltyMath.Result<seq<Payout>> {
    var pool := RoyaltySplit.TsPool(gross);
    RoyaltySplit.Checked(pool, RoyaltySplit.TsDistribute(pool, splits))
  }

  function PayoutRows(obligation: nat, payouts: seq<Payout>): seq<PayoutRow> {
    seq(|payouts|, i requires 0 <= i < |payouts| => PayoutRow(obligation, payouts[i]))
  }

  predicate DetailsFit(d: Details) {
    && |d.correlationId| <= MAX_TEXT && |d.tenantId| <= MAX_TEXT && |d.trackId| <= MAX_TEXT && |d.creatorId| <= MAX_TEXT
    && |d.policy| <= MAX_POLICY
  }

  /** The columns of an obligation row accept the request. */
  predicate RowFits(req: Request) {
    && 0 < req.gross < AMOUNT_LIMIT
    && |req.eventId| <= MAX_TEXT && |req.key| <= MAX_TEXT && |req.requestHash| <= MAX_HASH && DetailsFit(req.details)
  }

  predicate ReversalFits(reversalEvent: string, reversalKey: string) {
    |reversalEvent| <= MAX_TEXT && |reversalKey| <= MAX_TEXT
  }

  /** The local transaction that records a new obligation with its payouts. */
  function RecordRow(w: World, req: Request, status: RoyaltyStatus, link: Option<nat>, payouts: seq<Payout>): Step {
    if !RowFits(req) || !AllPaid(payouts) then Step(w, Failed(ConstraintViolated))
    else
      var id := |w.obligations|;
      Step(w.(obligations := w.obligations + [Obligation(req.org, req.eventId, req.key, req.requestHash, req.gross, req.splits, status, link, false)],
              payouts := w.payouts + PayoutRows(id, payouts)),
           Done(id))
  }

  function CreateHeld(w: World, req: Request, now: int): Step {
    var posted := PostHold(w.books, req.org, req.key, req.eventId, req.gross, now);
    var w1 := w.(books := posted.books);
    if posted.result.Err? then Step(w1, Failed(LedgerFailed(posted.result.error)))
    else RecordRow(w1, req, HELD, Some(posted.result.value), [])
  }

  function CreateAllowed(w: World, req: Request, now: int): Step {
    var breakdown := Compute(req.gross, req.splits);
    if breakdown.Err? then Step(w, Failed(SplitFailed(breakdown.error)))
    else
      var posted := PostAllow(w.books, req.org, req.key, req.eventId, req.gross, breakdown.value, now);
      var w1 := w.(books := posted.books);
      if posted.result.Err? then Step(w1, Failed(LedgerFailed(posted.result.error)))
      else RecordRow(w1, req, POSTED, Some(posted.result.value), breakdown.value)
  }

  function Create(w: World, req: Request, now: int): Step {
    var existing := FindByKey(w.obligations, req.key);
    if existing.Some? then
      if w.obligations[existing.value].requestHash != req.requestHash then Step(w, Failed(IdempotencyConflict))
      else Step(w, Done(existing.value))
    else match req.decision
      case Block => RecordRow(w, req, BLOCKED, None, [])
      case Hold => CreateHeld(w, req, now)
      case Allow => CreateAllowed(w, req, now)
  }

  function MarkReleased(w: World, id: nat, txn: nat, payouts: seq<Payout>): Step
    requires id < |w.obligations|
  {
    if !AllPaid(payouts) then Step(w, Failed(ConstraintViolated))
    else
      Step(w.(obligations := w.obligations[id := w.obligations[id].(status := POSTED, ledgerTxn := Some(txn), viaRelease := true)],
              payouts := w.payouts + PayoutRows(id, payouts)),
           Done(id))
  }

  /** The release of a held row: compute, post, record. */
  function ReleaseRow(w: World, id: nat, releaseKey: string, now: int): Step
    requires id < |w.obligations|
  {
    var row := w.obligations[id];
    var breakdown := Compute(row.gross, row.splits);
    if breakdown.Err? then Step(w, Failed(SplitFailed(breakdown.error)))
    else
      AfterPosting(w, id, PostRelease(w.books, row.org, releaseKey, row.eventId, row.gross, breakdown.value, now), breakdown.value)
  }

  function AfterPosting(w: World, id: nat, posted: Outcome, payouts: seq<Payout>): Step
    requires id < |w.obligations|
  {
    var w1 := w.(books := posted.books);
    if posted.result.Err? then Step(w1, Failed(LedgerFailed(posted.result.error)))
    else MarkReleased(w1, id, posted.result.value, payouts)
  }

  function Release(w: World, eventId: string, releaseKey: string, now: int): Step {
    var found := FindByEvent(w.obligations, eventId);
    if found.None? then Step(w, Failed(ObligationNotFound))
    else
      var status := w.obligations[found.value].status;
      if status == POSTED then Step(w, Done(found.value))
      else if status != HELD then Step(w, Failed(InvalidState(status)))
      else ReleaseRow(w, found.value, releaseKey, now)
  }

  function ReverseObligation(w: World, eventId: string, reversalEvent: string, reversalKey: string, now: int): Step {
    var known := FindReversal(w.reversals, reversalKey);
    if known.Some? then Step(w, Done(w.reversals[known.value].obligation))
    else
      var found := FindByEvent(w.obligations, eventId);
      if found.None? then Step(w, Failed(ObligationNotFound))
      else
        var row := w.obligations[found.value];
        if row.status == REVERSED then Step(w, Failed(InvalidState(REVERSED)))
        else if row.ledgerTxn.None? then Step(w, Failed(NoLedgerTransaction))
        else
          var reversal := Reverse(w.books, row.org, row.ledgerTxn.value, now);
          var w1 := w.(books := reversal.books);
          if reversal.result.Err? then Step(w1, Failed(LedgerFailed(reversal.result.error)))
          else if !ReversalFits(reversalEvent, reversalKey) then Step(w1, Failed(ConstraintViolated))
          else
            Step(w1.(obligations := w.obligations[found.value := row.(status := REVERSED)],
                     reversals := w.reversals + [ReversalRow(found.value, reversalEvent, reversalKey, reversal.result.value)]),
                 Done(found.value))
  }

  // ---------------------------------------------------------------- what an obligation is worth

  function PayoutsOf(ob: Obligation): seq<Payout> {
    if Compute(ob.gross, ob.splits).Ok? then Compute(ob.gross, ob.splits).value else []
  }

  /** The effect of an obligation on the account of one code: nothing while blocked, the hold
      while held, the payout once posted by either route; a reversal undoes it, except that
      reversing a released obligation undoes the release only and the hold stays. */
  function Effect(ob: Obligation, code: string): int {
    match ob.status
    case BLOCKED => 0
    case HELD => HoldEffect(ob.gross, code)
    case POSTED => AllowEffect(ob.gross, PayoutsOf(ob), code)
    case REVERSED => if ob.viaRelease then HoldEffect(ob.gross, code) else 0
  }

  function EffectOn(org: string, code: string): Obligation -> int {
    (ob: Obligation) => if ob.org == org then Effect(ob, code) else 0
  }

  /** The effect of the ledger transaction a live obligation points to. */
  function LinkEffects(ob: Obligation): string -> int {
    if ob.status == HELD then HoldEffects(ob.gross)
    else SplitEffects(if ob.viaRelease then HELD_CODE else EXPENSE_CODE, ob.gross, PayoutsOf(ob))
  }

  function TxnCodeNet(accounts: seq<Account>, txn: nat, org: string, code: string): Entry -> int {
    (e: Entry) => if e.txn == txn then CodeNet(accounts, org, code)(e) else 0
  }

  ghost predicate TxnMoves(b: Books, txn: nat, org: string, effect: string -> int) {
    forall o, c :: Sum(b.entries, TxnCodeNet(b.accounts, txn, o, c)) == if o == org then effect(c) else 0
  }

  ghost predicate Linked(b: Books, ob: Obligation) {
    match ob.status
    case BLOCKED => ob.ledgerTxn == None
    case REVERSED => true
    case _ =>
      && ob.ledgerTxn.Some? && ob.ledgerTxn.value < |b.txns| && b.txns[ob.ledgerTxn.value].org == ob.org
      && TxnMoves(b, ob.ledgerTxn.value, ob.org, LinkEffects(ob))
      && (ob.status == HELD ==> !ob.viaRelease)
  }

  /** The ledger holds, on every account of every organization, exactly what it held before plus
      the effects of the obligations on record. */
  ghost predicate NetsMatch(base: Books, w: World) {
    forall o, c :: NetOn(w.books, o, c) == NetOn(base, o, c) + Sum(w.obligations, EffectOn(o, c))
  }

  ghost predicate Conserved(base: Books, w: World) {
    && WellFormed(w.books)
    && (forall i :: 0 <= i < |w.obligations| ==> Linked(w.books, w.obligations[i]))
    && NetsMatch(base, w)
  }

  // ---------------------------------------------------------------- postings seen from an obligation

  /** b' is b with later transactions and accounts added; earlier rows keep their meaning. */
  ghost predicate Extends(b: Books, b': Books) {
    && b.accounts <= b'.accounts
    && b.entries <= b'.entries
    && |b.txns| <= |b'.txns|
    && (forall t :: 0 <= t < |b.txns| ==> b'.txns[t].org == b.txns[t].org)
    && (forall i :: |b.entries| <= i < |b'.entries| ==> b'.entries[i].txn >= |b.txns|)
  }

  lemma OldEntriesKeepCode(b: Books, b': Books, org: string, code: string)
    requires WellFormed(b) && b.accounts <= b'.accounts
    ensures forall i :: 0 <= i < |b.entries| ==>
      CodeNet(b'.accounts, org, code)(b.entries[i]) == CodeNet(b.accounts, org, code)(b.entries[i])
  {
    forall i | 0 <= i < |b.entries|
      ensures CodeNet(b'.accounts, org, code)(b.entries[i]) == CodeNet(b.accounts, org, code)(b.entries[i])
    {
      assert EntryInOrder(b, b.entries[i]);
    }
  }

  lemma TxnNetStays(b: Books, b': Books, txn: nat, o: string, c: string)
    requires WellFormed(b) && Extends(b, b') && txn < |b.txns|
    ensures Sum(b'.entries, TxnCodeNet(b'.accounts, txn, o, c)) == Sum(b.entries, TxnCodeNet(b.accounts, txn, o, c))
  {
    var rest := b'.entries[|b.entries|..];
    assert b'.entries == b.entries + rest;
    Concat(b.entries, rest, TxnCodeNet(b'.accounts, txn, o, c));
    Zero(rest, TxnCodeNet(b'.accounts, txn, o, c));
    OldEntriesKeepCode(b, b', o, c);
    SameWeights(b.entries, TxnCodeNet(b'.accounts, txn, o, c), TxnCodeNet(b.accounts, txn, o, c));
  }

  lemma LinkStays(b: Books, b': Books, ob: Obligation)
    requires WellFormed(b) && Extends(b, b') && Linked(b, ob)
    ensures Linked(b', ob)
  {
    if ob.status == HELD || ob.status == POSTED {
      var t := ob.ledgerTxn.value;
      forall o, c
        ensures Sum(b'.entries, TxnCodeNet(b'.accounts, t, o, c)) == if o == ob.org then LinkEffects(ob)(c) else 0
      {
        TxnNetStays(b, b', t, o, c);
      }
      assert TxnMoves(b', t, ob.org, LinkEffects(ob));
    }
  }

  /** The new transaction of a successful posting carries the posting's whole effect. */
  lemma NewTxnMoves(b: Books, r: Outcome, org: string, key: string, reference: string, effect: string -> int)
    requires WellFormed(b) && JustPosted(b, r, org, key, reference) && Moves(b, r.books, org, effect)
    ensures Extends(b, r.books)
    ensures TxnMoves(r.books, |b.txns|, org, effect)
  {
    var b', t := r.books, |b.txns|;
    var rest := b'.entries[|b.entries|..];
    assert b'.entries == b.entries + rest;
    forall o, c
      ensures Sum(b'.entries, TxnCodeNet(b'.accounts, t, o, c)) == if o == org then effect(c) else 0
    {
      var net, mine := CodeNet(b'.accounts, o, c), TxnCodeNet(b'.accounts, t, o, c);
      Concat(b.entries, rest, net);
      Concat(b.entries, rest, mine);
      SameWeights(rest, net, mine);
      OldEntriesKeepCode(b, b', o, c);
      SameWeights(b.entries, net, CodeNet(b.accounts, o, c));
      assert forall i :: 0 <= i < |b.entries| ==> EntryInOrder(b, b.entries[i]);
      Zero(b.entries, mine);
      assert NetOn(b', o, c) == NetOn(b, o, c) + if o == org then effect(c) else 0;
    }
  }

  function Negated(effect: string -> int): string -> int {
    (c: string) => -effect(c)
  }

  lemma {:induction false} OppositeOnCode(accounts: seq<Account>, lines: seq<Line>, o: string, c: string)
    ensures Sum(OppositeLines(lines), CodeLine(accounts, o, c)) == -Sum(lines, CodeLine(accounts, o, c))
  {
    if lines != [] {
      var n := |lines| - 1;
      assert OppositeLines(lines)[..n] == OppositeLines(lines[..n]);
      OppositeOnCode(accounts, lines[..n], o, c);
    }
  }

  /** Reversing a transaction takes its effect back from every account. */
  lemma ReverseMovesBack(b: Books, org: string, txn: nat, now: int, effect: string -> int)
    requires WellFormed(b) && txn < |b.txns| && b.txns[txn].org == org
    requires TxnMoves(b, txn, org, effect)
    ensures var r := Reverse(b, org, txn, now);
            && r.result == Ledger.Result.Ok(|b.txns|)
            && WellFormed(r.books) && Extends(b, r.books)
            && Moves(b, r.books, org, Negated(effect))
  {
    ReversalAlwaysPosts(b, org, txn, now);
    ReverseKeepsBooks(b, org, txn, now);
    var original := LinesOf(b.entries, txn);
    var lines := OppositeLines(original);
    var b' := Reverse(b, org, txn, now).books;
    forall o, c
      ensures NetOn(b', o, c) == NetOn(b, o, c) + if o == org then Negated(effect)(c) else 0
    {
      PostMovesCode(b, org, None, Original(txn), lines, now, o, c);
      OppositeOnCode(b.accounts, original, o, c);
      LinesWeigh(b.entries, txn, CodeLine(b.accounts, o, c), TxnCodeNet(b.accounts, txn, o, c));
    }
    assert Moves(b, b', org, Negated(effect));
  }

  // ---------------------------------------------------------------- keeping the books conserved

  function Effects(ob: Obligation): string -> int {
    (c: string) => Effect(ob, c)
  }

  function EffectChange(before: Obligation, after: Obligation): string -> int {
    (c: string) => Effect(after, c) - Effect(before, c)
  }

  lemma SameMove(b: Books, b': Books, org: string, f: string -> int, g: string -> int)
    requires Moves(b, b', org, f) && forall c :: f(c) == g(c)
    ensures Moves(b, b', org, g)
  {
  }

  lemma OnlyOpensConserves(base: Books, w: World, b': Books)
    requires Conserved(base, w) && OnlyOpens(w.books, b')
    ensures Conserved(base, w.(books := b'))
  {
    forall i | 0 <= i < |w.obligations|
      ensures Linked(b', w.obligations[i])
    {
      LinkStays(w.books, b', w.obligations[i]);
    }
  }

  lemma RecordConserves(base: Books, w: World, w': World, ob: Obligation)
    requires Conserved(base, w)
    requires w'.obligations == w.obligations + [ob]
    requires WellFormed(w'.books) && Extends(w.books, w'.books) && Linked(w'.books, ob)
    requires Moves(w.books, w'.books, ob.org, Effects(ob))
    ensures Conserved(base, w')
  {
    forall i | 0 <= i < |w'.obligations|
      ensures Linked(w'.books, w'.obligations[i])
    {
      if i < |w.obligations| {
        LinkStays(w.books, w'.books, w.obligations[i]);
      }
    }
    forall o, c
      ensures NetOn(w'.books, o, c) == NetOn(base, o, c) + Sum(w'.obligations, EffectOn(o, c))
    {
      Append(w.obligations, ob, EffectOn(o, c));
      assert NetOn(w.books, o, c) == NetOn(base, o, c) + Sum(w.obligations, EffectOn(o, c));
      assert NetOn(w'.books, o, c) == NetOn(w.books, o, c) + if o == ob.org then Effects(ob)(c) else 0;
    }
  }

  lemma RewriteConserves(base: Books, w: World, w': World, id: nat, ob: Obligation)
    requires Conserved(base, w) && id < |w.obligations| && ob.org == w.obligations[id].org
    requires w'.obligations == w.obligations[id := ob]
    requires WellFormed(w'.books) && Extends(w.books, w'.books) && Linked(w'.books, ob)
    requires Moves(w.books, w'.books, ob.org, EffectChange(w.obligations[id], ob))
    ensures Conserved(base, w')
  {
    forall i | 0 <= i < |w'.obligations|
      ensures Linked(w'.books, w'.obligations[i])
    {
      if i != id {
        LinkStays(w.books, w'.books, w.obligations[i]);
      }
    }
    forall o, c
      ensures NetOn(w'.books, o, c) == NetOn(base, o, c) + Sum(w'.obligations, EffectOn(o, c))
    {
      Update(w.obligations, id, ob, EffectOn(o, c));
      assert NetOn(w.books, o, c) == NetOn(base, o, c) + Sum(w.obligations, EffectOn(o, c));
      assert NetOn(w'.books, o, c) == NetOn(w.books, o, c) + if o == ob.org then EffectChange(w.obligations[id], ob)(c) else 0;
    }
  }

  /** The ledger takes the posting of a fresh hold. */
  predicate HoldTaken(req: Request) {
    0 < req.gross < AMOUNT_LIMIT && Fileable(req.key, req.eventId)
  }

  /** The ledger takes the posting of a fresh allow. */
  predicate AllowTaken(req: Request) {
    && Compute(req.gross, req.splits).Ok? && Payable(req.gross, Compute(req.gross, req.splits).value)
    && Fileable(req.key, req.eventId)
  }

  /** The ledger takes the posting of a release of this row under a fresh key. */
  predicate ReleaseTaken(row: Obligation, releaseKey: string) {
    && Compute(row.gross, row.splits).Ok? && Payable(row.gross, PayoutsOf(row))
    && Fileable(releaseKey + "-release", row.eventId + "-release")
  }

  lemma HoldConserves(base: Books, w: World, req: Request, now: int)
    requires Conserved(base, w) && Unseen(w.books, req.key)
    ensures CreateHeld(w, req, now).reply.Done? <==> HoldTaken(req) && RowFits(req)
    ensures (HoldTaken(req) ==> RowFits(req)) ==> Conserved(base, CreateHeld(w, req, now).world)
  {
    var r := PostHold(w.books, req.org, req.key, req.eventId, req.gross, now);
    PostHoldEffect(w.books, req.org, req.key, req.eventId, req.gross, now);
    if r.result.Err? {
      OnlyOpensConserves(base, w, r.books);
    } else if RowFits(req) {
      NewTxnMoves(w.books, r, req.org, req.key, req.eventId, HoldEffects(req.gross));
      var ob := Obligation(req.org, req.eventId, req.key, req.requestHash, req.gross, req.splits, HELD, Some(r.result.value), false);
      SameMove(w.books, r.books, req.org, HoldEffects(req.gross), Effects(ob));
      RecordConserves(base, w, CreateHeld(w, req, now).world, ob);
    }
  }

  lemma AllowConserves(base: Books, w: World, req: Request, now: int)
    requires Conserved(base, w) && Unseen(w.books, req.key)
    ensures CreateAllowed(w, req, now).reply.Done? <==> AllowTaken(req) && RowFits(req)
    ensures (AllowTaken(req) ==> RowFits(req)) ==> Conserved(base, CreateAllowed(w, req, now).world)
  {
    if Compute(req.gross, req.splits).Ok? {
      var payouts := Compute(req.gross, req.splits).value;
      var r := PostAllow(w.books, req.org, req.key, req.eventId, req.gross, payouts, now);
      PostSplitEffect(w.books, req.org, req.key, req.eventId, EXPENSE_CODE, req.gross, payouts, now);
      if r.result.Err? {
        OnlyOpensConserves(base, w, r.books);
      } else if RowFits(req) {
        var effect := SplitEffects(EXPENSE_CODE, req.gross, payouts);
        NewTxnMoves(w.books, r, req.org, req.key, req.eventId, effect);
        var ob := Obligation(req.org, req.eventId, req.key, req.requestHash, req.gross, req.splits, POSTED, Some(r.result.value), false);
        SameMove(w.books, r.books, req.org, effect, Effects(ob));
        RecordConserves(base, w, CreateAllowed(w, req, now).world, ob);
      }
    }
  }

  lemma ReleaseRowConserves(base: Books, w: World, id: nat, releaseKey: string, now: int)
    requires Conserved(base, w) && id < |w.obligations| && w.obligations[id].status == HELD
    requires Compute(w.obligations[id].gross, w.obligations[id].splits).Ok? ==> Unseen(w.books, releaseKey + "-release")
    ensures var row := w.obligations[id];
            && Conserved(base, ReleaseRow(w, id, releaseKey, now).world)
            && (ReleaseRow(w, id, releaseKey, now).reply.Done? <==> ReleaseTaken(row, releaseKey))
  {
    var row := w.obligations[id];
    if Compute(row.gross, row.splits).Ok? {
      var payouts := PayoutsOf(row);
      var r := PostRelease(w.books, row.org, releaseKey, row.eventId, row.gross, payouts, now);
      PostSplitEffect(w.books, row.org, releaseKey + "-release", row.eventId + "-release", HELD_CODE, row.gross, payouts, now);
      if r.result.Err? {
        OnlyOpensConserves(base, w, r.books);
      } else {
        ReleasePostedConserves(base, w, id, r, releaseKey);
      }
    }
  }

  /** A release keeps ledger and obligations in step, and under a fresh key it is carried out on
      a held obligation exactly when the split computes and is payable and the ledger can store
      its key and its reference. */
  lemma ReleaseConserves(base: Books, w: World, eventId: string, releaseKey: string, now: int)
    requires Conserved(base, w) && !ReusesLedgerKey(w, ReleaseCall(eventId, releaseKey, now))
    ensures Conserved(base, Release(w, eventId, releaseKey, now).world)
    ensures var found := FindByEvent(w.obligations, eventId);
            found.Some? && w.obligations[found.value].status == HELD ==>
              (Release(w, eventId, releaseKey, now).reply.Done? <==> ReleaseTaken(w.obligations[found.value], releaseKey))
  {
    var found := FindByEvent(w.obligations, eventId);
    if found.Some? && w.obligations[found.value].status == HELD {
      ReleaseRowConserves(base, w, found.value, releaseKey, now);
    }
  }

  lemma LongOwnerRow(w: World, id: nat, releaseKey: string, now: int)
    requires WellFormed(w.books) && id < |w.obligations| && !OwnersFit(PayoutsOf(w.obligations[id]))
    ensures ReleaseRow(w, id, releaseKey, now).reply.Failed? && ReleaseRow(w, id, releaseKey, now).world.obligations == w.obligations
  {
    var row := w.obligations[id];
    LongOwnerNeverPosts(w.books, row.org, releaseKey + "-release", row.eventId + "-release", HELD_CODE, row.gross, PayoutsOf(row), now);
  }

  /** An owner id too long for an account code: the royalty can be held, and no release under any
      key ever goes through. */
  lemma LongOwnerIsNeverReleased(w: World, eventId: string, releaseKey: string, now: int)
    requires WellFormed(w.books) && FindByEvent(w.obligations, eventId).Some?
    requires var row := w.obligations[FindByEvent(w.obligations, eventId).value];
             row.status == HELD && !OwnersFit(PayoutsOf(row))
    ensures Release(w, eventId, releaseKey, now).reply.Failed?
    ensures Release(w, eventId, releaseKey, now).world.obligations == w.obligations
  {
    LongOwnerRow(w, FindByEvent(w.obligations, eventId).value, releaseKey, now);
  }

  /** An event id too long for the reference of its release, which is eight characters longer: the
      royalty can be held or allowed, and no release ever goes through, except as the repetition of
      a response that the ledger still keeps under the key. */
  lemma LongEventIsNeverReleased(w: World, eventId: string, releaseKey: string, now: int)
    requires FindByEvent(w.obligations, eventId).Some? && |eventId| > MAX_REFERENCE - 8
    requires w.obligations[FindByEvent(w.obligations, eventId).value].status == HELD
    requires !Replays(w.books, Some(releaseKey + "-release"), now)
    ensures Release(w, eventId, releaseKey, now).reply.Failed?
    ensures Release(w, eventId, releaseKey, now).world.obligations == w.obligations
  {
    UnfileableRow(w, FindByEvent(w.obligations, eventId).value, releaseKey, now);
  }

  lemma UnfileableRow(w: World, id: nat, releaseKey: string, now: int)
    requires id < |w.obligations| && !Replays(w.books, Some(releaseKey + "-release"), now)
    requires !Fileable(releaseKey + "-release", w.obligations[id].eventId + "-release")
    ensures ReleaseRow(w, id, releaseKey, now).reply.Failed? && ReleaseRow(w, id, releaseKey, now).world.obligations == w.obligations
  {
    var row := w.obligations[id];
    UnfileableNeverPosts(w.books, row.org, releaseKey + "-release", row.eventId + "-release", HELD_CODE, row.gross, PayoutsOf(row), now);
  }

  /** Such an event: its hold is recorded, and every release of it then fails. */
  lemma LongEventIsHeldForGood(base: Books, w: World, req: Request, now: int, releaseKey: string, later: int)
    requires Conserved(base, w) && Unseen(w.books, req.key) && FindByKey(w.obligations, req.key).None?
    requires FindByEvent(w.obligations, req.eventId).None? && req.decision == Hold && HoldTaken(req) && RowFits(req)
    requires |req.eventId| > MAX_REFERENCE - 8 && !Replays(w.books, Some(releaseKey + "-release"), later) && releaseKey + "-release" != req.key
    ensures var held := Create(w, req, now);
            && held.reply == Done(|w.obligations|) && held.world.obligations[|w.obligations|].status == HELD
            && Release(held.world, req.eventId, releaseKey, later).reply.Failed?
            && Release(held.world, req.eventId, releaseKey, later).world.obligations == held.world.obligations
  {
    HoldConserves(base, w, req, now);
    PostHoldEffect(w.books, req.org, req.key, req.eventId, req.gross, now);
    var held := Create(w, req, now).world;
    assert held.obligations[..|w.obligations|] == w.obligations;
    assert FindByEvent(held.obligations, req.eventId) == Some(|w.obligations|);
    LongEventIsNeverReleased(held, req.eventId, releaseKey, later);
  }

  lemma ReleasePostedConserves(base: Books, w: World, id: nat, r: Outcome, releaseKey: string)
    requires Conserved(base, w) && id < |w.obligations| && w.obligations[id].status == HELD
    requires AllPaid(PayoutsOf(w.obligations[id]))
    requires var row := w.obligations[id];
             Settles(w.books, r, row.org, releaseKey + "-release", row.eventId + "-release", true, SplitEffects(HELD_CODE, row.gross, PayoutsOf(row)))
    ensures Conserved(base, MarkReleased(w.(books := r.books), id, |w.books.txns|, PayoutsOf(w.obligations[id])).world)
  {
    var row := w.obligations[id];
    var effect := SplitEffects(HELD_CODE, row.gross, PayoutsOf(row));
    NewTxnMoves(w.books, r, row.org, releaseKey + "-release", row.eventId + "-release", effect);
    var ob := row.(status := POSTED, ledgerTxn := Some(|w.books.txns|), viaRelease := true);
    SameMove(w.books, r.books, row.org, effect, EffectChange(row, ob));
    RewriteConserves(base, w, MarkReleased(w.(books := r.books), id, |w.books.txns|, PayoutsOf(row)).world, id, ob);
  }

  /** The reversal gets as far as the ledger. */
  predicate ReachesReversal(w: World, eventId: string, reversalKey: string) {
    var found := FindByEvent(w.obligations, eventId);
    FindReversal(w.reversals, reversalKey).None? && found.Some?
    && w.obligations[found.value].status != REVERSED && w.obligations[found.value].ledgerTxn.Some?
  }

  lemma ReverseConserves(base: Books, w: World, eventId: string, reversalEvent: string, reversalKey: string, now: int)
    requires Conserved(base, w)
    requires ReachesReversal(w, eventId, reversalKey) ==> ReversalFits(reversalEvent, reversalKey)
    ensures Conserved(base, ReverseObligation(w, eventId, reversalEvent, reversalKey, now).world)
  {
    var found := FindByEvent(w.obligations, eventId);
    if FindReversal(w.reversals, reversalKey).None? && found.Some? {
      var row := w.obligations[found.value];
      assert Linked(w.books, row);
      if row.status == HELD || row.status == POSTED {
        ReverseMovesBack(w.books, row.org, row.ledgerTxn.value, now, LinkEffects(row));
        var ob := row.(status := REVERSED);
        var b' := Reverse(w.books, row.org, row.ledgerTxn.value, now).books;
        SameMove(w.books, b', row.org, Negated(LinkEffects(row)), EffectChange(row, ob));
        RewriteConserves(base, w, ReverseObligation(w, eventId, reversalEvent, reversalKey, now).world, found.value, ob);
      }
    }
  }

  // ---------------------------------------------------------------- runs

  datatype Call =
    | CreateCall(req: Request, now: int)
    | ReleaseCall(eventId: string, releaseKey: string, now: int)
    | ReverseCall(eventId: string, reversalEvent: string, reversalKey: string, now: int)

  function Serve(w: World, call: Call): World {
    match call
    case CreateCall(req, now) => Create(w, req, now).world
    case ReleaseCall(eventId, releaseKey, now) => Release(w, eventId, releaseKey, now).world
    case ReverseCall(eventId, reversalEvent, reversalKey, now) => ReverseObligation(w, eventId, reversalEvent, reversalKey, now).world
  }

  /** The key under which the call has the ledger post, if it gets that far. */
  function LedgerKey(w: World, call: Call): Option<string> {
    match call
    case CreateCall(req, _) =>
      if FindByKey(w.obligations, req.key).None? && (req.decision == Hold || (req.decision == Allow && Compute(req.gross, req.splits).Ok?))
      then Some(req.key) else None
    case ReleaseCall(eventId, releaseKey, _) =>
      var found := FindByEvent(w.obligations, eventId);
      if found.Some? && w.obligations[found.value].status == HELD && Compute(w.obligations[found.value].gross, w.obligations[found.value].splits).Ok?
      then Some(releaseKey + "-release") else None
    case ReverseCall(_, _, _, _) => None
  }

  /** The call has the ledger post under a key that the ledger has already seen. */
  predicate ReusesLedgerKey(w: World, call: Call) {
    LedgerKey(w, call).Some? && !Unseen(w.books, LedgerKey(w, call).value)
  }

  /** The call has the ledger post for a row that the service's own tables then refuse. */
  predicate Outgrows(w: World, call: Call) {
    match call
    case CreateCall(req, _) =>
      && FindByKey(w.obligations, req.key).None? && !RowFits(req)
      && ((req.decision == Hold && HoldTaken(req)) || (req.decision == Allow && AllowTaken(req)))
    case ReleaseCall(_, _, _) => false
    case ReverseCall(eventId, reversalEvent, reversalKey, _) =>
      ReachesReversal(w, eventId, reversalKey) && !ReversalFits(reversalEvent, reversalKey)
  }

  function ServeAll(w: World, calls: seq<Call>): World {
    if calls == [] then w else Serve(ServeAll(w, calls[..|calls| - 1]), calls[|calls| - 1])
  }

  predicate NoneReusesLedgerKey(w: World, calls: seq<Call>) {
    forall n :: 0 <= n < |calls| ==> !ReusesLedgerKey(ServeAll(w, calls[..n]), calls[n])
  }

  predicate NoneOutgrows(w: World, calls: seq<Call>) {
    forall n :: 0 <= n < |calls| ==> !Outgrows(ServeAll(w, calls[..n]), calls[n])
  }

  lemma ServeConserves(base: Books, w: World, call: Call)
    requires Conserved(base, w) && !ReusesLedgerKey(w, call) && !Outgrows(w, call)
    ensures Conserved(base, Serve(w, call))
  {
    match call
    case CreateCall(req, now) =>
      if FindByKey(w.obligations, req.key).None? {
        match req.decision
        case Block =>
          if RowFits(req) {
            var ob := Obligation(req.org, req.eventId, req.key, req.requestHash, req.gross, req.splits, BLOCKED, None, false);
            assert Moves(w.books, w.books, req.org, Effects(ob));
            RecordConserves(base, w, Serve(w, call), ob);
          }
        case Hold => HoldConserves(base, w, req, now);
        case Allow =>
          if Compute(req.gross, req.splits).Ok? {
            AllowConserves(base, w, req, now);
          }
      }
    case ReleaseCall(eventId, releaseKey, now) => ReleaseConserves(base, w, eventId, releaseKey, now);
    case ReverseCall(eventId, reversalEvent, reversalKey, now) => ReverseConserves(base, w, eventId, reversalEvent, reversalKey, now);
  }

  /** Over any run of creates, releases and reversals, served or refused, every account of every
      organization carries exactly the effects of the obligations on record: holding and
      releasing is allowing, reversing an allowed or a still-held obligation leaves nothing, and
      reversing a released one leaves its hold. */
  lemma {:induction false} LedgerMatchesObligations(base: Books, calls: seq<Call>)
    requires WellFormed(base)
    requires NoneReusesLedgerKey(World(base, [], [], []), calls) && NoneOutgrows(World(base, [], [], []), calls)
    ensures Conserved(base, ServeAll(World(base, [], [], []), calls))
  {
    var start := World(base, [], [], []);
    if calls != [] {
      var n := |calls| - 1;
      assert forall m :: 0 <= m < n ==> calls[..n][..m] == calls[..m] && calls[..n][m] == calls[m];
      LedgerMatchesObligations(base, calls[..n]);
      assert !ReusesLedgerKey(ServeAll(start, calls[..n]), calls[n]) && !Outgrows(ServeAll(start, calls[..n]), calls[n]);
      ServeConserves(base, ServeAll(start, calls[..n]), calls[n]);
    }
  }

  // ---------------------------------------------------------------- reused keys, crashes and retries

  /** Why the run theorem leaves reused keys out: an obligation recorded while the ledger merely
      replays an older response moves no account at all. */
  ghost predicate NoEffect(effect: string -> int) {
    forall c :: effect(c) == 0
  }

  lemma OpenedMovesNothing(b: Books, b': Books, org: string, effect: string -> int)
    requires OnlyOpens(b, b')
    ensures Moves(b, b', org, effect) <==> NoEffect(effect)
  {
    if Moves(b, b', org, effect) {
      forall c
        ensures effect(c) == 0
      {
        assert NetOn(b', org, c) == NetOn(b, org, c) + effect(c);
      }
    }
  }

  /** In well-formed books a posting that succeeds under a seen key is a replay. */
  lemma SeenKeyReplays(b: Books, org: string, key: string, reference: Reference, lines: seq<Line>, now: int)
    requires WellFormed(b) && !Unseen(b, key) && Post(b, org, Some(key), reference, lines, now).result.Ok?
    ensures Post(b, org, Some(key), reference, lines, now).books == b
  {
  }

  /** A split that the ledger accepts has its effect exactly when its key was unseen, or when the
      effect is nothing, as when every payout goes to the debited account. */
  lemma SplitMovesExactlyWhenUnseen(b: Books, org: string, key: string, reference: string, debitCode: string, gross: int, payouts: seq<Payout>, now: int)
    requires WellFormed(b) && CodeFits(debitCode) && PostSplit(b, org, key, reference, debitCode, gross, payouts, now).result.Ok?
    ensures var (b', effect) := (PostSplit(b, org, key, reference, debitCode, gross, payouts, now).books, SplitEffects(debitCode, gross, payouts));
            && (Moves(b, b', org, effect) <==> Unseen(b, key) || NoEffect(effect))
            && (!Unseen(b, key) ==> OnlyOpens(b, b'))
  {
    if Unseen(b, key) {
      PostSplitEffect(b, org, key, reference, debitCode, gross, payouts, now);
    } else {
      var debit := Ensure(b, org, debitCode);
      EnsureOpens(b, org, debitCode);
      var owners := EnsureOwners(debit.books, org, payouts);
      EnsureOwnersOpens(debit.books, org, payouts);
      OpensFurther(b, debit.books, owners.books);
      SeenKeyReplays(owners.books, org, key, Text(reference), SplitLines(debit.result.value, gross, owners.result.value, payouts), now);
      OpenedMovesNothing(b, owners.books, org, SplitEffects(debitCode, gross, payouts));
    }
  }

  lemma HoldPostingMovesExactlyWhenUnseen(b: Books, org: string, key: string, event: string, gross: int, now: int)
    requires WellFormed(b) && gross > 0 && PostHold(b, org, key, event, gross, now).result.Ok?
    ensures var b' := PostHold(b, org, key, event, gross, now).books;
            && (Moves(b, b', org, HoldEffects(gross)) <==> Unseen(b, key))
            && (!Unseen(b, key) ==> OnlyOpens(b, b'))
  {
    if Unseen(b, key) {
      PostHoldEffect(b, org, key, event, gross, now);
    } else {
      var expense := Ensure(b, org, EXPENSE_CODE);
      EnsureOpens(b, org, EXPENSE_CODE);
      var held := Ensure(expense.books, org, HELD_CODE);
      EnsureOpens(expense.books, org, HELD_CODE);
      OpensFurther(b, expense.books, held.books);
      SeenKeyReplays(held.books, org, key, Text(event), HoldLines(expense.result.value, held.result.value, gross), now);
      OpenedMovesNothing(b, held.books, org, HoldEffects(gross));
      assert HoldEffects(gross)(EXPENSE_CODE) != 0;
    }
  }

  /** A recorded hold has its effect on the ledger exactly when the ledger had not seen its key. */
  lemma HoldMovesExactlyWhenUnseen(w: World, req: Request, now: int)
    requires WellFormed(w.books) && FindByKey(w.obligations, req.key).None? && req.decision == Hold
    requires Create(w, req, now).reply.Done?
    ensures Moves(w.books, Create(w, req, now).world.books, req.org, HoldEffects(req.gross)) <==> Unseen(w.books, req.key)
  {
    HoldPostingMovesExactlyWhenUnseen(w.books, req.org, req.key, req.eventId, req.gross, now);
  }

  /** So does a recorded allow, unless its effect is nothing anyway. */
  lemma AllowMovesExactlyWhenUnseen(w: World, req: Request, now: int)
    requires WellFormed(w.books) && FindByKey(w.obligations, req.key).None? && req.decision == Allow
    requires Create(w, req, now).reply.Done?
    ensures var effect := SplitEffects(EXPENSE_CODE, req.gross, Compute(req.gross, req.splits).value);
            Moves(w.books, Create(w, req, now).world.books, req.org, effect) <==> Unseen(w.books, req.key) || NoEffect(effect)
  {
    SplitMovesExactlyWhenUnseen(w.books, req.org, req.key, req.eventId, EXPENSE_CODE, req.gross, Compute(req.gross, req.splits).value, now);
  }

  /** And a release that is carried out: a held obligation becomes posted and the ledger moves
      exactly when the release key was unseen, unless the effect is nothing anyway. */
  lemma ReleaseMovesExactlyWhenUnseen(w: World, eventId: string, releaseKey: string, now: int)
    requires WellFormed(w.books) && LedgerKey(w, ReleaseCall(eventId, releaseKey, now)).Some?
    requires Release(w, eventId, releaseKey, now).reply.Done?
    ensures var row := w.obligations[FindByEvent(w.obligations, eventId).value];
            var effect := SplitEffects(HELD_CODE, row.gross, PayoutsOf(row));
            && (Moves(w.books, Release(w, eventId, releaseKey, now).world.books, row.org, effect)
                <==> Unseen(w.books, releaseKey + "-release") || NoEffect(effect))
            && (!Unseen(w.books, releaseKey + "-release") ==> OnlyOpens(w.books, Release(w, eventId, releaseKey, now).world.books))
  {
    var row := w.obligations[FindByEvent(w.obligations, eventId).value];
    SplitMovesExactlyWhenUnseen(w.books, row.org, releaseKey + "-release", row.eventId + "-release", HELD_CODE, row.gross, PayoutsOf(row), now);
  }

  lemma UnmovedRewrite(base: Books, w: World, w': World, id: nat, ob: Obligation)
    requires NetsMatch(base, w) && id < |w.obligations| && ob.org == w.obligations[id].org
    requires w'.obligations == w.obligations[id := ob] && OnlyOpens(w.books, w'.books)
    ensures NetsMatch(base, w') <==> NoEffect(EffectChange(w.obligations[id], ob))
  {
    var change := EffectChange(w.obligations[id], ob);
    forall o, c
      ensures NetOn(w'.books, o, c) == NetOn(base, o, c) + Sum(w'.obligations, EffectOn(o, c)) - if o == ob.org then change(c) else 0
    {
      Update(w.obligations, id, ob, EffectOn(o, c));
      assert NetOn(w'.books, o, c) == NetOn(w.books, o, c);
    }
    if NetsMatch(base, w') {
      forall c
        ensures change(c) == 0
      {
        assert NetOn(w'.books, ob.org, c) == NetOn(base, ob.org, c) + Sum(w'.obligations, EffectOn(ob.org, c));
      }
    }
  }

  lemma UnmovedRecord(base: Books, w: World, w': World, ob: Obligation)
    requires NetsMatch(base, w) && w'.obligations == w.obligations + [ob] && OnlyOpens(w.books, w'.books)
    ensures NetsMatch(base, w') <==> NoEffect(Effects(ob))
  {
    var effect := Effects(ob);
    forall o, c
      ensures NetOn(w'.books, o, c) == NetOn(base, o, c) + Sum(w'.obligations, EffectOn(o, c)) - if o == ob.org then effect(c) else 0
    {
      Append(w.obligations, ob, EffectOn(o, c));
      assert NetOn(w'.books, o, c) == NetOn(w.books, o, c);
    }
    if NetsMatch(base, w') {
      forall c
        ensures effect(c) == 0
      {
        assert NetOn(w'.books, ob.org, c) == NetOn(base, ob.org, c) + Sum(w'.obligations, EffectOn(ob.org, c));
      }
    }
  }

  lemma SameEffects(f: string -> int, g: string -> int)
    requires forall c :: f(c) == g(c)
    ensures NoEffect(f) <==> NoEffect(g)
  {
    if NoEffect(f) {
      forall c
        ensures g(c) == 0
      {
        assert f(c) == 0;
      }
    }
    if NoEffect(g) {
      forall c
        ensures f(c) == 0
      {
        assert g(c) == 0;
      }
    }
  }

  lemma ReleaseChange(row: Obligation, txn: Option<nat>)
    requires row.status == HELD
    ensures NoEffect(EffectChange(row, row.(status := POSTED, ledgerTxn := txn, viaRelease := true)))
            <==> NoEffect(SplitEffects(HELD_CODE, row.gross, PayoutsOf(row)))
  {
    SameEffects(EffectChange(row, row.(status := POSTED, ledgerTxn := txn, viaRelease := true)), SplitEffects(HELD_CODE, row.gross, PayoutsOf(row)));
  }

  lemma UnmovedRelease(base: Books, w: World, id: nat, posted: Outcome, payouts: seq<Payout>)
    requires NetsMatch(base, w) && id < |w.obligations| && w.obligations[id].status == HELD && OnlyOpens(w.books, posted.books)
    requires AfterPosting(w, id, posted, payouts).reply.Done?
    ensures var row := w.obligations[id];
            NetsMatch(base, AfterPosting(w, id, posted, payouts).world) <==> NoEffect(SplitEffects(HELD_CODE, row.gross, PayoutsOf(row)))
  {
    var row, txn := w.obligations[id], Some(posted.result.value);
    UnmovedRewrite(base, w, AfterPosting(w, id, posted, payouts).world, id, row.(status := POSTED, ledgerTxn := txn, viaRelease := true));
    ReleaseChange(row, txn);
  }

  lemma SeenSplitOpensOnly(b: Books, org: string, key: string, reference: string, debitCode: string, gross: int, payouts: seq<Payout>, now: int)
    requires WellFormed(b) && CodeFits(debitCode) && !Unseen(b, key) && PostSplit(b, org, key, reference, debitCode, gross, payouts, now).result.Ok?
    ensures OnlyOpens(b, PostSplit(b, org, key, reference, debitCode, gross, payouts, now).books)
  {
    SplitMovesExactlyWhenUnseen(b, org, key, reference, debitCode, gross, payouts, now);
  }

  lemma ReusedReleaseRowBreaks(base: Books, w: World, id: nat, releaseKey: string, now: int)
    requires Conserved(base, w) && id < |w.obligations| && w.obligations[id].status == HELD
    requires !Unseen(w.books, releaseKey + "-release") && ReleaseRow(w, id, releaseKey, now).reply.Done?
    ensures var row := w.obligations[id];
            NetsMatch(base, ReleaseRow(w, id, releaseKey, now).world) <==> NoEffect(SplitEffects(HELD_CODE, row.gross, PayoutsOf(row)))
  {
    var row := w.obligations[id];
    var posted := PostRelease(w.books, row.org, releaseKey, row.eventId, row.gross, PayoutsOf(row), now);
    SeenSplitOpensOnly(w.books, row.org, releaseKey + "-release", row.eventId + "-release", HELD_CODE, row.gross, PayoutsOf(row), now);
    UnmovedRelease(base, w, id, posted, PayoutsOf(row));
  }

  /** So a release under a seen key leaves ledger and obligations at odds, whenever it matters. */
  lemma ReusedReleaseKeyBreaks(base: Books, w: World, eventId: string, releaseKey: string, now: int)
    requires Conserved(base, w) && ReusesLedgerKey(w, ReleaseCall(eventId, releaseKey, now))
    requires Release(w, eventId, releaseKey, now).reply.Done?
    ensures var row := w.obligations[FindByEvent(w.obligations, eventId).value];
            NetsMatch(base, Release(w, eventId, releaseKey, now).world) <==> NoEffect(SplitEffects(HELD_CODE, row.gross, PayoutsOf(row)))
  {
    ReusedReleaseRowBreaks(base, w, FindByEvent(w.obligations, eventId).value, releaseKey, now);
  }

  /** And so does a create; a hold always matters. */
  lemma ReusedCreateKeyBreaks(base: Books, w: World, req: Request, now: int)
    requires Conserved(base, w) && ReusesLedgerKey(w, CreateCall(req, now)) && Create(w, req, now).reply.Done?
    ensures NetsMatch(base, Create(w, req, now).world) <==>
            req.decision == Allow && NoEffect(SplitEffects(EXPENSE_CODE, req.gross, Compute(req.gross, req.splits).value))
  {
    var w' := Create(w, req, now).world;
    var ob := w'.obligations[|w.obligations|];
    if req.decision == Hold {
      HoldPostingMovesExactlyWhenUnseen(w.books, req.org, req.key, req.eventId, req.gross, now);
      UnmovedRecord(base, w, w', ob);
      assert Effects(ob)(EXPENSE_CODE) != 0;
    } else {
      var effect := SplitEffects(EXPENSE_CODE, req.gross, Compute(req.gross, req.splits).value);
      SplitMovesExactlyWhenUnseen(w.books, req.org, req.key, req.eventId, EXPENSE_CODE, req.gross, Compute(req.gross, req.splits).value, now);
      UnmovedRecord(base, w, w', ob);
      SameEffects(Effects(ob), effect);
    }
  }

  lemma MovedUnrecorded(base: Books, w: World, w': World, org: string, effect: string -> int)
    requires NetsMatch(base, w) && w'.obligations == w.obligations && Moves(w.books, w'.books, org, effect)
    ensures NetsMatch(base, w') <==> NoEffect(effect)
  {
    forall o, c
      ensures NetOn(w'.books, o, c) == NetOn(base, o, c) + Sum(w'.obligations, EffectOn(o, c)) + if o == org then effect(c) else 0
    {
      assert NetOn(w'.books, o, c) == NetOn(w.books, o, c) + if o == org then effect(c) else 0;
    }
    if NetsMatch(base, w') {
      forall c
        ensures effect(c) == 0
      {
        assert NetOn(w'.books, org, c) == NetOn(base, org, c) + Sum(w'.obligations, EffectOn(org, c));
      }
    }
  }

  /** A create that the ledger takes and the service's own table refuses, for a text that is too
      long, is not recorded and leaves ledger and obligations at odds, whenever it matters. */
  lemma OutgrownCreateBreaks(base: Books, w: World, req: Request, now: int)
    requires Conserved(base, w) && Unseen(w.books, req.key) && Outgrows(w, CreateCall(req, now))
    ensures var w' := Create(w, req, now).world;
            && Create(w, req, now).reply.Failed? && w'.obligations == w.obligations
            && (NetsMatch(base, w') <==>
                  req.decision == Allow && NoEffect(SplitEffects(EXPENSE_CODE, req.gross, Compute(req.gross, req.splits).value)))
  {
    var w' := Create(w, req, now).world;
    if req.decision == Hold {
      PostHoldEffect(w.books, req.org, req.key, req.eventId, req.gross, now);
      MovedUnrecorded(base, w, w', req.org, HoldEffects(req.gross));
      assert HoldEffects(req.gross)(EXPENSE_CODE) != 0;
    } else {
      var payouts := Compute(req.gross, req.splits).value;
      PostSplitEffect(w.books, req.org, req.key, req.eventId, EXPENSE_CODE, req.gross, payouts, now);
      MovedUnrecorded(base, w, w', req.org, SplitEffects(EXPENSE_CODE, req.gross, payouts));
    }
  }

  /** So does a reversal whose event id or key is too long for its row. */
  lemma OutgrownReversalBreaks(base: Books, w: World, eventId: string, reversalEvent: string, reversalKey: string, now: int)
    requires Conserved(base, w) && Outgrows(w, ReverseCall(eventId, reversalEvent, reversalKey, now))
    ensures var r := ReverseObligation(w, eventId, reversalEvent, reversalKey, now);
            && r.reply.Failed? && r.world.obligations == w.obligations
            && (NetsMatch(base, r.world) <==> NoEffect(LinkEffects(w.obligations[FindByEvent(w.obligations, eventId).value])))
  {
    var row := w.obligations[FindByEvent(w.obligations, eventId).value];
    assert Linked(w.books, row);
    ReverseMovesBack(w.books, row.org, row.ledgerTxn.value, now, LinkEffects(row));
    MovedUnrecorded(base, w, ReverseObligation(w, eventId, reversalEvent, reversalKey, now).world, row.org, Negated(LinkEffects(row)));
    if NoEffect(Negated(LinkEffects(row))) {
      forall c
        ensures LinkEffects(row)(c) == 0
      {
        assert Negated(LinkEffects(row))(c) == 0;
      }
    }
  }

  lemma EnsureAgain(b: Books, org: string, code: string)
    requires AccountTaken(b.accounts, org, code)
    ensures Ensure(b, org, code).books == b && Ensure(b, org, code).result.Ok?
  {
  }

  lemma {:induction false} EnsureOwnersAgain(b: Books, org: string, payouts: seq<Payout>)
    requires forall i :: 0 <= i < |payouts| ==> AccountTaken(b.accounts, org, payouts[i].owner)
    ensures EnsureOwners(b, org, payouts).books == b && EnsureOwners(b, org, payouts).result.Ok?
  {
    if payouts != [] {
      var n := |payouts| - 1;
      assert forall i :: 0 <= i < n ==> payouts[..n][i] == payouts[i];
      EnsureOwnersAgain(b, org, payouts[..n]);
    }
  }

  lemma HoldPostedOpensAccounts(b: Books, org: string, key: string, event: string, gross: int, now: int)
    requires WellFormed(b) && Unseen(b, key) && 0 < gross < AMOUNT_LIMIT && Fileable(key, event)
    ensures var after := PostHold(b, org, key, event, gross, now).books;
            && AccountTaken(after.accounts, org, EXPENSE_CODE) && AccountTaken(after.accounts, org, HELD_CODE)
            && key in after.saved && after.saved[key] == Saved(|b.txns|, now + SAVED_SECONDS)
            && |after.txns| == |b.txns| + 1 && after.txns[|b.txns|].key == Some(key)
  {
    EnsureOpens(b, org, EXPENSE_CODE);
    var expense := Ensure(b, org, EXPENSE_CODE);
    EnsureOpens(expense.books, org, HELD_CODE);
    PostHoldEffect(b, org, key, event, gross, now);
    var held := Ensure(expense.books, org, HELD_CODE);
    var after := PostHold(b, org, key, event, gross, now).books;
    assert after.accounts[expense.result.value] == Account(org, EXPENSE_CODE);
    assert after.accounts[held.result.value] == Account(org, HELD_CODE);
  }

  /** A create that crashed between the ledger's posting and its own insert is completed by a
      retry of the same request, to the very state the uninterrupted call would have left, for
      as long as the ledger keeps the response; once that has expired the key is refused and the
      obligation can no longer be recorded under it. */
  lemma CrashedHoldRetry(w: World, req: Request, now: int, later: int)
    requires WellFormed(w.books) && Unseen(w.books, req.key) && FindByKey(w.obligations, req.key).None?
    requires req.decision == Hold && HoldTaken(req)
    ensures var crashed := w.(books := PostHold(w.books, req.org, req.key, req.eventId, req.gross, now).books);
            && (later < now + SAVED_SECONDS ==> Create(crashed, req, later) == Create(w, req, now) && (Create(w, req, now).reply.Done? <==> RowFits(req)))
            && (later >= now + SAVED_SECONDS ==> Create(crashed, req, later) == Step(crashed, Failed(LedgerFailed(DuplicateKey))))
  {
    HoldRetryPosts(w.books, req.org, req.key, req.eventId, req.gross, now, later);
  }

  /** A posting of a hold sent again: the same response while it is kept, then a refusal. */
  lemma HoldRetryPosts(b: Books, org: string, key: string, event: string, gross: int, now: int, later: int)
    requires WellFormed(b) && Unseen(b, key) && 0 < gross < AMOUNT_LIMIT && Fileable(key, event)
    ensures var posted := PostHold(b, org, key, event, gross, now);
            && posted.result.Ok?
            && PostHold(posted.books, org, key, event, gross, later)
               == if later < now + SAVED_SECONDS then posted else Outcome(posted.books, Ledger.Result.Err(DuplicateKey))
  {
    HoldPostedOpensAccounts(b, org, key, event, gross, now);
    PostHoldEffect(b, org, key, event, gross, now);
    var after := PostHold(b, org, key, event, gross, now).books;
    EnsureAgain(after, org, EXPENSE_CODE);
    EnsureAgain(after, org, HELD_CODE);
    var lines := HoldLines(Ensure(after, org, EXPENSE_CODE).result.value, Ensure(after, org, HELD_CODE).result.value, gross);
    Pair(lines[0], lines[1], DebitOf());
    Pair(lines[0], lines[1], CreditOf());
  }

  lemma SplitPostedOpensAccounts(b: Books, org: string, key: string, reference: string, debitCode: string, gross: int, payouts: seq<Payout>, now: int)
    requires WellFormed(b) && Unseen(b, key) && Payable(gross, payouts) && CodeFits(debitCode) && Fileable(key, reference)
    ensures var after := PostSplit(b, org, key, reference, debitCode, gross, payouts, now).books;
            && AccountTaken(after.accounts, org, debitCode)
            && (forall i :: 0 <= i < |payouts| ==> AccountTaken(after.accounts, org, payouts[i].owner))
            && key in after.saved && after.saved[key] == Saved(|b.txns|, now + SAVED_SECONDS)
  {
    PostSplitEffect(b, org, key, reference, debitCode, gross, payouts, now);
    EnsureOpens(b, org, debitCode);
    var debit := Ensure(b, org, debitCode);
    EnsureOwnersOpens(debit.books, org, payouts);
    var owners := EnsureOwners(debit.books, org, payouts);
    var accounts := PostSplit(b, org, key, reference, debitCode, gross, payouts, now).books.accounts;
    assert accounts == owners.books.accounts;
    assert accounts[debit.result.value] == Account(org, debitCode);
    forall i | 0 <= i < |payouts|
      ensures AccountTaken(accounts, org, payouts[i].owner)
    {
      assert accounts[owners.result.value[i]] == Account(org, payouts[i].owner);
    }
  }

  lemma PostSplitAgain(b: Books, org: string, key: string, reference: string, debitCode: string, gross: int, payouts: seq<Payout>, txn: nat, later: int)
    requires AccountTaken(b.accounts, org, debitCode)
    requires forall i :: 0 <= i < |payouts| ==> AccountTaken(b.accounts, org, payouts[i].owner)
    requires key in b.saved && b.saved[key].txn == txn && b.saved[key].expiresAt > later && key != "" && reference != ""
    ensures PostSplit(b, org, key, reference, debitCode, gross, payouts, later) == Outcome(b, Ledger.Result.Ok(txn))
  {
    EnsureAgain(b, org, debitCode);
    EnsureOwnersAgain(b, org, payouts);
  }

  lemma PostSplitTooLate(b: Books, org: string, key: string, reference: string, debitCode: string, gross: int, payouts: seq<Payout>, later: int)
    requires AccountTaken(b.accounts, org, debitCode)
    requires forall i :: 0 <= i < |payouts| ==> AccountTaken(b.accounts, org, payouts[i].owner)
    requires KeyTaken(b.txns, Some(key)) && !Replays(b, Some(key), later) && Payable(gross, payouts) && Fileable(key, reference)
    ensures PostSplit(b, org, key, reference, debitCode, gross, payouts, later) == Outcome(b, Ledger.Result.Err(DuplicateKey))
  {
    EnsureAgain(b, org, debitCode);
    EnsureOwnersAgain(b, org, payouts);
    SplitGate(Ensure(b, org, debitCode).result.value, gross, EnsureOwners(b, org, payouts).result.value, payouts);
  }

  /** A posting of a split sent again: the same response while it is kept, then a refusal, and
      nothing written either way. */
  lemma SplitRetryPosts(b: Books, org: string, key: string, reference: string, debitCode: string, gross: int, payouts: seq<Payout>, now: int, later: int)
    requires WellFormed(b) && Unseen(b, key) && Payable(gross, payouts) && Fileable(key, reference) && CodeFits(debitCode)
    ensures var posted := PostSplit(b, org, key, reference, debitCode, gross, payouts, now);
            && posted.result.Ok?
            && PostSplit(posted.books, org, key, reference, debitCode, gross, payouts, later)
               == if later < now + SAVED_SECONDS then posted else Outcome(posted.books, Ledger.Result.Err(DuplicateKey))
  {
    SplitPostedOpensAccounts(b, org, key, reference, debitCode, gross, payouts, now);
    PostSplitEffect(b, org, key, reference, debitCode, gross, payouts, now);
    var posted := PostSplit(b, org, key, reference, debitCode, gross, payouts, now);
    if later < now + SAVED_SECONDS {
      PostSplitAgain(posted.books, org, key, reference, debitCode, gross, payouts, |b.txns|, later);
    } else {
      assert posted.books.txns[|b.txns|].key == Some(key);
      PostSplitTooLate(posted.books, org, key, reference, debitCode, gross, payouts, later);
    }
  }

  /** The same for a create that was allowed, before the response expires and after. */
  lemma CrashedAllowRetry(w: World, req: Request, now: int, later: int)
    requires WellFormed(w.books) && Unseen(w.books, req.key) && FindByKey(w.obligations, req.key).None?
    requires req.decision == Allow && AllowTaken(req)
    ensures var payouts := Compute(req.gross, req.splits).value;
            var crashed := w.(books := PostAllow(w.books, req.org, req.key, req.eventId, req.gross, payouts, now).books);
            && (later < now + SAVED_SECONDS ==> Create(crashed, req, later) == Create(w, req, now) && (Create(w, req, now).reply.Done? <==> RowFits(req)))
            && (later >= now + SAVED_SECONDS ==> Create(crashed, req, later) == Step(crashed, Failed(LedgerFailed(DuplicateKey))))
  {
    var payouts := Compute(req.gross, req.splits).value;
    SplitRetryPosts(w.books, req.org, req.key, req.eventId, EXPENSE_CODE, req.gross, payouts, now, later);
  }

  /** And for a release that crashed before it was recorded: completed by a retry under its key
      while the response is kept, and after that refused, with the obligation still held and its
      owners paid in the ledger. */
  lemma CrashedReleaseRetry(w: World, eventId: string, releaseKey: string, now: int, later: int)
    requires WellFormed(w.books) && Unseen(w.books, releaseKey + "-release") && FindByEvent(w.obligations, eventId).Some?
    requires var row := w.obligations[FindByEvent(w.obligations, eventId).value];
             row.status == HELD && ReleaseTaken(row, releaseKey)
    ensures var row := w.obligations[FindByEvent(w.obligations, eventId).value];
            var crashed := w.(books := PostRelease(w.books, row.org, releaseKey, row.eventId, row.gross, PayoutsOf(row), now).books);
            && (later < now + SAVED_SECONDS ==>
                  Release(crashed, eventId, releaseKey, later) == Release(w, eventId, releaseKey, now) && Release(w, eventId, releaseKey, now).reply.Done?)
            && (later >= now + SAVED_SECONDS ==>
                  Release(crashed, eventId, releaseKey, later) == Step(crashed, Failed(LedgerFailed(DuplicateKey))))
  {
    ReleaseRowRetry(w, FindByEvent(w.obligations, eventId).value, releaseKey, now, later);
  }

  lemma ReleaseRowRetry(w: World, id: nat, releaseKey: string, now: int, later: int)
    requires WellFormed(w.books) && Unseen(w.books, releaseKey + "-release") && id < |w.obligations|
    requires ReleaseTaken(w.obligations[id], releaseKey)
    ensures var row := w.obligations[id];
            var crashed := w.(books := PostRelease(w.books, row.org, releaseKey, row.eventId, row.gross, PayoutsOf(row), now).books);
            && (later < now + SAVED_SECONDS ==>
                  ReleaseRow(crashed, id, releaseKey, later) == ReleaseRow(w, id, releaseKey, now) && ReleaseRow(w, id, releaseKey, now).reply.Done?)
            && (later >= now + SAVED_SECONDS ==> ReleaseRow(crashed, id, releaseKey, later) == Step(crashed, Failed(LedgerFailed(DuplicateKey))))
  {
    var row := w.obligations[id];
    SplitRetryPosts(w.books, row.org, releaseKey + "-release", row.eventId + "-release", HELD_CODE, row.gross, PayoutsOf(row), now, later);
  }

  /** A reversal has no such protection: the ledger gives reversals no key and no status guard,
      so a retry after a crash between the ledger's posting and the service's own commit posts a
      second reversal, and the obligation's ledger effect is taken back twice. */
  lemma CrashedReversalRepeats(w: World, eventId: string, reversalEvent: string, reversalKey: string, now: int, later: int)
    requires WellFormed(w.books) && FindReversal(w.reversals, reversalKey).None?
    requires FindByEvent(w.obligations, eventId).Some?
    requires var row := w.obligations[FindByEvent(w.obligations, eventId).value];
             (row.status == HELD || row.status == POSTED) && Linked(w.books, row)
    ensures var row := w.obligations[FindByEvent(w.obligations, eventId).value];
            var crashed := w.(books := Reverse(w.books, row.org, row.ledgerTxn.value, now).books);
            var retried := ReverseObligation(crashed, eventId, reversalEvent, reversalKey, later);
            && (retried.reply.Done? <==> ReversalFits(reversalEvent, reversalKey))
            && forall c :: NetOn(retried.world.books, row.org, c) == NetOn(w.books, row.org, c) - 2 * LinkEffects(row)(c)
  {
    var row := w.obligations[FindByEvent(w.obligations, eventId).value];
    var txn, effect := row.ledgerTxn.value, LinkEffects(row);
    ReverseMovesBack(w.books, row.org, txn, now, effect);
    var first := Reverse(w.books, row.org, txn, now).books;
    LinkStays(w.books, first, row);
    ReverseMovesBack(first, row.org, txn, later, effect);
    var second := Reverse(first, row.org, txn, later).books;
    forall c
      ensures NetOn(second, row.org, c) == NetOn(w.books, row.org, c) - 2 * effect(c)
    {
      assert NetOn(first, row.org, c) == NetOn(w.books, row.org, c) + Negated(effect)(c);
      assert NetOn(second, row.org, c) == NetOn(first, row.org, c) + Negated(effect)(c);
    }
  }
}
