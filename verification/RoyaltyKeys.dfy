/** Ledger keys that two royalty requests share: runs in which the ledger replays an older response
    while the service records a new effect.
    services/transaction/royalty-service-core.ts:54-81,132-187 and
    services/ledger/ledger-service-core.ts:140-150. */
module RoyaltyKeys {
  import opened Sums
  import opened RoyaltyMath
  import opened Ledger
  import opened RoyaltyLedger
  import opened RoyaltyObligations
  import RoyaltySplit

  lemma ServeTwo(w: World, a: Call, b: Call)
    ensures ServeAll(w, [a, b]) == Serve(Serve(w, a), b)
  {
    assert [a, b][..1] == [a] && [a][..0] == [];
    assert ServeAll(w, [a]) == Serve(ServeAll(w, []), a);
  }

  lemma ServeTwoMore(w: World, calls: seq<Call>, a: Call, b: Call)
    ensures ServeAll(w, calls + [a, b]) == Serve(Serve(ServeAll(w, calls), a), b)
  {
    assert (calls + [a, b])[..|calls| + 1] == calls + [a] && (calls + [a])[..|calls|] == calls;
    assert ServeAll(w, calls + [a]) == Serve(ServeAll(w, calls), a);
  }

  // ---------------------------------------------------------------- one release key, two obligations

  /** After a release, its key is seen, its accounts are there and its response is kept. */
  lemma ReleaseLeavesKey(base: Books, w: World, id: nat, releaseKey: string, now: int)
    requires Conserved(base, w) && id < |w.obligations| && w.obligations[id].status == HELD
    requires ReleaseTaken(w.obligations[id], releaseKey)
    requires Unseen(w.books, releaseKey + "-release")
    ensures var (row, w') := (w.obligations[id], ReleaseRow(w, id, releaseKey, now).world);
            var key := releaseKey + "-release";
            && ReleaseRow(w, id, releaseKey, now).reply == Done(id)
            && w'.obligations == w.obligations[id := row.(status := POSTED, ledgerTxn := Some(|w.books.txns|), viaRelease := true)]
            && key in w'.books.saved && w'.books.saved[key] == Saved(|w.books.txns|, now + SAVED_SECONDS)
            && AccountTaken(w'.books.accounts, row.org, HELD_CODE)
            && forall i :: 0 <= i < |PayoutsOf(row)| ==> AccountTaken(w'.books.accounts, row.org, PayoutsOf(row)[i].owner)
  {
    var row := w.obligations[id];
    PostSplitEffect(w.books, row.org, releaseKey + "-release", row.eventId + "-release", HELD_CODE, row.gross, PayoutsOf(row), now);
    SplitPostedOpensAccounts(w.books, row.org, releaseKey + "-release", row.eventId + "-release", HELD_CODE, row.gross, PayoutsOf(row), now);
  }

  /** Two held obligations alike in organization and owners, released under one key within a day:
      both are recorded as posted, and the ledger has moved for the first only. */
  lemma SharedReleaseKey(base: Books, w: World, i: nat, j: nat, releaseKey: string, now: int, later: int)
    requires Conserved(base, w) && i < |w.obligations| && j < |w.obligations| && i != j && later < now + SAVED_SECONDS
    requires w.obligations[i].status == HELD && w.obligations[j].status == HELD
    requires w.obligations[i].org == w.obligations[j].org
    requires ReleaseTaken(w.obligations[i], releaseKey)
    requires w.obligations[j].gross == w.obligations[i].gross && w.obligations[j].splits == w.obligations[i].splits
    requires Unseen(w.books, releaseKey + "-release")
    ensures var w1 := ReleaseRow(w, i, releaseKey, now).world;
            && |w1.obligations| == |w.obligations|
            && Conserved(base, w1)
            && ReleaseRow(w1, j, releaseKey, later).reply == Done(j)
            && (NetsMatch(base, ReleaseRow(w1, j, releaseKey, later).world) <==> NoEffect(SplitEffects(HELD_CODE, w.obligations[j].gross, PayoutsOf(w.obligations[j]))))
  {
    var w1, row := ReleaseRow(w, i, releaseKey, now).world, w.obligations[j];
    ReleaseRowConserves(base, w, i, releaseKey, now);
    ReleaseLeavesKey(base, w, i, releaseKey, now);
    PostSplitAgain(w1.books, row.org, releaseKey + "-release", row.eventId + "-release", HELD_CODE, row.gross, PayoutsOf(row), |w.books.txns|, later);
    ReusedReleaseRowBreaks(base, w1, j, releaseKey, later);
  }

  /** A hold of one cent with one owner. */
  function OneCent(event: string): Request {
    Request("org", event, event, "hash", 100, [Split("a", 10000)], Hold, Details("c", "t", "r", "o", "p"))
  }

  function SharedReleaseKeyRun(first: string, second: string, releaseKey: string): seq<Call> {
    [CreateCall(OneCent(first), 0), CreateCall(OneCent(second), 0)] + [ReleaseCall(first, releaseKey, 0), ReleaseCall(second, releaseKey, 0)]
  }

  lemma OneCentSplit()
    ensures Valid(1, [Split("a", 10000)])
    ensures FairPayouts(1, [Split("a", 10000)]) == [Payout("a", 1)]
  {
    var splits := [Split("a", 10000)];
    Single(splits[0], Bps());
    SplitConservesPool(1, splits);
    Single(splits[0], FairWeight(1, splits));
    assert FairPayouts(1, splits)[0] == Payout("a", 1);
  }

  lemma OneCentPays()
    ensures Compute(100, [Split("a", 10000)]).Ok? && Payable(100, Compute(100, [Split("a", 10000)]).value)
    ensures !NoEffect(SplitEffects(HELD_CODE, 100, Compute(100, [Split("a", 10000)]).value))
  {
    OneCentSplit();
    RoyaltySplit.JournalAlwaysBalances(1, [Split("a", 10000)]);
    PayableExactly(100, [Split("a", 10000)]);
    OneCentMoves(FairPayouts(1, [Split("a", 10000)]));
  }

  lemma OneCentMoves(payouts: seq<Payout>)
    requires payouts == [Payout("a", 1)]
    ensures !NoEffect(SplitEffects(HELD_CODE, 100, payouts))
  {
    Single(payouts[0], OwedTo(HELD_CODE));
    assert SplitEffects(HELD_CODE, 100, payouts)(HELD_CODE) == 100;
  }

  /** Nothing recorded yet, and none of the three keys seen by the ledger. */
  ghost predicate Untouched(base: Books, w: World, first: string, second: string, releaseKey: string) {
    && Conserved(base, w) && w.obligations == []
    && Unseen(w.books, first) && Unseen(w.books, second) && Unseen(w.books, releaseKey + "-release")
  }

  /** Two event ids, also used as keys, and a release key, all of which the ledger can store. */
  predicate Usable(first: string, second: string, releaseKey: string) {
    && first != second && first != releaseKey + "-release" && second != releaseKey + "-release"
    && 0 < |first| <= MAX_REFERENCE - 8 && 0 < |second| <= MAX_REFERENCE - 8 && |releaseKey| <= MAX_KEY - 8
  }

  lemma EmptyIsUntouched(first: string, second: string, releaseKey: string)
    ensures Untouched(EMPTY_BOOKS, World(EMPTY_BOOKS, [], [], []), first, second, releaseKey)
  {
    assert forall o, c :: Sum([], CodeNet([], o, c)) == 0;
  }

  lemma HoldRecorded(base: Books, w: World, req: Request, now: int, other: string)
    requires Conserved(base, w) && Unseen(w.books, req.key) && HoldTaken(req) && RowFits(req) && Unseen(w.books, other) && other != req.key
    ensures var w' := CreateHeld(w, req, now).world;
            && Conserved(base, w') && Unseen(w'.books, other)
            && exists link :: w'.obligations == w.obligations + [Obligation(req.org, req.eventId, req.key, req.requestHash, req.gross, req.splits, HELD, link, false)]
  {
    HoldConserves(base, w, req, now);
    var r := PostHold(w.books, req.org, req.key, req.eventId, req.gross, now);
    PostHoldEffect(w.books, req.org, req.key, req.eventId, req.gross, now);
    StillUnseen(w.books, r, req.org, req.key, req.eventId, other);
    assert CreateHeld(w, req, now).world.obligations
           == w.obligations + [Obligation(req.org, req.eventId, req.key, req.requestHash, req.gross, req.splits, HELD, Some(r.result.value), false)];
  }

  /** The held obligation of one cent with one owner. */
  predicate HeldOneCent(ob: Obligation, event: string) {
    ob.org == "org" && ob.eventId == event && ob.gross == 100 && ob.splits == [Split("a", 10000)] && ob.status == HELD
  }

  lemma OneCentHeld(base: Books, w: World, event: string, other: string)
    requires Conserved(base, w) && Unseen(w.books, event) && Unseen(w.books, other) && event != other && 0 < |event| <= MAX_REFERENCE
    requires FindByKey(w.obligations, event).None?
    ensures var w' := Serve(w, CreateCall(OneCent(event), 0));
            && Conserved(base, w') && Unseen(w'.books, other)
            && |w'.obligations| == |w.obligations| + 1 && w.obligations == w'.obligations[..|w.obligations|]
            && HeldOneCent(w'.obligations[|w.obligations|], event) && w'.obligations[|w.obligations|].key == event
  {
    HoldRecorded(base, w, OneCent(event), 0, other);
    assert Serve(w, CreateCall(OneCent(event), 0)) == CreateHeld(w, OneCent(event), 0).world;
  }

  lemma TwoHolds(base: Books, w: World, first: string, second: string, releaseKey: string)
    requires Untouched(base, w, first, second, releaseKey)
    requires Usable(first, second, releaseKey)
    ensures var w2 := Serve(Serve(w, CreateCall(OneCent(first), 0)), CreateCall(OneCent(second), 0));
            && Conserved(base, w2) && Unseen(w2.books, releaseKey + "-release")
            && |w2.obligations| == 2 && HeldOneCent(w2.obligations[0], first) && HeldOneCent(w2.obligations[1], second)
  {
    OneCentHeld(base, w, first, releaseKey + "-release");
    OneCentHeld(base, w, first, second);
    var w1 := Serve(w, CreateCall(OneCent(first), 0));
    assert FindByKey(w1.obligations, second).None?;
    OneCentHeld(base, w1, second, releaseKey + "-release");
  }

  lemma ServesRelease(w: World, event: string, id: nat, releaseKey: string)
    requires FindByEvent(w.obligations, event) == Some(id) && w.obligations[id].status == HELD
    ensures Serve(w, ReleaseCall(event, releaseKey, 0)) == ReleaseRow(w, id, releaseKey, 0).world
  {
  }

  /** Two held obligations of one organization that owe the same owners the same. */
  predicate HeldPair(w: World, first: string, second: string) {
    && |w.obligations| == 2 && w.obligations[0].eventId == first && w.obligations[1].eventId == second
    && w.obligations[0].status == HELD && w.obligations[1].status == HELD
    && w.obligations[0].org == w.obligations[1].org
    && w.obligations[0].gross == w.obligations[1].gross && w.obligations[0].splits == w.obligations[1].splits
  }

  ghost predicate PaysOwners(row: Obligation, releaseKey: string) {
    && ReleaseTaken(row, releaseKey)
    && !NoEffect(SplitEffects(HELD_CODE, row.gross, PayoutsOf(row)))
  }

  lemma EventsFound(obligations: seq<Obligation>, first: string, second: string)
    requires |obligations| == 2 && obligations[0].eventId == first && obligations[1].eventId == second && first != second
    ensures FindByEvent(obligations, first) == Some(0) && FindByEvent(obligations, second) == Some(1)
  {
    assert obligations[..1][..0] == [];
    assert FindByEvent(obligations[..1], first) == Some(0) && FindByEvent(obligations[..1], second) == None;
  }

  lemma PairServed(base: Books, w: World, first: string, second: string, releaseKey: string)
    requires Conserved(base, w) && Unseen(w.books, releaseKey + "-release") && first != second
    requires HeldPair(w, first, second) && PaysOwners(w.obligations[0], releaseKey)
    ensures Serve(Serve(w, ReleaseCall(first, releaseKey, 0)), ReleaseCall(second, releaseKey, 0))
            == ReleaseRow(ReleaseRow(w, 0, releaseKey, 0).world, 1, releaseKey, 0).world
  {
    EventsFound(w.obligations, first, second);
    ServesRelease(w, first, 0, releaseKey);
    ReleaseLeavesKey(base, w, 0, releaseKey, 0);
    var w1 := ReleaseRow(w, 0, releaseKey, 0).world;
    EventsFound(w1.obligations, first, second);
    ServesRelease(w1, second, 1, releaseKey);
  }

  lemma OneCentPair(w: World, first: string, second: string, releaseKey: string)
    requires |w.obligations| == 2 && HeldOneCent(w.obligations[0], first) && HeldOneCent(w.obligations[1], second)
    requires Usable(first, second, releaseKey)
    ensures HeldPair(w, first, second) && PaysOwners(w.obligations[0], releaseKey) && PaysOwners(w.obligations[1], releaseKey)
  {
    OneCentPays();
  }

  /** Four calls of the service alone, without a crash, from tables without obligations (the empty
      ones are such): ledger and obligations end at odds. */
  lemma SharedReleaseKeyIsReachable(base: Books, w: World, first: string, second: string, releaseKey: string)
    requires Untouched(base, w, first, second, releaseKey)
    requires Usable(first, second, releaseKey)
    ensures !NetsMatch(base, ServeAll(w, SharedReleaseKeyRun(first, second, releaseKey)))
  {
    var holds := [CreateCall(OneCent(first), 0), CreateCall(OneCent(second), 0)];
    var w2 := ServeAll(w, holds);
    ServeTwo(w, holds[0], holds[1]);
    TwoHolds(base, w, first, second, releaseKey);
    OneCentPair(w2, first, second, releaseKey);
    SharedReleaseKey(base, w2, 0, 1, releaseKey, 0, 0);
    PairServed(base, w2, first, second, releaseKey);
    ServeTwoMore(w, holds, ReleaseCall(first, releaseKey, 0), ReleaseCall(second, releaseKey, 0));
  }

  lemma SharedReleaseKeyFromEmpty(first: string, second: string, releaseKey: string)
    requires Usable(first, second, releaseKey)
    ensures !NetsMatch(EMPTY_BOOKS, ServeAll(World(EMPTY_BOOKS, [], [], []), SharedReleaseKeyRun(first, second, releaseKey)))
  {
    EmptyIsUntouched(first, second, releaseKey);
    SharedReleaseKeyIsReachable(EMPTY_BOOKS, World(EMPTY_BOOKS, [], [], []), first, second, releaseKey);
  }

  // ---------------------------------------------------------------- one create key, two decisions

  /** A hold that crashed after the ledger posted it, retried under its key as an allow while the
      response is kept: the obligation is recorded as posted, its owners as paid, and the ledger
      has moved as for a hold. */
  lemma CrashedHoldRetriedAsAllow(w: World, req: Request, now: int, later: int)
    requires WellFormed(w.books) && Unseen(w.books, req.key) && FindByKey(w.obligations, req.key).None?
    requires req.decision == Hold && HoldTaken(req) && RowFits(req) && later < now + SAVED_SECONDS
    requires Compute(req.gross, req.splits).Ok?
    requires AllPaid(Compute(req.gross, req.splits).value) && OwnersFit(Compute(req.gross, req.splits).value)
    ensures var crashed := w.(books := PostHold(w.books, req.org, req.key, req.eventId, req.gross, now).books);
            var retried := Create(crashed, req.(decision := Allow), later);
            && retried.reply == Done(|w.obligations|)
            && |retried.world.obligations| == |w.obligations| + 1 && retried.world.obligations[|w.obligations|].status == POSTED
            && Moves(w.books, retried.world.books, req.org, HoldEffects(req.gross))
  {
    var crashed := w.(books := PostHold(w.books, req.org, req.key, req.eventId, req.gross, now).books);
    HoldReplayedAsAllow(w.books, req.org, req.key, req.eventId, req.gross, Compute(req.gross, req.splits).value, now, later);
    AllowRecorded(crashed, req.(decision := Allow), later);
  }

  /** An allow whose posting the ledger answers is recorded as posted. */
  lemma AllowRecorded(w: World, req: Request, now: int)
    requires FindByKey(w.obligations, req.key).None? && req.decision == Allow && RowFits(req)
    requires Compute(req.gross, req.splits).Ok? && AllPaid(Compute(req.gross, req.splits).value)
    requires PostAllow(w.books, req.org, req.key, req.eventId, req.gross, Compute(req.gross, req.splits).value, now).result.Ok?
    ensures var r := Create(w, req, now);
            && r.reply == Done(|w.obligations|)
            && |r.world.obligations| == |w.obligations| + 1 && r.world.obligations[|w.obligations|].status == POSTED
            && r.world.books == PostAllow(w.books, req.org, req.key, req.eventId, req.gross, Compute(req.gross, req.splits).value, now).books
  {
  }

  lemma HoldReplayedAsAllow(b: Books, org: string, key: string, event: string, gross: int, payouts: seq<Payout>, now: int, later: int)
    requires WellFormed(b) && Unseen(b, key) && 0 < gross < AMOUNT_LIMIT && Fileable(key, event) && OwnersFit(payouts)
    requires later < now + SAVED_SECONDS
    ensures var again := PostAllow(PostHold(b, org, key, event, gross, now).books, org, key, event, gross, payouts, later);
            again.result == Ledger.Result.Ok(|b.txns|) && Moves(b, again.books, org, HoldEffects(gross))
  {
    var posted := PostHold(b, org, key, event, gross, now);
    PostHoldEffect(b, org, key, event, gross, now);
    HoldPostedOpensAccounts(b, org, key, event, gross, now);
    ReplayedSplit(posted.books, org, key, event, gross, payouts, |b.txns|, later);
    var again := PostAllow(posted.books, org, key, event, gross, payouts, later);
    forall o, c
      ensures NetOn(again.books, o, c) == NetOn(b, o, c) + if o == org then HoldEffects(gross)(c) else 0
    {
      assert NetOn(again.books, o, c) == NetOn(posted.books, o, c);
    }
  }

  lemma ReplayedSplit(b: Books, org: string, key: string, event: string, gross: int, payouts: seq<Payout>, txn: nat, later: int)
    requires WellFormed(b) && OwnersFit(payouts) && key in b.saved && b.saved[key].txn == txn && b.saved[key].expiresAt > later && Fileable(key, event)
    ensures var r := PostAllow(b, org, key, event, gross, payouts, later);
            r.result == Ledger.Result.Ok(txn) && OnlyOpens(b, r.books)
  {
    var debit := Ensure(b, org, EXPENSE_CODE);
    EnsureOpens(b, org, EXPENSE_CODE);
    var owners := EnsureOwners(debit.books, org, payouts);
    EnsureOwnersOpens(debit.books, org, payouts);
    OpensFurther(b, debit.books, owners.books);
  }
}
