/** The ledger entries of a royalty: allow, hold and release, with accounts found or created.
    services/transaction/royalty-service-ledger-client.ts:71-229.

    The ledger is asked for one account at a time and then for the posting, so accounts created
    on the way stay even when the posting is refused. Amounts are in ten-thousandths, payouts in
    cents. */
module RoyaltyLedger {
  import opened Sums
  import opened RoyaltyMath
  import opened Ledger
  import RoyaltySplit

  const EXPENSE_CODE := "royalty_expense"
  const HELD_CODE := "royalty_held_liab"

  // ---------------------------------------------------------------- accounts by code

  function FindAccount(accounts: seq<Account>, org: string, code: string): (found: Option<nat>)
    ensures found.Some? ==> found.value < |accounts| && accounts[found.value] == Account(org, code)
    ensures found.None? ==> !AccountTaken(accounts, org, code)
  {
    if accounts == [] then None
    else
      var n := |accounts| - 1;
      var earlier := FindAccount(accounts[..n], org, code);
      if earlier.Some? then earlier
      else if accounts[n] == Account(org, code) then Some(n)
      else
        assert forall i :: 0 <= i < n ==> accounts[..n][i] == accounts[i];
        None
  }

  datatype EnsuredAll = EnsuredAll(books: Books, result: Ledger.Result<seq<nat>>)

  /** ensureAccount: the account of this code, created when the list does not have it. */
  function Ensure(b: Books, org: string, code: string): Outcome {
    var found := FindAccount(b.accounts, org, code);
    if found.Some? then Outcome(b, Ledger.Result.Ok(found.value)) else CreateAccount(b, org, code)
  }

  /** Each id is the account of its payout's owner. */
  ghost predicate AccountsOf(accounts: seq<Account>, org: string, ids: seq<nat>, payouts: seq<Payout>) {
    |ids| == |payouts| && forall i :: 0 <= i < |ids| ==> ids[i] < |accounts| && accounts[ids[i]] == Account(org, payouts[i].owner)
  }

  lemma AccountsOfMore(before: seq<Account>, accounts: seq<Account>, org: string, ids: seq<nat>, payouts: seq<Payout>, id: nat)
    requires payouts != [] && before <= accounts
    requires AccountsOf(before, org, ids, payouts[..|payouts| - 1])
    requires id < |accounts| && accounts[id] == Account(org, payouts[|payouts| - 1].owner)
    ensures AccountsOf(accounts, org, ids + [id], payouts)
  {
  }

  /** One account after another, up to the first that cannot be had. */
  function EnsureOwners(b: Books, org: string, payouts: seq<Payout>): (r: EnsuredAll)
    ensures b.accounts <= r.books.accounts
    ensures r.result.Ok? ==> AccountsOf(r.books.accounts, org, r.result.value, payouts)
  {
    if payouts == [] then EnsuredAll(b, Ledger.Result.Ok([]))
    else
      var n := |payouts| - 1;
      var front := EnsureOwners(b, org, payouts[..n]);
      if front.result.Err? then front
      else
        var last := Ensure(front.books, org, payouts[n].owner);
        if last.result.Err? then EnsuredAll(last.books, Ledger.Result.Err(last.result.error))
        else
          AccountsOfMore(front.books.accounts, last.books.accounts, org, front.result.value, payouts, last.result.value);
          EnsuredAll(last.books, Ledger.Result.Ok(front.result.value + [last.result.value]))
  }

  function CreditLines(ids: seq<nat>, payouts: seq<Payout>): seq<Line>
    requires |ids| == |payouts|
  {
    seq(|ids|, i requires 0 <= i < |ids| => Line(ids[i], Credit, 100 * payouts[i].cents))
  }

  function SplitLines(debit: nat, gross: int, ids: seq<nat>, payouts: seq<Payout>): seq<Line>
    requires |ids| == |payouts|
  {
    [Line(debit, Debit, gross)] + CreditLines(ids, payouts)
  }

  /** The shape of postAllow and postRelease: one debit of the gross, one credit per owner. */
  function PostSplit(b: Books, org: string, key: string, reference: string, debitCode: string, gross: int, payouts: seq<Payout>, now: int): Outcome {
    var debit := Ensure(b, org, debitCode);
    if debit.result.Err? then debit
    else
      var owners := EnsureOwners(debit.books, org, payouts);
      if owners.result.Err? then Outcome(owners.books, Ledger.Result.Err(owners.result.error))
      else Post(owners.books, org, Some(key), Text(reference), SplitLines(debit.result.value, gross, owners.result.value, payouts), now)
  }

  function PostAllow(b: Books, org: string, key: string, event: string, gross: int, payouts: seq<Payout>, now: int): Outcome {
    PostSplit(b, org, key, event, EXPENSE_CODE, gross, payouts, now)
  }

  function PostRelease(b: Books, org: string, key: string, event: string, gross: int, payouts: seq<Payout>, now: int): Outcome {
    PostSplit(b, org, key + "-release", event + "-release", HELD_CODE, gross, payouts, now)
  }

  function HoldLines(expense: nat, held: nat, gross: int): seq<Line> {
    [Line(expense, Debit, gross), Line(held, Credit, gross)]
  }

  function PostHold(b: Books, org: string, key: string, event: string, gross: int, now: int): Outcome {
    var expense := Ensure(b, org, EXPENSE_CODE);
    if expense.result.Err? then expense
    else
      var held := Ensure(expense.books, org, HELD_CODE);
      if held.result.Err? then held
      else Post(held.books, org, Some(key), Text(event), HoldLines(expense.result.value, held.result.value, gross), now)
  }

  // ---------------------------------------------------------------- effects by account code

  function CodeNet(accounts: seq<Account>, org: string, code: string): Entry -> int {
    (e: Entry) => if e.line.account < |accounts| && accounts[e.line.account] == Account(org, code) then Signed(e.line) else 0
  }

  function CodeLine(accounts: seq<Account>, org: string, code: string): Line -> int {
    (l: Line) => if l.account < |accounts| && accounts[l.account] == Account(org, code) then Signed(l) else 0
  }

  /** The balance an organization's account of this code shows. */
  function NetOn(b: Books, org: string, code: string): int {
    Sum(b.entries, CodeNet(b.accounts, org, code))
  }

  function OwedTo(code: string): Payout -> int {
    (p: Payout) => if p.owner == code then 100 * p.cents else 0
  }

  function SplitEffect(debitCode: string, gross: int, payouts: seq<Payout>, code: string): int {
    (if code == debitCode then gross else 0) - Sum(payouts, OwedTo(code))
  }

  function HoldEffect(gross: int, code: string): int {
    (if code == EXPENSE_CODE then gross else 0) - (if code == HELD_CODE then gross else 0)
  }

  function AllowEffect(gross: int, payouts: seq<Payout>, code: string): int {
    SplitEffect(EXPENSE_CODE, gross, payouts, code)
  }

  function LineCents(): Payout -> int {
    (p: Payout) => 100 * p.cents
  }

  // ---------------------------------------------------------------- finding or creating accounts

  /** b' is b with accounts added, and nothing else about it or its balances changed. */
  ghost predicate OnlyOpens(b: Books, b': Books) {
    && b' == b.(accounts := b'.accounts)
    && b.accounts <= b'.accounts
    && WellFormed(b')
    && (forall o, c :: NetOn(b', o, c) == NetOn(b, o, c))
  }

  /** The account is found or made exactly when its code fits, and nothing else changes. */
  lemma EnsureOpens(b: Books, org: string, code: string)
    requires WellFormed(b)
    ensures var r := Ensure(b, org, code);
            && OnlyOpens(b, r.books)
            && (r.result.Ok? <==> CodeFits(code))
            && (r.result.Ok? ==> r.result.value < |r.books.accounts| && r.books.accounts[r.result.value] == Account(org, code))
  {
    CreateAccountKeepsBooks(b, org, code);
    var b' := Ensure(b, org, code).books;
    forall o, c
      ensures NetOn(b', o, c) == NetOn(b, o, c)
    {
      forall i | 0 <= i < |b.entries|
        ensures CodeNet(b.accounts, o, c)(b.entries[i]) == CodeNet(b'.accounts, o, c)(b.entries[i])
      {
        assert EntryInOrder(b, b.entries[i]);
      }
      SameWeights(b.entries, CodeNet(b.accounts, o, c), CodeNet(b'.accounts, o, c));
    }
  }

  predicate OwnersFit(payouts: seq<Payout>) {
    forall i :: 0 <= i < |payouts| ==> CodeFits(payouts[i].owner)
  }

  lemma OpensFurther(a: Books, b: Books, c: Books)
    requires OnlyOpens(a, b) && OnlyOpens(b, c)
    ensures OnlyOpens(a, c)
  {
    forall o, k
      ensures NetOn(c, o, k) == NetOn(a, o, k)
    {
      assert NetOn(b, o, k) == NetOn(a, o, k);
    }
  }

  /** All owners get their own accounts exactly when all their ids fit as codes. */
  lemma {:induction false} EnsureOwnersOpens(b: Books, org: string, payouts: seq<Payout>)
    requires WellFormed(b)
    ensures var r := EnsureOwners(b, org, payouts);
            && OnlyOpens(b, r.books)
            && (r.result.Ok? <==> OwnersFit(payouts))
  {
    if payouts != [] {
      var n := |payouts| - 1;
      assert payouts == payouts[..n] + [payouts[n]];
      var front := EnsureOwners(b, org, payouts[..n]);
      EnsureOwnersOpens(b, org, payouts[..n]);
      if front.result.Ok? {
        var last := Ensure(front.books, org, payouts[n].owner);
        EnsureOpens(front.books, org, payouts[n].owner);
        OpensFurther(b, front.books, last.books);
      }
    }
  }

  // ---------------------------------------------------------------- what a posting does

  /** The ledger has no transaction and no saved response under this key. */
  predicate Unseen(b: Books, key: string) {
    key !in b.saved && !KeyTaken(b.txns, Some(key))
  }

  lemma PostMovesCode(b: Books, org: string, key: Option<string>, reference: Reference, lines: seq<Line>, now: int, o: string, c: string)
    requires WellFormed(b)
    ensures NetOn(Appended(b, org, key, reference, lines, now), o, c) == NetOn(b, o, c) + Sum(lines, CodeLine(b.accounts, o, c))
  {
    var added := EntriesFor(|b.txns|, lines);
    Concat(b.entries, added, CodeNet(b.accounts, o, c));
    SameTerms(added, lines, CodeNet(b.accounts, o, c), CodeLine(b.accounts, o, c));
  }

  lemma {:induction false} CreditsByCode(accounts: seq<Account>, org: string, ids: seq<nat>, payouts: seq<Payout>, o: string, c: string)
    requires |ids| == |payouts|
    requires forall i :: 0 <= i < |ids| ==> ids[i] < |accounts| && accounts[ids[i]] == Account(org, payouts[i].owner)
    ensures Sum(CreditLines(ids, payouts), CodeLine(accounts, o, c)) == if o == org then -Sum(payouts, OwedTo(c)) else 0
  {
    if payouts != [] {
      var n := |payouts| - 1;
      assert CreditLines(ids, payouts)[..n] == CreditLines(ids[..n], payouts[..n]);
      CreditsByCode(accounts, org, ids[..n], payouts[..n], o, c);
    }
  }

  lemma SplitLinesByCode(accounts: seq<Account>, org: string, debit: nat, debitCode: string, gross: int, ids: seq<nat>, payouts: seq<Payout>, o: string, c: string)
    requires |ids| == |payouts|
    requires debit < |accounts| && accounts[debit] == Account(org, debitCode)
    requires forall i :: 0 <= i < |ids| ==> ids[i] < |accounts| && accounts[ids[i]] == Account(org, payouts[i].owner)
    ensures Sum(SplitLines(debit, gross, ids, payouts), CodeLine(accounts, o, c)) ==
            if o == org then SplitEffect(debitCode, gross, payouts, c) else 0
  {
    CreditsByCode(accounts, org, ids, payouts, o, c);
    Concat([Line(debit, Debit, gross)], CreditLines(ids, payouts), CodeLine(accounts, o, c));
    Single(Line(debit, Debit, gross), CodeLine(accounts, o, c));
  }

  lemma SplitGate(debit: nat, gross: int, ids: seq<nat>, payouts: seq<Payout>)
    requires |ids| == |payouts|
    ensures Balanced(SplitLines(debit, gross, ids, payouts)) <==> gross > 0 && gross == Sum(payouts, LineCents())
  {
    var first, rest := [Line(debit, Debit, gross)], CreditLines(ids, payouts);
    Concat(first, rest, DebitOf());
    Concat(first, rest, CreditOf());
    Single(first[0], DebitOf());
    Single(first[0], CreditOf());
    Zero(rest, DebitOf());
    SameTerms(rest, payouts, CreditOf(), LineCents());
  }

  /** What every successful posting leaves: one new transaction of the organization under the
      key, holding all the new entries, with its response saved. */
  ghost predicate JustPosted(b: Books, r: Outcome, org: string, key: string, reference: string) {
    && r.result == Ledger.Result.Ok(|b.txns|)
    && r.books.txns == b.txns + [Txn(org, Posted, Some(key), Text(reference))]
    && b.accounts <= r.books.accounts
    && b.entries <= r.books.entries
    && (forall i :: |b.entries| <= i < |r.books.entries| ==> r.books.entries[i].txn == |b.txns|)
    && key in r.books.saved && r.books.saved == b.saved[key := r.books.saved[key]]
    && r.books.saved[key].txn == |b.txns|
  }

  /** Every account of the organization moves by the effect on its code, all others not at all. */
  ghost predicate Moves(b: Books, b': Books, org: string, effect: string -> int) {
    forall o, c :: NetOn(b', o, c) == NetOn(b, o, c) + if o == org then effect(c) else 0
  }

  /** A posting either goes through with its whole effect or only leaves opened accounts. */
  ghost predicate Settles(b: Books, r: Outcome, org: string, key: string, reference: string, accepted: bool, effect: string -> int) {
    && WellFormed(r.books)
    && (r.result.Ok? <==> accepted)
    && (accepted ==> JustPosted(b, r, org, key, reference) && Moves(b, r.books, org, effect))
    && (!accepted ==> OnlyOpens(b, r.books))
  }

  lemma PostFresh(b: Books, ready: Books, org: string, key: string, reference: string, lines: seq<Line>, now: int, effect: string -> int)
    requires WellFormed(b) && OnlyOpens(b, ready) && Unseen(b, key)
    requires forall o, c :: Sum(lines, CodeLine(ready.accounts, o, c)) == if o == org then effect(c) else 0
    ensures Settles(b, Post(ready, org, Some(key), Text(reference), lines, now), org, key, reference,
                    Balanced(lines) && Fileable(key, reference) && FirstRefused(ready.accounts, org, lines) == None, effect)
  {
    PostKeepsBooks(ready, org, Some(key), Text(reference), lines, now);
    var after := Appended(ready, org, Some(key), Text(reference), lines, now);
    forall o, c
      ensures NetOn(after, o, c) == NetOn(b, o, c) + if o == org then effect(c) else 0
    {
      PostMovesCode(ready, org, Some(key), Text(reference), lines, now, o, c);
    }
    assert Moves(b, after, org, effect);
  }

  function SplitEffects(debitCode: string, gross: int, payouts: seq<Payout>): string -> int {
    (c: string) => SplitEffect(debitCode, gross, payouts, c)
  }

  function HoldEffects(gross: int): string -> int {
    (c: string) => HoldEffect(gross, c)
  }

  predicate AllPaid(payouts: seq<Payout>) {
    forall i :: 0 <= i < |payouts| ==> payouts[i].cents > 0
  }

  /** The schema and the columns of the ledger accept the key and the reference of a posting. */
  predicate Fileable(key: string, reference: string) {
    0 < |key| <= MAX_KEY && 0 < |reference| <= MAX_REFERENCE
  }

  /** The gross is an amount the ledger can hold, the cents paid are the gross, nobody is paid
      nothing, and every owner id fits as a code. */
  predicate Payable(gross: int, payouts: seq<Payout>) {
    0 < gross < AMOUNT_LIMIT && gross == Sum(payouts, LineCents()) && AllPaid(payouts) && OwnersFit(payouts)
  }

  /** A payout of a split that adds up to the gross is no more than the gross. */
  lemma PayoutWithin(gross: int, payouts: seq<Payout>, i: nat)
    requires i < |payouts| && AllPaid(payouts) && gross == Sum(payouts, LineCents())
    ensures 0 < 100 * payouts[i].cents <= gross
  {
    Member(payouts, i, LineCents());
  }

  lemma SplitLinesFit(accounts: seq<Account>, org: string, debit: nat, gross: int, ids: seq<nat>, payouts: seq<Payout>)
    requires |ids| == |payouts|
    requires debit < |accounts| && accounts[debit].org == org
    requires forall i :: 0 <= i < |ids| ==> ids[i] < |accounts| && accounts[ids[i]].org == org
    requires 0 < gross < AMOUNT_LIMIT && gross == Sum(payouts, LineCents()) && AllPaid(payouts)
    ensures FirstRefused(accounts, org, SplitLines(debit, gross, ids, payouts)) == None
  {
    var lines := SplitLines(debit, gross, ids, payouts);
    forall i | 0 <= i < |lines|
      ensures LineAccepted(accounts, org, lines[i])
    {
      if i > 0 {
        PayoutWithin(gross, payouts, i - 1);
        assert lines[i] == Line(ids[i - 1], Credit, 100 * payouts[i - 1].cents);
      }
    }
  }

  lemma SplitLinesAccepted(accounts: seq<Account>, org: string, debit: nat, gross: int, ids: seq<nat>, payouts: seq<Payout>)
    requires |ids| == |payouts|
    requires debit < |accounts| && accounts[debit].org == org
    requires forall i :: 0 <= i < |ids| ==> ids[i] < |accounts| && accounts[ids[i]].org == org
    ensures var lines := SplitLines(debit, gross, ids, payouts);
            Balanced(lines) && FirstRefused(accounts, org, lines) == None <==>
            0 < gross < AMOUNT_LIMIT && gross == Sum(payouts, LineCents()) && AllPaid(payouts)
  {
    SplitGate(debit, gross, ids, payouts);
    var lines := SplitLines(debit, gross, ids, payouts);
    if FirstRefused(accounts, org, lines) == None {
      assert LineAccepted(accounts, org, lines[0]);
      forall i | 0 <= i < |payouts|
        ensures payouts[i].cents > 0
      {
        assert LineAccepted(accounts, org, lines[i + 1]);
      }
    }
    if 0 < gross < AMOUNT_LIMIT && gross == Sum(payouts, LineCents()) && AllPaid(payouts) {
      SplitLinesFit(accounts, org, debit, gross, ids, payouts);
    }
  }

  /** A split posting under a key the ledger has not seen goes through exactly when it is
      payable; then it moves each account, of whatever code, by its effect. */
  lemma PostSplitEffect(b: Books, org: string, key: string, reference: string, debitCode: string, gross: int, payouts: seq<Payout>, now: int)
    requires WellFormed(b) && Unseen(b, key) && CodeFits(debitCode)
    ensures Settles(b, PostSplit(b, org, key, reference, debitCode, gross, payouts, now), org, key, reference,
                    Payable(gross, payouts) && Fileable(key, reference), SplitEffects(debitCode, gross, payouts))
  {
    var debit := Ensure(b, org, debitCode);
    EnsureOpens(b, org, debitCode);
    var owners := EnsureOwners(debit.books, org, payouts);
    EnsureOwnersOpens(debit.books, org, payouts);
    if owners.result.Ok? {
      PostSplitReady(b, owners.books, org, key, reference, debit.result.value, debitCode, gross, owners.result.value, payouts, now);
    }
  }

  lemma PostSplitReady(b: Books, ready: Books, org: string, key: string, reference: string, debit: nat, debitCode: string, gross: int,
                       ids: seq<nat>, payouts: seq<Payout>, now: int)
    requires WellFormed(b) && OnlyOpens(b, ready) && Unseen(b, key) && |ids| == |payouts|
    requires debit < |ready.accounts| && ready.accounts[debit] == Account(org, debitCode)
    requires AccountsOf(ready.accounts, org, ids, payouts)
    ensures Settles(b, Post(ready, org, Some(key), Text(reference), SplitLines(debit, gross, ids, payouts), now), org, key, reference,
                    0 < gross < AMOUNT_LIMIT && gross == Sum(payouts, LineCents()) && AllPaid(payouts) && Fileable(key, reference), SplitEffects(debitCode, gross, payouts))
  {
    var lines := SplitLines(debit, gross, ids, payouts);
    SplitLinesAccepted(ready.accounts, org, debit, gross, ids, payouts);
    forall o, c
      ensures Sum(lines, CodeLine(ready.accounts, o, c)) == if o == org then SplitEffects(debitCode, gross, payouts)(c) else 0
    {
      SplitLinesByCode(ready.accounts, org, debit, debitCode, gross, ids, payouts, o, c);
    }
    PostFresh(b, ready, org, key, reference, lines, now, SplitEffects(debitCode, gross, payouts));
  }

  /** An owner id too long for an account code is refused under any key, seen or not. */
  lemma LongOwnerNeverPosts(b: Books, org: string, key: string, reference: string, debitCode: string, gross: int, payouts: seq<Payout>, now: int)
    requires WellFormed(b) && !OwnersFit(payouts)
    ensures PostSplit(b, org, key, reference, debitCode, gross, payouts, now).result.Err?
  {
    var debit := Ensure(b, org, debitCode);
    EnsureOpens(b, org, debitCode);
    EnsureOwnersOpens(debit.books, org, payouts);
  }

  /** So is one whose reference or key the ledger cannot store, unless the ledger has a live
      response to repeat. */
  lemma UnfileableNeverPosts(b: Books, org: string, key: string, reference: string, debitCode: string, gross: int, payouts: seq<Payout>, now: int)
    requires !Fileable(key, reference) && !Replays(b, Some(key), now)
    ensures PostSplit(b, org, key, reference, debitCode, gross, payouts, now).result.Err?
  {
    var debit := Ensure(b, org, debitCode);
    SavedStays(debit.books, org, payouts);
  }

  lemma {:induction false} SavedStays(b: Books, org: string, payouts: seq<Payout>)
    ensures EnsureOwners(b, org, payouts).books.saved == b.saved
  {
    if payouts != [] {
      SavedStays(b, org, payouts[..|payouts| - 1]);
    }
  }

  lemma PostHoldEffect(b: Books, org: string, key: string, event: string, gross: int, now: int)
    requires WellFormed(b) && Unseen(b, key)
    ensures Settles(b, PostHold(b, org, key, event, gross, now), org, key, event, 0 < gross < AMOUNT_LIMIT && Fileable(key, event), HoldEffects(gross))
  {
    var expense := Ensure(b, org, EXPENSE_CODE);
    EnsureOpens(b, org, EXPENSE_CODE);
    var held := Ensure(expense.books, org, HELD_CODE);
    EnsureOpens(expense.books, org, HELD_CODE);
    var accounts := held.books.accounts;
    var lines := HoldLines(expense.result.value, held.result.value, gross);
    Pair(lines[0], lines[1], DebitOf());
    Pair(lines[0], lines[1], CreditOf());
    forall o, c
      ensures Sum(lines, CodeLine(accounts, o, c)) == if o == org then HoldEffects(gross)(c) else 0
    {
      Pair(lines[0], lines[1], CodeLine(accounts, o, c));
    }
    PostFresh(b, held.books, org, key, event, lines, now, HoldEffects(gross));
    assert 0 < gross < AMOUNT_LIMIT ==> FirstRefused(accounts, org, lines) == None;
  }

  // ---------------------------------------------------------------- the two routes to a payout

  /** Hold then release leaves every account of every organization exactly as a direct allow of
      the same amount and payouts, and goes through exactly when the allow does and the ledger also
      takes the release's own key and reference, which are eight characters longer. */
  lemma HoldThenReleaseIsAllow(b: Books, org: string, key: string, event: string, releaseKey: string, gross: int, payouts: seq<Payout>, t0: int, t1: int, t2: int)
    requires WellFormed(b) && Unseen(b, key) && Unseen(b, releaseKey + "-release") && key != releaseKey + "-release"
    ensures var direct := PostAllow(b, org, key, event, gross, payouts, t0);
            var hold := PostHold(b, org, key, event, gross, t1);
            var release := PostRelease(hold.books, org, releaseKey, event, gross, payouts, t2);
            (hold.result.Ok? && release.result.Ok? <==> direct.result.Ok? && Fileable(releaseKey + "-release", event + "-release")) &&
            (hold.result.Ok? && release.result.Ok? ==> forall o, c :: NetOn(direct.books, o, c) == NetOn(release.books, o, c))
  {
    var direct := PostAllow(b, org, key, event, gross, payouts, t0);
    var hold := PostHold(b, org, key, event, gross, t1);
    var release := PostRelease(hold.books, org, releaseKey, event, gross, payouts, t2);
    PostSplitEffect(b, org, key, event, EXPENSE_CODE, gross, payouts, t0);
    PostHoldEffect(b, org, key, event, gross, t1);
    StillUnseen(b, hold, org, key, event, releaseKey + "-release");
    PostSplitEffect(hold.books, org, releaseKey + "-release", event + "-release", HELD_CODE, gross, payouts, t2);
    if hold.result.Ok? && release.result.Ok? {
      EffectsAddUp(b, direct.books, hold.books, release.books, org, gross, payouts);
    }
  }

  lemma EffectsAddUp(b: Books, direct: Books, hold: Books, release: Books, org: string, gross: int, payouts: seq<Payout>)
    requires Moves(b, direct, org, SplitEffects(EXPENSE_CODE, gross, payouts))
    requires Moves(b, hold, org, HoldEffects(gross))
    requires Moves(hold, release, org, SplitEffects(HELD_CODE, gross, payouts))
    ensures forall o, c :: NetOn(direct, o, c) == NetOn(release, o, c)
  {
    forall o, c
      ensures NetOn(direct, o, c) == NetOn(release, o, c)
    {
      assert NetOn(hold, o, c) == NetOn(b, o, c) + if o == org then HoldEffects(gross)(c) else 0;
    }
  }

  lemma StillUnseen(b: Books, r: Outcome, org: string, key: string, reference: string, other: string)
    requires Unseen(b, other) && other != key
    requires JustPosted(b, r, org, key, reference) || OnlyOpens(b, r.books)
    ensures Unseen(r.books, other)
  {
  }

  /** The payouts of a valid split pass the ledger's balance gate exactly when the gross is a
      positive whole number of cents: the debit carries four decimals and the credits two. */
  lemma GateNeedsWholeCents(debit: nat, gross: int, ids: seq<nat>, splits: seq<Split>)
    requires gross >= 0 && ValidSplits(splits) && |ids| == |splits|
    ensures Balanced(SplitLines(debit, gross, ids, FairPayouts(RoyaltySplit.TsPool(gross), splits))) <==> gross > 0 && gross % 100 == 0
  {
    var pool := RoyaltySplit.TsPool(gross);
    var payouts := FairPayouts(pool, splits);
    SplitGate(debit, gross, ids, payouts);
    PaidCents(pool, splits);
    WholeCents(gross);
  }

  lemma WholeCents(gross: int)
    requires gross >= 0
    ensures 0 <= RoyaltySplit.TsPool(gross)
    ensures gross == 100 * RoyaltySplit.TsPool(gross) <==> gross % 100 == 0
  {
  }

  lemma PaidCents(pool: int, splits: seq<Split>)
    requires Valid(pool, splits)
    ensures Sum(FairPayouts(pool, splits), LineCents()) == 100 * pool
  {
    RoyaltySplit.JournalAlwaysBalances(pool, splits);
    CentsScale(FairPayouts(pool, splits));
  }

  lemma {:induction false} CentsScale(payouts: seq<Payout>)
    ensures Sum(payouts, LineCents()) == 100 * Sum(payouts, RoyaltySplit.PayoutCents())
  {
    if payouts != [] {
      CentsScale(payouts[..|payouts| - 1]);
    }
  }

  lemma PaidAndFits(pool: int, splits: seq<Split>)
    ensures AllPaid(FairPayouts(pool, splits)) <==> forall i :: 0 <= i < |splits| ==> FairCents(pool, splits, splits[i]) > 0
    ensures OwnersFit(FairPayouts(pool, splits)) <==> forall i :: 0 <= i < |splits| ==> CodeFits(splits[i].owner)
  {
    var payouts := FairPayouts(pool, splits);
    assert |payouts| == |splits|;
    forall i | 0 <= i < |splits|
      ensures payouts[i] == Payout(splits[i].owner, FairCents(pool, splits, splits[i]))
    {
    }
  }

  /** Whole cents are not enough to post: an owner whose share rounds to nothing makes the
      ledger refuse the whole royalty, held first or not, and so does one whose id is too long for
      an account code. A valid split is payable exactly when its gross is a positive number of
      whole cents, nobody's payout is zero and every owner id fits. */
  lemma PayableExactly(gross: int, splits: seq<Split>)
    requires gross >= 0 && ValidSplits(splits)
    ensures Payable(gross, FairPayouts(RoyaltySplit.TsPool(gross), splits)) <==>
            && 0 < gross < AMOUNT_LIMIT && gross % 100 == 0
            && (forall i :: 0 <= i < |splits| ==> FairCents(RoyaltySplit.TsPool(gross), splits, splits[i]) > 0)
            && (forall i :: 0 <= i < |splits| ==> CodeFits(splits[i].owner))
  {
    WholeCents(gross);
    PaidCents(RoyaltySplit.TsPool(gross), splits);
    PaidAndFits(RoyaltySplit.TsPool(gross), splits);
  }

  lemma OneCentForTwo(b: Books, org: string, key: string, event: string, now: int)
    requires WellFormed(b) && Unseen(b, key)
    ensures var splits := [Split("a", 5000), Split("b", 5000)];
            Valid(1, splits) && PostAllow(b, org, key, event, 100, FairPayouts(1, splits), now).result.Err?
  {
    var x, y := Split("a", 5000), Split("b", 5000);
    var splits := [x, y];
    Pair(x, y, Bps());
    PaidCents(1, splits);
    var payouts := FairPayouts(1, splits);
    Pair(payouts[0], payouts[1], LineCents());
    PostSplitEffect(b, org, key, event, EXPENSE_CODE, 100, payouts, now);
  }
}
