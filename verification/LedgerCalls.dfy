/** The calls of the ledger one by one: exactly which postings, reversals and accounts it takes, what
    it says of the others, and what it writes; and what a used key answers from then on.
    services/ledger/ledger-service-core.ts, with the constraints of migrations/002_ledger_schema.sql. */
module LedgerCalls {
  import opened Sums
  import opened Ledger

  // ---------------------------------------------------------------- posting

  /** All that the lines put on one side. */
  function Total(lines: seq<Line>, side: Side): int {
    if lines == [] then 0
    else
      var n := |lines| - 1;
      Total(lines[..n], side) + if lines[n].side == side then lines[n].amount else 0
  }

  lemma {:induction false} TotalIsSum(lines: seq<Line>)
    ensures Total(lines, Debit) == Sum(lines, DebitOf()) && Total(lines, Credit) == Sum(lines, CreditOf())
  {
    if lines != [] {
      TotalIsSum(lines[..|lines| - 1]);
    }
  }

  /** What a posting asks for that depends on the request alone, in the order of the checks. */
  ghost predicate WellAsked(key: Option<string>, reference: Reference) {
    key != Some("") && reference != Text("")
  }

  ghost predicate Balances(lines: seq<Line>) {
    0 < Total(lines, Debit) == Total(lines, Credit)
  }

  ghost predicate RowHolds(key: Option<string>, reference: Reference) {
    (key.Some? ==> |key.value| <= 255) && (reference.Text? ==> |reference.text| <= 100)
  }

  /** A stored response answers the key. */
  ghost predicate Answered(b: Books, key: Option<string>, now: int) {
    key.Some? && key.value in b.saved && now < b.saved[key.value].expiresAt
  }

  ghost predicate Used(b: Books, key: Option<string>) {
    key.Some? && exists i :: 0 <= i < |b.txns| && b.txns[i].key == key
  }

  /** The line is on an account of the organization, for an amount its column holds. */
  ghost predicate Insertable(b: Books, org: string, l: Line) {
    l.account < |b.accounts| && b.accounts[l.account].org == org && 0 < l.amount < 10_000_000_000_000_000_000
  }

  ghost predicate AllInsertable(b: Books, org: string, lines: seq<Line>) {
    forall i :: 0 <= i < |lines| ==> Insertable(b, org, lines[i])
  }

  /** The books with one transaction more: its row, one entry for each of its lines in order, and a
      response kept for a day if it has a key. */
  ghost predicate Added(b: Books, org: string, key: Option<string>, reference: Reference, lines: seq<Line>, now: int, b': Books) {
    && b'.accounts == b.accounts
    && b'.txns == b.txns + [Txn(org, Posted, key, reference)]
    && |b'.entries| == |b.entries| + |lines| && b.entries <= b'.entries
    && (forall i :: 0 <= i < |lines| ==> b'.entries[|b.entries| + i] == Entry(|b.txns|, lines[i]))
    && b'.saved == match key
                   case None => b.saved
                   case Some(k) => b.saved[k := Saved(|b.txns|, now + 86_400)]
  }

  lemma AppendedIsAdded(b: Books, org: string, key: Option<string>, reference: Reference, lines: seq<Line>, now: int)
    ensures Added(b, org, key, reference, lines, now, Appended(b, org, key, reference, lines, now))
  {
  }

  lemma NoneRefused(b: Books, org: string, lines: seq<Line>)
    ensures FirstRefused(b.accounts, org, lines).None? <==> AllInsertable(b, org, lines)
  {
    assert forall i :: 0 <= i < |lines| ==> (Insertable(b, org, lines[i]) <==> LineAccepted(b.accounts, org, lines[i]));
  }

  /** A posting is taken exactly when it is well asked, balances, fits its row, and has a new key and
      lines that can be inserted; and a stored response is given again. */
  lemma PostExactly(b: Books, org: string, key: Option<string>, reference: Reference, lines: seq<Line>, now: int)
    ensures var (o, asked) := (Post(b, org, key, reference, lines, now), WellAsked(key, reference) && !Answered(b, key, now));
            && (WellAsked(key, reference) && Answered(b, key, now) ==> o == Outcome(b, Ok(b.saved[key.value].txn)))
            && (asked && o.result.Ok? <==>
                  asked && Balances(lines) && RowHolds(key, reference) && !Used(b, key) && AllInsertable(b, org, lines))
            && (asked && o.result.Ok? ==> o.result.value == |b.txns| && Added(b, org, key, reference, lines, now, o.books))
            && (o.result.Err? ==> o.books == b)
  {
    TotalIsSum(lines);
    NoneRefused(b, org, lines);
    if FirstRefused(b.accounts, org, lines).None? {
      AppendedIsAdded(b, org, key, reference, lines, now);
    }
  }

  /** Each refusal of a posting has its own condition; of the lines, the first that cannot be
      inserted is named, with its reason. */
  lemma PostRefusals(b: Books, org: string, key: Option<string>, reference: Reference, lines: seq<Line>, now: int)
    ensures var (r, asked) := (Post(b, org, key, reference, lines, now).result, WellAsked(key, reference) && !Answered(b, key, now));
            && (r == Err(RequestRefused) <==> !WellAsked(key, reference))
            && (r == Err(Unbalanced) <==> asked && !Balances(lines))
            && (r == Err(RowRefused) <==> asked && Balances(lines) && !RowHolds(key, reference))
            && (r == Err(DuplicateKey) <==> asked && Balances(lines) && RowHolds(key, reference) && Used(b, key))
            && (r.Err? && (r.error.AccountNotFound? || r.error.AmountRefused?) <==>
                  asked && Balances(lines) && RowHolds(key, reference) && !Used(b, key) && !AllInsertable(b, org, lines))
            && (r.Err? && (r.error.AccountNotFound? || r.error.AmountRefused?) ==>
                  var i := r.error.line;
                  && i < |lines| && !Insertable(b, org, lines[i]) && AllInsertable(b, org, lines[..i])
                  && (r.error.AccountNotFound? <==> !(lines[i].account < |b.accounts| && b.accounts[lines[i].account].org == org)))
  {
    TotalIsSum(lines);
    NoneRefused(b, org, lines);
  }

  // ---------------------------------------------------------------- a used key

  /** The key is on its transaction, and its stored response is that of its posting. */
  ghost predicate Keeps(b: Books, key: string, txn: nat, until: int) {
    && txn < |b.txns| && b.txns[txn].key == Some(key)
    && key in b.saved && b.saved[key] == Saved(txn, until)
  }

  lemma PostKeeps(b: Books, org: string, k: Option<string>, reference: Reference, lines: seq<Line>, now: int, key: string, txn: nat, until: int)
    requires Keeps(b, key, txn, until)
    ensures Keeps(Post(b, org, k, reference, lines, now).books, key, txn, until)
  {
    var b' := Post(b, org, k, reference, lines, now).books;
    if b' != b && k == Some(key) {
      assert KeyTaken(b.txns, k);
    }
  }

  lemma ApplyKeeps(b: Books, c: Command, key: string, txn: nat, until: int)
    requires Keeps(b, key, txn, until)
    ensures Keeps(Apply(b, c), key, txn, until)
  {
    match c
    case OpenAccount(_, _) =>
    case PostLines(org, k, reference, lines, now) => PostKeeps(b, org, k, reference, lines, now, key, txn, until);
    case ReverseTxn(org, t, now) => PostKeeps(b, org, None, Original(t), OppositeLines(LinesOf(b.entries, t)), now, key, txn, until);
  }

  lemma {:induction false} RunKeeps(b: Books, cs: seq<Command>, key: string, txn: nat, until: int)
    requires Keeps(b, key, txn, until)
    ensures Keeps(Run(b, cs), key, txn, until)
  {
    if cs != [] {
      RunKeeps(b, cs[..|cs| - 1], key, txn, until);
      ApplyKeeps(Run(b, cs[..|cs| - 1]), cs[|cs| - 1], key, txn, until);
    }
  }

  /** After a posting under a key, whatever runs in between, a well-asked posting under it is
      answered for a day with the same transaction, whatever else it asks; and from then on it is
      refused, as a duplicate if it could be posted at all. It never changes anything. */
  lemma KeyAnswersForever(b: Books, org: string, key: string, reference: Reference, lines: seq<Line>, now: int, cs: seq<Command>,
                          org': string, reference': Reference, lines': seq<Line>, later: int)
    requires Post(b, org, Some(key), reference, lines, now).books != b && WellAsked(Some(key), reference')
    ensures var b' := Run(Post(b, org, Some(key), reference, lines, now).books, cs);
            Post(b', org', Some(key), reference', lines', later)
            == Outcome(b', if later < now + 86_400 then Ok(|b.txns|)
                           else if !Balances(lines') then Err(Unbalanced)
                           else if !RowHolds(Some(key), reference') then Err(RowRefused)
                           else Err(DuplicateKey))
  {
    var posted := Post(b, org, Some(key), reference, lines, now).books;
    PostExactly(b, org, Some(key), reference, lines, now);
    assert Keeps(posted, key, |b.txns|, now + 86_400);
    RunKeeps(posted, cs, key, |b.txns|, now + 86_400);
    var b' := Run(posted, cs);
    assert b'.txns[|b.txns|].key == Some(key);
    PostExactly(b', org', Some(key), reference', lines', later);
    PostRefusals(b', org', Some(key), reference', lines', later);
  }

  // ---------------------------------------------------------------- reversals and accounts

  /** The lines with debits and credits exchanged. */
  ghost predicate Mirrors(lines: seq<Line>, mirrored: seq<Line>) {
    && |mirrored| == |lines|
    && forall i :: 0 <= i < |lines| ==>
         mirrored[i].account == lines[i].account && mirrored[i].amount == lines[i].amount && mirrored[i].side != lines[i].side
  }

  /** In well-formed books a reversal is taken exactly for a transaction of the organization: a new
      transaction that refers to it, with its lines mirrored and no key, and the original marked. */
  lemma ReverseExactly(b: Books, org: string, txn: nat, now: int)
    requires WellFormed(b)
    ensures var o := Reverse(b, org, txn, now);
            if txn < |b.txns| && b.txns[txn].org == org then
              && o.result == Ok(|b.txns|)
              && Mirrors(LinesOf(b.entries, txn), OppositeLines(LinesOf(b.entries, txn)))
              && |o.books.txns| == |b.txns| + 1
              && Added(b, org, None, Original(txn), OppositeLines(LinesOf(b.entries, txn)), now,
                       o.books.(txns := o.books.txns[txn := b.txns[txn]]))
              && o.books.txns[txn] == b.txns[txn].(status := Reversed)
            else o == Outcome(b, Err(TransactionNotFound))
  {
    if txn < |b.txns| && b.txns[txn].org == org {
      ReversalAlwaysPosts(b, org, txn, now);
      var lines := OppositeLines(LinesOf(b.entries, txn));
      AppendedIsAdded(b, org, None, Original(txn), lines, now);
      assert lines != [] by {
        assert TxnBalanced(b, txn);
      }
      var posted := Appended(b, org, None, Original(txn), lines, now);
      assert posted.txns[txn := posted.txns[txn].(status := Reversed)][txn := b.txns[txn]] == posted.txns;
    }
  }

  /** In any books, a transaction without entries is not reversed, nor one whose mirrored lines the
      ledger does not take, whose refusal is passed on; and nothing changes. */
  lemma ReverseRefusals(b: Books, org: string, txn: nat, now: int)
    requires txn < |b.txns| && b.txns[txn].org == org
    requires var lines := OppositeLines(LinesOf(b.entries, txn)); lines == [] || Post(b, org, None, Original(txn), lines, now).result.Err?
    ensures Reverse(b, org, txn, now)
            == Outcome(b, if LinesOf(b.entries, txn) == [] then Err(NoEntries)
                          else Post(b, org, None, Original(txn), OppositeLines(LinesOf(b.entries, txn)), now).result)
  {
    PostExactly(b, org, None, Original(txn), OppositeLines(LinesOf(b.entries, txn)), now);
  }

  /** An account is opened exactly under a code of one to twenty characters that the organization
      does not have yet. */
  lemma OpenExactly(b: Books, org: string, code: string)
    ensures var (o, known) := (CreateAccount(b, org, code), exists i :: 0 <= i < |b.accounts| && b.accounts[i].org == org && b.accounts[i].code == code);
            && (o.result == Err(CodeRefused) <==> !(1 <= |code| <= 20))
            && (o.result == Err(DuplicateAccount) <==> 1 <= |code| <= 20 && known)
            && (o.result.Err? ==> o.books == b && o.result.error in {CodeRefused, DuplicateAccount})
            && (o.result.Ok? ==> o.result.value == |b.accounts| && o.books == b.(accounts := b.accounts + [Account(org, code)]))
  {
    if i :| 0 <= i < |b.accounts| && b.accounts[i].org == org && b.accounts[i].code == code {
      assert b.accounts[i] == Account(org, code);
    }
  }
}
