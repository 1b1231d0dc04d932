/** The ledger service on its tables: statements that insert row by row and a transaction
    that rolls back, proved against the operations of module Ledger.
    services/ledger/ledger-service-core.ts:139-352,423-498. */
module LedgerService {
  import opened Sums
  import opened Ledger

  class Service {
    var accounts: seq<Account>
    var txns: seq<Txn>
    var entries: seq<Entry>
    var saved: map<string, Saved>

    function Tables(): Books
      reads this
    {
      Books(accounts, txns, entries, saved)
    }

    /** Every journal entry belongs to a transaction row. */
    ghost predicate Valid()
      reads this
    {
      forall i :: 0 <= i < |entries| ==> entries[i].txn < |txns|
    }

    constructor ()
      ensures Valid() && Tables() == EMPTY_BOOKS
    {
      accounts, txns, entries, saved := [], [], [], map[];
    }

    method OpenAccount(org: string, code: string) returns (r: Result<nat>)
      requires Valid()
      modifies this`accounts
      ensures Valid()
      ensures r == CreateAccount(old(Tables()), org, code).result
      ensures Tables() == CreateAccount(old(Tables()), org, code).books
    {
      if !CodeFits(code) {
        return Err(CodeRefused);
      }
      if AccountTaken(accounts, org, code) {
        return Err(DuplicateAccount);
      }
      accounts := accounts + [Account(org, code)];
      r := Ok(|accounts| - 1);
    }

    /** Accumulates both sides of the requested lines. */
    static method ValidateBalance(lines: seq<Line>) returns (ok: bool)
      ensures ok <==> Balanced(lines)
    {
      var debitSum, creditSum := 0, 0;
      for i := 0 to |lines|
        invariant debitSum == Sum(lines[..i], DebitOf())
        invariant creditSum == Sum(lines[..i], CreditOf())
      {
        assert lines[..i + 1][..i] == lines[..i];
        if lines[i].side == Debit {
          debitSum := debitSum + lines[i].amount;
        } else {
          creditSum := creditSum + lines[i].amount;
        }
      }
      assert lines[..|lines|] == lines;
      ok := debitSum == creditSum && debitSum > 0;
    }

    /** check_transaction_balanced: the same test, over the rows just inserted. */
    method VerifyTransactionBalance(txn: nat) returns (ok: bool)
      ensures ok <==> Balanced(LinesOf(entries, txn))
    {
      var debitSum, creditSum := 0, 0;
      for i := 0 to |entries|
        invariant debitSum == Sum(LinesOf(entries[..i], txn), DebitOf())
        invariant creditSum == Sum(LinesOf(entries[..i], txn), CreditOf())
      {
        assert entries[..i + 1][..i] == entries[..i];
        var front := LinesOf(entries[..i], txn);
        assert front + [] == front;
        if entries[i].txn == txn {
          Append(front, entries[i].line, DebitOf());
          Append(front, entries[i].line, CreditOf());
          if entries[i].line.side == Debit {
            debitSum := debitSum + entries[i].line.amount;
          } else {
            creditSum := creditSum + entries[i].line.amount;
          }
        }
      }
      assert entries[..|entries|] == entries;
      ok := debitSum == creditSum && debitSum > 0;
    }

    /** The insert loop: on the first refused line it stops with the earlier ones inserted. */
    method InsertEntries(org: string, txn: nat, lines: seq<Line>) returns (failure: Option<LedgerError>)
      modifies this`entries
      ensures failure == FirstRefused(accounts, org, lines)
      ensures failure == None ==> entries == old(entries) + EntriesFor(txn, lines)
    {
      for i := 0 to |lines|
        invariant FirstRefused(accounts, org, lines[..i]) == None
        invariant entries == old(entries) + EntriesFor(txn, lines[..i])
      {
        FirstRefusedStep(accounts, org, lines, i);
        var line := lines[i];
        if !OnOwnAccount(accounts, org, line) {
          return Some(AccountNotFound(i));
        }
        if line.amount <= 0 || line.amount >= AMOUNT_LIMIT {
          return Some(AmountRefused(i));
        }
        entries := entries + [Entry(txn, line)];
        EntriesForStep(txn, lines, i);
      }
      assert lines[..|lines|] == lines;
      failure := None;
    }

    /** The transaction row, its entries, and the sanity check over what was inserted, which can
        never find the corruption it looks for. */
    method InsertRows(org: string, key: Option<string>, reference: Reference, lines: seq<Line>) returns (r: Result<nat>)
      requires Valid() && Balanced(lines)
      modifies this`txns, this`entries
      ensures var refused := FirstRefused(accounts, org, lines);
              r == if refused.Some? then Err(refused.value) else Ok(|old(txns)|)
      ensures r.Ok? ==> txns == old(txns) + [Txn(org, Posted, key, reference)]
      ensures r.Ok? ==> entries == old(entries) + EntriesFor(|old(txns)|, lines)
      ensures r.Ok? ==> Valid()
    {
      var txn := |txns|;
      txns := txns + [Txn(org, Posted, key, reference)];
      var failure := InsertEntries(org, txn, lines);
      if failure.Some? {
        return Err(failure.value);
      }
      InsertedLines(old(entries), txn, lines);
      var stillBalanced := VerifyTransactionBalance(txn);
      if !stillBalanced {
        assert false;
        return Err(CorruptedAfterInsert);
      }
      r := Ok(txn);
    }

    /** Posting inside an open transaction. On an error the tables may hold part of the work. */
    method PostWithClient(org: string, key: Option<string>, reference: Reference, lines: seq<Line>, now: int) returns (r: Result<nat>)
      requires Valid()
      modifies this
      ensures r.Ok? ==> Valid()
      ensures r == Post(old(Tables()), org, key, reference, lines, now).result
      ensures r.Ok? ==> Tables() == Post(old(Tables()), org, key, reference, lines, now).books
    {
      if Malformed(key, reference) {
        return Err(RequestRefused);
      }
      if key.Some? && key.value in saved && saved[key.value].expiresAt > now {
        return Ok(saved[key.value].txn);
      }
      var balanced := ValidateBalance(lines);
      if !balanced {
        return Err(Unbalanced);
      }
      if !ColumnsAccept(key, reference) {
        return Err(RowRefused);
      }
      if KeyTaken(txns, key) {
        return Err(DuplicateKey);
      }
      r := InsertRows(org, key, reference, lines);
      if r.Ok? && key.Some? {
        saved := saved[key.value := Saved(r.value, now + SAVED_SECONDS)];
      }
    }

    /** BEGIN, post, COMMIT; on any error ROLLBACK restores every table. */
    method PostTransaction(org: string, key: Option<string>, reference: Reference, lines: seq<Line>, now: int) returns (r: Result<nat>)
      requires Valid()
      modifies this
      ensures Valid()
      ensures r == Post(old(Tables()), org, key, reference, lines, now).result
      ensures Tables() == Post(old(Tables()), org, key, reference, lines, now).books
    {
      var begin := Tables();
      r := PostWithClient(org, key, reference, lines, now);
      if r.Err? {
        accounts, txns, entries, saved := begin.accounts, begin.txns, begin.entries, begin.saved;
      }
    }

    method ReverseTransaction(org: string, txn: nat, now: int) returns (r: Result<nat>)
      requires Valid()
      modifies this
      ensures Valid()
      ensures r == Reverse(old(Tables()), org, txn, now).result
      ensures Tables() == Reverse(old(Tables()), org, txn, now).books
    {
      var begin := Tables();
      if !(txn < |txns| && txns[txn].org == org) {
        return Err(TransactionNotFound);
      }
      var original := SelectLines(txn);
      if original == [] {
        return Err(NoEntries);
      }
      r := PostWithClient(org, None, Original(txn), OppositeLines(original), now);
      if r.Err? {
        accounts, txns, entries, saved := begin.accounts, begin.txns, begin.entries, begin.saved;
        return;
      }
      txns := txns[txn := txns[txn].(status := Reversed)];
    }

    method SelectLines(txn: nat) returns (lines: seq<Line>)
      ensures lines == LinesOf(entries, txn)
    {
      lines := [];
      for i := 0 to |entries|
        invariant lines == LinesOf(entries[..i], txn)
      {
        assert entries[..i + 1][..i] == entries[..i];
        if entries[i].txn == txn {
          lines := lines + [entries[i].line];
        }
      }
      assert entries[..|entries|] == entries;
    }

    method NetOf(weight: Entry -> int) returns (net: int)
      ensures net == Sum(entries, weight)
    {
      net := 0;
      for i := 0 to |entries|
        invariant net == Sum(entries[..i], weight)
      {
        assert entries[..i + 1][..i] == entries[..i];
        net := net + weight(entries[i]);
      }
      assert entries[..|entries|] == entries;
    }

    /** A row of the discrepancy query: a posted transaction whose entries do not net to zero. */
    predicate Disagrees(org: string, t: nat)
      reads this
    {
      t < |txns| && txns[t].org == org && txns[t].status == Posted && Sum(entries, TxnNet(t)) != 0
    }

    /** Totals the trial balance and lists the posted transactions that do not net to zero. */
    method Reconcile(org: string) returns (isBalanced: bool, discrepancies: seq<nat>)
      ensures isBalanced <==> TrialTotal(accounts, entries, org, |accounts|) == 0
      ensures forall i :: 0 <= i < |discrepancies| ==> Disagrees(org, discrepancies[i])
      ensures forall t: nat :: Disagrees(org, t) ==> t in discrepancies
    {
      var total := 0;
      for a := 0 to |accounts|
        invariant total == TrialTotal(accounts, entries, org, a)
      {
        if accounts[a].org == org {
          var balance := NetOf(AccountNet(a));
          total := total + balance;
        }
      }
      isBalanced := total == 0;
      discrepancies := [];
      for t := 0 to |txns|
        invariant forall i :: 0 <= i < |discrepancies| ==> Disagrees(org, discrepancies[i])
        invariant forall u: nat :: u < t && Disagrees(org, u) ==> u in discrepancies
      {
        if txns[t].org == org && txns[t].status == Posted {
          var net := NetOf(TxnNet(t));
          if net != 0 {
            discrepancies := discrepancies + [t];
          }
        }
      }
    }

    /** On any ledger the service itself built, reconciliation finds nothing. */
    method ReconcileReachable(org: string, ghost history: seq<Command>) returns (isBalanced: bool, discrepancies: seq<nat>)
      requires Tables() == Run(EMPTY_BOOKS, history)
      ensures isBalanced && discrepancies == []
    {
      EveryRunBalances(history);
      TrialTotalIsOrgNet(accounts, entries, org);
      assert OrgBalanced(Tables(), org);
      forall t: nat | t < |txns|
        ensures Sum(entries, TxnNet(t)) == 0
      {
        assert TxnBalanced(Tables(), t);
      }
      assert forall t: nat :: !Disagrees(org, t);
      isBalanced, discrepancies := Reconcile(org);
      assert discrepancies == [] || Disagrees(org, discrepancies[0]);
    }
  }

  lemma {:induction false} FirstRefusedStays(accounts: seq<Account>, org: string, lines: seq<Line>, n: nat)
    requires n <= |lines| && FirstRefused(accounts, org, lines[..n]).Some?
    ensures FirstRefused(accounts, org, lines) == FirstRefused(accounts, org, lines[..n])
    decreases |lines|
  {
    if n < |lines| {
      var m := |lines| - 1;
      assert lines[..m][..n] == lines[..n];
      FirstRefusedStays(accounts, org, lines[..m], n);
    } else {
      assert lines[..n] == lines;
    }
  }

  /** What the insert loop finds at line i when it refused none before. */
  lemma FirstRefusedStep(accounts: seq<Account>, org: string, lines: seq<Line>, i: nat)
    requires i < |lines| && FirstRefused(accounts, org, lines[..i]) == None
    ensures var known := lines[i].account < |accounts| && accounts[lines[i].account].org == org;
            && (!known ==> FirstRefused(accounts, org, lines) == Some(AccountNotFound(i)))
            && (known && !(0 < lines[i].amount < AMOUNT_LIMIT) ==> FirstRefused(accounts, org, lines) == Some(AmountRefused(i)))
            && (known && 0 < lines[i].amount < AMOUNT_LIMIT ==> FirstRefused(accounts, org, lines[..i + 1]) == None)
  {
    assert lines[..i + 1][..i] == lines[..i];
    if FirstRefused(accounts, org, lines[..i + 1]).Some? {
      FirstRefusedStays(accounts, org, lines, i + 1);
    }
  }

  lemma EntriesForStep(txn: nat, lines: seq<Line>, i: nat)
    requires i < |lines|
    ensures EntriesFor(txn, lines[..i + 1]) == EntriesFor(txn, lines[..i]) + [Entry(txn, lines[i])]
  {
  }

  /** The rows of a transaction just inserted are the requested lines. */
  lemma InsertedLines(before: seq<Entry>, txn: nat, lines: seq<Line>)
    requires forall i :: 0 <= i < |before| ==> before[i].txn < txn
    ensures LinesOf(before + EntriesFor(txn, lines), txn) == lines
  {
    LinesOfConcat(before, EntriesFor(txn, lines), txn);
    LinesOfNew(txn, lines, txn);
    NoLinesYet(before, txn);
  }
}
