/** The double-entry ledger: posting, reversal and reconciliation.
    services/ledger/ledger-service-core.ts, with the constraints of migrations/002_ledger_schema.sql.

    Amounts are integers in ten-thousandths of the currency unit, the precision of the NUMERIC(19,4)
    columns. A row's id is its position in its table. */
module Ledger {
  import opened Sums

  datatype Option<+T> = None | Some(value: T)
  datatype Side = Debit | Credit
  datatype TxnStatus = Posted | Reversed

  datatype Account = Account(org: string, code: string)
  datatype Line = Line(account: nat, side: Side, amount: int)

  /** What a transaction row refers to: nothing, a text of the caller's, or for a reversal the id of
      the original. */
  datatype Reference = NoReference | Text(text: string) | Original(txn: nat)
  datatype Txn = Txn(org: string, status: TxnStatus, key: Option<string>, reference: Reference)
  datatype Entry = Entry(txn: nat, line: Line)
  datatype Saved = Saved(txn: nat, expiresAt: int)

  /** The four tables the service writes. */
  datatype Books = Books(accounts: seq<Account>, txns: seq<Txn>, entries: seq<Entry>, saved: map<string, Saved>)

  datatype LedgerError =
    | Unbalanced
    | DuplicateKey
    | DuplicateAccount
    | CodeRefused
    | AccountNotFound(line: nat)
    | AmountRefused(line: nat)
    | RequestRefused
    | RowRefused
    | TransactionNotFound
    | NoEntries
    | CorruptedAfterInsert
  datatype Result<+T> = Ok(value: T) | Err(error: LedgerError)

  const EMPTY_BOOKS := Books([], [], [], map[])
  const SAVED_SECONDS := 24 * 60 * 60
  const MAX_CODE := 20
  const MAX_KEY := 255
  const MAX_REFERENCE := 100

  /** The amounts a NUMERIC(19,4) column holds are below 10^15 units. */
  const AMOUNT_LIMIT := 10_000_000_000_000_000_000

  // ---------------------------------------------------------------- sums over lines and entries

  function Signed(l: Line): int {
    if l.side == Debit then l.amount else -l.amount
  }

  function DebitOf(): Line -> int {
    (l: Line) => if l.side == Debit then l.amount else 0
  }

  function CreditOf(): Line -> int {
    (l: Line) => if l.side == Debit then 0 else l.amount
  }

  function SignedOf(): Line -> int {
    (l: Line) => Signed(l)
  }

  /** validateTransactionBalance: debits equal credits and are positive. */
  predicate Balanced(lines: seq<Line>) {
    Sum(lines, DebitOf()) == Sum(lines, CreditOf()) && Sum(lines, DebitOf()) > 0
  }

  function AccountNet(account: nat): Entry -> int {
    (e: Entry) => if e.line.account == account then Signed(e.line) else 0
  }

  function TxnNet(txn: nat): Entry -> int {
    (e: Entry) => if e.txn == txn then Signed(e.line) else 0
  }

  function TxnAccountNet(txn: nat, account: nat): Entry -> int {
    (e: Entry) => if e.txn == txn && e.line.account == account then Signed(e.line) else 0
  }

  function OrgNet(accounts: seq<Account>, org: string): Entry -> int {
    (e: Entry) => if e.line.account < |accounts| && accounts[e.line.account].org == org then Signed(e.line) else 0
  }

  /** An account's balance in the trial balance: debits minus credits. */
  function Balance(b: Books, account: nat): int {
    Sum(b.entries, AccountNet(account))
  }

  function EntriesFor(txn: nat, lines: seq<Line>): seq<Entry> {
    seq(|lines|, i requires 0 <= i < |lines| => Entry(txn, lines[i]))
  }

  function LinesOf(entries: seq<Entry>, txn: nat): seq<Line> {
    if entries == [] then []
    else
      var n := |entries| - 1;
      LinesOf(entries[..n], txn) + if entries[n].txn == txn then [entries[n].line] else []
  }

  function Opposite(l: Line): Line {
    l.(side := if l.side == Debit then Credit else Debit)
  }

  function OppositeLines(lines: seq<Line>): seq<Line> {
    seq(|lines|, i requires 0 <= i < |lines| => Opposite(lines[i]))
  }

  // ---------------------------------------------------------------- the operations, as functions

  datatype Outcome = Outcome(books: Books, result: Result<nat>)

  predicate KeyTaken(txns: seq<Txn>, key: Option<string>) {
    key.Some? && exists i :: 0 <= i < |txns| && txns[i].key == key
  }

  predicate OnOwnAccount(accounts: seq<Account>, org: string, l: Line) {
    l.account < |accounts| && accounts[l.account].org == org
  }

  predicate LineAccepted(accounts: seq<Account>, org: string, l: Line) {
    OnOwnAccount(accounts, org, l) && 0 < l.amount < AMOUNT_LIMIT
  }

  /** The first line the insert loop refuses, and what it refuses it for. */
  function FirstRefused(accounts: seq<Account>, org: string, lines: seq<Line>): (e: Option<LedgerError>)
    ensures e == None <==> forall i :: 0 <= i < |lines| ==> LineAccepted(accounts, org, lines[i])
    ensures e.Some? ==> e.value.AccountNotFound? || e.value.AmountRefused?
    ensures e.Some? ==>
      var i := e.value.line;
      && i < |lines| && !LineAccepted(accounts, org, lines[i])
      && (e.value.AccountNotFound? <==> !OnOwnAccount(accounts, org, lines[i]))
      && (forall j :: 0 <= j < i ==> LineAccepted(accounts, org, lines[j]))
  {
    if lines == [] then None
    else
      var n := |lines| - 1;
      assert forall i :: 0 <= i < n ==> lines[..n][i] == lines[i];
      var earlier := FirstRefused(accounts, org, lines[..n]);
      if earlier.Some? then earlier
      else if !OnOwnAccount(accounts, org, lines[n]) then Some(AccountNotFound(n))
      else if lines[n].amount <= 0 || lines[n].amount >= AMOUNT_LIMIT then Some(AmountRefused(n))
      else None
  }

  predicate Replays(b: Books, key: Option<string>, now: int) {
    key.Some? && key.value in b.saved && b.saved[key.value].expiresAt > now
  }

  function Appended(b: Books, org: string, key: Option<string>, reference: Reference, lines: seq<Line>, now: int): Books {
    var txn := |b.txns|;
    b.(txns := b.txns + [Txn(org, Posted, key, reference)],
       entries := b.entries + EntriesFor(txn, lines),
       saved := if key.Some? then b.saved[key.value := Saved(txn, now + SAVED_SECONDS)] else b.saved)
  }

  /** The request schema refuses an empty key or reference. */
  predicate Malformed(key: Option<string>, reference: Reference) {
    key == Some("") || reference == Text("")
  }

  /** The columns of a transaction row accept the key and the reference. */
  predicate ColumnsAccept(key: Option<string>, reference: Reference) {
    (key.Some? ==> |key.value| <= MAX_KEY) && (reference.Text? ==> |reference.text| <= MAX_REFERENCE)
  }

  function Post(b: Books, org: string, key: Option<string>, reference: Reference, lines: seq<Line>, now: int): Outcome {
    if Malformed(key, reference) then Outcome(b, Err(RequestRefused))
    else if Replays(b, key, now) then Outcome(b, Ok(b.saved[key.value].txn))
    else if !Balanced(lines) then Outcome(b, Err(Unbalanced))
    else if !ColumnsAccept(key, reference) then Outcome(b, Err(RowRefused))
    else if KeyTaken(b.txns, key) then Outcome(b, Err(DuplicateKey))
    else if FirstRefused(b.accounts, org, lines).Some? then Outcome(b, Err(FirstRefused(b.accounts, org, lines).value))
    else Outcome(Appended(b, org, key, reference, lines, now), Ok(|b.txns|))
  }

  function Reverse(b: Books, org: string, txn: nat, now: int): Outcome {
    if !(txn < |b.txns| && b.txns[txn].org == org) then Outcome(b, Err(TransactionNotFound))
    else if LinesOf(b.entries, txn) == [] then Outcome(b, Err(NoEntries))
    else
      var posted := Post(b, org, None, Original(txn), OppositeLines(LinesOf(b.entries, txn)), now);
      if posted.result.Err? || txn >= |posted.books.txns| then Outcome(b, posted.result)
      else posted.(books := posted.books.(txns := posted.books.txns[txn := posted.books.txns[txn].(status := Reversed)]))
  }

  predicate AccountTaken(accounts: seq<Account>, org: string, code: string) {
    exists i :: 0 <= i < |accounts| && accounts[i] == Account(org, code)
  }

  /** An account code that the request schema and the column accept. */
  predicate CodeFits(code: string) {
    0 < |code| <= MAX_CODE
  }

  function CreateAccount(b: Books, org: string, code: string): Outcome {
    if !CodeFits(code) then Outcome(b, Err(CodeRefused))
    else if AccountTaken(b.accounts, org, code) then Outcome(b, Err(DuplicateAccount))
    else Outcome(b.(accounts := b.accounts + [Account(org, code)]), Ok(|b.accounts|))
  }

  // ---------------------------------------------------------------- the invariant of the books

  ghost predicate EntryInOrder(b: Books, e: Entry) {
    && e.txn < |b.txns|
    && e.line.account < |b.accounts|
    && b.accounts[e.line.account].org == b.txns[e.txn].org
    && 0 < e.line.amount < AMOUNT_LIMIT
  }

  ghost predicate TxnBalanced(b: Books, txn: nat) {
    Sum(b.entries, TxnNet(txn)) == 0 && LinesOf(b.entries, txn) != []
  }

  ghost predicate OrgBalanced(b: Books, org: string) {
    Sum(b.entries, OrgNet(b.accounts, org)) == 0
  }

  ghost predicate WellFormed(b: Books) {
    && (forall i :: 0 <= i < |b.entries| ==> EntryInOrder(b, b.entries[i]))
    && (forall t: nat :: t < |b.txns| ==> TxnBalanced(b, t))
    && (forall org: string :: OrgBalanced(b, org))
    && (forall i, j :: 0 <= i < j < |b.txns| && b.txns[i].key.Some? ==> b.txns[i].key != b.txns[j].key)
    && (forall i, j :: 0 <= i < j < |b.accounts| ==> b.accounts[i] != b.accounts[j])
    && (forall i :: 0 <= i < |b.accounts| ==> CodeFits(b.accounts[i].code))
    && (forall k :: k in b.saved ==> b.saved[k].txn < |b.txns| && b.txns[b.saved[k].txn].key == Some(k))
  }

  // ---------------------------------------------------------------- lemmas about lines

  lemma {:induction false} SignedSum(lines: seq<Line>)
    ensures Sum(lines, SignedOf()) == Sum(lines, DebitOf()) - Sum(lines, CreditOf())
  {
    if lines != [] {
      SignedSum(lines[..|lines| - 1]);
    }
  }

  lemma {:induction false} OppositeSums(lines: seq<Line>)
    ensures Sum(OppositeLines(lines), DebitOf()) == Sum(lines, CreditOf())
    ensures Sum(OppositeLines(lines), CreditOf()) == Sum(lines, DebitOf())
  {
    SameTerms(OppositeLines(lines), lines, DebitOf(), CreditOf());
    SameTerms(OppositeLines(lines), lines, CreditOf(), DebitOf());
  }

  /** The lines of a transaction weigh what its entries weigh in the whole journal. */
  lemma {:induction false} LinesWeigh(entries: seq<Entry>, txn: nat, onLine: Line -> int, onEntry: Entry -> int)
    requires forall e: Entry :: onEntry(e) == if e.txn == txn then onLine(e.line) else 0
    ensures Sum(LinesOf(entries, txn), onLine) == Sum(entries, onEntry)
  {
    if entries != [] {
      var n := |entries| - 1;
      LinesWeigh(entries[..n], txn, onLine, onEntry);
      var front := LinesOf(entries[..n], txn);
      if entries[n].txn == txn {
        Append(front, entries[n].line, onLine);
      } else {
        assert front + [] == front;
      }
    }
  }

  lemma {:induction false} LinesComeFromEntries(entries: seq<Entry>, txn: nat, i: nat)
    requires i < |LinesOf(entries, txn)|
    ensures exists j :: 0 <= j < |entries| && entries[j] == Entry(txn, LinesOf(entries, txn)[i])
  {
    var n := |entries| - 1;
    if i < |LinesOf(entries[..n], txn)| {
      LinesComeFromEntries(entries[..n], txn, i);
      var j :| 0 <= j < n && entries[..n][j] == Entry(txn, LinesOf(entries[..n], txn)[i]);
      assert entries[j] == Entry(txn, LinesOf(entries, txn)[i]);
    }
  }

  lemma {:induction false} LinesOfConcat(entries: seq<Entry>, more: seq<Entry>, txn: nat)
    ensures LinesOf(entries + more, txn) == LinesOf(entries, txn) + LinesOf(more, txn)
  {
    if more == [] {
      assert entries + more == entries;
    } else {
      var n := |more| - 1;
      assert (entries + more)[..|entries| + n] == entries + more[..n];
      LinesOfConcat(entries, more[..n], txn);
    }
  }

  lemma {:induction false} LinesOfNew(txn: nat, lines: seq<Line>, t: nat)
    ensures LinesOf(EntriesFor(txn, lines), t) == if t == txn then lines else []
  {
    if lines != [] {
      var n := |lines| - 1;
      assert EntriesFor(txn, lines)[..n] == EntriesFor(txn, lines[..n]);
      LinesOfNew(txn, lines[..n], t);
      assert lines == lines[..n] + [lines[n]];
    }
  }

  lemma {:induction false} NoLinesYet(entries: seq<Entry>, txn: nat)
    requires forall i :: 0 <= i < |entries| ==> entries[i].txn < txn
    ensures LinesOf(entries, txn) == []
  {
    if entries != [] {
      var n := |entries| - 1;
      assert forall i :: 0 <= i < n ==> entries[..n][i] == entries[i];
      NoLinesYet(entries[..n], txn);
    }
  }

  // ---------------------------------------------------------------- posting keeps the books

  function OnOrg(accounts: seq<Account>, org: string): Line -> int {
    (l: Line) => if l.account < |accounts| && accounts[l.account].org == org then Signed(l) else 0
  }

  function OnAccount(account: nat): Line -> int {
    (l: Line) => if l.account == account then Signed(l) else 0
  }

  /** What a posting adds to any account. */
  lemma PostMovesAccount(b: Books, org: string, key: Option<string>, reference: Reference, lines: seq<Line>, now: int, account: nat)
    ensures Balance(Appended(b, org, key, reference, lines, now), account) == Balance(b, account) + Sum(lines, OnAccount(account))
  {
    var added := EntriesFor(|b.txns|, lines);
    Concat(b.entries, added, AccountNet(account));
    SameTerms(added, lines, AccountNet(account), OnAccount(account));
  }

  lemma AppendedTxnsBalance(b: Books, org: string, key: Option<string>, reference: Reference, lines: seq<Line>, now: int, t: nat)
    requires WellFormed(b) && Balanced(lines)
    requires t < |b.txns| + 1
    ensures TxnBalanced(Appended(b, org, key, reference, lines, now), t)
  {
    var added := EntriesFor(|b.txns|, lines);
    LinesOfConcat(b.entries, added, t);
    LinesOfNew(|b.txns|, lines, t);
    var all := b.entries + added;
    LinesWeigh(all, t, SignedOf(), TxnNet(t));
    if t == |b.txns| {
      NoLinesYet(b.entries, t);
      assert LinesOf(all, t) == lines;
      SignedSum(lines);
      assert lines != [];
    } else {
      assert TxnBalanced(b, t);
      assert LinesOf(all, t) == LinesOf(b.entries, t);
      LinesWeigh(b.entries, t, SignedOf(), TxnNet(t));
    }
  }

  lemma AppendedOrgsBalance(b: Books, org: string, key: Option<string>, reference: Reference, lines: seq<Line>, now: int, o: string)
    requires WellFormed(b) && Balanced(lines)
    requires FirstRefused(b.accounts, org, lines) == None
    ensures OrgBalanced(Appended(b, org, key, reference, lines, now), o)
  {
    var added := EntriesFor(|b.txns|, lines);
    assert OrgBalanced(b, o);
    Concat(b.entries, added, OrgNet(b.accounts, o));
    SameTerms(added, lines, OrgNet(b.accounts, o), OnOrg(b.accounts, o));
    if o == org {
      SameWeights(lines, OnOrg(b.accounts, o), SignedOf());
      SignedSum(lines);
    } else {
      Zero(lines, OnOrg(b.accounts, o));
    }
  }

  lemma PostKeepsBooks(b: Books, org: string, key: Option<string>, reference: Reference, lines: seq<Line>, now: int)
    requires WellFormed(b)
    ensures WellFormed(Post(b, org, key, reference, lines, now).books)
  {
    var posted := Post(b, org, key, reference, lines, now);
    if posted.books != b {
      var b' := posted.books;
      forall t: nat | t < |b'.txns|
        ensures TxnBalanced(b', t)
      {
        AppendedTxnsBalance(b, org, key, reference, lines, now, t);
      }
      forall o: string
        ensures OrgBalanced(b', o)
      {
        AppendedOrgsBalance(b, org, key, reference, lines, now, o);
      }
      forall i | 0 <= i < |b'.entries|
        ensures EntryInOrder(b', b'.entries[i])
      {
        if i < |b.entries| {
          assert EntryInOrder(b, b.entries[i]);
        }
      }
    }
  }

  /** In well-formed books a transaction of the organization can always be reversed, any
      number of times: nothing looks at its status. */
  lemma ReversalAlwaysPosts(b: Books, org: string, txn: nat, now: int)
    requires WellFormed(b)
    requires txn < |b.txns| && b.txns[txn].org == org
    ensures Reverse(b, org, txn, now).result == Ok(|b.txns|)
    ensures var lines := OppositeLines(LinesOf(b.entries, txn));
            Post(b, org, None, Original(txn), lines, now) == Outcome(Appended(b, org, None, Original(txn), lines, now), Ok(|b.txns|))
  {
    var original := LinesOf(b.entries, txn);
    var lines := OppositeLines(original);
    assert TxnBalanced(b, txn);
    forall i | 0 <= i < |lines|
      ensures lines[i].account < |b.accounts| && b.accounts[lines[i].account].org == org && 0 < lines[i].amount < AMOUNT_LIMIT
    {
      LinesComeFromEntries(b.entries, txn, i);
      var j :| 0 <= j < |b.entries| && b.entries[j] == Entry(txn, original[i]);
      assert EntryInOrder(b, b.entries[j]);
    }
    OppositeSums(original);
    SignedSum(original);
    LinesWeigh(b.entries, txn, SignedOf(), TxnNet(txn));
    PositiveDebits(lines);
  }

  lemma PositiveDebits(lines: seq<Line>)
    requires lines != [] && forall i :: 0 <= i < |lines| ==> lines[i].amount > 0
    requires Sum(lines, DebitOf()) == Sum(lines, CreditOf())
    ensures Balanced(lines)
  {
    NonNegative(lines, DebitOf());
    NonNegative(lines, CreditOf());
    Member(lines, 0, DebitOf());
    Member(lines, 0, CreditOf());
  }

  lemma ReverseKeepsBooks(b: Books, org: string, txn: nat, now: int)
    requires WellFormed(b)
    ensures WellFormed(Reverse(b, org, txn, now).books)
  {
    if txn < |b.txns| && b.txns[txn].org == org {
      ReversalAlwaysPosts(b, org, txn, now);
      var lines := OppositeLines(LinesOf(b.entries, txn));
      PostKeepsBooks(b, org, None, Original(txn), lines, now);
      StatusChangeKeepsBooks(Appended(b, org, None, Original(txn), lines, now), txn);
    }
  }

  lemma StatusChangeKeepsBooks(b: Books, txn: nat)
    requires WellFormed(b) && txn < |b.txns|
    ensures WellFormed(b.(txns := b.txns[txn := b.txns[txn].(status := Reversed)]))
  {
    var b' := b.(txns := b.txns[txn := b.txns[txn].(status := Reversed)]);
    forall i | 0 <= i < |b'.entries|
      ensures EntryInOrder(b', b'.entries[i])
    {
      assert EntryInOrder(b, b.entries[i]);
    }
    forall t: nat | t < |b'.txns|
      ensures TxnBalanced(b', t)
    {
      assert TxnBalanced(b, t);
    }
    forall o: string
      ensures OrgBalanced(b', o)
    {
      assert OrgBalanced(b, o);
    }
  }

  lemma CreateAccountKeepsBooks(b: Books, org: string, code: string)
    requires WellFormed(b)
    ensures WellFormed(CreateAccount(b, org, code).books)
  {
    var b' := CreateAccount(b, org, code).books;
    forall i | 0 <= i < |b'.entries|
      ensures EntryInOrder(b', b'.entries[i])
    {
      assert EntryInOrder(b, b.entries[i]);
    }
    forall t: nat | t < |b'.txns|
      ensures TxnBalanced(b', t)
    {
      assert TxnBalanced(b, t);
    }
    forall o: string
      ensures OrgBalanced(b', o)
    {
      assert OrgBalanced(b, o);
      forall i | 0 <= i < |b.entries|
        ensures OrgNet(b.accounts, o)(b.entries[i]) == OrgNet(b'.accounts, o)(b.entries[i])
      {
        assert EntryInOrder(b, b.entries[i]);
      }
      SameWeights(b.entries, OrgNet(b.accounts, o), OrgNet(b'.accounts, o));
    }
  }

  /** A reversal takes back exactly what the original put on every account, and leaves every
      earlier journal entry as it was. */
  lemma ReversalCancels(b: Books, org: string, txn: nat, now: int, account: nat)
    requires WellFormed(b)
    requires txn < |b.txns| && b.txns[txn].org == org
    ensures var b' := Reverse(b, org, txn, now).books;
            && b.entries <= b'.entries
            && b'.txns[txn].status == Reversed
            && Balance(b', account) == Balance(b, account) - Sum(b.entries, TxnAccountNet(txn, account))
  {
    ReversalAlwaysPosts(b, org, txn, now);
    var original := LinesOf(b.entries, txn);
    PostMovesAccount(b, org, None, Original(txn), OppositeLines(original), now, account);
    OppositeOnAccount(original, account);
    LinesWeigh(b.entries, txn, OnAccount(account), TxnAccountNet(txn, account));
  }

  /** The reversal is itself a transaction that can be reversed: it nets to the opposite of the
      original on every account, in the books it leaves behind. */
  lemma ReversalIsOpposite(b: Books, org: string, txn: nat, now: int, account: nat)
    requires WellFormed(b)
    requires txn < |b.txns| && b.txns[txn].org == org
    ensures var after := Reverse(b, org, txn, now).books.entries;
            && Sum(after, TxnAccountNet(|b.txns|, account)) == -Sum(after, TxnAccountNet(txn, account))
            && Sum(after, TxnAccountNet(txn, account)) == Sum(b.entries, TxnAccountNet(txn, account))
  {
    ReversalAlwaysPosts(b, org, txn, now);
    var r, original := |b.txns|, LinesOf(b.entries, txn);
    var lines := OppositeLines(original);
    var after := Appended(b, org, None, Original(txn), lines, now).entries;
    AppendedLines(b, org, None, Original(txn), lines, now, txn);
    AppendedLines(b, org, None, Original(txn), lines, now, r);
    OppositeOnAccount(original, account);
    LinesWeigh(after, txn, OnAccount(account), TxnAccountNet(txn, account));
    LinesWeigh(after, r, OnAccount(account), TxnAccountNet(r, account));
    LinesWeigh(b.entries, txn, OnAccount(account), TxnAccountNet(txn, account));
  }

  lemma AppendedLines(b: Books, org: string, key: Option<string>, reference: Reference, lines: seq<Line>, now: int, t: nat)
    requires WellFormed(b) && t <= |b.txns|
    ensures LinesOf(Appended(b, org, key, reference, lines, now).entries, t) == if t == |b.txns| then lines else LinesOf(b.entries, t)
  {
    LinesOfConcat(b.entries, EntriesFor(|b.txns|, lines), t);
    LinesOfNew(|b.txns|, lines, t);
    if t == |b.txns| {
      assert forall i :: 0 <= i < |b.entries| ==> EntryInOrder(b, b.entries[i]);
      NoLinesYet(b.entries, t);
    }
  }

  lemma {:induction false} OppositeOnAccount(lines: seq<Line>, account: nat)
    ensures Sum(OppositeLines(lines), OnAccount(account)) == -Sum(lines, OnAccount(account))
  {
    if lines != [] {
      var n := |lines| - 1;
      assert OppositeLines(lines)[..n] == OppositeLines(lines[..n]);
      OppositeOnAccount(lines[..n], account);
    }
  }

  // ---------------------------------------------------------------- runs

  datatype Command =
    | OpenAccount(org: string, code: string)
    | PostLines(org: string, key: Option<string>, reference: Reference, lines: seq<Line>, now: int)
    | ReverseTxn(org: string, txn: nat, now: int)

  function Apply(b: Books, c: Command): Books {
    match c
    case OpenAccount(org, code) => CreateAccount(b, org, code).books
    case PostLines(org, key, reference, lines, now) => Post(b, org, key, reference, lines, now).books
    case ReverseTxn(org, txn, now) => Reverse(b, org, txn, now).books
  }

  function Run(b: Books, cs: seq<Command>): Books {
    if cs == [] then b else Apply(Run(b, cs[..|cs| - 1]), cs[|cs| - 1])
  }

  /** Every reachable ledger is well formed: each transaction balances and each organization
      nets to zero. */
  lemma {:induction false} EveryRunBalances(cs: seq<Command>)
    ensures WellFormed(Run(EMPTY_BOOKS, cs))
  {
    if cs == [] {
      assert forall o: string :: OrgBalanced(EMPTY_BOOKS, o);
    } else {
      var before, c := Run(EMPTY_BOOKS, cs[..|cs| - 1]), cs[|cs| - 1];
      EveryRunBalances(cs[..|cs| - 1]);
      match c
      case OpenAccount(org, code) => CreateAccountKeepsBooks(before, org, code);
      case PostLines(org, key, reference, lines, now) => PostKeepsBooks(before, org, key, reference, lines, now);
      case ReverseTxn(org, txn, now) => ReverseKeepsBooks(before, org, txn, now);
    }
  }

  ghost predicate Grows(b: Books, b': Books) {
    && b.entries <= b'.entries
    && b.accounts <= b'.accounts
    && |b.txns| <= |b'.txns|
    && (forall t :: 0 <= t < |b.txns| ==> b'.txns[t].org == b.txns[t].org && b'.txns[t].key == b.txns[t].key)
  }

  lemma ApplyGrows(b: Books, c: Command)
    ensures Grows(b, Apply(b, c))
  {
    match c
    case OpenAccount(org, code) =>
    case PostLines(org, key, reference, lines, now) => assert Grows(b, Post(b, org, key, reference, lines, now).books);
    case ReverseTxn(org, txn, now) =>
      var lines := OppositeLines(LinesOf(b.entries, txn));
      assert Grows(b, Post(b, org, None, Original(txn), lines, now).books);
  }

  /** The journal is append-only: no later command rewrites or removes an entry. */
  lemma {:induction false} JournalOnlyGrows(b: Books, cs: seq<Command>)
    ensures Grows(b, Run(b, cs))
  {
    if cs != [] {
      JournalOnlyGrows(b, cs[..|cs| - 1]);
      ApplyGrows(Run(b, cs[..|cs| - 1]), cs[|cs| - 1]);
    }
  }

  /** A key moves money at most once: after a posting under it, in whatever state later commands
      leave the ledger, posting under it again changes nothing, before its saved response
      expires (a replay) and after (the key is refused). */
  lemma KeyPostsOnce(b: Books, org: string, key: string, reference: Reference, lines: seq<Line>, now: int, cs: seq<Command>, again: Command)
    requires Post(b, org, Some(key), reference, lines, now).books != b
    requires again.PostLines? && again.key == Some(key)
    ensures var later := Run(Post(b, org, Some(key), reference, lines, now).books, cs);
            Apply(later, again) == later
  {
    var posted := Post(b, org, Some(key), reference, lines, now).books;
    JournalOnlyGrows(posted, cs);
    var later := Run(posted, cs);
    assert posted.txns[|b.txns|].key == Some(key);
    assert later.txns[|b.txns|].key == Some(key);
    assert KeyTaken(later.txns, Some(key));
  }

  // ---------------------------------------------------------------- the trial balance

  /** The trial balance of one organization, summed over its first n accounts. */
  function TrialTotal(accounts: seq<Account>, entries: seq<Entry>, org: string, n: nat): int
    requires n <= |accounts|
  {
    if n == 0 then 0
    else
      TrialTotal(accounts, entries, org, n - 1) +
      if accounts[n - 1].org == org then Sum(entries, AccountNet(n - 1)) else 0
  }

  lemma {:induction false} TrialTotalAddsEntry(accounts: seq<Account>, entries: seq<Entry>, org: string, n: nat, e: Entry)
    requires n <= |accounts|
    ensures TrialTotal(accounts, entries + [e], org, n) ==
            TrialTotal(accounts, entries, org, n) +
            if e.line.account < n && accounts[e.line.account].org == org then Signed(e.line) else 0
  {
    if n > 0 {
      TrialTotalAddsEntry(accounts, entries, org, n - 1, e);
      Append(entries, e, AccountNet(n - 1));
    }
  }

  lemma {:induction false} EmptyTrialTotal(accounts: seq<Account>, org: string, n: nat)
    requires n <= |accounts|
    ensures TrialTotal(accounts, [], org, n) == 0
  {
    if n > 0 {
      EmptyTrialTotal(accounts, org, n - 1);
    }
  }

  /** Summing account by account, as the trial balance does, is summing entry by entry. */
  lemma {:induction false} TrialTotalIsOrgNet(accounts: seq<Account>, entries: seq<Entry>, org: string)
    ensures TrialTotal(accounts, entries, org, |accounts|) == Sum(entries, OrgNet(accounts, org))
  {
    if entries == [] {
      EmptyTrialTotal(accounts, org, |accounts|);
    } else {
      var n := |entries| - 1;
      TrialTotalIsOrgNet(accounts, entries[..n], org);
      TrialTotalAddsEntry(accounts, entries[..n], org, |accounts|, entries[n]);
      assert entries[..n] + [entries[n]] == entries;
    }
  }
}
