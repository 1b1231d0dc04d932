/** The agent-commerce budget rail: authorizations, reservations and receipts, each store call
    one atomic transaction. services/agent-commerce/agent_commerce/authorization.py and
    receipts.py:45-150, with the constraints of storage.py:19-84.

    A row's id is its position in its table. A call that raises rolls back, so it returns the
    tables unchanged; the write of the status "expired" before its exception never persists. */
module Authorizations {
  import opened Sums

  datatype Option<+T> = None | Some(value: T)
  datatype AuthStatus = Active | Revoked | Consumed | Expired
  datatype RsvStatus = Reserved | InvoiceBound | PaymentInitiated | Paid | Finalized | Released

  datatype Authorization = Authorization(
    maxTotal: int, maxPerCall: int, maxRouteFee: int, maxCalls: int,
    agents: set<string>, specialties: set<string>, expiresAt: int,
    status: AuthStatus, reserved: int, spent: int, callCount: int)

  datatype Invoice = Invoice(hash: string, amount: int)
  datatype Settlement = Settlement(provider: string, paymentId: string, fee: int, preimageHash: string)

  /** The details an idempotency key is bound to. */
  datatype Call = Call(auth: nat, key: string, orchestration: string, agent: string, specialty: string, quoted: int)

  datatype Reservation = Reservation(
    call: Call, reserved: int, reservedAt: int, status: RsvStatus,
    invoice: Option<Invoice>, settlement: Option<Settlement>, receipt: Option<nat>)

  datatype Receipt = Receipt(reservation: nat, auth: nat, debit: int)

  datatype Db = Db(auths: seq<Authorization>, rsvs: seq<Reservation>, receipts: seq<Receipt>)

  datatype StoreError =
    | InvalidLimits
    | Denied
    | WasRevoked
    | PastExpiry
    | OverBudget
    | Conflict
    | ConstraintViolated
  datatype Result<+T> = Ok(value: T) | Err(error: StoreError)
  datatype Step = Step(db: Db, result: Result<nat>)

  const EMPTY_DB := Db([], [], [])

  // ---------------------------------------------------------------- the operations, as functions

  predicate Open(s: RsvStatus) {
    s == Reserved || s == InvoiceBound || s == PaymentInitiated || s == Paid
  }

  function OpenOne(auth: nat): Reservation -> int {
    (r: Reservation) => if r.call.auth == auth && Open(r.status) then 1 else 0
  }

  function OpenAmount(auth: nat): Reservation -> int {
    (r: Reservation) => if r.call.auth == auth && Open(r.status) then r.reserved else 0
  }

  function FinalizedOne(auth: nat): Reservation -> int {
    (r: Reservation) => if r.call.auth == auth && r.status == Finalized then 1 else 0
  }

  function DebitOn(auth: nat): Receipt -> int {
    (r: Receipt) => if r.auth == auth then r.debit else 0
  }

  function Create(db: Db, maxTotal: int, maxPerCall: int, maxRouteFee: int, maxCalls: int,
                  agents: set<string>, specialties: set<string>, expiresAt: int, now: int): Step
  {
    if maxTotal <= 0 || maxPerCall <= 0 || maxCalls <= 0 || maxPerCall > maxTotal || maxRouteFee < 0 || expiresAt <= now then
      Step(db, Err(InvalidLimits))
    else
      Step(db.(auths := db.auths + [Authorization(maxTotal, maxPerCall, maxRouteFee, maxCalls, agents, specialties, expiresAt, Active, 0, 0, 0)]),
           Ok(|db.auths|))
  }

  function Revoke(db: Db, auth: nat): Step {
    if auth >= |db.auths| then Step(db, Err(Denied))
    else Step(db.(auths := db.auths[auth := db.auths[auth].(status := Revoked)]), Ok(auth))
  }

  function FindKey(rsvs: seq<Reservation>, auth: nat, key: string): (found: Option<nat>)
    ensures found.Some? ==> found.value < |rsvs| && rsvs[found.value].call.auth == auth && rsvs[found.value].call.key == key
    ensures found.None? ==> forall i :: 0 <= i < |rsvs| ==> !(rsvs[i].call.auth == auth && rsvs[i].call.key == key)
  {
    if rsvs == [] then None
    else
      var n := |rsvs| - 1;
      var earlier := FindKey(rsvs[..n], auth, key);
      if earlier.Some? then earlier
      else if rsvs[n].call.auth == auth && rsvs[n].call.key == key then Some(n)
      else
        assert forall i :: 0 <= i < n ==> rsvs[..n][i] == rsvs[i];
        None
  }

  /** Why a new call may not be reserved, if it may not. ceiling is the rounded-up price with
      its tolerance, as the caller's floating point computed it. */
  function Refusal(db: Db, call: Call, ceiling: int, now: int): Option<StoreError> {
    if call.auth >= |db.auths| then Some(Denied)
    else
      var a := db.auths[call.auth];
      var reserved := ceiling + a.maxRouteFee;
      if a.status == Revoked then Some(WasRevoked)
      else if a.status != Active then Some(Denied)
      else if a.expiresAt <= now then Some(PastExpiry)
      else if a.agents != {} && call.agent !in a.agents then Some(Denied)
      else if a.specialties != {} && call.specialty !in a.specialties then Some(Denied)
      else if call.quoted > a.maxPerCall then Some(OverBudget)
      else if a.callCount + Sum(db.rsvs, OpenOne(call.auth)) >= a.maxCalls then Some(OverBudget)
      else if reserved > a.maxPerCall + a.maxRouteFee then Some(OverBudget)
      else if reserved > a.maxTotal - a.spent - a.reserved then Some(OverBudget)
      else if reserved <= 0 then Some(ConstraintViolated)
      else None
  }

  function Reserve(db: Db, call: Call, ceiling: int, now: int): Step {
    if call.quoted <= 0 then Step(db, Err(Denied))
    else
      var existing := FindKey(db.rsvs, call.auth, call.key);
      if existing.Some? then
        Step(db, if db.rsvs[existing.value].call == call then Ok(existing.value) else Err(Conflict))
      else if Refusal(db, call, ceiling, now).Some? then Step(db, Err(Refusal(db, call, ceiling, now).value))
      else
        var a := db.auths[call.auth];
        var reserved := ceiling + a.maxRouteFee;
        Step(db.(rsvs := db.rsvs + [Reservation(call, reserved, now, Reserved, None, None, None)],
                 auths := db.auths[call.auth := a.(reserved := a.reserved + reserved)]),
             Ok(|db.rsvs|))
  }

  function BindInvoice(db: Db, rsv: nat, invoice: Invoice): Step {
    if invoice.amount <= 0 || invoice.hash == "" || rsv >= |db.rsvs| then Step(db, Err(Denied))
    else
      var row := db.rsvs[rsv];
      if row.status != Reserved && row.status != InvoiceBound then Step(db, Err(Denied))
      else if invoice.amount > row.reserved then Step(db, Err(OverBudget))
      else if row.invoice.Some? && row.invoice.value.hash != invoice.hash then Step(db, Err(Conflict))
      else Step(db.(rsvs := db.rsvs[rsv := row.(invoice := Some(invoice), status := InvoiceBound)]), Ok(rsv))
  }

  function MarkInitiated(db: Db, rsv: nat): Step {
    if rsv >= |db.rsvs| || db.rsvs[rsv].status != InvoiceBound then Step(db, Err(Denied))
    else Step(db.(rsvs := db.rsvs[rsv := db.rsvs[rsv].(status := PaymentInitiated)]), Ok(rsv))
  }

  function MarkPaid(db: Db, rsv: nat, s: Settlement): Step {
    if s.fee < 0 then Step(db, Err(InvalidLimits))
    else if rsv >= |db.rsvs| then Step(db, Err(Denied))
    else
      var row := db.rsvs[rsv];
      if row.status == Paid then Step(db, if row.settlement == Some(s) then Ok(rsv) else Err(Conflict))
      else if row.status != PaymentInitiated || row.invoice.None? then Step(db, Err(Denied))
      else if row.invoice.value.amount + s.fee > row.reserved then Step(db, Err(OverBudget))
      else Step(db.(rsvs := db.rsvs[rsv := row.(settlement := Some(s), status := Paid)]), Ok(rsv))
  }

  function Release(db: Db, rsv: nat): Step {
    if rsv >= |db.rsvs| then Step(db, Err(Denied))
    else
      var row := db.rsvs[rsv];
      if row.status == Released || row.status == Finalized then Step(db, Ok(rsv))
      else if row.status == Paid || row.call.auth >= |db.auths| then Step(db, Err(Denied))
      else
        var a := db.auths[row.call.auth];
        Step(db.(rsvs := db.rsvs[rsv := row.(status := Released)],
                 auths := db.auths[row.call.auth := a.(reserved := a.reserved - row.reserved)]),
             Ok(rsv))
  }

  function FindReceipt(receipts: seq<Receipt>, rsv: nat): (found: Option<nat>)
    ensures found.Some? ==> found.value < |receipts| && receipts[found.value].reservation == rsv
    ensures found.None? ==> forall i :: 0 <= i < |receipts| ==> receipts[i].reservation != rsv
  {
    if receipts == [] then None
    else
      var n := |receipts| - 1;
      var earlier := FindReceipt(receipts[..n], rsv);
      if earlier.Some? then earlier
      else if receipts[n].reservation == rsv then Some(n)
      else
        assert forall i :: 0 <= i < n ==> receipts[..n][i] == receipts[i];
        None
  }

  function Charged(a: Authorization, reserved: int, debit: int): Authorization {
    a.(reserved := a.reserved - reserved, spent := a.spent + debit, callCount := a.callCount + 1,
       status := if a.callCount + 1 >= a.maxCalls || a.spent + debit >= a.maxTotal then Consumed else a.status)
  }

  /** finalize_paid_call, given the status the caller last saw and the debit it computed from
      its own invoice and settlement. */
  function Finalize(db: Db, rsv: nat, seen: RsvStatus, debit: int): Step {
    if seen != Paid then Step(db, Err(Denied))
    else
      var existing := FindReceipt(db.receipts, rsv);
      if existing.Some? then Step(db, Ok(existing.value))
      else if rsv >= |db.rsvs| || db.rsvs[rsv].status != Paid then Step(db, Err(Conflict))
      else
        var row := db.rsvs[rsv];
        if debit > row.reserved || row.call.auth >= |db.auths| then Step(db, Err(Denied))
        else
          var a := db.auths[row.call.auth];
          if a.spent + debit > a.maxTotal then Step(db, Err(Denied))
          else
            Step(Db(db.auths[row.call.auth := Charged(a, row.reserved, debit)],
                    db.rsvs[rsv := row.(status := Finalized, receipt := Some(|db.receipts|))],
                    db.receipts + [Receipt(rsv, row.call.auth, debit)]),
                 Ok(|db.receipts|))
  }

  // ---------------------------------------------------------------- the invariant of the tables

  /** The aggregate columns are caches over the other two tables, and the limits hold. */
  ghost predicate AuthInOrder(db: Db, auth: nat)
    requires auth < |db.auths|
  {
    var a := db.auths[auth];
    && a.reserved == Sum(db.rsvs, OpenAmount(auth))
    && a.spent == Sum(db.receipts, DebitOn(auth))
    && a.callCount == Sum(db.rsvs, FinalizedOne(auth))
    && a.spent + a.reserved <= a.maxTotal
    && a.callCount + Sum(db.rsvs, OpenOne(auth)) <= a.maxCalls
    && (a.status == Consumed ==> Sum(db.rsvs, OpenOne(auth)) == 0)
    && a.status != Expired
  }

  ghost predicate RsvInOrder(db: Db, r: Reservation, rsv: nat) {
    && r.call.auth < |db.auths|
    && r.reserved > 0
    && (r.invoice.Some? ==> r.invoice.value.hash != "" && 0 < r.invoice.value.amount <= r.reserved)
    && (r.status == Reserved ==> r.invoice.None?)
    && (r.status == InvoiceBound || r.status == PaymentInitiated || r.status == Paid || r.status == Finalized ==> r.invoice.Some?)
    && (r.status == Paid || r.status == Finalized ==>
          r.settlement.Some? && r.settlement.value.fee >= 0 && r.invoice.value.amount + r.settlement.value.fee <= r.reserved)
    && (r.status == Finalized ==> r.receipt.Some? && r.receipt.value < |db.receipts| && db.receipts[r.receipt.value].reservation == rsv)
  }

  ghost predicate ReceiptInOrder(db: Db, c: Receipt, receipt: nat) {
    && c.reservation < |db.rsvs|
    && db.rsvs[c.reservation].status == Finalized
    && db.rsvs[c.reservation].receipt == Some(receipt)
    && db.rsvs[c.reservation].call.auth == c.auth
  }

  ghost predicate KeysUnique(rsvs: seq<Reservation>) {
    forall i, j :: 0 <= i < j < |rsvs| ==> rsvs[i].call.auth != rsvs[j].call.auth || rsvs[i].call.key != rsvs[j].call.key
  }

  ghost predicate InOrder(db: Db) {
    && (forall a :: 0 <= a < |db.auths| ==> AuthInOrder(db, a))
    && (forall i :: 0 <= i < |db.rsvs| ==> RsvInOrder(db, db.rsvs[i], i))
    && (forall k :: 0 <= k < |db.receipts| ==> ReceiptInOrder(db, db.receipts[k], k))
    && KeysUnique(db.rsvs)
  }

  // ---------------------------------------------------------------- every operation keeps it

  /** A rewritten reservation changes each sum by the change of its own weight. */
  lemma RewriteSums(rsvs: seq<Reservation>, rsv: nat, row: Reservation, auth: nat)
    requires rsv < |rsvs|
    ensures var rsvs' := rsvs[rsv := row];
            && Sum(rsvs', OpenOne(auth)) == Sum(rsvs, OpenOne(auth)) - OpenOne(auth)(rsvs[rsv]) + OpenOne(auth)(row)
            && Sum(rsvs', OpenAmount(auth)) == Sum(rsvs, OpenAmount(auth)) - OpenAmount(auth)(rsvs[rsv]) + OpenAmount(auth)(row)
            && Sum(rsvs', FinalizedOne(auth)) == Sum(rsvs, FinalizedOne(auth)) - FinalizedOne(auth)(rsvs[rsv]) + FinalizedOne(auth)(row)
  {
    Update(rsvs, rsv, row, OpenOne(auth));
    Update(rsvs, rsv, row, OpenAmount(auth));
    Update(rsvs, rsv, row, FinalizedOne(auth));
  }

  /** No row refers to an authorization that does not exist yet. */
  lemma NothingOnUnknown(db: Db, n: nat)
    requires InOrder(db) && n >= |db.auths|
    ensures Sum(db.rsvs, OpenOne(n)) == Sum(db.rsvs, OpenAmount(n)) == Sum(db.rsvs, FinalizedOne(n)) == Sum(db.receipts, DebitOn(n)) == 0
  {
    forall i | 0 <= i < |db.rsvs|
      ensures db.rsvs[i].call.auth != n
    {
      assert RsvInOrder(db, db.rsvs[i], i);
    }
    forall k | 0 <= k < |db.receipts|
      ensures db.receipts[k].auth != n
    {
      assert ReceiptInOrder(db, db.receipts[k], k);
    }
    Zero(db.rsvs, OpenAmount(n));
    Zero(db.rsvs, OpenOne(n));
    Zero(db.rsvs, FinalizedOne(n));
    Zero(db.receipts, DebitOn(n));
  }

  lemma CreateKeepsOrder(db: Db, maxTotal: int, maxPerCall: int, maxRouteFee: int, maxCalls: int,
                         agents: set<string>, specialties: set<string>, expiresAt: int, now: int)
    requires InOrder(db)
    ensures InOrder(Create(db, maxTotal, maxPerCall, maxRouteFee, maxCalls, agents, specialties, expiresAt, now).db)
  {
    var db' := Create(db, maxTotal, maxPerCall, maxRouteFee, maxCalls, agents, specialties, expiresAt, now).db;
    if db' != db {
      var n := |db.auths|;
      forall a | 0 <= a < |db'.auths|
        ensures AuthInOrder(db', a)
      {
        if a < n {
          assert AuthInOrder(db, a);
        } else {
          NothingOnUnknown(db, n);
        }
      }
      SameRowsInOrder(db, db');
    }
  }

  lemma SameRowsInOrder(db: Db, db': Db)
    requires InOrder(db) && db'.rsvs == db.rsvs && db'.receipts == db.receipts && |db.auths| <= |db'.auths|
    ensures forall i :: 0 <= i < |db'.rsvs| ==> RsvInOrder(db', db'.rsvs[i], i)
    ensures forall k :: 0 <= k < |db'.receipts| ==> ReceiptInOrder(db', db'.receipts[k], k)
  {
    forall i | 0 <= i < |db'.rsvs|
      ensures RsvInOrder(db', db'.rsvs[i], i)
    {
      assert RsvInOrder(db, db.rsvs[i], i);
    }
    forall k | 0 <= k < |db'.receipts|
      ensures ReceiptInOrder(db', db'.receipts[k], k)
    {
      assert ReceiptInOrder(db, db.receipts[k], k);
    }
  }

  lemma RevokeKeepsOrder(db: Db, auth: nat)
    requires InOrder(db)
    ensures InOrder(Revoke(db, auth).db)
  {
    var db' := Revoke(db, auth).db;
    forall a | 0 <= a < |db'.auths|
      ensures AuthInOrder(db', a)
    {
      assert AuthInOrder(db, a);
    }
    SameRowsInOrder(db, db');
  }

  /** Reserving adds the row to its own authorization's sums and to no other's. */
  lemma ReserveKeepsAuth(db: Db, row: Reservation, auth: nat)
    requires auth < |db.auths| && AuthInOrder(db, auth)
    requires row.status == Reserved && row.call.auth < |db.auths|
    requires var a := db.auths[row.call.auth];
             && a.status == Active && row.reserved <= a.maxTotal - a.spent - a.reserved
             && a.callCount + Sum(db.rsvs, OpenOne(row.call.auth)) < a.maxCalls
    ensures var a := db.auths[row.call.auth];
            AuthInOrder(db.(rsvs := db.rsvs + [row], auths := db.auths[row.call.auth := a.(reserved := a.reserved + row.reserved)]), auth)
  {
    Append(db.rsvs, row, OpenOne(auth));
    Append(db.rsvs, row, OpenAmount(auth));
    Append(db.rsvs, row, FinalizedOne(auth));
  }

  lemma ReserveKeepsOrder(db: Db, call: Call, ceiling: int, now: int)
    requires InOrder(db)
    ensures InOrder(Reserve(db, call, ceiling, now).db)
  {
    var db' := Reserve(db, call, ceiling, now).db;
    if db' != db {
      var row := db'.rsvs[|db.rsvs|];
      forall a | 0 <= a < |db'.auths|
        ensures AuthInOrder(db', a)
      {
        ReserveKeepsAuth(db, row, a);
      }
      RowsAfterReserve(db, row, db'.auths);
    }
  }

  lemma RowsAfterReserve(db: Db, row: Reservation, auths: seq<Authorization>)
    requires InOrder(db) && |auths| == |db.auths|
    requires row.status == Reserved && row.reserved > 0 && row.call.auth < |auths| && row.invoice.None?
    requires FindKey(db.rsvs, row.call.auth, row.call.key).None?
    ensures var db' := db.(rsvs := db.rsvs + [row], auths := auths);
            && (forall i :: 0 <= i < |db'.rsvs| ==> RsvInOrder(db', db'.rsvs[i], i))
            && (forall k :: 0 <= k < |db'.receipts| ==> ReceiptInOrder(db', db'.receipts[k], k))
            && KeysUnique(db'.rsvs)
  {
    var db' := db.(rsvs := db.rsvs + [row], auths := auths);
    forall i | 0 <= i < |db'.rsvs|
      ensures RsvInOrder(db', db'.rsvs[i], i)
    {
      if i < |db.rsvs| {
        assert RsvInOrder(db, db.rsvs[i], i);
      }
    }
    forall k | 0 <= k < |db'.receipts|
      ensures ReceiptInOrder(db', db'.receipts[k], k)
    {
      assert ReceiptInOrder(db, db.receipts[k], k);
    }
  }

  /** Steps that rewrite one open reservation as open again, keeping its call and amount. */
  lemma AdvanceKeepsOrder(db: Db, rsv: nat, row: Reservation)
    requires InOrder(db) && rsv < |db.rsvs|
    requires row.call == db.rsvs[rsv].call && row.reserved == db.rsvs[rsv].reserved
    requires Open(db.rsvs[rsv].status) && Open(row.status)
    requires RsvInOrder(db, row, rsv)
    ensures InOrder(db.(rsvs := db.rsvs[rsv := row]))
  {
    var db' := db.(rsvs := db.rsvs[rsv := row]);
    forall a | 0 <= a < |db'.auths|
      ensures AuthInOrder(db', a)
    {
      assert AuthInOrder(db, a);
      RewriteSums(db.rsvs, rsv, row, a);
    }
    forall i | 0 <= i < |db'.rsvs|
      ensures RsvInOrder(db', db'.rsvs[i], i)
    {
      assert RsvInOrder(db, db.rsvs[i], i);
    }
    forall k | 0 <= k < |db'.receipts|
      ensures ReceiptInOrder(db', db'.receipts[k], k)
    {
      assert ReceiptInOrder(db, db.receipts[k], k);
    }
  }

  lemma BindKeepsOrder(db: Db, rsv: nat, invoice: Invoice)
    requires InOrder(db)
    ensures InOrder(BindInvoice(db, rsv, invoice).db)
  {
    if BindInvoice(db, rsv, invoice).result.Ok? {
      assert RsvInOrder(db, db.rsvs[rsv], rsv);
      AdvanceKeepsOrder(db, rsv, db.rsvs[rsv].(invoice := Some(invoice), status := InvoiceBound));
    }
  }

  lemma InitiateKeepsOrder(db: Db, rsv: nat)
    requires InOrder(db)
    ensures InOrder(MarkInitiated(db, rsv).db)
  {
    if MarkInitiated(db, rsv).result.Ok? {
      assert RsvInOrder(db, db.rsvs[rsv], rsv);
      AdvanceKeepsOrder(db, rsv, db.rsvs[rsv].(status := PaymentInitiated));
    }
  }

  lemma PaidKeepsOrder(db: Db, rsv: nat, s: Settlement)
    requires InOrder(db)
    ensures InOrder(MarkPaid(db, rsv, s).db)
  {
    if MarkPaid(db, rsv, s).db != db {
      assert RsvInOrder(db, db.rsvs[rsv], rsv);
      AdvanceKeepsOrder(db, rsv, db.rsvs[rsv].(settlement := Some(s), status := Paid));
    }
  }

  lemma ReleaseKeepsAuth(db: Db, rsv: nat, auth: nat)
    requires auth < |db.auths| && AuthInOrder(db, auth)
    requires rsv < |db.rsvs| && RsvInOrder(db, db.rsvs[rsv], rsv) && Release(db, rsv).db != db
    ensures AuthInOrder(Release(db, rsv).db, auth)
  {
    var db' := Release(db, rsv).db;
    RewriteSums(db.rsvs, rsv, db'.rsvs[rsv], auth);
    NonNegative(db'.rsvs, OpenOne(auth));
  }

  lemma ReleaseKeepsOrder(db: Db, rsv: nat)
    requires InOrder(db)
    ensures InOrder(Release(db, rsv).db)
  {
    var db' := Release(db, rsv).db;
    if db' != db {
      var row := db'.rsvs[rsv];
      assert RsvInOrder(db, db.rsvs[rsv], rsv);
      forall a | 0 <= a < |db'.auths|
        ensures AuthInOrder(db', a)
      {
        ReleaseKeepsAuth(db, rsv, a);
      }
      forall i | 0 <= i < |db'.rsvs|
        ensures RsvInOrder(db', db'.rsvs[i], i)
      {
        assert RsvInOrder(db, db.rsvs[i], i);
      }
      forall k | 0 <= k < |db'.receipts|
        ensures ReceiptInOrder(db', db'.receipts[k], k)
      {
        assert ReceiptInOrder(db, db.receipts[k], k);
      }
    }
  }

  /** An open reservation's amount is inside its authorization's reserved total. */
  lemma OpenInsideReserved(db: Db, rsv: nat)
    requires InOrder(db) && rsv < |db.rsvs| && Open(db.rsvs[rsv].status)
    ensures var auth := db.rsvs[rsv].call.auth;
            auth < |db.auths| && 0 < db.rsvs[rsv].reserved <= db.auths[auth].reserved
  {
    var auth := db.rsvs[rsv].call.auth;
    forall i | 0 <= i < |db.rsvs|
      ensures OpenAmount(auth)(db.rsvs[i]) >= 0
    {
      assert RsvInOrder(db, db.rsvs[i], i);
    }
    assert RsvInOrder(db, db.rsvs[rsv], rsv);
    Member(db.rsvs, rsv, OpenAmount(auth));
    assert AuthInOrder(db, auth);
  }

  /** With nothing reserved there is nothing open. */
  lemma NothingReservedNothingOpen(rsvs: seq<Reservation>, auth: nat)
    requires forall i :: 0 <= i < |rsvs| ==> rsvs[i].reserved > 0
    requires Sum(rsvs, OpenAmount(auth)) <= 0
    ensures Sum(rsvs, OpenOne(auth)) == 0
  {
    Monotone(rsvs, OpenOne(auth), OpenAmount(auth));
    NonNegative(rsvs, OpenOne(auth));
  }

  lemma FinalizeKeepsOrder(db: Db, rsv: nat, seen: RsvStatus, debit: int)
    requires InOrder(db)
    ensures InOrder(Finalize(db, rsv, seen, debit).db)
  {
    var db' := Finalize(db, rsv, seen, debit).db;
    if db' != db {
      var row, n := db'.rsvs[rsv], |db.receipts|;
      assert RsvInOrder(db, db.rsvs[rsv], rsv);
      forall i | 0 <= i < |db.rsvs|
        ensures db.rsvs[i].reserved > 0
      {
        assert RsvInOrder(db, db.rsvs[i], i);
      }
      forall a | 0 <= a < |db'.auths|
        ensures AuthInOrder(db', a)
      {
        FinalizeKeepsAuth(db, rsv, row, debit, a);
      }
      forall i | 0 <= i < |db'.rsvs|
        ensures RsvInOrder(db', db'.rsvs[i], i)
      {
        assert RsvInOrder(db, db.rsvs[i], i);
      }
      forall k | 0 <= k < |db'.receipts|
        ensures ReceiptInOrder(db', db'.receipts[k], k)
      {
        if k < n {
          assert ReceiptInOrder(db, db.receipts[k], k);
        }
      }
    }
  }

  lemma FinalizeKeepsAuth(db: Db, rsv: nat, row: Reservation, debit: int, auth: nat)
    requires rsv < |db.rsvs| && auth < |db.auths| && AuthInOrder(db, auth)
    requires db.rsvs[rsv].status == Paid && db.rsvs[rsv].call.auth < |db.auths|
    requires row.status == Finalized && row.call == db.rsvs[rsv].call && row.reserved == db.rsvs[rsv].reserved
    requires debit <= row.reserved
    requires forall i :: 0 <= i < |db.rsvs| ==> db.rsvs[i].reserved > 0
    ensures AuthInOrder(Db(db.auths[row.call.auth := Charged(db.auths[row.call.auth], row.reserved, debit)],
                           db.rsvs[rsv := row], db.receipts + [Receipt(rsv, row.call.auth, debit)]), auth)
  {
    var rsvs' := db.rsvs[rsv := row];
    RewriteSums(db.rsvs, rsv, row, auth);
    Append(db.receipts, Receipt(rsv, row.call.auth, debit), DebitOn(auth));
    if auth == row.call.auth {
      NonNegative(rsvs', OpenOne(auth));
      if db.auths[auth].reserved <= row.reserved {
        NothingReservedNothingOpen(rsvs', auth);
      }
    }
  }

  // ---------------------------------------------------------------- what the order gives

  /** Settled money can always be booked: for a paid reservation, the debit that mark_paid
      recorded passes every check of finalization. */
  lemma PaidCanBeFinalized(db: Db, rsv: nat)
    requires InOrder(db) && rsv < |db.rsvs| && db.rsvs[rsv].status == Paid
    ensures db.rsvs[rsv].invoice.Some? && db.rsvs[rsv].settlement.Some?
    ensures Finalize(db, rsv, Paid, db.rsvs[rsv].invoice.value.amount + db.rsvs[rsv].settlement.value.fee).result == Ok(|db.receipts|)
  {
    assert RsvInOrder(db, db.rsvs[rsv], rsv);
    assert AuthInOrder(db, db.rsvs[rsv].call.auth);
    OpenInsideReserved(db, rsv);
    forall k | 0 <= k < |db.receipts|
      ensures db.receipts[k].reservation != rsv
    {
      assert ReceiptInOrder(db, db.receipts[k], k);
    }
  }

  /** A reservation has one receipt if it is finalized and none otherwise. */
  lemma OneReceiptEach(db: Db, rsv: nat, j: nat, k: nat)
    requires InOrder(db) && j < |db.receipts| && k < |db.receipts|
    requires db.receipts[j].reservation == rsv && db.receipts[k].reservation == rsv
    ensures j == k && rsv < |db.rsvs| && db.rsvs[rsv].status == Finalized && db.rsvs[rsv].receipt == Some(j)
  {
  }
}
