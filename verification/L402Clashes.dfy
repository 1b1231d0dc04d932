/** Execute calls that overlap on one idempotency key without clashing: their invoices carry one
    payment hash and are bindable alike, so none of them releases what another pays.
    services/agent-commerce/agent_commerce/l402.py:219-268 and authorization.py:298-351,418-431. */
module L402Clashes {
  import opened Authorizations
  import opened L402Workers
  import opened L402Keys
  import opened L402Scope

  type KeyPair = (nat, string)

  function RowOf(db: Db, key: KeyPair): Option<nat> {
    FindKey(db.rsvs, key.0, key.1)
  }

  /** The key's reservation has had its payment started, or is released: nothing binds it any more. */
  predicate PastBinding(db: Db, key: KeyPair) {
    var r := RowOf(db, key);
    r.Some? && db.rsvs[r.value].status != Reserved && db.rsvs[r.value].status != InvoiceBound
  }

  predicate Asks(w: Worker) {
    w.Reserving? || w.Binding? || w.Initiating?
  }

  /** The amount a reservation of this call would hold. */
  function WouldReserve(db: Db, w: Worker): int
    requires w.Reserving? && w.call.auth < |db.auths|
  {
    w.ceiling + db.auths[w.call.auth].maxRouteFee
  }

  /** Both invoices can be bound to the key's reservation, whichever of the calls makes it, or neither. */
  predicate BindableAlike(db: Db, key: KeyPair, w: Worker, v: Worker)
    requires Asks(w) && Asks(v)
  {
    match RowOf(db, key)
    case Some(r) => Bindable(w.invoice, db.rsvs[r].reserved) <==> Bindable(v.invoice, db.rsvs[r].reserved)
    case None =>
      && w.Reserving? && v.Reserving? && w.call.auth == v.call.auth == key.0 < |db.auths|
      && (Bindable(w.invoice, WouldReserve(db, w)) <==> Bindable(v.invoice, WouldReserve(db, w)))
      && (Bindable(w.invoice, WouldReserve(db, v)) <==> Bindable(v.invoice, WouldReserve(db, v)))
  }

  predicate Alike(db: Db, key: KeyPair, w: Worker, v: Worker)
    requires Asks(w) && Asks(v)
  {
    w.invoice.hash == v.invoice.hash && (w.invoice.amount == v.invoice.amount || BindableAlike(db, key, w, v))
  }

  predicate Refused(db: Db, key: KeyPair, invoice: Invoice) {
    RowOf(db, key).Some? && BindInvoice(db, RowOf(db, key).value, invoice).result.Err?
  }

  /** The call cannot start a payment any more. */
  predicate Doomed(db: Db, key: KeyPair, w: Worker) {
    w.Cleanup? || w.Releasing? || ((w.Reserving? || w.Binding?) && Refused(db, key, w.invoice))
  }

  /** Two calls on one key that do not clash. */
  predicate Peace(db: Db, key: KeyPair, w: Worker, v: Worker) {
    || PastBinding(db, key)
    || (Asks(w) && Asks(v) && Alike(db, key, w, v))
    || (Doomed(db, key, w) && Doomed(db, key, v))
  }

  /** An execute call starts only beside calls on its key that it does not clash with. */
  ghost predicate StartsInPeace(sys: Sys, action: Action) {
    action.Execute? ==>
      var (key, w) := ((action.call.auth, action.call.key), Reserving(action.call, action.invoice, action.ceiling, action.now));
      forall k :: 0 <= k < |sys.workers| && Calling(sys.workers[k]) && KeyOf(sys.db, sys.workers[k]) == key ==>
        Peace(sys.db, key, sys.workers[k], w)
  }

  ghost predicate NoClash(actions: seq<Action>) {
    actions == [] || (NoClash(actions[..|actions| - 1]) && StartsInPeace(Exec(actions[..|actions| - 1]), actions[|actions| - 1]))
  }

  /** Calls that do not overlap do not clash. */
  lemma {:induction false} NoOverlapIsNoClash(actions: seq<Action>)
    requires NoOverlap(actions)
    ensures NoClash(actions)
  {
    if actions != [] {
      NoOverlapIsNoClash(actions[..|actions| - 1]);
    }
  }

  // ---------------------------------------------------------------- a key's row over one step

  lemma RowFound(db: Db, r: nat)
    requires KeysUnique(db.rsvs) && r < |db.rsvs|
    ensures RowOf(db, (db.rsvs[r].call.auth, db.rsvs[r].call.key)) == Some(r)
  {
  }

  lemma RowKept(db: Db, db': Db, key: KeyPair)
    requires InOrder(db') && Evolves(db, db') && RowOf(db, key).Some?
    ensures RowOf(db', key) == RowOf(db, key) && RowEvolves(db.rsvs[RowOf(db, key).value], db'.rsvs[RowOf(db, key).value])
  {
    var r := RowOf(db, key).value;
    assert RowEvolves(db.rsvs[r], db'.rsvs[r]);
    RowFound(db', r);
  }

  lemma PastBindingStays(db: Db, db': Db, key: KeyPair)
    requires InOrder(db) && InOrder(db') && Evolves(db, db') && PastBinding(db, key)
    ensures PastBinding(db', key)
  {
    RowKept(db, db', key);
  }

  lemma RefusedStays(db: Db, db': Db, key: KeyPair, invoice: Invoice)
    requires InOrder(db) && InOrder(db') && Evolves(db, db') && Refused(db, key, invoice)
    ensures Refused(db', key, invoice)
  {
    var r := RowOf(db, key).value;
    RowKept(db, db', key);
    assert RsvInOrder(db, db.rsvs[r], r) && RsvInOrder(db', db'.rsvs[r], r);
  }

  /** Two calls stay at peace while the row of their key, or its absence, stays. */
  lemma PeaceStays(db: Db, db': Db, key: KeyPair, w: Worker, v: Worker)
    requires InOrder(db) && InOrder(db') && Evolves(db, db') && KeepsScope(db, db')
    requires RowOf(db, key).Some? || RowOf(db', key).None?
    requires Peace(db, key, w, v)
    ensures Peace(db', key, w, v)
  {
    if PastBinding(db, key) {
      PastBindingStays(db, db', key);
    } else if Asks(w) && Asks(v) && Alike(db, key, w, v) {
      if RowOf(db, key).Some? {
        RowKept(db, db', key);
      }
    } else {
      if w.Reserving? || w.Binding? {
        RefusedStays(db, db', key, w.invoice);
      }
      if v.Reserving? || v.Binding? {
        RefusedStays(db, db', key, v.invoice);
      }
    }
  }

  // ---------------------------------------------------------------- one step keeps the peace

  /** The key a worker works for, which is its row's once it has one. */
  ghost predicate WorksFor(db: Db, key: KeyPair, w: Worker) {
    Calling(w) && KeyOf(db, w) == key && (w.Reserving? || w.rsv < |db.rsvs|)
  }

  lemma ItsRow(db: Db, key: KeyPair, w: Worker)
    requires InOrder(db) && WorksFor(db, key, w) && !w.Reserving?
    ensures RowOf(db, key) == Some(w.rsv)
  {
    RowFound(db, w.rsv);
  }

  /** While a key has no row, its calls are all about to reserve, and alike. */
  lemma NoRowYet(db: Db, key: KeyPair, w: Worker, v: Worker)
    requires InOrder(db) && RowOf(db, key).None? && WorksFor(db, key, w) && WorksFor(db, key, v) && Peace(db, key, w, v)
    ensures w.Reserving? && v.Reserving? && Alike(db, key, w, v)
  {
    if !w.Reserving? {
      ItsRow(db, key, w);
    }
    if !v.Reserving? {
      ItsRow(db, key, v);
    }
  }

  /** A new row reserves what its maker would, so calls alike to it are alike on the row. */
  lemma NewRowAlike(db: Db, db': Db, key: KeyPair, w: Worker, v: Worker)
    requires InOrder(db) && InOrder(db') && RowOf(db, key).None? && w.Reserving? && v.Reserving?
    requires WorksFor(db, key, w) && WorksFor(db, key, v) && Alike(db, key, w, v)
    requires w.call.auth < |db.auths| && RowOf(db', key).Some? && db'.rsvs[RowOf(db', key).value].reserved == WouldReserve(db, w)
    ensures var R := db'.rsvs[RowOf(db', key).value].reserved;
            w.invoice.hash == v.invoice.hash && (Bindable(w.invoice, R) <==> Bindable(v.invoice, R))
  {
  }

  lemma ReserveMakesRow(db: Db, w: Worker)
    requires InOrder(db) && w.Reserving? && RowOf(db, (w.call.auth, w.call.key)).None?
    requires Reserve(db, w.call, w.ceiling, w.now).result.Ok?
    ensures var db' := Reserve(db, w.call, w.ceiling, w.now).db;
            var key := (w.call.auth, w.call.key);
            && InOrder(db') && w.call.auth < |db.auths| && Reserve(db, w.call, w.ceiling, w.now).result == Ok(|db.rsvs|)
            && |db'.rsvs| == |db.rsvs| + 1 && db'.rsvs[..|db.rsvs|] == db.rsvs
            && RowOf(db', key) == Some(|db.rsvs|) && db'.rsvs[|db.rsvs|].reserved == WouldReserve(db, w) && db'.rsvs[|db.rsvs|].status == Reserved
  {
    ReserveKeepsOrder(db, w.call, w.ceiling, w.now);
    var db' := Reserve(db, w.call, w.ceiling, w.now).db;
    RowFound(db', |db.rsvs|);
  }

  /** Two calls that both lived in peace with the maker of the row live in peace with each other. */
  lemma OthersOnNewRow(db: Db, w: Worker, u: Worker, v: Worker)
    requires InOrder(db) && w.Reserving? && RowOf(db, (w.call.auth, w.call.key)).None?
    requires Reserve(db, w.call, w.ceiling, w.now).result.Ok?
    requires var key := (w.call.auth, w.call.key);
             && WorksFor(db, key, w) && WorksFor(db, key, u) && WorksFor(db, key, v)
             && Peace(db, key, w, u) && Peace(db, key, w, v)
    ensures Peace(Reserve(db, w.call, w.ceiling, w.now).db, (w.call.auth, w.call.key), u, v)
  {
    var db', key := Reserve(db, w.call, w.ceiling, w.now).db, (w.call.auth, w.call.key);
    ReserveMakesRow(db, w);
    NoRowYet(db, key, w, u);
    NoRowYet(db, key, w, v);
    NewRowAlike(db, db', key, w, u);
    NewRowAlike(db, db', key, w, v);
  }

  lemma MakerOnNewRow(db: Db, w: Worker, v: Worker)
    requires InOrder(db) && w.Reserving? && RowOf(db, (w.call.auth, w.call.key)).None?
    requires Reserve(db, w.call, w.ceiling, w.now).result.Ok?
    requires var key := (w.call.auth, w.call.key);
             WorksFor(db, key, w) && WorksFor(db, key, v) && Peace(db, key, w, v)
    ensures Peace(Reserve(db, w.call, w.ceiling, w.now).db, (w.call.auth, w.call.key), Turn(db, w, None).1, v)
  {
    var db', key := Reserve(db, w.call, w.ceiling, w.now).db, (w.call.auth, w.call.key);
    ReserveMakesRow(db, w);
    NoRowYet(db, key, w, v);
    NewRowAlike(db, db', key, w, v);
  }

  /** A call that finds the row of its key. */
  lemma FinderKeepsPeace(db: Db, w: Worker, v: Worker, key: KeyPair)
    requires InOrder(db) && w.Reserving? && WorksFor(db, key, w) && RowOf(db, key).Some? && Peace(db, key, w, v)
    requires Calling(Turn(db, w, None).1)
    ensures Turn(db, w, None).0 == db && Peace(db, key, Turn(db, w, None).1, v)
  {
  }

  /** What a call that is about to start its payment relies on. */
  ghost predicate BoundFits(db: Db, w: Worker) {
    && (w.Initiating? ==> w.rsv < |db.rsvs| && Bindable(w.invoice, db.rsvs[w.rsv].reserved))
    && (w.Paying? || w.Awaiting? || w.Settling? ==>
          w.rsv < |db.rsvs| && db.rsvs[w.rsv].status != Reserved && db.rsvs[w.rsv].status != InvoiceBound)
    && (w.Releasing? ==> w.rsv < |db.rsvs| && !PaymentReached(db.rsvs[w.rsv].status))
  }

  /** The bind of one call fails on a row that could be bound: then that of the other fails too. */
  lemma BothFail(db: Db, key: KeyPair, w: Worker, v: Worker)
    requires InOrder(db) && w.Binding? && WorksFor(db, key, w) && WorksFor(db, key, v) && WorkerInOrder(db, v) && BoundFits(db, v)
    requires !PastBinding(db, key) && Asks(v) && Alike(db, key, w, v) && BindInvoice(db, w.rsv, w.invoice).result.Err?
    ensures Doomed(db, key, v)
  {
    ItsRow(db, key, w);
    assert RsvInOrder(db, db.rsvs[w.rsv], w.rsv);
    if !v.Reserving? {
      ItsRow(db, key, v);
    }
  }

  lemma BinderKeepsPeace(db: Db, w: Worker, v: Worker, key: KeyPair, answer: Option<Settlement>)
    requires InOrder(db) && w.Binding? && WorksFor(db, key, w) && WorksFor(db, key, v) && WorkerInOrder(db, v) && BoundFits(db, v)
    requires Peace(db, key, w, v)
    ensures Peace(Turn(db, w, answer).0, key, Turn(db, w, answer).1, v)
  {
    ItsRow(db, key, w);
    if BindInvoice(db, w.rsv, w.invoice).result.Ok? {
      var db' := Turn(db, w, answer).0;
      TurnKeepsOrder(db, w, answer);
      TurnEvolves(db, w, answer);
      TurnKeepsScope(db, w, answer);
      RowKept(db, db', key);
      PeaceStays(db, db', key, w, v);
      assert Alike(db, key, w, v);
    } else if !PastBinding(db, key) && Asks(v) && Alike(db, key, w, v) {
      BothFail(db, key, w, v);
    }
  }

  /** From the start of its payment on, a call's row is past binding. */
  lemma PayerIsPast(db: Db, w: Worker, key: KeyPair, answer: Option<Settlement>)
    requires InOrder(db) && WorksFor(db, key, w) && WorkerInOrder(db, w) && BoundFits(db, w)
    requires w.Initiating? || w.Paying? || w.Awaiting? || w.Settling?
    ensures PastBinding(Turn(db, w, answer).0, key)
  {
    ItsRow(db, key, w);
    assert RsvInOrder(db, db.rsvs[w.rsv], w.rsv);
    var db' := Turn(db, w, answer).0;
    TurnKeepsOrder(db, w, answer);
    TurnEvolves(db, w, answer);
    RowKept(db, db', key);
  }

  lemma CleanerKeepsPeace(db: Db, w: Worker, v: Worker, key: KeyPair, answer: Option<Settlement>)
    requires w.Cleanup? && Peace(db, key, w, v) && Calling(Turn(db, w, answer).1)
    ensures Turn(db, w, answer).0 == db && Peace(db, key, Turn(db, w, answer).1, v)
  {
  }

  lemma MoverKeepsPeace(db: Db, w: Worker, v: Worker, key: KeyPair, answer: Option<Settlement>)
    requires InOrder(db) && WorksFor(db, key, w) && WorksFor(db, key, v)
    requires WorkerInOrder(db, w) && WorkerInOrder(db, v) && BoundFits(db, w) && BoundFits(db, v)
    requires Peace(db, key, w, v) && Calling(Turn(db, w, answer).1)
    ensures Peace(Turn(db, w, answer).0, key, Turn(db, w, answer).1, v)
  {
    match w
    case Reserving(call, _, _, _) =>
      if RowOf(db, key).None? {
        MakerOnNewRow(db, w, v);
      } else {
        FinderKeepsPeace(db, w, v, key);
      }
    case Binding(_, _) => BinderKeepsPeace(db, w, v, key, answer);
    case Cleanup(_) => CleanerKeepsPeace(db, w, v, key, answer);
    case Releasing(_) =>
    case _ => PayerIsPast(db, w, key, answer);
  }

  /** Only a call that reserves gives its key a row. */
  lemma OnlyReserversMakeRows(db: Db, w: Worker, key: KeyPair, answer: Option<Settlement>)
    requires InOrder(db) && RowOf(db, key).None? && RowOf(Turn(db, w, answer).0, key).Some?
    ensures w.Reserving? && key == (w.call.auth, w.call.key) && Reserve(db, w.call, w.ceiling, w.now).result.Ok?
  {
    var db', r := Turn(db, w, answer).0, RowOf(Turn(db, w, answer).0, key).value;
    TurnEvolves(db, w, answer);
    assert r < |db.rsvs| ==> RowEvolves(db.rsvs[r], db'.rsvs[r]);
    if !w.Reserving? {
      OthersAddNoRow(db, w, answer);
    }
  }

  lemma OthersAddNoRow(db: Db, w: Worker, answer: Option<Settlement>)
    requires !w.Reserving?
    ensures |Turn(db, w, answer).0.rsvs| == |db.rsvs|
  {
  }

  lemma OthersKeepPeace(db: Db, w: Worker, u: Worker, v: Worker, key: KeyPair, answer: Option<Settlement>)
    requires InOrder(db) && WorksFor(db, key, u) && WorksFor(db, key, v) && Peace(db, key, u, v)
    requires WorksFor(db, key, w) ==> Peace(db, key, w, u) && Peace(db, key, w, v)
    ensures Peace(Turn(db, w, answer).0, key, u, v)
  {
    var db' := Turn(db, w, answer).0;
    if RowOf(db, key).None? && RowOf(db', key).Some? {
      OnlyReserversMakeRows(db, w, key, answer);
      OthersOnNewRow(db, w, u, v);
    } else {
      TurnKeepsOrder(db, w, answer);
      TurnEvolves(db, w, answer);
      TurnKeepsScope(db, w, answer);
      PeaceStays(db, db', key, u, v);
    }
  }

  lemma MoverFits(db: Db, w: Worker, answer: Option<Settlement>)
    requires InOrder(db) && WorkerInOrder(db, w) && BoundFits(db, w)
    ensures BoundFits(Turn(db, w, answer).0, Turn(db, w, answer).1)
  {
  }

  lemma OthersFit(db: Db, w: Worker, u: Worker, answer: Option<Settlement>)
    requires InOrder(db) && WorkerInOrder(db, u) && BoundFits(db, u)
    requires forall key :: WorksFor(db, key, w) && WorksFor(db, key, u) ==> Peace(db, key, w, u)
    ensures BoundFits(Turn(db, w, answer).0, u)
  {
    var db' := Turn(db, w, answer).0;
    TurnEvolves(db, w, answer);
    if u.Initiating? || u.Paying? || u.Awaiting? || u.Settling? || u.Releasing? {
      assert RowEvolves(db.rsvs[u.rsv], db'.rsvs[u.rsv]);
      if u.Releasing? && PaymentReached(db'.rsvs[u.rsv].status) {
        OnlyCallersSetOff(db, w, answer, u.rsv);
        StarterHasNoCleaner(db, w, u);
        assert false;
      }
    }
  }

  /** A call that can start its payment is not at peace with one that is about to release. */
  lemma StarterHasNoCleaner(db: Db, w: Worker, u: Worker)
    requires InOrder(db) && w.Initiating? && u.Releasing? && u.rsv == w.rsv && w.rsv < |db.rsvs|
    requires forall key :: WorksFor(db, key, w) && WorksFor(db, key, u) ==> Peace(db, key, w, u)
    ensures db.rsvs[w.rsv].status != InvoiceBound
  {
    var key := KeyOf(db, w);
    assert WorksFor(db, key, w) && WorksFor(db, key, u);
    ItsRow(db, key, w);
  }

  // ---------------------------------------------------------------- over every run

  ghost predicate Peaceful(sys: Sys) {
    && (forall j, k :: 0 <= j < |sys.workers| && 0 <= k < |sys.workers| && j != k && Calling(sys.workers[j]) && Calling(sys.workers[k])
                       && KeyOf(sys.db, sys.workers[j]) == KeyOf(sys.db, sys.workers[k]) ==>
          Peace(sys.db, KeyOf(sys.db, sys.workers[j]), sys.workers[j], sys.workers[k]))
    && (forall k :: 0 <= k < |sys.workers| ==> BoundFits(sys.db, sys.workers[k]))
    && sys.late == {}
  }

  lemma CallersWork(db: Db, w: Worker)
    requires WorkerInOrder(db, w) && Calling(w)
    ensures WorksFor(db, KeyOf(db, w), w)
  {
  }

  lemma AdvanceKeepsPairs(sys: Sys, worker: nat, answer: Option<Settlement>, j: nat, k: nat)
    requires SysInOrder(sys) && Peaceful(sys) && worker < |sys.workers| && j < |sys.workers| && k < |sys.workers| && j != k
    requires var sys' := Next(sys, Advance(worker, answer));
             Calling(sys'.workers[j]) && Calling(sys'.workers[k]) && KeyOf(sys'.db, sys'.workers[j]) == KeyOf(sys'.db, sys'.workers[k])
    requires k != worker
    ensures var sys' := Next(sys, Advance(worker, answer));
            Peace(sys'.db, KeyOf(sys'.db, sys'.workers[j]), sys'.workers[j], sys'.workers[k])
  {
    var sys', w, v := Next(sys, Advance(worker, answer)), sys.workers[worker], sys.workers[k];
    var key := KeyOf(sys.db, v);
    assert WorkerInOrder(sys.db, v) && WorkerInOrder(sys.db, sys.workers[j]) && WorkerInOrder(sys.db, w);
    TurnEvolves(sys.db, w, answer);
    KeysStay(sys.db, sys'.db, v);
    CallersWork(sys.db, v);
    if j == worker {
      TurnKeepsKey(sys.db, w, answer);
      CallersWork(sys.db, w);
      MoverKeepsPeace(sys.db, w, v, key, answer);
    } else {
      var u := sys.workers[j];
      KeysStay(sys.db, sys'.db, u);
      CallersWork(sys.db, u);
      OthersKeepPeace(sys.db, w, u, v, key, answer);
    }
  }

  lemma PeaceBothWays(db: Db, key: KeyPair, w: Worker, v: Worker)
    ensures Peace(db, key, w, v) <==> Peace(db, key, v, w)
  {
  }

  lemma AdvanceKeepsPeaceful(sys: Sys, worker: nat, answer: Option<Settlement>)
    requires SysInOrder(sys) && Peaceful(sys) && worker < |sys.workers|
    ensures Peaceful(Next(sys, Advance(worker, answer)))
  {
    var sys', w := Next(sys, Advance(worker, answer)), sys.workers[worker];
    forall j, k | 0 <= j < |sys'.workers| && 0 <= k < |sys'.workers| && j != k && Calling(sys'.workers[j]) && Calling(sys'.workers[k])
                  && KeyOf(sys'.db, sys'.workers[j]) == KeyOf(sys'.db, sys'.workers[k])
      ensures Peace(sys'.db, KeyOf(sys'.db, sys'.workers[j]), sys'.workers[j], sys'.workers[k])
    {
      if k != worker {
        AdvanceKeepsPairs(sys, worker, answer, j, k);
      } else {
        AdvanceKeepsPairs(sys, worker, answer, k, j);
        PeaceBothWays(sys'.db, KeyOf(sys'.db, sys'.workers[j]), sys'.workers[j], sys'.workers[k]);
      }
    }
    forall k | 0 <= k < |sys'.workers|
      ensures BoundFits(sys'.db, sys'.workers[k])
    {
      AdvanceKeepsFit(sys, worker, answer, k);
    }
    assert BoundFits(sys.db, w);
  }

  lemma AdvanceKeepsFit(sys: Sys, worker: nat, answer: Option<Settlement>, k: nat)
    requires SysInOrder(sys) && Peaceful(sys) && worker < |sys.workers| && k < |sys.workers|
    ensures BoundFits(Next(sys, Advance(worker, answer)).db, Next(sys, Advance(worker, answer)).workers[k])
  {
    var w, u := sys.workers[worker], sys.workers[k];
    assert WorkerInOrder(sys.db, w) && WorkerInOrder(sys.db, u);
    if k == worker {
      MoverFits(sys.db, w, answer);
    } else {
      OthersFit(sys.db, w, u, answer);
    }
  }

  lemma OtherActionsKeepPeaceful(sys: Sys, action: Action)
    requires SysInOrder(sys) && Peaceful(sys) && !action.Advance? && !action.Execute? && !action.Reconcile? && !action.Crash?
    ensures Peaceful(Next(sys, action))
  {
    var db' := Next(sys, action).db;
    NextEvolves(sys, action);
    NextKeepsScope(sys, action);
    NextInOrder(sys, action);
    forall j, k | 0 <= j < |sys.workers| && 0 <= k < |sys.workers| && j != k && Calling(sys.workers[j]) && Calling(sys.workers[k])
                  && KeyOf(db', sys.workers[j]) == KeyOf(db', sys.workers[k])
      ensures Peace(db', KeyOf(db', sys.workers[j]), sys.workers[j], sys.workers[k])
    {
      assert db'.rsvs == sys.db.rsvs;
      PeaceStays(sys.db, db', KeyOf(sys.db, sys.workers[j]), sys.workers[j], sys.workers[k]);
    }
  }

  lemma NextInOrder(sys: Sys, action: Action)
    requires SysInOrder(sys) && !action.Advance?
    ensures InOrder(Next(sys, action).db)
  {
    match action
    case Authorize(maxTotal, maxPerCall, maxRouteFee, maxCalls, agents, specialties, expiresAt, now) =>
      CreateKeepsOrder(sys.db, maxTotal, maxPerCall, maxRouteFee, maxCalls, agents, specialties, expiresAt, now);
    case RevokeAuth(auth) => RevokeKeepsOrder(sys.db, auth);
    case _ =>
  }

  lemma StartKeepsPeaceful(sys: Sys, action: Action)
    requires Peaceful(sys) && StartsInPeace(sys, action) && (action.Execute? || action.Reconcile?)
    ensures Peaceful(Next(sys, action))
  {
    var sys', n := Next(sys, action), |sys.workers|;
    forall j, k | 0 <= j < |sys'.workers| && 0 <= k < |sys'.workers| && j != k && Calling(sys'.workers[j]) && Calling(sys'.workers[k])
                  && KeyOf(sys'.db, sys'.workers[j]) == KeyOf(sys'.db, sys'.workers[k])
      ensures Peace(sys'.db, KeyOf(sys'.db, sys'.workers[j]), sys'.workers[j], sys'.workers[k])
    {
      PeaceBothWays(sys'.db, KeyOf(sys'.db, sys'.workers[j]), sys'.workers[j], sys'.workers[k]);
    }
  }

  lemma {:induction false} NoClashRun(actions: seq<Action>)
    requires NoClash(actions)
    ensures Peaceful(Exec(actions))
  {
    if actions != [] {
      var front, last := actions[..|actions| - 1], actions[|actions| - 1];
      NoClashRun(front);
      RunInOrder(front);
      if last.Advance? {
        if last.worker < |Exec(front).workers| {
          AdvanceKeepsPeaceful(Exec(front), last.worker, last.answer);
        }
      } else if last.Execute? || last.Reconcile? {
        StartKeepsPeaceful(Exec(front), last);
      } else if !last.Crash? {
        OtherActionsKeepPeaceful(Exec(front), last);
      }
    }
  }

  /** If no execute call starts beside another on its key that it clashes with, no payment is ever
      lost: calls may overlap as long as they bring one payment hash that is bindable for all of
      them, or for none. Without that, module L402Keys has the schedule that loses one. */
  lemma NoClashLosesNothing(actions: seq<Action>, i: nat)
    requires NoClash(actions) && i < |Exec(actions).paid|
    ensures var sys := Exec(actions);
            sys.paid[i] < |sys.db.rsvs| && PaymentReached(sys.db.rsvs[sys.paid[i]].status)
  {
    NoClashRun(actions);
    PaidIsAccountedFor(actions, i);
  }

  /** Where the condition meets L402Keys.OverlapCanLose: of two calls starting on an unused key, the
      first with an invoice that can be bound, a clash means no peace; and no peace means a clash, if
      both would reserve the same. */
  lemma ClashIsNoPeace(db: Db, w: Worker, v: Worker)
    requires w.Reserving? && v.Reserving? && v.call == w.call && w.call.auth < |db.auths|
    requires RowOf(db, (w.call.auth, w.call.key)).None? && Bindable(w.invoice, WouldReserve(db, w))
    ensures var (peace, clash) := (Peace(db, (w.call.auth, w.call.key), w, v), Clashes(w.invoice, v.invoice, WouldReserve(db, w)));
            (clash ==> !peace) && (v.ceiling == w.ceiling ==> (peace <==> !clash))
  {
  }
}
