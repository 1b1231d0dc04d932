/** What a stored receipt says: the payload of the payment that was made under its key, and that is
    what every call returns. services/gateway/gateway_store.py:405-436 and
    production_main.py:413-421,443-460. */
module GatewayReceipts {
  import opened GatewayClaims

  /** The action gives this worker the receipt of its payment. */
  predicate Pays(sys: Sys, action: Action, k: nat) {
    action.Advance? && action.worker == k && k < |sys.workers| && sys.workers[k].Working? && action.answer.outcome.Paid?
  }

  /** The receipt that a worker's downstream payment answered with in a run. */
  function PaidWith(actions: seq<Action>, k: nat): Option<string> {
    if actions == [] then None
    else
      var front, last := actions[..|actions| - 1], actions[|actions| - 1];
      if Pays(Exec(front), last, k) then Some(last.answer.outcome.payload) else PaidWith(front, k)
  }

  /** After one more step. */
  function After(sys: Sys, action: Action, given: nat -> Option<string>): nat -> Option<string> {
    (k: nat) => if Pays(sys, action, k) then Some(action.answer.outcome.payload) else given(k)
  }

  /** What a worker holds, or returns, is a payment's answer; before its own payment it has none. */
  ghost predicate HoldsPaid(given: nat -> Option<string>, db: Db, k: nat, w: Worker) {
    match w
    case Claiming(_, _) => given(k).None?
    case Working(_, _, _) => given(k).None?
    case Saving(_, _, _, payload) => given(k) == Some(payload)
    case Completing(_, _, _, payload) => given(k) == Some(payload)
    case Returned(_, _, event, payload) => event in db.receipts && db.receipts[event].payload == payload
    case _ => true
  }

  ghost predicate StoresPaid(given: nat -> Option<string>, db: Db) {
    forall e :: e in db.receipts ==> given(e) == Some(db.receipts[e].payload)
  }

  ghost predicate AllPaid(given: nat -> Option<string>, sys: Sys) {
    && StoresPaid(given, sys.db)
    && (forall k :: 0 <= k < |sys.workers| ==> HoldsPaid(given, sys.db, k, sys.workers[k]))
    && (forall k: nat :: k >= |sys.workers| ==> given(k).None?)
  }

  /** A step adds at most its own worker's receipt and changes none. */
  lemma TurnKeepsReceipts(db: Db, me: nat, clock: int, w: Worker, answer: Answer)
    requires WorkerInOrder(db, me, w)
    ensures var db' := Turn(db, me, clock, w, answer).0;
            && (forall e :: e in db.receipts ==> e in db'.receipts && db'.receipts[e] == db.receipts[e])
            && (forall e :: e in db'.receipts && e !in db.receipts ==>
                  e == me && w.Saving? && db'.receipts[e] == Receipt(w.slot, w.hash, w.payload))
  {
  }

  /** The worker's own step keeps what it holds. */
  lemma TurnHoldsPaid(given: nat -> Option<string>, given': nat -> Option<string>, db: Db, me: nat, clock: int, w: Worker, answer: Answer)
    requires WorkerInOrder(db, me, w) && HoldsPaid(given, db, me, w) && StoresPaid(given, db)
    requires given'(me) == if w.Working? && answer.outcome.Paid? then Some(answer.outcome.payload) else given(me)
    ensures HoldsPaid(given', Turn(db, me, clock, w, answer).0, me, Turn(db, me, clock, w, answer).1)
  {
  }

  lemma AdvanceKeepsPaid(given: nat -> Option<string>, sys: Sys, action: Action)
    requires InOrder(sys) && AllPaid(given, sys) && action.Advance? && action.worker < |sys.workers|
    ensures AllPaid(After(sys, action, given), Next(sys, action))
  {
    var me, w, given' := action.worker, sys.workers[action.worker], After(sys, action, given);
    var sys' := Next(sys, action);
    TurnKeepsReceipts(sys.db, me, sys.clock, w, action.answer);
    TurnHoldsPaid(given, given', sys.db, me, sys.clock, w, action.answer);
    forall k | 0 <= k < |sys'.workers|
      ensures HoldsPaid(given', sys'.db, k, sys'.workers[k])
    {
      assert HoldsPaid(given, sys.db, k, sys.workers[k]);
    }
    forall e | e in sys'.db.receipts
      ensures given'(e) == Some(sys'.db.receipts[e].payload)
    {
      assert WorkerInOrder(sys.db, me, w);
    }
    forall k: nat | k >= |sys'.workers|
      ensures given'(k).None?
    {
      assert given(k).None?;
    }
  }

  lemma NextKeepsPaid(given: nat -> Option<string>, sys: Sys, action: Action)
    requires InOrder(sys) && AllPaid(given, sys)
    ensures AllPaid(After(sys, action, given), Next(sys, action))
  {
    if action.Advance? && action.worker < |sys.workers| {
      AdvanceKeepsPaid(given, sys, action);
    } else {
      assert forall k: nat :: After(sys, action, given)(k) == given(k);
      forall k | 0 <= k < |Next(sys, action).workers|
        ensures HoldsPaid(After(sys, action, given), Next(sys, action).db, k, Next(sys, action).workers[k])
      {
        if k < |sys.workers| {
          assert HoldsPaid(given, sys.db, k, sys.workers[k]);
        } else {
          assert given(k).None?;
        }
      }
    }
  }

  function Given(actions: seq<Action>): nat -> Option<string> {
    (k: nat) => PaidWith(actions, k)
  }

  lemma SamePaid(f: nat -> Option<string>, g: nat -> Option<string>, sys: Sys)
    requires AllPaid(f, sys) && forall k: nat :: f(k) == g(k)
    ensures AllPaid(g, sys)
  {
    forall k | 0 <= k < |sys.workers|
      ensures HoldsPaid(g, sys.db, k, sys.workers[k])
    {
      assert HoldsPaid(f, sys.db, k, sys.workers[k]);
    }
  }

  lemma {:induction false} RunKeepsPaid(actions: seq<Action>)
    ensures AllPaid(Given(actions), Exec(actions))
  {
    if actions != [] {
      var front, last := actions[..|actions| - 1], actions[|actions| - 1];
      RunKeepsPaid(front);
      RunInOrder(front);
      NextKeepsPaid(Given(front), Exec(front), last);
      SamePaid(After(Exec(front), last, Given(front)), Given(actions), Exec(actions));
    }
  }

  /** In every run a stored receipt is the one that its own worker's payment answered with. */
  lemma ReceiptIsThePayments(actions: seq<Action>, e: nat)
    requires e in Exec(actions).db.receipts
    ensures PaidWith(actions, e) == Some(Exec(actions).db.receipts[e].payload)
  {
    RunKeepsPaid(actions);
    assert Given(actions)(e) == Some(Exec(actions).db.receipts[e].payload);
  }

  /** And every call that returns a receipt, the first one or a replay, returns the answer of the
      payment made under its key and for its request, so all calls of a key return the same. */
  lemma ReturnsThePayment(actions: seq<Action>, j: nat, k: nat)
    requires var ws := Exec(actions).workers;
             j < |ws| && k < |ws| && ws[j].Returned? && ws[k].Returned? && ws[j].slot == ws[k].slot
    ensures var (db, w, v) := (Exec(actions).db, Exec(actions).workers[j], Exec(actions).workers[k]);
            && w.event in db.receipts && db.receipts[w.event] == Receipt(w.slot, w.hash, w.payload)
            && PaidWith(actions, w.event) == Some(w.payload)
            && v.event == w.event && v.payload == w.payload
  {
    RunKeepsPaid(actions);
    RunInOrder(actions);
    SameReceiptForAll(actions, j, k);
    var sys := Exec(actions);
    assert WorkerInOrder(sys.db, j, sys.workers[j]);
    assert HoldsPaid(Given(actions), sys.db, j, sys.workers[j]) && HoldsPaid(Given(actions), sys.db, k, sys.workers[k]);
    ReceiptIsThePayments(actions, sys.workers[j].event);
  }
}
