/** The hash-chained audit log. services/agent-commerce/agent_commerce/storage.py:150-160,203-254.

    The hash is a parameter: all that is used of it is that its outputs are not empty and hold no
    separator, and, where it is said, that it does not collide on the materials at hand. */
module AuditLog {
  datatype Option<+T> = None | Some(value: T)

  datatype Fields = Fields(id: string, aggregateType: string, aggregateId: string, eventType: string, payload: string, createdAt: string)
  datatype Event = Event(fields: Fields, previous: Option<string>, hash: string)

  function OrEmpty(h: Option<string>): string {
    if h.Some? then h.value else ""
  }

  /** The string that is hashed: the previous hash and the fields, joined by bars. */
  function Material(previous: Option<string>, f: Fields): string {
    OrEmpty(previous) + "|" + (f.id + "|" + (f.aggregateType + "|" + (f.aggregateId + "|" + (f.eventType + "|" + (f.payload + "|" + f.createdAt)))))
  }

  function LastHash(log: seq<Event>): Option<string> {
    if log == [] then None else Some(log[|log| - 1].hash)
  }

  /** What was hashed at position i, if the log verifies. */
  function MaterialAt(log: seq<Event>, i: nat): string
    requires i < |log|
  {
    Material(LastHash(log[..i]), log[i].fields)
  }

  ghost predicate Digest(hash: string -> string) {
    forall m :: hash(m) != "" && '|' !in hash(m)
  }

  predicate Linked(hash: string -> string, log: seq<Event>, i: nat)
    requires i < |log|
  {
    log[i].previous == LastHash(log[..i]) && log[i].hash == hash(MaterialAt(log, i))
  }

  ghost predicate Verifies(hash: string -> string, log: seq<Event>) {
    forall i :: 0 <= i < |log| ==> Linked(hash, log, i)
  }

  /** The event ids and the event hashes are unique columns. */
  predicate Rejected(log: seq<Event>, e: Event) {
    exists i :: 0 <= i < |log| && (log[i].fields.id == e.fields.id || log[i].hash == e.hash)
  }

  function Chained(hash: string -> string, log: seq<Event>, f: Fields): Event {
    Event(f, LastHash(log), hash(Material(LastHash(log), f)))
  }

  function Append(hash: string -> string, log: seq<Event>, f: Fields): seq<Event> {
    if Rejected(log, Chained(hash, log, f)) then log else log + [Chained(hash, log, f)]
  }

  function Build(hash: string -> string, appended: seq<Fields>): seq<Event> {
    if appended == [] then [] else Append(hash, Build(hash, appended[..|appended| - 1]), appended[|appended| - 1])
  }

  class Store {
    var log: seq<Event>

    constructor ()
      ensures log == []
    {
      log := [];
    }

    /** append_audit_event: reads the last hash, hashes, inserts. */
    method AppendEvent(hash: string -> string, f: Fields) returns (eventHash: Option<string>)
      modifies this
      ensures log == Append(hash, old(log), f)
      ensures var e := Chained(hash, old(log), f);
              eventHash.Some? <==> forall i :: 0 <= i < |old(log)| ==> old(log)[i].fields.id != f.id && old(log)[i].hash != e.hash
      ensures eventHash.Some? ==>
                log == old(log) + [Event(f, LastHash(old(log)), eventHash.value)] && eventHash.value == hash(Material(LastHash(old(log)), f))
      ensures eventHash.None? ==> log == old(log)
    {
      var previous := if log == [] then None else Some(log[|log| - 1].hash);
      var e := Event(f, previous, hash(Material(previous, f)));
      if Rejected(log, e) {
        return None;
      }
      log := log + [e];
      return Some(e.hash);
    }

    /** verify_audit_chain: one pass that carries the expected hash. */
    method VerifyAuditChain(hash: string -> string) returns (ok: bool)
      ensures ok <==> Verifies(hash, log)
    {
      var previous: Option<string> := None;
      for i := 0 to |log|
        invariant previous == LastHash(log[..i])
        invariant forall j :: 0 <= j < i ==> Linked(hash, log, j)
      {
        var expected := hash(Material(previous, log[i].fields));
        if log[i].previous != previous || log[i].hash != expected {
          assert !Linked(hash, log, i);
          return false;
        }
        previous := Some(expected);
      }
      return true;
    }
  }

  // ---------------------------------------------------------------- every log that is built verifies

  lemma AppendKeepsChain(hash: string -> string, log: seq<Event>, f: Fields)
    requires Verifies(hash, log)
    ensures Verifies(hash, Append(hash, log, f))
  {
    var log' := Append(hash, log, f);
    forall i | 0 <= i < |log'|
      ensures Linked(hash, log', i)
    {
      assert log'[..i] == log[..i];
      if i < |log| {
        assert Linked(hash, log, i);
      } else {
        assert log[..i] == log;
      }
    }
  }

  lemma {:induction false} EveryBuiltLogVerifies(hash: string -> string, appended: seq<Fields>)
    ensures Verifies(hash, Build(hash, appended))
  {
    if appended != [] {
      EveryBuiltLogVerifies(hash, appended[..|appended| - 1]);
      AppendKeepsChain(hash, Build(hash, appended[..|appended| - 1]), appended[|appended| - 1]);
    }
  }

  /** A log takes an event exactly if its id and its hash are new, and then at the end, with its own
      fields and the last hash before it. */
  lemma AppendAdds(hash: string -> string, log: seq<Event>, f: Fields)
    ensures var h := hash(Material(LastHash(log), f));
            Append(hash, log, f)
            == if forall i :: 0 <= i < |log| ==> log[i].fields.id != f.id && log[i].hash != h
               then log + [Event(f, LastHash(log), h)] else log
  {
  }

  // ---------------------------------------------------------------- the last hash fixes the log

  lemma {:induction false} FirstBarAt(a: string, x: string)
    requires '|' !in a
    ensures var s := a + "|" + x;
            && s[|a|] == '|' && (forall i :: 0 <= i < |a| ==> s[i] != '|')
            && s[..|a|] == a && s[|a| + 1..] == x
  {
  }

  /** Two joins of a first part without a bar agree only part by part. */
  lemma {:induction false} FirstBarSplits(a: string, x: string, b: string, y: string)
    requires '|' !in a && '|' !in b && a + "|" + x == b + "|" + y
    ensures a == b && x == y
  {
    FirstBarAt(a, x);
    FirstBarAt(b, y);
  }

  ghost predicate NoCollision(hash: string -> string, s: seq<Event>, t: seq<Event>) {
    forall i, j :: 0 <= i < |s| && 0 <= j < |t| && hash(MaterialAt(s, i)) == hash(MaterialAt(t, j)) ==> MaterialAt(s, i) == MaterialAt(t, j)
  }

  lemma NoCollisionPrefix(hash: string -> string, s: seq<Event>, t: seq<Event>, m: nat, n: nat)
    requires NoCollision(hash, s, t) && m <= |s| && n <= |t|
    ensures NoCollision(hash, s[..m], t[..n])
  {
    forall i, j | 0 <= i < m && 0 <= j < n && hash(MaterialAt(s[..m], i)) == hash(MaterialAt(t[..n], j))
      ensures MaterialAt(s[..m], i) == MaterialAt(t[..n], j)
    {
      assert s[..m][..i] == s[..i] && t[..n][..j] == t[..j];
      assert MaterialAt(s[..m], i) == MaterialAt(s, i) && MaterialAt(t[..n], j) == MaterialAt(t, j);
    }
  }

  lemma VerifiesPrefix(hash: string -> string, s: seq<Event>, m: nat)
    requires Verifies(hash, s) && m <= |s|
    ensures Verifies(hash, s[..m])
  {
    forall i | 0 <= i < m
      ensures Linked(hash, s[..m], i)
    {
      assert s[..m][..i] == s[..i];
      assert Linked(hash, s, i);
    }
  }

  /** A previous hash is a digest of an earlier event, so it is not empty and has no bar. */
  lemma HashHasNoBar(hash: string -> string, s: seq<Event>)
    requires Digest(hash) && Verifies(hash, s)
    ensures '|' !in OrEmpty(LastHash(s))
    ensures s != [] <==> OrEmpty(LastHash(s)) != ""
  {
    if s != [] {
      assert Linked(hash, s, |s| - 1);
    }
  }

  ghost predicate SameMaterials(s: seq<Event>, t: seq<Event>) {
    |s| == |t| && forall i :: 0 <= i < |s| ==> MaterialAt(s, i) == MaterialAt(t, i)
  }

  lemma SameMaterialsExtend(s: seq<Event>, t: seq<Event>)
    requires s != [] && t != [] && SameMaterials(s[..|s| - 1], t[..|t| - 1])
    requires MaterialAt(s, |s| - 1) == MaterialAt(t, |t| - 1)
    ensures SameMaterials(s, t)
  {
    var n := |s| - 1;
    forall i | 0 <= i < n
      ensures MaterialAt(s, i) == MaterialAt(t, i)
    {
      assert s[..n][..i] == s[..i] && t[..n][..i] == t[..i];
      assert MaterialAt(s[..n], i) == MaterialAt(t[..n], i);
    }
  }

  /** Two logs that verify and end in the same hash are equally long and hashed the same material
      at every position, unless the hash collided on what the two logs hashed. */
  lemma {:induction false} LastHashFixesLog(hash: string -> string, s: seq<Event>, t: seq<Event>)
    requires Digest(hash) && Verifies(hash, s) && Verifies(hash, t) && NoCollision(hash, s, t)
    requires LastHash(s) == LastHash(t)
    ensures SameMaterials(s, t)
    decreases |s|
  {
    if s != [] {
      var m, n := |s| - 1, |t| - 1;
      assert Linked(hash, s, m) && Linked(hash, t, n);
      assert MaterialAt(s, m) == MaterialAt(t, n);
      VerifiesPrefix(hash, s, m);
      VerifiesPrefix(hash, t, n);
      NoCollisionPrefix(hash, s, t, m, n);
      HashHasNoBar(hash, s[..m]);
      HashHasNoBar(hash, t[..n]);
      PreviousIsFirst(s, t);
      LastHashFixesLog(hash, s[..m], t[..n]);
      SameMaterialsExtend(s, t);
    }
  }

  lemma PreviousIsFirst(s: seq<Event>, t: seq<Event>)
    requires s != [] && t != [] && MaterialAt(s, |s| - 1) == MaterialAt(t, |t| - 1)
    requires '|' !in OrEmpty(LastHash(s[..|s| - 1])) && '|' !in OrEmpty(LastHash(t[..|t| - 1]))
    ensures OrEmpty(LastHash(s[..|s| - 1])) == OrEmpty(LastHash(t[..|t| - 1]))
  {
    var f, g := s[|s| - 1].fields, t[|t| - 1].fields;
    FirstBarSplits(
      OrEmpty(LastHash(s[..|s| - 1])), f.id + "|" + (f.aggregateType + "|" + (f.aggregateId + "|" + (f.eventType + "|" + (f.payload + "|" + f.createdAt)))),
      OrEmpty(LastHash(t[..|t| - 1])), g.id + "|" + (g.aggregateType + "|" + (g.aggregateId + "|" + (g.eventType + "|" + (g.payload + "|" + g.createdAt)))));
  }

  // ---------------------------------------------------------------- what the material says of the fields

  predicate PlainExceptPayload(f: Fields) {
    '|' !in f.id && '|' !in f.aggregateType && '|' !in f.aggregateId && '|' !in f.eventType && '|' !in f.createdAt
  }

  lemma {:induction false} LastBarAt(a: string, x: string)
    requires '|' !in x
    ensures var s := a + "|" + x;
            && s[|a|] == '|' && (forall i :: |a| < i < |s| ==> s[i] != '|')
            && s[..|a|] == a && s[|a| + 1..] == x
  {
    var s := a + "|" + x;
    forall i | |a| < i < |s|
      ensures s[i] != '|'
    {
      assert s[i] == x[i - |a| - 1];
    }
  }

  lemma {:induction false} LastBarSplits(a: string, x: string, b: string, y: string)
    requires '|' !in x && '|' !in y && a + "|" + x == b + "|" + y
    ensures a == b && x == y
  {
    LastBarAt(a, x);
    LastBarAt(b, y);
  }

  /** If only payloads may hold a bar, the material determines every field. */
  lemma MaterialFixesFields(p: Option<string>, f: Fields, q: Option<string>, g: Fields)
    requires '|' !in OrEmpty(p) && '|' !in OrEmpty(q) && PlainExceptPayload(f) && PlainExceptPayload(g)
    requires Material(p, f) == Material(q, g)
    ensures f == g && OrEmpty(p) == OrEmpty(q)
  {
    var f4, g4 := f.payload + "|" + f.createdAt, g.payload + "|" + g.createdAt;
    var f3, g3 := f.eventType + "|" + f4, g.eventType + "|" + g4;
    var f2, g2 := f.aggregateId + "|" + f3, g.aggregateId + "|" + g3;
    var f1, g1 := f.aggregateType + "|" + f2, g.aggregateType + "|" + g2;
    FirstBarSplits(OrEmpty(p), f.id + "|" + f1, OrEmpty(q), g.id + "|" + g1);
    FirstBarSplits(f.id, f1, g.id, g1);
    FirstBarSplits(f.aggregateType, f2, g.aggregateType, g2);
    FirstBarSplits(f.aggregateId, f3, g.aggregateId, g3);
    FirstBarSplits(f.eventType, f4, g.eventType, g4);
    LastBarSplits(f.payload, f.createdAt, g.payload, g.createdAt);
  }

  /** Otherwise it does not: two different events, one material. */
  lemma BarsCanMoveBetweenFields()
    ensures var f, g := Fields("e", "a|b", "c", "t", "{}", "now"), Fields("e", "a", "b|c", "t", "{}", "now");
            f != g && Material(None, f) == Material(None, g)
  {
  }

  // ---------------------------------------------------------------- no event is lost

  function FieldsOf(log: seq<Event>): seq<Fields> {
    seq(|log|, i requires 0 <= i < |log| => log[i].fields)
  }

  /** The hash does not collide on what the log hashed and what it hashes next. */
  ghost predicate FreshMaterial(hash: string -> string, log: seq<Event>, f: Fields) {
    forall i :: 0 <= i < |log| && hash(MaterialAt(log, i)) == hash(Material(LastHash(log), f)) ==> MaterialAt(log, i) == Material(LastHash(log), f)
  }

  ghost predicate NeverCollides(hash: string -> string, appended: seq<Fields>) {
    appended == [] ||
    (NeverCollides(hash, appended[..|appended| - 1]) && FreshMaterial(hash, Build(hash, appended[..|appended| - 1]), appended[|appended| - 1]))
  }

  /** An event with an id of its own has a hash of its own, if the hash does not collide. */
  lemma NewIdIsNewHash(hash: string -> string, log: seq<Event>, f: Fields, i: nat)
    requires Digest(hash) && Verifies(hash, log) && i < |log|
    requires FreshMaterial(hash, log, f)
    requires PlainExceptPayload(f) && PlainExceptPayload(log[i].fields) && log[i].fields.id != f.id
    ensures log[i].hash != hash(Material(LastHash(log), f))
  {
    assert Linked(hash, log, i);
    VerifiesPrefix(hash, log, i);
    HashHasNoBar(hash, log[..i]);
    HashHasNoBar(hash, log);
    if MaterialAt(log, i) == Material(LastHash(log), f) {
      MaterialFixesFields(LastHash(log[..i]), log[i].fields, LastHash(log), f);
    }
  }

  /** Events of different ids, with bars in payloads only, are all in the log, in the order in which
      they were appended, unless the hash collided on them. */
  lemma {:induction false} EveryEventIsKept(hash: string -> string, appended: seq<Fields>)
    requires Digest(hash) && NeverCollides(hash, appended)
    requires forall i :: 0 <= i < |appended| ==> PlainExceptPayload(appended[i])
    requires forall i, j :: 0 <= i < j < |appended| ==> appended[i].id != appended[j].id
    ensures FieldsOf(Build(hash, appended)) == appended
  {
    if appended != [] {
      var front, f := appended[..|appended| - 1], appended[|appended| - 1];
      EveryEventIsKept(hash, front);
      EveryBuiltLogVerifies(hash, front);
      NextIsKept(hash, Build(hash, front), front, f);
      assert appended == front + [f];
    }
  }

  lemma NextIsKept(hash: string -> string, log: seq<Event>, front: seq<Fields>, f: Fields)
    requires Digest(hash) && Verifies(hash, log) && FreshMaterial(hash, log, f) && PlainExceptPayload(f)
    requires FieldsOf(log) == front
    requires forall i :: 0 <= i < |front| ==> PlainExceptPayload(front[i]) && front[i].id != f.id
    ensures FieldsOf(Append(hash, log, f)) == front + [f]
  {
    forall i | 0 <= i < |log|
      ensures PlainExceptPayload(log[i].fields) && log[i].fields.id != f.id
    {
      assert log[i].fields == front[i];
    }
    NewIdIsAppended(hash, log, f);
    assert FieldsOf(log + [Chained(hash, log, f)]) == front + [f];
  }

  lemma NewIdIsAppended(hash: string -> string, log: seq<Event>, f: Fields)
    requires Digest(hash) && Verifies(hash, log) && FreshMaterial(hash, log, f) && PlainExceptPayload(f)
    requires forall i :: 0 <= i < |log| ==> PlainExceptPayload(log[i].fields) && log[i].fields.id != f.id
    ensures Append(hash, log, f) == log + [Chained(hash, log, f)]
  {
    forall i | 0 <= i < |log|
      ensures log[i].hash != hash(Material(LastHash(log), f))
    {
      NewIdIsNewHash(hash, log, f, i);
    }
    AppendAdds(hash, log, f);
  }
}
