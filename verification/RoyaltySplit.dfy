/** The two implementations of the royalty split, on their own dictionaries and loops, and the
    proof that on every valid input both compute the reference split of RoyaltyMath.
    services/gateway/royalty_money_math.py:46-103 and services/transaction/royalty-money-math.ts:26-90. */
module RoyaltySplit {
  import opened Sums
  import opened RoyaltyMath

  // ---------------------------------------------------------------- what the loops build

  /** A dictionary keyed by owner: of several rows of one owner the last one stays. */
  function ByOwner(splits: seq<Split>): (m: map<string, Split>)
    ensures forall i :: 0 <= i < |splits| ==> splits[i].owner in m
  {
    if splits == [] then map[]
    else
      var n := |splits| - 1;
      ByOwner(splits[..n])[splits[n].owner := splits[n]]
  }

  /** The dictionary's keys, in order of first insertion. */
  function Owners(splits: seq<Split>): (owners: seq<string>)
    ensures forall o :: o in owners <==> o in ByOwner(splits)
  {
    if splits == [] then []
    else
      var n := |splits| - 1;
      var owners := Owners(splits[..n]);
      if splits[n].owner in ByOwner(splits[..n]) then owners else owners + [splits[n].owner]
  }

  function DictFloor(pool: int, m: map<string, Split>): string -> int {
    (o: string) => if o in m then Floor(pool, m[o]) else 0
  }

  function DictLeftover(pool: int, splits: seq<Split>): int {
    pool - Sum(Owners(splits), DictFloor(pool, ByOwner(splits)))
  }

  /** The ordering of owner ids, one position per row of splits. */
  function DictRanking(pool: int, splits: seq<Split>): seq<Key> {
    Sort(seq(|splits|, i requires 0 <= i < |splits| => KeyOf(pool, ByOwner(splits)[splits[i].owner])))
  }

  function Named(owner: string): Key -> int {
    (k: Key) => if k.owner == owner then 1 else 0
  }

  /** The payouts once every position of granted has brought its owner one cent. */
  function PayoutsWith(pool: int, splits: seq<Split>, granted: seq<Key>): seq<Payout> {
    seq(|splits|, i requires 0 <= i < |splits| =>
      var o := splits[i].owner;
      Payout(o, Floor(pool, ByOwner(splits)[o]) + Sum(granted, Named(o))))
  }

  /** A Python slice s[:k], which counts a negative k from the end. */
  function Slice<T>(s: seq<T>, k: int): (r: seq<T>)
    ensures r <= s
    ensures |r| == if k >= |s| then |s| else if k >= 0 then k else if |s| + k >= 0 then |s| + k else 0
  {
    if k < 0 then (if |s| + k < 0 then [] else s[..|s| + k])
    else if k < |s| then s[..k] else s
  }

  function PyDistribute(pool: int, splits: seq<Split>): Result<seq<Payout>> {
    if Sum(splits, Bps()) != 10000 then Err(BpsNotTenThousand)
    else Ok(PayoutsWith(pool, splits, Slice(DictRanking(pool, splits), DictLeftover(pool, splits))))
  }

  /** The TypeScript loop runs off the ordering when more cents are left than rows. */
  function TsDistribute(pool: int, splits: seq<Split>): Result<seq<Payout>> {
    var left := DictLeftover(pool, splits);
    if Sum(splits, Bps()) != 10000 then Err(BpsNotTenThousand)
    else if left > |DictRanking(pool, splits)| then Err(OrderingExhausted)
    else Ok(PayoutsWith(pool, splits, DictRanking(pool, splits)[..if left < 0 then 0 else left]))
  }

  function PayoutCents(): Payout -> int {
    (p: Payout) => p.cents
  }

  /** Decimal.quantize(CENT): half to even. gross is in ten-thousandths. */
  function PyPool(gross: int): int {
    var cents := gross / 100;
    if gross % 100 > 50 || (gross % 100 == 50 && cents % 2 == 1) then cents + 1 else cents
  }

  /** toDecimalPlaces(2): half away from zero. */
  function TsPool(gross: int): int {
    if gross >= 0 then (gross + 50) / 100 else -((-gross + 50) / 100)
  }

  function Checked(pool: int, payouts: Result<seq<Payout>>): Result<seq<Payout>> {
    if payouts.Ok? && Sum(payouts.value, PayoutCents()) != pool then Err(JournalUnbalanced) else payouts
  }

  // ---------------------------------------------------------------- the code

  /** The three dictionaries both implementations fill before ranking the owners. */
  method Tabulate(pool: int, splits: seq<Split>)
    returns (owners: seq<string>, floored: map<string, int>, remainders: map<string, int>, bpsByOwner: map<string, int>)
    ensures owners == Owners(splits)
    ensures floored.Keys == remainders.Keys == bpsByOwner.Keys == ByOwner(splits).Keys
    ensures forall o :: o in floored ==>
      floored[o] == Floor(pool, ByOwner(splits)[o]) &&
      Key(remainders[o], bpsByOwner[o], o) == KeyOf(pool, ByOwner(splits)[o])
  {
    owners, floored, remainders, bpsByOwner := [], map[], map[], map[];
    for i := 0 to |splits|
      invariant owners == Owners(splits[..i])
      invariant floored.Keys == remainders.Keys == bpsByOwner.Keys == ByOwner(splits[..i]).Keys
      invariant forall o :: o in floored ==>
        floored[o] == Floor(pool, ByOwner(splits[..i])[o]) &&
        Key(remainders[o], bpsByOwner[o], o) == KeyOf(pool, ByOwner(splits[..i])[o])
    {
      var s := splits[i];
      assert splits[..i + 1][..i] == splits[..i];
      var raw := pool * s.bps;
      if s.owner !in floored {
        owners := owners + [s.owner];
      }
      floored := floored[s.owner := Truncate(raw)];
      remainders := remainders[s.owner := raw - 10000 * floored[s.owner]];
      bpsByOwner := bpsByOwner[s.owner := s.bps];
    }
    assert splits[..|splits|] == splits;
  }

  method TotalBps(splits: seq<Split>) returns (total: int)
    ensures total == Sum(splits, Bps())
  {
    total := 0;
    for i := 0 to |splits|
      invariant total == Sum(splits[..i], Bps())
    {
      assert splits[..i + 1][..i] == splits[..i];
      total := total + splits[i].bps;
    }
    assert splits[..|splits|] == splits;
  }

  method FloorCents(pool: int, splits: seq<Split>, owners: seq<string>, floored: map<string, int>) returns (total: int)
    requires owners == Owners(splits)
    requires floored.Keys == ByOwner(splits).Keys
    requires forall o :: o in floored ==> floored[o] == Floor(pool, ByOwner(splits)[o])
    ensures total == Sum(owners, DictFloor(pool, ByOwner(splits)))
  {
    total := 0;
    for i := 0 to |owners|
      invariant total == Sum(owners[..i], DictFloor(pool, ByOwner(splits)))
    {
      assert owners[..i + 1][..i] == owners[..i];
      assert owners[i] in owners;
      total := total + floored[owners[i]];
    }
    assert owners[..|owners|] == owners;
  }

  method HandOut(floored: map<string, int>, granted: seq<Key>) returns (paid: map<string, int>)
    requires forall i :: 0 <= i < |granted| ==> granted[i].owner in floored
    ensures paid.Keys == floored.Keys
    ensures forall o :: o in paid ==> paid[o] == floored[o] + Sum(granted, Named(o))
  {
    paid := floored;
    for i := 0 to |granted|
      invariant paid.Keys == floored.Keys
      invariant forall o :: o in paid ==> paid[o] == floored[o] + Sum(granted[..i], Named(o))
    {
      assert granted[..i + 1][..i] == granted[..i];
      var o := granted[i].owner;
      paid := paid[o := paid[o] + 1];
    }
    assert granted[..|granted|] == granted;
  }

  /** The counted loop of the TypeScript version; reading past the ordering is its failure. */
  method HandOutByIndex(floored: map<string, int>, ordering: seq<Key>, leftover: int)
    returns (paid: map<string, int>, exhausted: bool)
    requires forall i :: 0 <= i < |ordering| ==> ordering[i].owner in floored
    ensures exhausted <==> leftover > |ordering|
    ensures !exhausted ==> paid.Keys == floored.Keys
    ensures !exhausted ==> forall o :: o in paid ==>
      paid[o] == floored[o] + Sum(ordering[..if leftover < 0 then 0 else leftover], Named(o))
  {
    paid, exhausted := floored, false;
    var i := 0;
    while i < leftover
      invariant 0 <= i <= |ordering| && (i <= leftover || leftover < 0 == i)
      invariant paid.Keys == floored.Keys
      invariant forall o :: o in paid ==> paid[o] == floored[o] + Sum(ordering[..i], Named(o))
    {
      if i >= |ordering| {
        exhausted := true;
        return;
      }
      assert ordering[..i + 1][..i] == ordering[..i];
      var o := ordering[i].owner;
      paid := paid[o := paid[o] + 1];
      i := i + 1;
    }
  }

  lemma RankedOwnersAreKeys(pool: int, splits: seq<Split>)
    ensures |DictRanking(pool, splits)| == |splits|
    ensures forall i :: 0 <= i < |DictRanking(pool, splits)| ==> DictRanking(pool, splits)[i].owner in ByOwner(splits)
  {
    var keys := seq(|splits|, i requires 0 <= i < |splits| => KeyOf(pool, ByOwner(splits)[splits[i].owner]));
    SortOrdered(keys);
    OwnersMatch(splits);
    forall i | 0 <= i < |Sort(keys)|
      ensures Sort(keys)[i].owner in ByOwner(splits)
    {
      assert Sort(keys)[i] in multiset(keys);
      var j :| 0 <= j < |keys| && keys[j] == Sort(keys)[i];
    }
  }

  lemma {:induction false} OwnersMatch(splits: seq<Split>)
    ensures forall o :: o in ByOwner(splits) ==> ByOwner(splits)[o].owner == o
  {
    if splits != [] {
      OwnersMatch(splits[..|splits| - 1]);
    }
  }

  /** sorted(owner ids, key=...). */
  method RankOwners(pool: int, splits: seq<Split>, remainders: map<string, int>, bpsByOwner: map<string, int>)
    returns (ordering: seq<Key>)
    requires remainders.Keys == bpsByOwner.Keys == ByOwner(splits).Keys
    requires forall o :: o in remainders ==> Key(remainders[o], bpsByOwner[o], o) == KeyOf(pool, ByOwner(splits)[o])
    ensures ordering == DictRanking(pool, splits)
    ensures |ordering| == |splits|
    ensures forall i :: 0 <= i < |ordering| ==> ordering[i].owner in ByOwner(splits)
  {
    var keys: seq<Key> := [];
    for i := 0 to |splits|
      invariant |keys| == i
      invariant forall j :: 0 <= j < i ==> keys[j] == KeyOf(pool, ByOwner(splits)[splits[j].owner])
    {
      var o := splits[i].owner;
      keys := keys + [Key(remainders[o], bpsByOwner[o], o)];
    }
    SameKeys(pool, splits, keys);
    RankedOwnersAreKeys(pool, splits);
    ordering := Sort(keys);
  }

  method ListPayouts(pool: int, splits: seq<Split>, paid: map<string, int>, ghost granted: seq<Key>)
    returns (payouts: seq<Payout>)
    requires paid.Keys == ByOwner(splits).Keys
    requires forall o :: o in paid ==> paid[o] == Floor(pool, ByOwner(splits)[o]) + Sum(granted, Named(o))
    ensures payouts == PayoutsWith(pool, splits, granted)
  {
    payouts := [];
    for i := 0 to |splits|
      invariant payouts == PayoutsWith(pool, splits, granted)[..i]
    {
      var o := splits[i].owner;
      assert PayoutsWith(pool, splits, granted)[i] == Payout(o, paid[o]);
      payouts := payouts + [Payout(o, paid[o])];
    }
  }

  method DistributeSplitsPython(pool: int, splits: seq<Split>) returns (r: Result<seq<Payout>>)
    ensures r == PyDistribute(pool, splits)
  {
    var total := TotalBps(splits);
    if total != 10000 {
      return Err(BpsNotTenThousand);
    }
    var owners, floored, remainders, bpsByOwner := Tabulate(pool, splits);
    var floorCents := FloorCents(pool, splits, owners, floored);
    var leftover := pool - floorCents;
    var ordering := RankOwners(pool, splits, remainders, bpsByOwner);
    var granted := Slice(ordering, leftover);
    var paid := HandOut(floored, granted);
    var payouts := ListPayouts(pool, splits, paid, granted);
    r := Ok(payouts);
  }

  method DistributeSplitsTypeScript(pool: int, splits: seq<Split>) returns (r: Result<seq<Payout>>)
    ensures r == TsDistribute(pool, splits)
  {
    var total := TotalBps(splits);
    if total != 10000 {
      return Err(BpsNotTenThousand);
    }
    var owners, floored, remainders, bpsByOwner := Tabulate(pool, splits);
    var floorCents := FloorCents(pool, splits, owners, floored);
    var leftover := pool - floorCents;
    var ordering := RankOwners(pool, splits, remainders, bpsByOwner);
    var paid, exhausted := HandOutByIndex(floored, ordering, leftover);
    if exhausted {
      return Err(OrderingExhausted);
    }
    var payouts := ListPayouts(pool, splits, paid, ordering[..if leftover < 0 then 0 else leftover]);
    r := Ok(payouts);
  }

  method ComputeRoyaltyPython(gross: int, splits: seq<Split>) returns (r: Result<seq<Payout>>)
    ensures r == Checked(PyPool(gross), PyDistribute(PyPool(gross), splits))
  {
    var pool := PyPool(gross);
    r := DistributeSplitsPython(pool, splits);
    if r.Ok? {
      var total := TotalPayout(r.value);
      if total != pool {
        r := Err(JournalUnbalanced);
      }
    }
  }

  method ComputeRoyaltyTypeScript(gross: int, splits: seq<Split>) returns (r: Result<seq<Payout>>)
    ensures r == Checked(TsPool(gross), TsDistribute(TsPool(gross), splits))
  {
    var pool := TsPool(gross);
    r := DistributeSplitsTypeScript(pool, splits);
    if r.Ok? {
      var total := TotalPayout(r.value);
      if total != pool {
        r := Err(JournalUnbalanced);
      }
    }
  }

  method TotalPayout(payouts: seq<Payout>) returns (total: int)
    ensures total == Sum(payouts, PayoutCents())
  {
    total := 0;
    for i := 0 to |payouts|
      invariant total == Sum(payouts[..i], PayoutCents())
    {
      assert payouts[..i + 1][..i] == payouts[..i];
      total := total + payouts[i].cents;
    }
    assert payouts[..|payouts|] == payouts;
  }

  // ---------------------------------------------------------------- both compute the reference

  ghost predicate Distinct(splits: seq<Split>) {
    forall i, j :: 0 <= i < j < |splits| ==> splits[i].owner != splits[j].owner
  }

  lemma {:induction false} DictionaryDomain(splits: seq<Split>, o: string)
    requires o in ByOwner(splits)
    ensures exists i :: 0 <= i < |splits| && splits[i].owner == o
  {
    var n := |splits| - 1;
    if o != splits[n].owner {
      DictionaryDomain(splits[..n], o);
      var i :| 0 <= i < n && splits[..n][i].owner == o;
      assert splits[i].owner == o;
    }
  }

  lemma {:induction false} DistinctRows(splits: seq<Split>, i: nat)
    requires Distinct(splits) && i < |splits|
    ensures ByOwner(splits)[splits[i].owner] == splits[i]
  {
    var n := |splits| - 1;
    if i < n {
      assert splits[..n][i] == splits[i];
      DistinctRows(splits[..n], i);
    }
  }

  lemma {:induction false} DistinctOwners(splits: seq<Split>)
    requires Distinct(splits)
    ensures |Owners(splits)| == |splits|
    ensures forall i :: 0 <= i < |splits| ==> Owners(splits)[i] == splits[i].owner
  {
    if splits != [] {
      var n := |splits| - 1;
      DistinctOwners(splits[..n]);
      if splits[n].owner in ByOwner(splits[..n]) {
        DictionaryDomain(splits[..n], splits[n].owner);
        assert false;
      }
    }
  }

  lemma DictionariesMatchReference(pool: int, splits: seq<Split>)
    requires Valid(pool, splits)
    ensures DictLeftover(pool, splits) == Leftover(pool, splits)
    ensures DictRanking(pool, splits) == Ranking(pool, splits)
  {
    forall i | 0 <= i < |splits|
      ensures ByOwner(splits)[splits[i].owner] == splits[i]
    {
      DistinctRows(splits, i);
    }
    DistinctOwners(splits);
    SameTerms(Owners(splits), splits, DictFloor(pool, ByOwner(splits)), FloorWeight(pool));
    SameKeys(pool, splits, Keys(pool, splits));
  }

  lemma SameKeys(pool: int, splits: seq<Split>, keys: seq<Key>)
    requires |keys| == |splits|
    requires forall i :: 0 <= i < |splits| ==> keys[i] == KeyOf(pool, ByOwner(splits)[splits[i].owner])
    ensures Sort(keys) == DictRanking(pool, splits)
  {
    assert keys == seq(|splits|, i requires 0 <= i < |splits| => KeyOf(pool, ByOwner(splits)[splits[i].owner]));
  }

  /** Each owner holds exactly one rank. */
  lemma OwnerHoldsOneRank(pool: int, splits: seq<Split>, i: nat, k: nat, m: nat)
    requires Valid(pool, splits) && i < |splits|
    requires k < |Ranking(pool, splits)| && Ranking(pool, splits)[k] == KeyOf(pool, splits[i])
    requires m < |Ranking(pool, splits)| && Ranking(pool, splits)[m].owner == splits[i].owner
    ensures m == k
  {
    var keys, ranked := Keys(pool, splits), Ranking(pool, splits);
    RankingStrict(pool, splits);
    SortOrdered(keys);
    assert ranked[m] in multiset(keys);
    var j :| 0 <= j < |keys| && keys[j] == ranked[m];
    assert j == i;
    BeforeTotal(ranked[k], ranked[k]);
  }

  /** The first ranks bring an owner one cent if it is among them and none otherwise. */
  lemma GrantedOnce(pool: int, splits: seq<Split>, i: nat)
    requires Valid(pool, splits) && i < |splits|
    ensures 0 <= Leftover(pool, splits) <= |Ranking(pool, splits)|
    ensures Sum(Ranking(pool, splits)[..Leftover(pool, splits)], Named(splits[i].owner)) ==
            if GetsCent(pool, splits, splits[i]) then 1 else 0
  {
    LeftoverRange(pool, splits);
    var k := RankOf(pool, splits, i);
    forall m | 0 <= m < |Ranking(pool, splits)|
      ensures Ranking(pool, splits)[m].owner == splits[i].owner <==> m == k
    {
      if Ranking(pool, splits)[m].owner == splits[i].owner {
        OwnerHoldsOneRank(pool, splits, i, k, m);
      }
    }
    OneInPrefix(Ranking(pool, splits), k, Leftover(pool, splits), splits[i].owner);
  }

  lemma OneInPrefix(ranked: seq<Key>, k: nat, left: nat, o: string)
    requires k < |ranked| && left <= |ranked|
    requires forall m :: 0 <= m < |ranked| ==> (ranked[m].owner == o <==> m == k)
    ensures Sum(ranked[..left], Named(o)) == if k < left then 1 else 0
  {
    var first := ranked[..left];
    if k < left {
      assert first == first[..k] + [first[k]] + first[k + 1..];
      Zero(first[..k], Named(o));
      Zero(first[k + 1..], Named(o));
      Append(first[..k], first[k], Named(o));
      Concat(first[..k] + [first[k]], first[k + 1..], Named(o));
    } else {
      Zero(first, Named(o));
    }
  }

  /** Both implementations return the reference split for every valid input. */
  lemma BothMatchReference(pool: int, splits: seq<Split>)
    requires Valid(pool, splits)
    ensures PyDistribute(pool, splits) == Ok(FairPayouts(pool, splits))
    ensures TsDistribute(pool, splits) == Ok(FairPayouts(pool, splits))
  {
    DictionariesMatchReference(pool, splits);
    LeftoverRange(pool, splits);
    SortOrdered(Keys(pool, splits));
    var left := Leftover(pool, splits);
    var granted := Ranking(pool, splits)[..left];
    forall i | 0 <= i < |splits|
      ensures PayoutsWith(pool, splits, granted)[i] == FairPayouts(pool, splits)[i]
    {
      DistinctRows(splits, i);
      GrantedOnce(pool, splits, i);
    }
    assert PayoutsWith(pool, splits, granted) == FairPayouts(pool, splits);
  }

  /** The balanced-journal check never fires: the payouts of a valid split sum to its pool. */
  lemma JournalAlwaysBalances(pool: int, splits: seq<Split>)
    requires Valid(pool, splits)
    ensures Checked(pool, PyDistribute(pool, splits)) == Ok(FairPayouts(pool, splits))
    ensures Checked(pool, TsDistribute(pool, splits)) == Ok(FairPayouts(pool, splits))
    ensures Sum(FairPayouts(pool, splits), PayoutCents()) == pool
  {
    BothMatchReference(pool, splits);
    SplitConservesPool(pool, splits);
    SameTerms(splits, FairPayouts(pool, splits), FairWeight(pool, splits), PayoutCents());
  }

  // ---------------------------------------------------------------- lists that repeat an owner

  /** Shares as both APIs accept them: an owner may be listed more than once. */
  ghost predicate Shares(splits: seq<Split>) {
    (forall i :: 0 <= i < |splits| ==> splits[i].bps >= 0) && Sum(splits, Bps()) == 10000
  }

  function DictBps(m: map<string, Split>): string -> int {
    (o: string) => if o in m then m[o].bps else 0
  }

  function Only(owner: string, amount: int): string -> int {
    (o: string) => if o == owner then amount else 0
  }

  lemma {:induction false} OwnersDistinct(splits: seq<Split>)
    ensures forall i, j :: 0 <= i < j < |Owners(splits)| ==> Owners(splits)[i] != Owners(splits)[j]
  {
    if splits != [] {
      var n := |splits| - 1;
      OwnersDistinct(splits[..n]);
      assert forall i :: 0 <= i < |Owners(splits[..n])| ==> Owners(splits[..n])[i] in ByOwner(splits[..n]);
    }
  }

  lemma {:induction false} OnlyOnce(owners: seq<string>, owner: string, amount: int)
    requires amount >= 0 && forall i, j :: 0 <= i < j < |owners| ==> owners[i] != owners[j]
    ensures Sum(owners, Only(owner, amount)) <= amount
  {
    if owners != [] {
      var n := |owners| - 1;
      if owners[n] == owner {
        Zero(owners[..n], Only(owner, amount));
      } else {
        OnlyOnce(owners[..n], owner, amount);
      }
    }
  }

  /** The dictionary holds no more than all the rows: a later row replaces an earlier one. */
  lemma {:induction false} DictionaryKeepsNoMore(splits: seq<Split>)
    requires forall i :: 0 <= i < |splits| ==> splits[i].bps >= 0
    ensures Sum(Owners(splits), DictBps(ByOwner(splits))) <= Sum(splits, Bps())
    ensures forall o :: o in ByOwner(splits) ==> ByOwner(splits)[o].bps >= 0
  {
    if splits != [] {
      var n := |splits| - 1;
      var front, row := splits[..n], splits[n];
      var owners, w, w' := Owners(front), DictBps(ByOwner(front)), DictBps(ByOwner(splits));
      DictionaryKeepsNoMore(front);
      OwnersDistinct(front);
      if row.owner in ByOwner(front) {
        Add(owners, w, Only(row.owner, row.bps), (o: string) => w(o) + Only(row.owner, row.bps)(o));
        Monotone(owners, w', (o: string) => w(o) + Only(row.owner, row.bps)(o));
        OnlyOnce(owners, row.owner, row.bps);
      } else {
        forall i | 0 <= i < |owners|
          ensures w'(owners[i]) == w(owners[i])
        {
          assert owners[i] in owners;
        }
        SameWeights(owners, w', w);
        Append(owners, row.owner, w');
      }
    }
  }

  lemma {:induction false} FloorsWithin(pool: int, owners: seq<string>, m: map<string, Split>)
    requires pool >= 0 && forall o :: o in m ==> m[o].bps >= 0
    ensures 10000 * Sum(owners, DictFloor(pool, m)) <= pool * Sum(owners, DictBps(m))
  {
    if owners != [] {
      var n := |owners| - 1;
      FloorsWithin(pool, owners[..n], m);
      if owners[n] in m {
        RemainderRange(pool, m[owners[n]]);
      }
      SplitProduct(pool, Sum(owners[..n], DictBps(m)), DictBps(m)(owners[n]));
    }
  }

  lemma SplitProduct(pool: int, a: int, b: int)
    ensures pool * (a + b) == pool * a + pool * b
  {
  }

  /** The cents left over are never negative, whatever the list repeats. */
  lemma DictLeftoverNonNegative(pool: int, splits: seq<Split>)
    requires pool >= 0 && Shares(splits)
    ensures DictLeftover(pool, splits) >= 0
  {
    var kept := Sum(Owners(splits), DictBps(ByOwner(splits)));
    DictionaryKeepsNoMore(splits);
    FloorsWithin(pool, Owners(splits), ByOwner(splits));
    ScaleUp(pool, kept, 10000);
  }

  lemma ScaleUp(pool: int, a: int, b: int)
    requires pool >= 0 && a <= b
    ensures pool * a <= pool * b
  {
  }

  /** For every list of shares the two implementations agree, before the check and after it, exactly
      when no more cents are left than the list has rows. The TypeScript loop then runs off its
      ordering, where the Python slice stops. */
  lemma AgreeExactly(pool: int, splits: seq<Split>)
    requires pool >= 0 && Shares(splits)
    ensures PyDistribute(pool, splits) == TsDistribute(pool, splits) <==> DictLeftover(pool, splits) <= |splits|
    ensures Checked(pool, PyDistribute(pool, splits)) == Checked(pool, TsDistribute(pool, splits)) <==> DictLeftover(pool, splits) <= |splits|
  {
    DictLeftoverNonNegative(pool, splits);
    RankedOwnersAreKeys(pool, splits);
    var left, ranked := DictLeftover(pool, splits), DictRanking(pool, splits);
    if left <= |splits| {
      assert Slice(ranked, left) == ranked[..left];
    }
  }

  /** Without a repeated owner there never are more, so the two agree on every pool. */
  lemma DistinctNeverExhausted(pool: int, splits: seq<Split>)
    requires Valid(pool, splits)
    ensures 0 <= DictLeftover(pool, splits) <= |splits|
  {
    DictionariesMatchReference(pool, splits);
    LeftoverRange(pool, splits);
  }

  /** Python rounds half a cent to even, decimal.js rounds it up: the pools differ exactly here. */
  predicate HalfCent(gross: int) {
    gross % 100 == 50 && gross / 100 % 2 == 0
  }

  function Distance(a: int, b: int): int {
    if a <= b then b - a else a - b
  }

  /** Both pools are the nearest whole cents, and nothing else is; with two of them as near, Python
      takes the even one and TypeScript the one farther from zero. */
  lemma PoolsAreNearest(gross: int, cents: int)
    ensures var off := Distance(100 * cents, gross);
            && (cents == PyPool(gross) <==> off < 50 || (off == 50 && cents % 2 == 0))
            && (cents == TsPool(gross) <==> off < 50 || (off == 50 && Distance(100 * cents, 0) > Distance(gross, 0)))
  {
  }

  /** The cents one row of this owner is paid. */
  function OwnerCents(pool: int, splits: seq<Split>): string -> int {
    (o: string) => DictFloor(pool, ByOwner(splits))(o) + Sum(Slice(DictRanking(pool, splits), DictLeftover(pool, splits)), Named(o))
  }

  function OfOwner(cents: string -> int): Split -> int {
    (s: Split) => cents(s.owner)
  }

  /** What is paid to the rows whose owner an earlier row has named. */
  function RepeatCents(splits: seq<Split>, cents: string -> int): int {
    if splits == [] then 0
    else
      var n := |splits| - 1;
      RepeatCents(splits[..n], cents) + if splits[n].owner in ByOwner(splits[..n]) then cents(splits[n].owner) else 0
  }

  function Repeats(pool: int, splits: seq<Split>): int {
    RepeatCents(splits, OwnerCents(pool, splits))
  }

  /** The leftover cents that the Python slice does not reach. */
  function Unhanded(pool: int, splits: seq<Split>): int {
    if DictLeftover(pool, splits) <= |splits| then 0 else DictLeftover(pool, splits) - |splits|
  }

  lemma {:induction false} RowsAreOwnersAndRepeats(splits: seq<Split>, cents: string -> int)
    ensures Sum(splits, OfOwner(cents)) == Sum(Owners(splits), cents) + RepeatCents(splits, cents)
  {
    if splits != [] {
      var n := |splits| - 1;
      RowsAreOwnersAndRepeats(splits[..n], cents);
      if splits[n].owner !in ByOwner(splits[..n]) {
        Append(Owners(splits[..n]), splits[n].owner, cents);
      }
    }
  }

  lemma {:induction false} ExactlyOnce(owners: seq<string>, owner: string)
    requires owner in owners && forall i, j :: 0 <= i < j < |owners| ==> owners[i] != owners[j]
    ensures Sum(owners, Only(owner, 1)) == 1
  {
    var n := |owners| - 1;
    if owners[n] == owner {
      Zero(owners[..n], Only(owner, 1));
    } else {
      ExactlyOnce(owners[..n], owner);
    }
  }

  function GrantsTo(granted: seq<Key>): string -> int {
    (o: string) => Sum(granted, Named(o))
  }

  /** Every cent granted goes to one owner. */
  lemma {:induction false} GrantsAddUp(owners: seq<string>, granted: seq<Key>)
    requires forall i, j :: 0 <= i < j < |owners| ==> owners[i] != owners[j]
    requires forall i :: 0 <= i < |granted| ==> granted[i].owner in owners
    ensures Sum(owners, GrantsTo(granted)) == |granted|
  {
    if granted == [] {
      Zero(owners, GrantsTo(granted));
    } else {
      var n := |granted| - 1;
      GrantsAddUp(owners, granted[..n]);
      ExactlyOnce(owners, granted[n].owner);
      Add(owners, GrantsTo(granted[..n]), Only(granted[n].owner, 1), GrantsTo(granted));
    }
  }

  lemma OwnersGetAllHanded(pool: int, splits: seq<Split>, granted: seq<Key>)
    requires granted == Slice(DictRanking(pool, splits), DictLeftover(pool, splits))
    ensures Sum(Owners(splits), OwnerCents(pool, splits)) == pool - DictLeftover(pool, splits) + |granted|
  {
    RankedOwnersAreKeys(pool, splits);
    OwnersDistinct(splits);
    assert forall i :: 0 <= i < |granted| ==> granted[i] == DictRanking(pool, splits)[i];
    Add(Owners(splits), DictFloor(pool, ByOwner(splits)), GrantsTo(granted), OwnerCents(pool, splits));
    GrantsAddUp(Owners(splits), granted);
  }

  /** All that is paid, against the pool. */
  lemma PaidInAll(pool: int, splits: seq<Split>)
    requires pool >= 0 && Shares(splits)
    ensures PyDistribute(pool, splits).Ok?
    ensures Sum(PyDistribute(pool, splits).value, PayoutCents()) == pool + Repeats(pool, splits) - Unhanded(pool, splits)
  {
    var granted := Slice(DictRanking(pool, splits), DictLeftover(pool, splits));
    DictLeftoverNonNegative(pool, splits);
    RankedOwnersAreKeys(pool, splits);
    SameTerms(PayoutsWith(pool, splits, granted), splits, PayoutCents(), OfOwner(OwnerCents(pool, splits)));
    RowsAreOwnersAndRepeats(splits, OwnerCents(pool, splits));
    OwnersGetAllHanded(pool, splits, granted);
  }

  /** So the final check passes exactly when repeated rows are paid what could not be handed out. */
  lemma PythonPassesExactly(pool: int, splits: seq<Split>)
    requires pool >= 0 && Shares(splits)
    ensures var r := Checked(pool, PyDistribute(pool, splits));
            && (r.Ok? <==> Repeats(pool, splits) == Unhanded(pool, splits))
            && (if r.Ok? then Sum(r.value, PayoutCents()) == pool else r == Err(JournalUnbalanced))
  {
    PaidInAll(pool, splits);
  }

  /** In TypeScript, which fails when not all could be, exactly when they are paid nothing. */
  lemma TypeScriptPassesExactly(pool: int, splits: seq<Split>)
    requires pool >= 0 && Shares(splits)
    ensures var (r, all) := (Checked(pool, TsDistribute(pool, splits)), DictLeftover(pool, splits) <= |splits|);
            && (r.Ok? <==> all && Repeats(pool, splits) == 0)
            && (if r.Ok? then Sum(r.value, PayoutCents()) == pool else r == Err(if all then JournalUnbalanced else OrderingExhausted))
  {
    RankedOwnersAreKeys(pool, splits);
    PythonPassesExactly(pool, splits);
    AgreeExactly(pool, splits);
  }

  /** compute_royalty and computeRoyalty, for every gross amount and every list of shares: they agree
      exactly when no more cents are left than rows, and on a half cent above an even one, where the
      pools differ, exactly when moreover both refuse what the repeated rows are paid. */
  lemma ImplementationsAgree(gross: int, splits: seq<Split>)
    requires gross >= 0 && Shares(splits)
    ensures var (p, t) := (PyPool(gross), TsPool(gross));
            Checked(p, PyDistribute(p, splits)) == Checked(t, TsDistribute(t, splits)) <==>
              && DictLeftover(t, splits) <= |splits|
              && (HalfCent(gross) ==> Repeats(p, splits) != Unhanded(p, splits) && Repeats(t, splits) != 0)
  {
    var p, t := PyPool(gross), TsPool(gross);
    assert 0 <= p && (p == t <==> !HalfCent(gross));
    PoolsAgree(p, t, splits);
  }

  lemma PoolsAgree(p: int, t: int, splits: seq<Split>)
    requires p >= 0 && t >= 0 && Shares(splits)
    ensures Checked(p, PyDistribute(p, splits)) == Checked(t, TsDistribute(t, splits)) <==>
              && DictLeftover(t, splits) <= |splits|
              && (p != t ==> Repeats(p, splits) != Unhanded(p, splits) && Repeats(t, splits) != 0)
  {
    if p == t {
      AgreeExactly(t, splits);
    } else {
      PythonPassesExactly(p, splits);
      TypeScriptPassesExactly(t, splits);
    }
  }

  /** So without a repeated owner they pay the same cents exactly when it is not such a half cent. */
  lemma DistinctOwnersAgree(gross: int, splits: seq<Split>)
    requires gross >= 0 && ValidSplits(splits)
    ensures Checked(PyPool(gross), PyDistribute(PyPool(gross), splits)) == Checked(TsPool(gross), TsDistribute(TsPool(gross), splits))
            <==> !HalfCent(gross)
  {
    JournalAlwaysBalances(PyPool(gross), splits);
    JournalAlwaysBalances(TsPool(gross), splits);
    ImplementationsAgree(gross, splits);
    DistinctNeverExhausted(TsPool(gross), splits);
  }

  /** An owner listed twice: the dictionaries keep the last row only, the leftover takes in the other
      row's share, and both rows are paid the same amount. Python refuses the result unless those
      two amounts happen to sum to the pool; TypeScript does so too, or runs off the ordering. */
  lemma RepeatedOwner(pool: int, a: Split, b: Split)
    requires a.owner == b.owner && a.bps >= 0 && b.bps >= 0 && a.bps + b.bps == 10000 && pool >= 0
    ensures var left := pool - Floor(pool, b);
            var each := Floor(pool, b) + if left < 2 then left else 2;
            var paid := [Payout(a.owner, each), Payout(a.owner, each)];
            var checked := if 2 * each == pool then Ok(paid) else Err(JournalUnbalanced);
            && left >= 0
            && PyDistribute(pool, [a, b]) == Ok(paid) && Checked(pool, PyDistribute(pool, [a, b])) == checked
            && TsDistribute(pool, [a, b]) == (if left > 2 then Err(OrderingExhausted) else Ok(paid))
            && Checked(pool, TsDistribute(pool, [a, b])) == (if left > 2 then Err(OrderingExhausted) else checked)
  {
    TwinLeftover(pool, a, b);
    Pair(a, b, Bps());
    RankedOwnersAreKeys(pool, [a, b]);
    var ranked, left := DictRanking(pool, [a, b]), DictLeftover(pool, [a, b]);
    var granted := ranked[..if left < 2 then left else 2];
    assert Slice(ranked, left) == granted;
    TwinPayouts(pool, a, b, granted);
    AgreeExactly(pool, [a, b]);
  }

  lemma TwinLeftover(pool: int, a: Split, b: Split)
    requires a.owner == b.owner && a.bps >= 0 && b.bps >= 0 && a.bps + b.bps == 10000 && pool >= 0
    ensures 0 <= DictLeftover(pool, [a, b]) == pool - Floor(pool, b)
  {
    TwinDictionaries(a, b);
    Single(a.owner, DictFloor(pool, ByOwner([a, b])));
    Pair(a, b, Bps());
    DictLeftoverNonNegative(pool, [a, b]);
  }

  lemma TwinDictionaries(a: Split, b: Split)
    requires a.owner == b.owner
    ensures ByOwner([a, b]) == map[a.owner := b] && Owners([a, b]) == [a.owner]
  {
    assert [a, b][..1] == [a] && [a][..0] == [];
    assert ByOwner([a]) == map[a.owner := a] && Owners([a]) == [a.owner];
  }

  lemma TwinPayouts(pool: int, a: Split, b: Split, granted: seq<Key>)
    requires a.owner == b.owner
    requires forall i :: 0 <= i < |granted| ==> granted[i].owner in ByOwner([a, b])
    ensures var each := Floor(pool, b) + |granted|;
            PayoutsWith(pool, [a, b], granted) == [Payout(a.owner, each), Payout(a.owner, each)] &&
            Sum(PayoutsWith(pool, [a, b], granted), PayoutCents()) == 2 * each
  {
    TwinDictionaries(a, b);
    Prefix(granted, |granted|, Named(a.owner));
    var p := Payout(a.owner, Floor(pool, b) + |granted|);
    assert PayoutsWith(pool, [a, b], granted) == [p, p];
    Pair(p, p, PayoutCents());
  }

  /** Four cents for an owner listed twice slip through in Python and crash in TypeScript. */
  lemma RepeatedOwnerMayPass()
    ensures var splits := [Split("a", 9999), Split("a", 1)];
            Checked(4, PyDistribute(4, splits)) == Ok([Payout("a", 2), Payout("a", 2)]) &&
            Checked(4, TsDistribute(4, splits)) == Err(OrderingExhausted)
  {
    RepeatedOwner(4, Split("a", 9999), Split("a", 1));
  }
}
