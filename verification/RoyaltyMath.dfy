/** The royalty split: largest-remainder allocation of a pool of whole cents.
    services/gateway/royalty_money_math.py and services/transaction/royalty-money-math.ts.

    A pool is an integer number of cents, a share is the exact rational pool * bps / 10000
    kept as its numerator, and a gross amount is an integer number of ten-thousandths of the
    currency unit. */
module RoyaltyMath {
  import opened Sums

  datatype Split = Split(owner: string, bps: int)
  datatype Payout = Payout(owner: string, cents: int)
  datatype RoyaltyError = BpsNotTenThousand | OrderingExhausted | JournalUnbalanced
  datatype Result<+T> = Ok(value: T) | Err(error: RoyaltyError)

  // ---------------------------------------------------------------- shares and ranking

  /** Decimal ROUND_DOWN of n / 10000: towards zero. */
  function Truncate(n: int): int {
    if n >= 0 then n / 10000 else -((-n) / 10000)
  }

  /** The whole part, on the side of zero. */
  lemma TruncateTowardsZero(n: int, q: int)
    ensures q == Truncate(n) <==> if n >= 0 then 0 <= n - 10000 * q < 10000 else 0 <= 10000 * q - n < 10000
  {
  }

  function Floor(pool: int, s: Split): int {
    Truncate(pool * s.bps)
  }

  function Remainder(pool: int, s: Split): int {
    pool * s.bps - 10000 * Floor(pool, s)
  }

  /** The sort key of one owner: larger remainder, then larger bps, then smaller owner id. */
  datatype Key = Key(remainder: int, bps: int, owner: string)

  function KeyOf(pool: int, s: Split): Key {
    Key(Remainder(pool, s), s.bps, s.owner)
  }

  /** Strict lexicographic order on owner ids. */
  predicate Precedes(a: string, b: string) {
    b != [] && (a == [] || a[0] < b[0] || (a[0] == b[0] && Precedes(a[1..], b[1..])))
  }

  predicate Before(a: Key, b: Key) {
    || a.remainder > b.remainder
    || (a.remainder == b.remainder && a.bps > b.bps)
    || (a.remainder == b.remainder && a.bps == b.bps && Precedes(a.owner, b.owner))
  }

  lemma {:induction false} PrecedesIrreflexive(a: string)
    ensures !Precedes(a, a)
  {
    if a != [] {
      PrecedesIrreflexive(a[1..]);
    }
  }

  lemma {:induction false} PrecedesTotal(a: string, b: string)
    ensures Precedes(a, b) || Precedes(b, a) || a == b
    ensures !(Precedes(a, b) && Precedes(b, a))
  {
    if a != [] && b != [] && a[0] == b[0] {
      PrecedesTotal(a[1..], b[1..]);
      assert a == [a[0]] + a[1..] && b == [b[0]] + b[1..];
    }
  }

  lemma {:induction false} PrecedesTransitive(a: string, b: string, c: string)
    requires Precedes(a, b) && Precedes(b, c)
    ensures Precedes(a, c)
  {
    if a != [] && a[0] == b[0] == c[0] {
      PrecedesTransitive(a[1..], b[1..], c[1..]);
    }
  }

  lemma BeforeTransitive(a: Key, b: Key, c: Key)
    requires Before(a, b) && Before(b, c)
    ensures Before(a, c)
  {
    if Precedes(a.owner, b.owner) && Precedes(b.owner, c.owner) {
      PrecedesTransitive(a.owner, b.owner, c.owner);
    }
  }

  lemma BeforeTotal(a: Key, b: Key)
    ensures Before(a, b) || Before(b, a) || a == b
    ensures !(Before(a, b) && Before(b, a))
    ensures !Before(a, a)
  {
    PrecedesTotal(a.owner, b.owner);
    PrecedesIrreflexive(a.owner);
  }

  /** The library sort: insertion into a list already in order. */
  function Insert(k: Key, keys: seq<Key>): seq<Key> {
    if keys == [] || !Before(keys[0], k) then [k] + keys else [keys[0]] + Insert(k, keys[1..])
  }

  function Sort(keys: seq<Key>): seq<Key> {
    if keys == [] then [] else Insert(keys[0], Sort(keys[1..]))
  }

  ghost predicate Ordered(keys: seq<Key>) {
    forall i, j :: 0 <= i < j < |keys| ==> !Before(keys[j], keys[i])
  }

  lemma {:induction false} InsertKeepsKeys(k: Key, keys: seq<Key>)
    ensures multiset(Insert(k, keys)) == multiset(keys) + multiset{k}
  {
    if keys != [] && Before(keys[0], k) {
      InsertKeepsKeys(k, keys[1..]);
      assert keys == [keys[0]] + keys[1..];
    }
  }

  lemma {:induction false} InsertOrdered(k: Key, keys: seq<Key>)
    requires Ordered(keys)
    ensures Ordered(Insert(k, keys))
  {
    if keys == [] {
    } else if Before(keys[0], k) {
      var rest := Insert(k, keys[1..]);
      InsertOrdered(k, keys[1..]);
      InsertKeepsKeys(k, keys[1..]);
      BeforeTotal(keys[0], k);
      forall j | 0 <= j < |rest|
        ensures !Before(rest[j], keys[0])
      {
        assert rest[j] in multiset(rest);
        assert rest[j] == k || rest[j] in keys[1..];
      }
    } else {
      InsertInFront(k, keys);
    }
  }

  lemma InsertInFront(k: Key, keys: seq<Key>)
    requires Ordered(keys) && keys != [] && !Before(keys[0], k)
    ensures Ordered([k] + keys)
  {
    forall j | 0 <= j < |keys|
      ensures !Before(keys[j], k)
    {
      if Before(keys[j], k) {
        BeforeTotal(k, keys[0]);
        if k != keys[0] && j > 0 {
          BeforeTransitive(keys[j], k, keys[0]);
        }
      }
    }
  }

  lemma {:induction false} SortOrdered(keys: seq<Key>)
    ensures multiset(Sort(keys)) == multiset(keys)
    ensures Ordered(Sort(keys))
    ensures |Sort(keys)| == |keys|
  {
    if keys != [] {
      assert keys == [keys[0]] + keys[1..];
      SortOrdered(keys[1..]);
      InsertKeepsKeys(keys[0], Sort(keys[1..]));
      InsertOrdered(keys[0], Sort(keys[1..]));
    }
    assert |multiset(Sort(keys))| == |Sort(keys)|;
  }

  // ---------------------------------------------------------------- the reference split

  function Bps(): Split -> int {
    (s: Split) => s.bps
  }

  function FloorWeight(pool: int): Split -> int {
    (s: Split) => Floor(pool, s)
  }

  function AheadWeight(pool: int, x: Key): Split -> int {
    (s: Split) => if Before(KeyOf(pool, s), x) then 1 else 0
  }

  /** Cents left once every owner has the floor of the exact share. */
  function Leftover(pool: int, splits: seq<Split>): int {
    pool - Sum(splits, FloorWeight(pool))
  }

  /** How many owners rank strictly ahead of s for a leftover cent. */
  function CountAhead(pool: int, splits: seq<Split>, s: Split): int {
    Sum(splits, AheadWeight(pool, KeyOf(pool, s)))
  }

  predicate GetsCent(pool: int, splits: seq<Split>, s: Split) {
    CountAhead(pool, splits, s) < Leftover(pool, splits)
  }

  /** The reference definition: no sorting, no loop, no dependence on the order of splits. */
  function FairCents(pool: int, splits: seq<Split>, s: Split): int {
    Floor(pool, s) + if GetsCent(pool, splits, s) then 1 else 0
  }

  function FairWeight(pool: int, splits: seq<Split>): Split -> int {
    (s: Split) => FairCents(pool, splits, s)
  }

  function FairPayouts(pool: int, splits: seq<Split>): seq<Payout> {
    seq(|splits|, i requires 0 <= i < |splits| => Payout(splits[i].owner, FairCents(pool, splits, splits[i])))
  }

  /** Shares that are non-negative and sum to 10000, one row per owner. */
  ghost predicate ValidSplits(splits: seq<Split>) {
    && Sum(splits, Bps()) == 10000
    && (forall i :: 0 <= i < |splits| ==> splits[i].bps >= 0)
    && (forall i, j :: 0 <= i < j < |splits| ==> splits[i].owner != splits[j].owner)
  }

  ghost predicate Valid(pool: int, splits: seq<Split>) {
    pool >= 0 && ValidSplits(splits)
  }

  // ---------------------------------------------------------------- ranks

  function Keys(pool: int, splits: seq<Split>): seq<Key> {
    seq(|splits|, i requires 0 <= i < |splits| => KeyOf(pool, splits[i]))
  }

  function Ranking(pool: int, splits: seq<Split>): seq<Key> {
    Sort(Keys(pool, splits))
  }

  function KeyAhead(x: Key): Key -> int {
    (k: Key) => if Before(k, x) then 1 else 0
  }

  /** A position in the ranking is the number of owners ahead. */
  lemma RankIsCountAhead(pool: int, splits: seq<Split>, k: nat)
    requires Valid(pool, splits) && k < |splits|
    ensures |Ranking(pool, splits)| == |splits|
    ensures Sum(splits, AheadWeight(pool, Ranking(pool, splits)[k])) == k
  {
    var keys, ranked := Keys(pool, splits), Ranking(pool, splits);
    SortOrdered(keys);
    var x := ranked[k];
    RankingStrict(pool, splits);
    forall i | 0 <= i < |ranked|
      ensures KeyAhead(x)(ranked[i]) == if i < k then 1 else 0
    {
      if i < k {
        assert Before(ranked[i], ranked[k]);
      } else if k < i {
        assert Before(ranked[k], ranked[i]);
        BeforeTotal(ranked[i], ranked[k]);
      } else {
        BeforeTotal(ranked[i], ranked[i]);
      }
    }
    Prefix(ranked, k, KeyAhead(x));
    Permutation(keys, ranked, KeyAhead(x));
    SameTerms(splits, keys, AheadWeight(pool, x), KeyAhead(x));
  }

  /** With one row per owner no two keys tie. */
  lemma RankingStrict(pool: int, splits: seq<Split>)
    requires Valid(pool, splits)
    ensures forall i, j :: 0 <= i < j < |Ranking(pool, splits)| ==> Before(Ranking(pool, splits)[i], Ranking(pool, splits)[j])
  {
    var keys, ranked := Keys(pool, splits), Ranking(pool, splits);
    SortOrdered(keys);
    forall i, j | 0 <= i < j < |ranked|
      ensures Before(ranked[i], ranked[j])
    {
      BeforeTotal(ranked[i], ranked[j]);
      if ranked[i] == ranked[j] {
        DistinctOnce(keys, ranked, i, j);
        assert false;
      }
    }
  }

  lemma DistinctOnce(keys: seq<Key>, ranked: seq<Key>, i: nat, j: nat)
    requires multiset(keys) == multiset(ranked)
    requires i < j < |ranked| && ranked[i] == ranked[j]
    ensures exists a, b :: 0 <= a < b < |keys| && keys[a] == keys[b]
  {
    var x := ranked[i];
    assert ranked == ranked[..i] + [x] + ranked[i + 1..];
    assert ranked[i + 1..][j - i - 1] == x;
    assert x in ranked[i + 1..];
    assert multiset(keys)[x] >= 2;
    var a :| 0 <= a < |keys| && keys[a] == x;
    assert keys == keys[..a] + [x] + keys[a + 1..];
    if x in keys[..a] {
      var b :| 0 <= b < a && keys[b] == x;
    } else {
      assert multiset(keys[a + 1..])[x] >= 1;
      var b :| 0 <= b < |keys[a + 1..]| && keys[a + 1..][b] == x;
      assert keys[a + 1 + b] == x;
    }
  }

  lemma RankOf(pool: int, splits: seq<Split>, i: nat) returns (k: nat)
    requires Valid(pool, splits) && i < |splits|
    ensures k < |splits| == |Ranking(pool, splits)|
    ensures Ranking(pool, splits)[k] == KeyOf(pool, splits[i])
    ensures CountAhead(pool, splits, splits[i]) == k
  {
    var keys, ranked := Keys(pool, splits), Ranking(pool, splits);
    SortOrdered(keys);
    assert keys[i] in multiset(ranked);
    k :| 0 <= k < |ranked| && ranked[k] == keys[i];
    RankIsCountAhead(pool, splits, k);
  }

  // ---------------------------------------------------------------- conservation

  function RemainderWeight(pool: int): Split -> int {
    (s: Split) => Remainder(pool, s)
  }

  lemma {:induction false} RemaindersAddUp(pool: int, splits: seq<Split>)
    requires pool >= 0 && forall i :: 0 <= i < |splits| ==> splits[i].bps >= 0
    ensures 10000 * Sum(splits, FloorWeight(pool)) + Sum(splits, RemainderWeight(pool)) == pool * Sum(splits, Bps())
    ensures 0 <= Sum(splits, RemainderWeight(pool)) <= 9999 * |splits|
  {
    if splits != [] {
      var n := |splits| - 1;
      RemaindersAddUp(pool, splits[..n]);
      RemainderRange(pool, splits[n]);
      assert pool * (Sum(splits[..n], Bps()) + splits[n].bps) == pool * Sum(splits[..n], Bps()) + pool * splits[n].bps;
    }
  }

  lemma RemainderRange(pool: int, s: Split)
    requires pool >= 0 && s.bps >= 0
    ensures 0 <= Remainder(pool, s) <= 9999
  {
    assert pool * s.bps >= 0;
  }

  /** There is never more left over than one cent for each owner but one. */
  lemma LeftoverRange(pool: int, splits: seq<Split>)
    requires Valid(pool, splits)
    ensures 0 <= Leftover(pool, splits) < |splits|
  {
    RemaindersAddUp(pool, splits);
    assert pool * Sum(splits, Bps()) == pool * 10000;
  }

  function GrantWeight(pool: int, splits: seq<Split>): Key -> int {
    (k: Key) => if Sum(splits, AheadWeight(pool, k)) < Leftover(pool, splits) then 1 else 0
  }

  function GrantOfSplit(pool: int, splits: seq<Split>): Split -> int {
    (s: Split) => if GetsCent(pool, splits, s) then 1 else 0
  }

  /** An owner whose share is already whole cents is never handed a leftover one. */
  lemma ZeroRemainderGetsNothing(pool: int, splits: seq<Split>, i: nat)
    requires Valid(pool, splits) && i < |splits| && Remainder(pool, splits[i]) == 0
    ensures !GetsCent(pool, splits, splits[i])
  {
    var ahead := AheadWeight(pool, KeyOf(pool, splits[i]));
    RemaindersAddUp(pool, splits);
    assert pool * Sum(splits, Bps()) == pool * 10000;
    forall j | 0 <= j < |splits|
      ensures RemainderWeight(pool)(splits[j]) <= 9999 * ahead(splits[j])
    {
      RemainderRange(pool, splits[j]);
    }
    BoundedBy(splits, RemainderWeight(pool), 9999, ahead);
    NonNegative(splits, ahead);
  }

  /** Every payout is strictly within one cent of the exact share. */
  lemma SplitKeepsQuota(pool: int, splits: seq<Split>, i: nat)
    requires Valid(pool, splits) && i < |splits|
    ensures var c := FairCents(pool, splits, splits[i]);
            10000 * (c - 1) < pool * splits[i].bps < 10000 * (c + 1)
  {
    RemainderRange(pool, splits[i]);
    if Remainder(pool, splits[i]) == 0 {
      ZeroRemainderGetsNothing(pool, splits, i);
    }
  }

  /** The whole pool is paid out and nothing else. */
  lemma SplitConservesPool(pool: int, splits: seq<Split>)
    requires Valid(pool, splits)
    ensures Sum(splits, FairWeight(pool, splits)) == pool
  {
    var keys, ranked, left := Keys(pool, splits), Ranking(pool, splits), Leftover(pool, splits);
    var grant := GrantWeight(pool, splits);
    SortOrdered(keys);
    LeftoverRange(pool, splits);
    forall k | 0 <= k < |ranked|
      ensures grant(ranked[k]) == if k < left then 1 else 0
    {
      RankIsCountAhead(pool, splits, k);
    }
    Prefix(ranked, left, grant);
    Permutation(keys, ranked, grant);
    SameTerms(splits, keys, GrantOfSplit(pool, splits), grant);
    Add(splits, FloorWeight(pool), GrantOfSplit(pool, splits), FairWeight(pool, splits));
  }

  // ---------------------------------------------------------------- optimality

  /** How far a payout is from the exact share, in ten-thousandths of a cent. */
  function Deviation(pool: int, s: Split, cents: int): int {
    var d := 10000 * cents - pool * s.bps;
    if d >= 0 then d else -d
  }

  function TotalDeviation(pool: int, splits: seq<Split>, cents: seq<int>): int
    requires |cents| == |splits|
  {
    if splits == [] then 0
    else
      var n := |splits| - 1;
      TotalDeviation(pool, splits[..n], cents[..n]) + Deviation(pool, splits[n], cents[n])
  }

  function Identity(): int -> int {
    (c: int) => c
  }

  function FairAllocation(pool: int, splits: seq<Split>): seq<int> {
    seq(|splits|, i requires 0 <= i < |splits| => FairCents(pool, splits, splits[i]))
  }

  /** The remainder that separates the owners given a cent from the others. */
  function Threshold(pool: int, splits: seq<Split>): int
    requires 0 <= Leftover(pool, splits) <= |Ranking(pool, splits)|
  {
    var left := Leftover(pool, splits);
    if left == 0 then 10000 else Ranking(pool, splits)[left - 1].remainder
  }

  /** With the threshold as the price of a cent, each owner's payout minimises its own
      penalised deviation over every other amount. */
  lemma PenalisedMinimum(pool: int, splits: seq<Split>, i: nat, cents: int)
    requires Valid(pool, splits) && i < |splits|
    ensures 0 <= Leftover(pool, splits) <= |Ranking(pool, splits)|
    ensures var price := 10000 - 2 * Threshold(pool, splits);
            var fair := FairCents(pool, splits, splits[i]);
            Deviation(pool, splits[i], cents) >= Deviation(pool, splits[i], fair) + price * (cents - fair)
  {
    LeftoverRange(pool, splits);
    var left, ranked := Leftover(pool, splits), Ranking(pool, splits);
    var k := RankOf(pool, splits, i);
    var theta := Threshold(pool, splits);
    var r := Remainder(pool, splits[i]);
    RemainderRange(pool, splits[i]);
    RankingStrict(pool, splits);
    if left > 0 {
      if k < left - 1 {
        assert Before(ranked[k], ranked[left - 1]);
      } else if k > left - 1 {
        assert Before(ranked[left - 1], ranked[k]);
      }
      ThresholdRange(pool, splits);
    }
    var fair := FairCents(pool, splits, splits[i]);
    PriceInequality(cents - fair, r, theta, k < left);
  }

  lemma ThresholdRange(pool: int, splits: seq<Split>)
    requires Valid(pool, splits)
    ensures 0 <= Leftover(pool, splits) <= |Ranking(pool, splits)|
    ensures 0 <= Threshold(pool, splits) <= 10000
  {
    LeftoverRange(pool, splits);
    var left, keys := Leftover(pool, splits), Keys(pool, splits);
    SortOrdered(keys);
    if left > 0 {
      assert Ranking(pool, splits)[left - 1] in multiset(keys);
      var j :| 0 <= j < |keys| && keys[j] == Ranking(pool, splits)[left - 1];
      RemainderRange(pool, splits[j]);
    }
  }

  /** The one-owner inequality, with step the distance from the fair payout. */
  lemma PriceInequality(step: int, r: int, theta: int, granted: bool)
    requires 0 <= r <= 9999 && 0 <= theta <= 10000
    requires if granted then theta <= r else r <= theta
    ensures var d := 10000 * step + (if granted then 10000 - r else -r);
            (if d >= 0 then d else -d) >= (if granted then 10000 - r else r) + (10000 - 2 * theta) * step
  {
    Distribute(theta, step);
    if step >= 1 {
      ProductBounds(theta, step);
    } else if step <= -1 {
      ProductBounds(theta, -step);
    }
    LinearPrice(step, r, theta, theta * step, granted);
  }

  lemma LinearPrice(step: int, r: int, theta: int, cost: int, granted: bool)
    requires 0 <= r <= 9999 && 0 <= theta <= 10000
    requires if granted then theta <= r else r <= theta
    requires step >= 1 ==> theta <= cost
    requires step == 0 ==> cost == 0
    requires step <= -1 ==> theta <= -cost <= theta + 10000 * (-step - 1)
    ensures var d := 10000 * step + (if granted then 10000 - r else -r);
            (if d >= 0 then d else -d) >= (if granted then 10000 - r else r) + 10000 * step - 2 * cost
  {
  }

  lemma Distribute(theta: int, step: int)
    ensures (10000 - 2 * theta) * step == 10000 * step - 2 * (theta * step)
    ensures theta * (-step) == -(theta * step)
  {
  }

  lemma ProductBounds(theta: int, n: int)
    requires 0 <= theta <= 10000 && n >= 1
    ensures theta <= theta * n <= theta + 10000 * (n - 1)
  {
    assert theta * n == theta * (n - 1) + theta;
    assert (10000 - theta) * (n - 1) == 10000 * (n - 1) - theta * (n - 1);
  }

  lemma {:induction false} Lagrange(pool: int, splits: seq<Split>, fair: seq<int>, other: seq<int>, price: int)
    requires |fair| == |other| == |splits|
    requires forall i :: 0 <= i < |splits| ==>
      Deviation(pool, splits[i], other[i]) >= Deviation(pool, splits[i], fair[i]) + price * (other[i] - fair[i])
    ensures TotalDeviation(pool, splits, other) >=
            TotalDeviation(pool, splits, fair) + price * (Sum(other, Identity()) - Sum(fair, Identity()))
  {
    if splits != [] {
      var n := |splits| - 1;
      Lagrange(pool, splits[..n], fair[..n], other[..n], price);
      var d := Sum(other[..n], Identity()) - Sum(fair[..n], Identity());
      assert price * (d + (other[n] - fair[n])) == price * d + price * (other[n] - fair[n]);
    }
  }

  lemma LagrangeBalanced(pool: int, splits: seq<Split>, fair: seq<int>, other: seq<int>, price: int)
    requires |fair| == |other| == |splits|
    requires forall i :: 0 <= i < |splits| ==>
      Deviation(pool, splits[i], other[i]) >= Deviation(pool, splits[i], fair[i]) + price * (other[i] - fair[i])
    requires Sum(other, Identity()) == Sum(fair, Identity())
    ensures TotalDeviation(pool, splits, fair) <= TotalDeviation(pool, splits, other)
  {
    Lagrange(pool, splits, fair, other, price);
    TimesZero(price, Sum(other, Identity()) - Sum(fair, Identity()));
  }

  lemma TimesZero(price: int, gap: int)
    requires gap == 0
    ensures price * gap == 0
  {
  }

  lemma FairAllocationSumsToPool(pool: int, splits: seq<Split>)
    requires Valid(pool, splits)
    ensures Sum(FairAllocation(pool, splits), Identity()) == pool
  {
    SplitConservesPool(pool, splits);
    SameTerms(splits, FairAllocation(pool, splits), FairWeight(pool, splits), Identity());
  }

  /** Among all ways to hand out exactly the pool, in integer cents of either sign, the split
      is closest to the exact shares. */
  lemma SplitIsOptimal(pool: int, splits: seq<Split>, other: seq<int>)
    requires Valid(pool, splits)
    requires |other| == |splits| && Sum(other, Identity()) == pool
    ensures TotalDeviation(pool, splits, FairAllocation(pool, splits)) <= TotalDeviation(pool, splits, other)
  {
    var fair := FairAllocation(pool, splits);
    FairAllocationSumsToPool(pool, splits);
    ThresholdRange(pool, splits);
    var price := 10000 - 2 * Threshold(pool, splits);
    forall i | 0 <= i < |splits|
      ensures Deviation(pool, splits[i], other[i]) >= Deviation(pool, splits[i], fair[i]) + price * (other[i] - fair[i])
    {
      PenalisedMinimum(pool, splits, i, other[i]);
    }
    LagrangeBalanced(pool, splits, fair, other, price);
  }

  // ---------------------------------------------------------------- fairness

  /** No payout depends on the order in which the splits are listed. */
  lemma SplitIgnoresOrder(pool: int, splits: seq<Split>, shuffled: seq<Split>, s: Split)
    requires multiset(splits) == multiset(shuffled)
    ensures FairCents(pool, splits, s) == FairCents(pool, shuffled, s)
  {
    Permutation(splits, shuffled, FloorWeight(pool));
    Permutation(splits, shuffled, AheadWeight(pool, KeyOf(pool, s)));
  }

  /** A larger share never receives less, and equal shares differ by at most one cent. */
  lemma SplitIsFair(pool: int, splits: seq<Split>, i: nat, j: nat)
    requires Valid(pool, splits) && i < |splits| && j < |splits|
    ensures splits[i].bps > splits[j].bps ==>
      FairCents(pool, splits, splits[i]) >= FairCents(pool, splits, splits[j])
    ensures splits[i].bps == splits[j].bps ==>
      -1 <= FairCents(pool, splits, splits[i]) - FairCents(pool, splits, splits[j]) <= 1
  {
    var a, b := splits[i], splits[j];
    if a.bps > b.bps {
      assert pool * a.bps >= pool * b.bps >= 0;
      RemainderRange(pool, a);
      RemainderRange(pool, b);
      if Floor(pool, a) == Floor(pool, b) {
        var ka, kb := KeyOf(pool, a), KeyOf(pool, b);
        assert Before(ka, kb);
        forall m | 0 <= m < |splits|
          ensures AheadWeight(pool, ka)(splits[m]) <= AheadWeight(pool, kb)(splits[m])
        {
          if Before(KeyOf(pool, splits[m]), ka) {
            BeforeTransitive(KeyOf(pool, splits[m]), ka, kb);
          }
        }
        Monotone(splits, AheadWeight(pool, ka), AheadWeight(pool, kb));
      }
    }
  }
}
