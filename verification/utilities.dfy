/**
 `seedSort` from src/Utilities.ts: orders players by seed, ascending or
 descending, through the comparator `a.seed - b.seed` (or its negation).
 The sort is modelled as a stable insertion sort returning a new sequence.
 */
module Utilities {
  import opened Players

  /** The sort direction: "asc" or "des". */
  datatype Order = Asc | Des

  /**
   The number a seed contributes to the comparator's subtraction. A null
   seed takes part in the subtraction as 0.
   */
  function SeedValue(p: Player): real {
    match p.seed
    case NonNull(v) => v
    case Null => 0.0
  }

  /** The comparator: negative puts `a` first, positive puts `b` first. */
  function Compare(order: Order, a: Player, b: Player): real {
    match order
    case Asc => SeedValue(a) - SeedValue(b)
    case Des => SeedValue(b) - SeedValue(a)
  }

  /** `a` may stand before `b` in the given order. */
  predicate InOrder(order: Order, a: Player, b: Player) {
    match order
    case Asc => SeedValue(a) <= SeedValue(b)
    case Des => SeedValue(a) >= SeedValue(b)
  }

  predicate Ordered(order: Order, xs: seq<Player>) {
    forall i, j :: 0 <= i < j < |xs| ==> InOrder(order, xs[i], xs[j])
  }

  /** Every player carries a seed. */
  predicate AllSeeded(xs: seq<Player>) {
    forall i :: 0 <= i < |xs| ==> xs[i].seed.NonNull?
  }

  /**
   Inserts `x` into the ordered `s` in front of the first player it does not
   compare after, so that it precedes players with an equal seed.
   */
  function Insert(order: Order, x: Player, s: seq<Player>): (r: seq<Player>)
    requires Ordered(order, s)
    ensures Ordered(order, r)
    ensures multiset(r) == multiset(s) + multiset{x}
    ensures |r| == |s| + 1
    decreases |s|
  {
    if |s| == 0 then [x]
    else if Compare(order, x, s[0]) <= 0.0 then [x] + s
    else
      var rest := Insert(order, x, s[1..]);
      assert forall k :: 0 <= k < |rest| ==> InOrder(order, s[0], rest[k]) by {
        forall k | 0 <= k < |rest|
          ensures InOrder(order, s[0], rest[k])
        {
          assert rest[k] in multiset(rest);
          if rest[k] != x {
            assert rest[k] in multiset(s[1..]);
            var j :| 0 <= j < |s[1..]| && s[1..][j] == rest[k];
            assert s[j + 1] == rest[k];
          }
        }
      }
      assert s == [s[0]] + s[1..];
      [s[0]] + rest
  }

  /** Sorts `xs` by seed in the given order. */
  function SeedSort(xs: seq<Player>, order: Order): (r: seq<Player>)
    ensures |r| == |xs|
    ensures multiset(r) == multiset(xs)
    ensures order == Asc ==>
      forall i, j :: 0 <= i < j < |r| ==> SeedValue(r[i]) <= SeedValue(r[j])
    ensures order == Des ==>
      forall i, j :: 0 <= i < j < |r| ==> SeedValue(r[i]) >= SeedValue(r[j])
  {
    if |xs| == 0 then []
    else
      assert xs == [xs[0]] + xs[1..];
      var r := Insert(order, xs[0], SeedSort(xs[1..], order));
      assert Ordered(order, r);
      r
  }

  /**
   With every seed present, the result carries the same players, all seeded,
   with the seeds themselves in the requested order.
   */
  lemma SeededSortOrdersSeeds(xs: seq<Player>, order: Order)
    requires AllSeeded(xs)
    ensures var r := SeedSort(xs, order);
      && AllSeeded(r)
      && (order == Asc ==>
            forall i, j :: 0 <= i < j < |r| ==> r[i].seed.value <= r[j].seed.value)
      && (order == Des ==>
            forall i, j :: 0 <= i < j < |r| ==> r[i].seed.value >= r[j].seed.value)
  {
    var r := SeedSort(xs, order);
    forall k | 0 <= k < |r|
      ensures r[k].seed.NonNull?
    {
      assert r[k] in multiset(xs);
    }
  }

  /** The players of `s` whose seed value is `v`, in their order in `s`. */
  function WithSeed(s: seq<Player>, v: real): seq<Player>
    decreases |s|
  {
    if |s| == 0 then []
    else (if SeedValue(s[0]) == v then [s[0]] else []) + WithSeed(s[1..], v)
  }

  /** One step of `WithSeed`: the first player's contribution, then the rest's. */
  lemma WithSeedCons(p: Player, s: seq<Player>, v: real)
    ensures WithSeed([p] + s, v) == (if SeedValue(p) == v then [p] else []) + WithSeed(s, v)
  {
    assert ([p] + s)[1..] == s;
  }

  /** Inserting `x` puts it ahead of every player with the same seed. */
  lemma {:induction false} InsertWithSeed(order: Order, x: Player, s: seq<Player>, v: real)
    requires Ordered(order, s)
    ensures WithSeed(Insert(order, x, s), v) ==
      (if SeedValue(x) == v then [x] else []) + WithSeed(s, v)
    decreases |s|
  {
    if |s| == 0 {
      WithSeedCons(x, s, v);
    } else if Compare(order, x, s[0]) <= 0.0 {
      WithSeedCons(x, s, v);
    } else {
      InsertPastWithSeed(order, x, s, v);
    }
  }

  /**
   The case where `x` goes behind the first player of `s`: that player has a
   different seed, so `x` still comes first among the players with its seed.
   */
  lemma {:induction false} InsertPastWithSeed(order: Order, x: Player, s: seq<Player>, v: real)
    requires Ordered(order, s) && |s| > 0 && Compare(order, x, s[0]) > 0.0
    ensures WithSeed(Insert(order, x, s), v) ==
      (if SeedValue(x) == v then [x] else []) + WithSeed(s, v)
    decreases |s|, 0
  {
    var rest := Insert(order, x, s[1..]);
    assert Insert(order, x, s) == [s[0]] + rest;
    InsertWithSeed(order, x, s[1..], v);
    WithSeedCons(s[0], rest, v);
    WithSeedCons(s[0], s[1..], v);
    assert s == [s[0]] + s[1..];
    assert SeedValue(x) != SeedValue(s[0]);
  }

  /**
   The sort is stable: for every seed value, the players carrying it appear
   in the result in the same order as in the input.
   */
  lemma {:induction false} SeedSortStable(xs: seq<Player>, order: Order, v: real)
    ensures WithSeed(SeedSort(xs, order), v) == WithSeed(xs, v)
    decreases |xs|
  {
    if |xs| > 0 {
      SeedSortStable(xs[1..], order, v);
      InsertWithSeed(order, xs[0], SeedSort(xs[1..], order), v);
    }
  }
}
