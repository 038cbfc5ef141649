/** Average ranks with ties: the array-writing tie loop against a count over all values. */
module Ranks {

  datatype Pair = Pair(value: real, index: nat)

  // ----- what a rank means

  function CountLess(values: seq<real>, v: real): nat {
    if values == [] then 0
    else CountLess(values[..|values| - 1], v) + if values[|values| - 1] < v then 1 else 0
  }

  function CountEqual(values: seq<real>, v: real): nat {
    if values == [] then 0
    else CountEqual(values[..|values| - 1], v) + if values[|values| - 1] == v then 1 else 0
  }

  /** The average of the places the value's ties would take. */
  function RankOf(values: seq<real>, v: real): real {
    CountLess(values, v) as real + (CountEqual(values, v) + 1) as real / 2.0
  }

  function RankSeq(values: seq<real>): (ranks: seq<real>)
    ensures |ranks| == |values|
  {
    seq(|values|, i requires 0 <= i < |values| => RankOf(values, values[i]))
  }

  // ----- sorting pairs by value, then by index

  function Insert(pairs: seq<Pair>, p: Pair): seq<Pair> {
    if pairs == [] then [p]
    else if p.value < pairs[0].value then [p] + pairs
    else [pairs[0]] + Insert(pairs[1..], p)
  }

  /** The first `n` values with their indices, in ascending order and stable on ties. */
  function SortedTo(values: seq<real>, n: nat): seq<Pair>
    requires n <= |values|
  {
    if n == 0 then [] else Insert(SortedTo(values, n - 1), Pair(values[n - 1], n - 1))
  }

  function Sorted(values: seq<real>): seq<Pair> { SortedTo(values, |values|) }

  predicate Ascending(pairs: seq<Pair>) {
    forall i, j :: 0 <= i < j < |pairs| ==> pairs[i].value <= pairs[j].value
  }

  predicate DistinctIndices(pairs: seq<Pair>) {
    forall i, j :: 0 <= i < j < |pairs| ==> pairs[i].index != pairs[j].index
  }

  lemma {:induction false} InsertKeepsAll(pairs: seq<Pair>, p: Pair)
    ensures |Insert(pairs, p)| == |pairs| + 1
    ensures forall q :: q in Insert(pairs, p) <==> q == p || q in pairs
  {
    if pairs != [] && !(p.value < pairs[0].value) {
      InsertKeepsAll(pairs[1..], p);
    }
  }

  lemma {:induction false} InsertKeepsOrder(pairs: seq<Pair>, p: Pair)
    requires Ascending(pairs)
    ensures Ascending(Insert(pairs, p))
  {
    if pairs != [] && !(p.value < pairs[0].value) {
      var rest := Insert(pairs[1..], p);
      InsertKeepsOrder(pairs[1..], p);
      InsertKeepsAll(pairs[1..], p);
      forall j | 0 <= j < |rest|
        ensures pairs[0].value <= rest[j].value
      {
        assert rest[j] in rest;
      }
    }
  }

  lemma {:induction false} InsertKeepsDistinct(pairs: seq<Pair>, p: Pair)
    requires DistinctIndices(pairs) && forall q :: q in pairs ==> q.index != p.index
    ensures DistinctIndices(Insert(pairs, p))
  {
    if pairs != [] {
      assert pairs[0] in pairs;
      if p.value < pairs[0].value {
        assert forall j :: 0 <= j < |pairs| ==> pairs[j] in pairs;
      } else {
        var rest := Insert(pairs[1..], p);
        InsertKeepsDistinct(pairs[1..], p);
        InsertKeepsAll(pairs[1..], p);
        forall j | 0 <= j < |rest|
          ensures pairs[0].index != rest[j].index
        {
          assert rest[j] in rest;
        }
      }
    }
  }

  lemma {:induction false} SortedHasAll(values: seq<real>, n: nat)
    requires n <= |values|
    ensures |SortedTo(values, n)| == n
    ensures forall q :: q in SortedTo(values, n) <==> q.index < n && q.value == values[q.index]
  {
    if n != 0 {
      SortedHasAll(values, n - 1);
      InsertKeepsAll(SortedTo(values, n - 1), Pair(values[n - 1], n - 1));
    }
  }

  lemma {:induction false} SortedIsOrdering(values: seq<real>, n: nat)
    requires n <= |values|
    ensures Ascending(SortedTo(values, n)) && DistinctIndices(SortedTo(values, n))
  {
    if n != 0 {
      SortedIsOrdering(values, n - 1);
      SortedHasAll(values, n - 1);
      InsertKeepsOrder(SortedTo(values, n - 1), Pair(values[n - 1], n - 1));
      InsertKeepsDistinct(SortedTo(values, n - 1), Pair(values[n - 1], n - 1));
    }
  }

  // ----- counting over a sorted list

  function PairsLess(pairs: seq<Pair>, v: real): nat {
    if pairs == [] then 0
    else PairsLess(pairs[..|pairs| - 1], v) + if pairs[|pairs| - 1].value < v then 1 else 0
  }

  function PairsEqual(pairs: seq<Pair>, v: real): nat {
    if pairs == [] then 0
    else PairsEqual(pairs[..|pairs| - 1], v) + if pairs[|pairs| - 1].value == v then 1 else 0
  }

  lemma {:induction false} PairsConcat(a: seq<Pair>, b: seq<Pair>, v: real)
    ensures PairsLess(a + b, v) == PairsLess(a, v) + PairsLess(b, v)
    ensures PairsEqual(a + b, v) == PairsEqual(a, v) + PairsEqual(b, v)
  {
    if b == [] {
      assert a + b == a;
    } else {
      assert (a + b)[..|a + b| - 1] == a + b[..|b| - 1];
      PairsConcat(a, b[..|b| - 1], v);
    }
  }

  lemma OnePair(p: Pair, v: real)
    ensures PairsLess([p], v) == (if p.value < v then 1 else 0)
    ensures PairsEqual([p], v) == (if p.value == v then 1 else 0)
  {
    assert [p][..0] == [];
  }

  lemma {:induction false} InsertCounts(pairs: seq<Pair>, p: Pair, v: real)
    ensures PairsLess(Insert(pairs, p), v) == PairsLess(pairs, v) + if p.value < v then 1 else 0
    ensures PairsEqual(Insert(pairs, p), v) == PairsEqual(pairs, v) + if p.value == v then 1 else 0
  {
    OnePair(p, v);
    if pairs != [] {
      if p.value < pairs[0].value {
        PairsConcat([p], pairs, v);
      } else {
        InsertCounts(pairs[1..], p, v);
        PairsConcat([pairs[0]], Insert(pairs[1..], p), v);
        PairsConcat([pairs[0]], pairs[1..], v);
        assert pairs == [pairs[0]] + pairs[1..];
      }
    }
  }

  lemma {:induction false} SortedCounts(values: seq<real>, n: nat, v: real)
    requires n <= |values|
    ensures PairsLess(SortedTo(values, n), v) == CountLess(values[..n], v)
    ensures PairsEqual(SortedTo(values, n), v) == CountEqual(values[..n], v)
  {
    if n != 0 {
      SortedCounts(values, n - 1, v);
      InsertCounts(SortedTo(values, n - 1), Pair(values[n - 1], n - 1), v);
      assert values[..n][..n - 1] == values[..n - 1];
    }
  }

  lemma {:induction false} AllBelow(pairs: seq<Pair>, v: real)
    requires forall i :: 0 <= i < |pairs| ==> pairs[i].value < v
    ensures PairsLess(pairs, v) == |pairs| && PairsEqual(pairs, v) == 0
  {
    if pairs != [] {
      AllBelow(pairs[..|pairs| - 1], v);
    }
  }

  lemma {:induction false} AllThere(pairs: seq<Pair>, v: real)
    requires forall i :: 0 <= i < |pairs| ==> pairs[i].value == v
    ensures PairsLess(pairs, v) == 0 && PairsEqual(pairs, v) == |pairs|
  {
    if pairs != [] {
      AllThere(pairs[..|pairs| - 1], v);
    }
  }

  lemma {:induction false} AllAbove(pairs: seq<Pair>, v: real)
    requires forall i :: 0 <= i < |pairs| ==> pairs[i].value > v
    ensures PairsLess(pairs, v) == 0 && PairsEqual(pairs, v) == 0
  {
    if pairs != [] {
      AllAbove(pairs[..|pairs| - 1], v);
    }
  }

  /** A maximal block of equal values in the sorted list starts after all smaller values. */
  predicate Block(pairs: seq<Pair>, cursor: nat, end: nat) {
    && cursor < end <= |pairs|
    && (forall i :: 0 <= i < cursor ==> pairs[i].value < pairs[cursor].value)
    && (forall i :: cursor <= i < end ==> pairs[i].value == pairs[cursor].value)
    && (forall i :: end <= i < |pairs| ==> pairs[i].value > pairs[cursor].value)
  }

  lemma BlockCounts(pairs: seq<Pair>, cursor: nat, end: nat)
    requires Block(pairs, cursor, end)
    ensures PairsLess(pairs, pairs[cursor].value) == cursor
    ensures PairsEqual(pairs, pairs[cursor].value) == end - cursor
  {
    BlockCountsIn(pairs[..cursor], pairs[cursor..end], pairs[end..], pairs[cursor].value);
    assert pairs == pairs[..cursor] + pairs[cursor..end] + pairs[end..];
  }

  lemma BlockCountsIn(a: seq<Pair>, b: seq<Pair>, c: seq<Pair>, v: real)
    requires forall i :: 0 <= i < |a| ==> a[i].value < v
    requires forall i :: 0 <= i < |b| ==> b[i].value == v
    requires forall i :: 0 <= i < |c| ==> c[i].value > v
    ensures PairsLess(a + b + c, v) == |a| && PairsEqual(a + b + c, v) == |b|
  {
    PairsConcat(a + b, c, v);
    PairsConcat(a, b, v);
    AllBelow(a, v);
    AllThere(b, v);
    AllAbove(c, v);
  }

  lemma BlockRank(values: seq<real>, cursor: nat, end: nat)
    requires Block(Sorted(values), cursor, end)
    ensures RankOf(values, Sorted(values)[cursor].value) == (cursor + end - 1) as real / 2.0 + 1.0
  {
    BlockCounts(Sorted(values), cursor, end);
    SortedCounts(values, |values|, Sorted(values)[cursor].value);
    assert values[..|values|] == values;
  }

  // ----- the tie loop

  /** The rank is written to the original index of each value of a block. */
  method WriteBlock(ranks: array<real>, pairs: seq<Pair>, cursor: nat, end: nat, rank: real)
    requires cursor <= end <= |pairs|
    requires forall i :: 0 <= i < |pairs| ==> pairs[i].index < ranks.Length
    requires DistinctIndices(pairs)
    modifies ranks
    ensures forall i :: cursor <= i < end ==> ranks[pairs[i].index] == rank
    ensures forall i :: 0 <= i < |pairs| && !(cursor <= i < end) ==> ranks[pairs[i].index] == old(ranks[pairs[i].index])
  {
    for k := cursor to end
      invariant forall i :: cursor <= i < k ==> ranks[pairs[i].index] == rank
      invariant forall i :: 0 <= i < |pairs| && !(cursor <= i < k) ==>
                  ranks[pairs[i].index] == old(ranks[pairs[i].index])
    {
      ranks[pairs[k].index] := rank;
    }
  }

  method BlockEnd(pairs: seq<Pair>, cursor: nat) returns (end: nat)
    requires cursor < |pairs| && Ascending(pairs)
    requires forall i :: 0 <= i < cursor ==> pairs[i].value < pairs[cursor].value
    ensures Block(pairs, cursor, end)
  {
    end := cursor + 1;
    while end < |pairs| && pairs[end].value == pairs[cursor].value
      invariant cursor < end <= |pairs|
      invariant forall i :: cursor <= i < end ==> pairs[i].value == pairs[cursor].value
    {
      end := end + 1;
    }
  }

  /** Ranks every value; ties share the average of their places. */
  method AverageRanks(values: seq<real>) returns (ranks: array<real>)
    ensures fresh(ranks) && ranks[..] == RankSeq(values)
  {
    var pairs := Sorted(values);
    SortedIsOrdering(values, |values|);
    SortedHasAll(values, |values|);
    assert forall i :: 0 <= i < |pairs| ==> pairs[i] in pairs;
    ranks := new real[|values|](_ => 0.0);
    var cursor := 0;
    while cursor < |pairs|
      invariant cursor <= |pairs|
      invariant RankedTo(ranks[..], values, pairs, cursor)
      invariant cursor < |pairs| ==> forall i :: 0 <= i < cursor ==> pairs[i].value < pairs[cursor].value
    {
      var end := BlockEnd(pairs, cursor);
      BlockRank(values, cursor, end);
      WriteBlock(ranks, pairs, cursor, end, (cursor + end - 1) as real / 2.0 + 1.0);
      cursor := end;
    }
    AllRanked(ranks[..], values);
  }

  /** The first `cursor` values in sorted order have their ranks. */
  predicate RankedTo(ranks: seq<real>, values: seq<real>, pairs: seq<Pair>, cursor: nat) {
    cursor <= |pairs| &&
    forall i :: 0 <= i < cursor ==>
      pairs[i].index < |ranks| && ranks[pairs[i].index] == RankOf(values, pairs[i].value)
  }

  lemma AllRanked(ranks: seq<real>, values: seq<real>)
    requires |ranks| == |values| && RankedTo(ranks, values, Sorted(values), |Sorted(values)|)
    ensures ranks == RankSeq(values)
  {
    SortedHasAll(values, |values|);
    forall i | 0 <= i < |values|
      ensures ranks[i] == RankOf(values, values[i])
    {
      assert Pair(values[i], i) in Sorted(values);
    }
  }

  // ----- what the ranks have in common

  /** Ranks depend on the values only through how often each occurs. */
  lemma {:induction false} RanksPermute(a: seq<real>, b: seq<real>, v: real)
    requires multiset(a) == multiset(b)
    ensures RankOf(a, v) == RankOf(b, v)
  {
    CountsPermute(a, b, v);
  }

  function DropAt(values: seq<real>, k: nat): seq<real>
    requires k < |values|
  {
    values[..k] + values[k + 1..]
  }

  lemma DroppingOne(values: seq<real>, k: nat, v: real)
    requires k < |values|
    ensures multiset(values) == multiset(DropAt(values, k)) + multiset{values[k]}
    ensures CountLess(values, v) == CountLess(DropAt(values, k), v) + if values[k] < v then 1 else 0
    ensures CountEqual(values, v) == CountEqual(DropAt(values, k), v) + if values[k] == v then 1 else 0
  {
    assert values == values[..k] + [values[k]] + values[k + 1..];
    WithoutOne(values[..k], values[k], values[k + 1..], v);
  }

  lemma {:induction false} CountsPermute(a: seq<real>, b: seq<real>, v: real)
    requires multiset(a) == multiset(b)
    ensures CountLess(a, v) == CountLess(b, v) && CountEqual(a, v) == CountEqual(b, v)
    decreases |a|
  {
    SameLength(a, b);
    if a != [] {
      var k := Locate(a, b);
      var a', b' := DropAt(a, |a| - 1), DropAt(b, k);
      DroppingOne(a, |a| - 1, v);
      DroppingOne(b, k, v);
      SameWithoutOne(multiset(a), multiset(b), multiset(a'), multiset(b'), b[k]);
      CountsPermute(a', b', v);
    } else {
      assert b == [];
    }
  }

  lemma SameLength(a: seq<real>, b: seq<real>)
    requires multiset(a) == multiset(b)
    ensures |a| == |b|
  {
    assert |a| == |multiset(a)| && |b| == |multiset(b)|;
  }

  lemma Locate(a: seq<real>, b: seq<real>) returns (k: nat)
    requires multiset(a) == multiset(b) && a != []
    ensures k < |b| && b[k] == a[|a| - 1]
  {
    assert a[|a| - 1] in multiset(b);
    k :| 0 <= k < |b| && b[k] == a[|a| - 1];
  }

  lemma SameWithoutOne(a: multiset<real>, b: multiset<real>, a': multiset<real>, b': multiset<real>, x: real)
    requires a == b && a == a' + multiset{x} && b == b' + multiset{x}
    ensures a' == b'
  {
    assert a' == a - multiset{x} && b' == b - multiset{x};
  }

  lemma WithoutOne(a: seq<real>, x: real, b: seq<real>, v: real)
    ensures CountLess(a + [x] + b, v) == CountLess(a + b, v) + if x < v then 1 else 0
    ensures CountEqual(a + [x] + b, v) == CountEqual(a + b, v) + if x == v then 1 else 0
  {
    CountsConcat(a, [x], v);
    CountsConcat(a + [x], b, v);
    CountsConcat(a, b, v);
    assert [x][..0] == [];
  }

  lemma {:induction false} CountsConcat(a: seq<real>, b: seq<real>, v: real)
    ensures CountLess(a + b, v) == CountLess(a, v) + CountLess(b, v)
    ensures CountEqual(a + b, v) == CountEqual(a, v) + CountEqual(b, v)
  {
    if b == [] {
      assert a + b == a;
    } else {
      assert (a + b)[..|a + b| - 1] == a + b[..|b| - 1];
      CountsConcat(a, b[..|b| - 1], v);
    }
  }

  function Sum(values: seq<real>): real {
    if values == [] then 0.0 else Sum(values[..|values| - 1]) + values[|values| - 1]
  }

  /** Twice the number of smaller values plus the number of equal ones. */
  function Standing(values: seq<real>, v: real): nat { 2 * CountLess(values, v) + CountEqual(values, v) }

  function Standings(some: seq<real>, values: seq<real>): nat {
    if some == [] then 0 else Standings(some[..|some| - 1], values) + Standing(values, some[|some| - 1])
  }

  /** How often, counted twice for strictly, `x` stays below the others. */
  function Below(some: seq<real>, x: real): nat {
    if some == [] then 0
    else Below(some[..|some| - 1], x)
         + if x < some[|some| - 1] then 2 else if x == some[|some| - 1] then 1 else 0
  }

  lemma {:induction false} StandingsGrow(some: seq<real>, values: seq<real>, x: real)
    ensures Standings(some, values + [x]) == Standings(some, values) + Below(some, x)
  {
    if some != [] {
      StandingsGrow(some[..|some| - 1], values, x);
      assert (values + [x])[..|values|] == values;
    }
  }

  lemma {:induction false} EitherWay(values: seq<real>, x: real)
    ensures Standing(values, x) + Below(values, x) == 2 * |values|
  {
    if values != [] {
      EitherWay(values[..|values| - 1], x);
    }
  }

  lemma {:induction false} AllStandings(values: seq<real>, n: nat)
    requires n <= |values|
    ensures Standings(values[..n], values[..n]) == n * n
  {
    if n != 0 {
      var front, x := values[..n - 1], values[n - 1];
      AllStandings(values, n - 1);
      assert values[..n] == front + [x] && (front + [x])[..n - 1] == front;
      StandingsGrow(front, front, x);
      EitherWay(front, x);
      assert n * n == (n - 1) * (n - 1) + 2 * (n - 1) + 1;
    }
  }

  lemma {:induction false} SumOfRanksOf(some: seq<real>, values: seq<real>, ranks: seq<real>)
    requires |ranks| == |some| && forall i :: 0 <= i < |some| ==> ranks[i] == RankOf(values, some[i])
    ensures 2.0 * Sum(ranks) == (Standings(some, values) + |some|) as real
  {
    if some != [] {
      SumOfRanksOf(some[..|some| - 1], values, ranks[..|some| - 1]);
    }
  }

  /** However the values tie, the ranks add up to 1 + 2 + ... + n. */
  lemma RanksAddUp(values: seq<real>)
    ensures 2.0 * Sum(RankSeq(values)) == (|values| * (|values| + 1)) as real
  {
    AllStandings(values, |values|);
    assert values[..|values|] == values;
    SumOfRanksOf(values, values, RankSeq(values));
    assert |values| * |values| + |values| == |values| * (|values| + 1);
  }

  /** The two series order their entries in the same way. */
  predicate SameOrder(a: seq<real>, b: seq<real>) {
    |a| == |b| && forall i, j :: 0 <= i < |a| && 0 <= j < |a| ==> (a[i] < a[j] <==> b[i] < b[j])
  }

  lemma {:induction false} SameCounts(a: seq<real>, b: seq<real>, n: nat, i: nat)
    requires SameOrder(a, b) && n <= |a| && i < |a|
    ensures CountLess(a[..n], a[i]) == CountLess(b[..n], b[i]) && CountEqual(a[..n], a[i]) == CountEqual(b[..n], b[i])
  {
    if n != 0 {
      SameCounts(a, b, n - 1, i);
      assert a[..n][..n - 1] == a[..n - 1] && b[..n][..n - 1] == b[..n - 1];
      assert (a[n - 1] < a[i] <==> b[n - 1] < b[i]) && (a[i] < a[n - 1] <==> b[i] < b[n - 1]);
    }
  }

  /** Ranks do not change under a strictly increasing transformation. */
  lemma RanksFollowOrder(a: seq<real>, b: seq<real>)
    requires SameOrder(a, b)
    ensures RankSeq(a) == RankSeq(b)
  {
    forall i | 0 <= i < |a|
      ensures RankOf(a, a[i]) == RankOf(b, b[i])
    {
      SameCounts(a, b, |a|, i);
      assert a[..|a|] == a && b[..|b|] == b;
    }
  }

  lemma {:induction false} CountsRise(values: seq<real>, v: real, w: real)
    requires v < w
    ensures CountLess(values, v) + CountEqual(values, v) <= CountLess(values, w)
  {
    if values != [] {
      CountsRise(values[..|values| - 1], v, w);
    }
  }

  lemma {:induction false} CountsItself(values: seq<real>, i: nat)
    requires i < |values|
    ensures 1 <= CountEqual(values, values[i])
  {
    if i < |values| - 1 {
      CountsItself(values[..|values| - 1], i);
    }
  }

  /** Higher values have higher ranks, by at least one, and equal values the same. */
  lemma RanksRise(values: seq<real>, i: nat, j: nat)
    requires i < |values| && j < |values| && values[i] <= values[j]
    ensures if values[i] == values[j] then RankSeq(values)[i] == RankSeq(values)[j]
            else RankSeq(values)[i] + 1.0 <= RankSeq(values)[j]
  {
    if values[i] < values[j] {
      CountsRise(values, values[i], values[j]);
      CountsItself(values, i);
      CountsItself(values, j);
    }
  }
}
