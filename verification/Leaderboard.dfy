/** Leaderboard places, rank movements, and the range of the robustness score. */
module Leaderboard {

  // ----- places

  /** Whether entry `j` comes before entry `i`: a higher score, or the same and listed earlier. */
  predicate Beats(scores: seq<real>, j: nat, i: nat)
    requires i < |scores| && j < |scores|
  {
    scores[j] > scores[i] || (scores[j] == scores[i] && j < i)
  }

  /** How many of the first `n` entries come before entry `i`. */
  function Beating(scores: seq<real>, n: nat, i: nat): nat
    requires n <= |scores| && i < |scores|
  {
    if n == 0 then 0 else Beating(scores, n - 1, i) + if Beats(scores, n - 1, i) then 1 else 0
  }

  function Place(scores: seq<real>, i: nat): nat
    requires i < |scores|
  {
    Beating(scores, |scores|, i) + 1
  }

  // ----- sorting indices, best first, stable on ties

  predicate Indices(order: seq<nat>, scores: seq<real>) {
    forall k :: 0 <= k < |order| ==> order[k] < |scores|
  }

  function Inserted(order: seq<nat>, scores: seq<real>, i: nat): seq<nat>
    requires i < |scores| && Indices(order, scores)
  {
    if order == [] then [i]
    else if scores[order[0]] < scores[i] then [i] + order
    else [order[0]] + Inserted(order[1..], scores, i)
  }

  function Ordered(scores: seq<real>, n: nat): (order: seq<nat>)
    requires n <= |scores|
    ensures Indices(order, scores)
  {
    if n == 0 then [] else (InsertedIndices(Ordered(scores, n - 1), scores, n - 1);
                            Inserted(Ordered(scores, n - 1), scores, n - 1))
  }

  lemma {:induction false} InsertedIndices(order: seq<nat>, scores: seq<real>, i: nat)
    requires i < |scores| && Indices(order, scores)
    ensures Indices(Inserted(order, scores, i), scores) && |Inserted(order, scores, i)| == |order| + 1
    ensures forall x: nat :: x in Inserted(order, scores, i) <==> x == i || x in order
  {
    if order != [] && !(scores[order[0]] < scores[i]) {
      InsertedIndices(order[1..], scores, i);
    }
  }

  lemma {:induction false} OrderedHasAll(scores: seq<real>, n: nat)
    requires n <= |scores|
    ensures |Ordered(scores, n)| == n && forall x: nat :: x in Ordered(scores, n) <==> x < n
  {
    if n != 0 {
      OrderedHasAll(scores, n - 1);
      InsertedIndices(Ordered(scores, n - 1), scores, n - 1);
    }
  }

  /** Each entry of the order beats all those after it. */
  predicate BestFirst(order: seq<nat>, scores: seq<real>)
    requires Indices(order, scores)
  {
    forall p, q :: 0 <= p < q < |order| ==> Beats(scores, order[p], order[q])
  }

  lemma {:induction false} InsertedBestFirst(order: seq<nat>, scores: seq<real>, i: nat)
    requires i < |scores| && Indices(order, scores) && BestFirst(order, scores)
    requires forall x :: x in order ==> x < i
    ensures Indices(Inserted(order, scores, i), scores) && BestFirst(Inserted(order, scores, i), scores)
  {
    InsertedIndices(order, scores, i);
    if order != [] {
      assert order[0] in order;
      if scores[order[0]] < scores[i] {
        forall q | 0 <= q < |order|
          ensures Beats(scores, i, order[q])
        {
          if q != 0 { assert Beats(scores, order[0], order[q]); }
        }
      } else {
        var rest := Inserted(order[1..], scores, i);
        assert forall x :: x in order[1..] ==> x in order;
        InsertedBestFirst(order[1..], scores, i);
        InsertedIndices(order[1..], scores, i);
        forall q | 0 <= q < |rest|
          ensures Beats(scores, order[0], rest[q])
        {
          assert rest[q] in rest;
          if rest[q] != i {
            var k :| 0 <= k < |order[1..]| && order[1..][k] == rest[q];
            assert order[k + 1] == rest[q] && Beats(scores, order[0], order[k + 1]);
          }
        }
      }
    }
  }

  lemma {:induction false} OrderedBestFirst(scores: seq<real>, n: nat)
    requires n <= |scores|
    ensures BestFirst(Ordered(scores, n), scores)
  {
    if n != 0 {
      OrderedBestFirst(scores, n - 1);
      OrderedHasAll(scores, n - 1);
      InsertedBestFirst(Ordered(scores, n - 1), scores, n - 1);
    }
  }

  // ----- an entry's place is its position in the order

  /** How many entries of the order come before entry `i`. */
  function BeatingIn(order: seq<nat>, scores: seq<real>, i: nat): nat
    requires Indices(order, scores) && i < |scores|
  {
    if order == [] then 0 else (if Beats(scores, order[0], i) then 1 else 0) + BeatingIn(order[1..], scores, i)
  }

  lemma {:induction false} InsertedBeating(order: seq<nat>, scores: seq<real>, x: nat, i: nat)
    requires Indices(order, scores) && x < |scores| && i < |scores|
    ensures Indices(Inserted(order, scores, x), scores)
    ensures BeatingIn(Inserted(order, scores, x), scores, i)
         == BeatingIn(order, scores, i) + if Beats(scores, x, i) then 1 else 0
  {
    InsertedIndices(order, scores, x);
    if order != [] {
      if scores[order[0]] < scores[x] {
        assert ([x] + order)[1..] == order;
      } else {
        InsertedBeating(order[1..], scores, x, i);
        assert ([order[0]] + Inserted(order[1..], scores, x))[1..] == Inserted(order[1..], scores, x);
      }
    }
  }

  lemma {:induction false} OrderedBeating(scores: seq<real>, n: nat, i: nat)
    requires n <= |scores| && i < |scores|
    ensures BeatingIn(Ordered(scores, n), scores, i) == Beating(scores, n, i)
  {
    if n != 0 {
      OrderedBeating(scores, n - 1, i);
      InsertedBeating(Ordered(scores, n - 1), scores, n - 1, i);
    }
  }

  lemma {:induction false} NoneBeats(order: seq<nat>, scores: seq<real>, i: nat)
    requires Indices(order, scores) && i < |scores|
    requires forall p :: 0 <= p < |order| ==> !Beats(scores, order[p], i)
    ensures BeatingIn(order, scores, i) == 0
  {
    if order != [] {
      NoneBeats(order[1..], scores, i);
    }
  }

  lemma {:induction false} PositionCounts(order: seq<nat>, scores: seq<real>, k: nat)
    requires Indices(order, scores) && BestFirst(order, scores) && k < |order|
    ensures BeatingIn(order, scores, order[k]) == k
  {
    if k == 0 {
      NoneBeats(order, scores, order[0]);
    } else {
      PositionCounts(order[1..], scores, k - 1);
      assert Beats(scores, order[0], order[k]);
    }
  }

  /** Sorts by score, best first, and writes each row's place. */
  method Rank(scores: seq<real>) returns (places: array<nat>)
    ensures fresh(places) && places.Length == |scores|
    ensures forall i :: 0 <= i < |scores| ==> places[i] == Place(scores, i)
  {
    var order := Ordered(scores, |scores|);
    OrderedHasAll(scores, |scores|);
    OrderedBestFirst(scores, |scores|);
    places := new nat[|scores|](_ => 0);
    for k := 0 to |order|
      invariant forall j :: 0 <= j < k ==> places[order[j]] == j + 1
    {
      places[order[k]] := k + 1;
      assert forall j :: 0 <= j < k ==> Beats(scores, order[j], order[k]);
    }
    forall i | 0 <= i < |scores|
      ensures places[i] == Place(scores, i)
    {
      assert i in order;
      var k :| 0 <= k < |order| && order[k] == i;
      PositionCounts(order, scores, k);
      OrderedBeating(scores, |scores|, i);
    }
  }

  // ----- places are a permutation, consistent with the scores and stable

  lemma {:induction false} BeatingGrows(scores: seq<real>, n: nat, i: nat, j: nat)
    requires n <= |scores| && i < |scores| && j < |scores| && Beats(scores, i, j)
    ensures Beating(scores, n, i) + (if i < n then 1 else 0) <= Beating(scores, n, j)
  {
    if n != 0 {
      BeatingGrows(scores, n - 1, i, j);
    }
  }

  lemma {:induction false} BeatingBounded(scores: seq<real>, n: nat, i: nat)
    requires n <= |scores| && i < |scores|
    ensures Beating(scores, n, i) + (if i < n then 1 else 0) <= n
  {
    if n != 0 {
      BeatingBounded(scores, n - 1, i);
    }
  }

  /** Places run from 1 to n, no two rows share one, a higher score has the better place, and rows
      with equal scores keep their order. */
  lemma PlacesAreRanking(scores: seq<real>, i: nat, j: nat)
    requires i < |scores| && j < |scores| && i != j
    ensures 1 <= Place(scores, i) <= |scores| && Place(scores, i) != Place(scores, j)
    ensures scores[i] > scores[j] ==> Place(scores, i) < Place(scores, j)
    ensures scores[i] == scores[j] && i < j ==> Place(scores, i) < Place(scores, j)
  {
    BeatingBounded(scores, |scores|, i);
    if Beats(scores, i, j) {
      BeatingGrows(scores, |scores|, i, j);
    } else {
      BeatingGrows(scores, |scores|, j, i);
    }
  }

  // ----- rank movements

  function SumBeating(scores: seq<real>, n: nat, m: nat): nat
    requires n <= |scores| && m <= |scores|
  {
    if m == 0 then 0 else SumBeating(scores, n, m - 1) + Beating(scores, n, m - 1)
  }

  /** How many of the first `m` entries the `n`-th entry comes before. */
  function BeatenBy(scores: seq<real>, n: nat, m: nat): nat
    requires n < |scores| && m <= |scores|
  {
    if m == 0 then 0 else BeatenBy(scores, n, m - 1) + if Beats(scores, n, m - 1) then 1 else 0
  }

  lemma {:induction false} SumBeatingNext(scores: seq<real>, n: nat, m: nat)
    requires n < |scores| && m <= |scores|
    ensures SumBeating(scores, n + 1, m) == SumBeating(scores, n, m) + BeatenBy(scores, n, m)
  {
    if m != 0 {
      SumBeatingNext(scores, n, m - 1);
    }
  }

  lemma {:induction false} OneOfTwoBeats(scores: seq<real>, n: nat, m: nat)
    requires m <= n < |scores|
    ensures Beating(scores, m, n) + BeatenBy(scores, n, m) == m
  {
    if m != 0 {
      OneOfTwoBeats(scores, n, m - 1);
    }
  }

  /** Each pair of entries is won by exactly one of the two. */
  lemma {:induction false} PairsAreDecided(scores: seq<real>, n: nat)
    requires n <= |scores|
    ensures 2 * SumBeating(scores, n, n) == n * (n - 1)
  {
    if n != 0 {
      PairsAreDecided(scores, n - 1);
      SumBeatingNext(scores, n - 1, n - 1);
      OneOfTwoBeats(scores, n - 1, n - 1);
      assert SumBeating(scores, n, n) == SumBeating(scores, n, n - 1) + Beating(scores, n, n - 1);
      assert n * (n - 1) == (n - 1) * (n - 2) + 2 * (n - 1);
    }
  }

  function SumPlaces(scores: seq<real>, m: nat): nat
    requires m <= |scores|
  {
    if m == 0 then 0 else SumPlaces(scores, m - 1) + Place(scores, m - 1)
  }

  lemma {:induction false} SumOfPlaces(scores: seq<real>, m: nat)
    requires m <= |scores|
    ensures SumPlaces(scores, m) == SumBeating(scores, |scores|, m) + m
  {
    if m != 0 {
      SumOfPlaces(scores, m - 1);
    }
  }

  lemma PlacesAddUp(scores: seq<real>)
    ensures 2 * SumPlaces(scores, |scores|) == |scores| * (|scores| + 1)
  {
    SumOfPlaces(scores, |scores|);
    PairsAreDecided(scores, |scores|);
    assert |scores| * (|scores| - 1) + 2 * |scores| == |scores| * (|scores| + 1);
  }

  datatype Row = Row(policy: string, publicScore: real, robustness: real)

  function PublicScores(rows: seq<Row>): (scores: seq<real>)
    ensures |scores| == |rows|
  {
    seq(|rows|, i requires 0 <= i < |rows| => rows[i].publicScore)
  }

  function RobustScores(rows: seq<Row>): (scores: seq<real>)
    ensures |scores| == |rows|
  {
    seq(|rows|, i requires 0 <= i < |rows| => rows[i].robustness)
  }

  predicate DistinctPolicies(rows: seq<Row>) {
    forall i, j :: 0 <= i < j < |rows| ==> rows[i].policy != rows[j].policy
  }

  /** The public place found under a policy's id: the worst, where several rows share the id. */
  function PublicPlaceTo(rows: seq<Row>, policy: string, n: nat): nat
    requires n <= |rows|
  {
    if n == 0 then 0
    else
      var before := PublicPlaceTo(rows, policy, n - 1);
      if rows[n - 1].policy == policy && before < Place(PublicScores(rows), n - 1)
      then Place(PublicScores(rows), n - 1) else before
  }

  function Movement(rows: seq<Row>, i: nat): int
    requires i < |rows|
  {
    PublicPlaceTo(rows, rows[i].policy, |rows|) - Place(RobustScores(rows), i)
  }

  function SumMovements(rows: seq<Row>, n: nat): int
    requires n <= |rows|
  {
    if n == 0 then 0 else SumMovements(rows, n - 1) + Movement(rows, n - 1)
  }

  function SumFound(rows: seq<Row>, n: nat): nat
    requires n <= |rows|
  {
    if n == 0 then 0 else SumFound(rows, n - 1) + PublicPlaceTo(rows, rows[n - 1].policy, |rows|)
  }

  lemma {:induction false} MovementsSplit(rows: seq<Row>, n: nat)
    requires n <= |rows|
    ensures SumMovements(rows, n) == SumFound(rows, n) - SumPlaces(RobustScores(rows), n)
  {
    if n != 0 {
      MovementsSplit(rows, n - 1);
    }
  }

  lemma {:induction false} FoundIsWorst(rows: seq<Row>, policy: string, n: nat)
    requires n <= |rows|
    ensures forall i :: 0 <= i < n && rows[i].policy == policy ==>
              Place(PublicScores(rows), i) <= PublicPlaceTo(rows, policy, n)
    ensures PublicPlaceTo(rows, policy, n) == 0
         || exists i :: 0 <= i < n && rows[i].policy == policy
                        && Place(PublicScores(rows), i) == PublicPlaceTo(rows, policy, n)
  {
    if n != 0 {
      FoundIsWorst(rows, policy, n - 1);
    }
  }

  lemma FoundIsOwn(rows: seq<Row>, i: nat)
    requires i < |rows|
    ensures Place(PublicScores(rows), i) <= PublicPlaceTo(rows, rows[i].policy, |rows|)
    ensures DistinctPolicies(rows) ==> Place(PublicScores(rows), i) == PublicPlaceTo(rows, rows[i].policy, |rows|)
  {
    FoundIsWorst(rows, rows[i].policy, |rows|);
  }

  lemma {:induction false} FoundAtLeastOwn(rows: seq<Row>, n: nat)
    requires n <= |rows|
    ensures SumPlaces(PublicScores(rows), n) <= SumFound(rows, n)
    ensures DistinctPolicies(rows) ==> SumPlaces(PublicScores(rows), n) == SumFound(rows, n)
    ensures (exists i :: 0 <= i < n && Place(PublicScores(rows), i) < PublicPlaceTo(rows, rows[i].policy, |rows|)) ==>
              SumPlaces(PublicScores(rows), n) < SumFound(rows, n)
  {
    if n != 0 {
      FoundAtLeastOwn(rows, n - 1);
      FoundIsOwn(rows, n - 1);
    }
  }

  lemma SameTotals(rows: seq<Row>)
    ensures SumPlaces(PublicScores(rows), |rows|) == SumPlaces(RobustScores(rows), |rows|)
  {
    PlacesAddUp(PublicScores(rows));
    PlacesAddUp(RobustScores(rows));
  }

  /** Of two rows that share a policy id, one is looked up at a worse place than its own. */
  lemma SharedIdCosts(rows: seq<Row>, i: nat, j: nat)
    requires i < j < |rows| && rows[i].policy == rows[j].policy
    ensures exists k :: 0 <= k < |rows| && Place(PublicScores(rows), k) < PublicPlaceTo(rows, rows[k].policy, |rows|)
  {
    FoundIsWorst(rows, rows[i].policy, |rows|);
    PlacesAreRanking(PublicScores(rows), i, j);
    var k := if Place(PublicScores(rows), i) < Place(PublicScores(rows), j) then i else j;
    assert Place(PublicScores(rows), k) < PublicPlaceTo(rows, rows[k].policy, |rows|);
  }

  /** Rank movements sum to zero exactly when no two rows share a policy id. */
  lemma MovementsCancel(rows: seq<Row>)
    ensures SumMovements(rows, |rows|) == 0 <==> DistinctPolicies(rows)
  {
    MovementsSplit(rows, |rows|);
    SameTotals(rows);
    FoundAtLeastOwn(rows, |rows|);
    if !DistinctPolicies(rows) {
      var i, j :| 0 <= i < j < |rows| && rows[i].policy == rows[j].policy;
      SharedIdCosts(rows, i, j);
    }
  }

  /** The best-first order puts the row of place k + 1 at position k. */
  lemma OrderIsByPlace(scores: seq<real>, k: nat)
    requires k < |scores|
    ensures |Ordered(scores, |scores|)| == |scores| && Place(scores, Ordered(scores, |scores|)[k]) == k + 1
  {
    OrderedHasAll(scores, |scores|);
    OrderedBestFirst(scores, |scores|);
    PositionCounts(Ordered(scores, |scores|), scores, k);
    OrderedBeating(scores, |scores|, Ordered(scores, |scores|)[k]);
  }

  /** `place` is the last position, counted from one, at which `name` occurs. */
  predicate LastAt(names: seq<string>, name: string, place: nat) {
    1 <= place <= |names| && names[place - 1] == name && name !in names[place..]
  }

  /** Writes each name's position into a dictionary; later positions replace earlier ones. */
  method LastPositions(names: seq<string>) returns (places: map<string, nat>)
    ensures forall k :: 0 <= k < |names| ==> names[k] in places
    ensures forall name :: name in places ==> LastAt(names, name, places[name])
  {
    places := map[];
    for k := 0 to |names|
      invariant forall j :: 0 <= j < k ==> names[j] in places
      invariant forall name :: name in places ==> LastAt(names[..k], name, places[name])
    {
      forall name | name in places && name != names[k]
        ensures LastAt(names[..k + 1], name, places[name])
      {
        assert names[..k + 1][places[name]..] == names[..k][places[name]..] + [names[k]];
      }
      assert names[..k + 1][k + 1..] == [];
      places := places[names[k] := k + 1];
    }
    assert names[..|names|] == names;
  }

  /** The policy ids in the order of their public places. */
  function RankedNames(rows: seq<Row>): (names: seq<string>)
    ensures |names| == |rows|
  {
    var order := Ordered(PublicScores(rows), |rows|);
    OrderedHasAll(PublicScores(rows), |rows|);
    seq(|rows|, k requires 0 <= k < |rows| => rows[order[k]].policy)
  }

  /** The dictionary from policy id to public place. */
  method PublicPlaces(rows: seq<Row>) returns (places: map<string, nat>)
    ensures forall i :: 0 <= i < |rows| ==>
              rows[i].policy in places && places[rows[i].policy] == PublicPlaceTo(rows, rows[i].policy, |rows|)
  {
    places := LastPositions(RankedNames(rows));
    forall i | 0 <= i < |rows|
      ensures rows[i].policy in places && places[rows[i].policy] == PublicPlaceTo(rows, rows[i].policy, |rows|)
    {
      NamedSomewhere(rows, i);
      LastWriteIsWorst(rows, rows[i].policy, places[rows[i].policy]);
    }
  }

  lemma NamedSomewhere(rows: seq<Row>, i: nat)
    requires i < |rows|
    ensures exists k :: 0 <= k < |rows| && RankedNames(rows)[k] == rows[i].policy
  {
    var order := Ordered(PublicScores(rows), |rows|);
    OrderedHasAll(PublicScores(rows), |rows|);
    assert i in order;
    var k :| 0 <= k < |order| && order[k] == i;
    assert RankedNames(rows)[k] == rows[i].policy;
  }

  lemma NotLater(names: seq<string>, name: string, place: nat)
    requires LastAt(names, name, place)
    ensures forall j :: place <= j < |names| ==> names[j] != name
  {
    forall j | place <= j < |names|
      ensures names[j] != name
    {
      assert names[j] == names[place..][j - place];
    }
  }

  /** The last position of a policy id among the ranked rows is its worst place. */
  lemma LastWriteIsWorst(rows: seq<Row>, policy: string, place: nat)
    requires LastAt(RankedNames(rows), policy, place)
    ensures place == PublicPlaceTo(rows, policy, |rows|)
  {
    var scores, names := PublicScores(rows), RankedNames(rows);
    var order := Ordered(scores, |rows|);
    var found := PublicPlaceTo(rows, policy, |rows|);
    FoundIsWorst(rows, policy, |rows|);
    OrderedHasAll(scores, |rows|);
    NotLater(names, policy, place);
    OrderIsByPlace(scores, place - 1);
    assert order[place - 1] in order;
    assert place <= found;
    var i :| 0 <= i < |rows| && rows[i].policy == policy && Place(scores, i) == found;
    assert i in order;
    var k :| 0 <= k < |order| && order[k] == i;
    OrderIsByPlace(scores, k);
    assert names[k] == policy;
  }

  /** Ranks the rows on both scores and writes how far each moved. */
  method RankMatrixRows(rows: seq<Row>) returns (movements: array<int>)
    ensures fresh(movements) && movements.Length == |rows|
    ensures forall i :: 0 <= i < |rows| ==> movements[i] == Movement(rows, i)
  {
    var public := PublicPlaces(rows);
    var robust := Rank(RobustScores(rows));
    movements := new int[|rows|](_ => 0);
    for i := 0 to |rows|
      invariant forall j :: 0 <= j < i ==> movements[j] == Movement(rows, j)
      invariant forall j :: 0 <= j < |rows| ==> robust[j] == Place(RobustScores(rows), j)
    {
      movements[i] := public[rows[i].policy] as int - robust[i] as int;
    }
  }

  /** Rows that come before row `i`, told from one of the two scores and the order of listing. */
  function Ahead(rows: seq<Row>, i: nat, score: Row -> real): set<int>
    requires i < |rows|
  {
    set j | 0 <= j < |rows|
            && (score(rows[j]) > score(rows[i]) || (score(rows[j]) == score(rows[i]) && j < i))
  }

  lemma {:induction false} BeatingIsAhead(scores: seq<real>, n: nat, i: nat)
    requires n <= |scores| && i < |scores|
    ensures Beating(scores, n, i)
         == |set j | 0 <= j < n && (scores[j] > scores[i] || (scores[j] == scores[i] && j < i))|
  {
    var ahead := set j | 0 <= j < n && (scores[j] > scores[i] || (scores[j] == scores[i] && j < i));
    if n != 0 {
      var before := set j | 0 <= j < n - 1 && (scores[j] > scores[i] || (scores[j] == scores[i] && j < i));
      BeatingIsAhead(scores, n - 1, i);
      assert ahead == before + if Beats(scores, n - 1, i) then {n - 1} else {};
    }
  }

  /** A row with an id of its own moves up by as many rows as are ahead of it in public and no longer
      on robustness. */
  lemma MovementCountsRows(rows: seq<Row>, i: nat)
    requires i < |rows| && DistinctPolicies(rows)
    ensures Movement(rows, i)
         == |Ahead(rows, i, (row: Row) => row.publicScore)| - |Ahead(rows, i, (row: Row) => row.robustness)|
  {
    var public, robust := PublicScores(rows), RobustScores(rows);
    FoundIsOwn(rows, i);
    BeatingIsAhead(public, |rows|, i);
    BeatingIsAhead(robust, |rows|, i);
    assert Ahead(rows, i, (row: Row) => row.publicScore)
        == set j | 0 <= j < |rows| && (public[j] > public[i] || (public[j] == public[i] && j < i));
    assert Ahead(rows, i, (row: Row) => row.robustness)
        == set j | 0 <= j < |rows| && (robust[j] > robust[i] || (robust[j] == robust[i] && j < i));
  }

  // ----- the robustness score

  /** One world's metrics. */
  datatype Metrics = Metrics(shortfall: real, completion: real, impact: real, inventoryPenalty: real,
                             maxParticipation: real, violations: real, inventoryPath: real)
  {
    predicate InRange() {
      && 0.0 <= completion <= 100.0 && 0.0 <= inventoryPenalty && 0.0 <= maxParticipation
      && 0.0 <= violations && 0.0 <= inventoryPath
    }
  }

  function AtLeastZero(x: real): real { if x < 0.0 then 0.0 else x }

  /** What is left of a full mark after a penalty. */
  function Mark(penalty: real, scale: real): real
    requires scale != 0.0
  {
    AtLeastZero(1.0 - penalty / scale)
  }

  /** Everything the total is made of; the spread is the standard deviation of the shortfalls. */
  datatype Summary = Summary(meanShortfall: real, worstShortfall: real, spread: real, meanCompletion: real,
                             meanImpact: real, meanPenalty: real, meanParticipation: real, meanViolations: real,
                             meanPath: real)
  {
    predicate InRange() {
      && 0.0 <= meanShortfall && 0.0 <= worstShortfall && 0.0 <= spread && 0.0 <= meanCompletion <= 100.0
      && 0.0 <= meanImpact && 0.0 <= meanPenalty && 0.0 <= meanParticipation && 0.0 <= meanViolations && 0.0 <= meanPath
    }
  }

  function Total(s: Summary): real {
    30.0 * Mark(s.meanShortfall, 250.0)
    + 15.0 * (0.75 * s.meanCompletion / 100.0 + 0.25 * Mark(s.meanPenalty, 100.0))
    + 10.0 * Mark(s.meanImpact, 450.0)
    + 15.0 * Mark(s.worstShortfall, 250.0)
    + 15.0 * (0.7 * Mark(s.meanParticipation, 50.0) + 0.3 * Mark(s.meanViolations, 120.0))
    + 10.0 * Mark(s.meanPath, 6000.0)
    + 5.0 * Mark(s.spread, 100.0)
  }

  lemma MarkRange(penalty: real, scale: real)
    requires 0.0 <= penalty && 0.0 < scale
    ensures 0.0 <= Mark(penalty, scale) <= 1.0
  {
    assert penalty / scale >= 0.0;
  }

  function SumOf(rows: seq<Metrics>, field: Metrics -> real): real {
    if rows == [] then 0.0 else SumOf(rows[..|rows| - 1], field) + field(rows[|rows| - 1])
  }

  function MeanOf(rows: seq<Metrics>, field: Metrics -> real): real
    requires rows != []
  {
    SumOf(rows, field) / |rows| as real
  }

  function WorstShortfall(rows: seq<Metrics>): real
    requires rows != []
  {
    var last := AtLeastZero(rows[|rows| - 1].shortfall);
    if |rows| == 1 then last
    else
      var before := WorstShortfall(rows[..|rows| - 1]);
      if before < last then last else before
  }

  function Summarized(rows: seq<Metrics>, spread: real): Summary
    requires rows != []
  {
    Summary(MeanOf(rows, (m: Metrics) => AtLeastZero(m.shortfall)), WorstShortfall(rows), spread,
            MeanOf(rows, (m: Metrics) => m.completion), MeanOf(rows, (m: Metrics) => AtLeastZero(m.impact)),
            MeanOf(rows, (m: Metrics) => m.inventoryPenalty), MeanOf(rows, (m: Metrics) => m.maxParticipation),
            MeanOf(rows, (m: Metrics) => m.violations), MeanOf(rows, (m: Metrics) => m.inventoryPath))
  }

  lemma {:induction false} SumBounds(rows: seq<Metrics>, field: Metrics -> real, low: real, high: real)
    requires forall i :: 0 <= i < |rows| ==> low <= field(rows[i]) <= high
    ensures |rows| as real * low <= SumOf(rows, field) <= |rows| as real * high
  {
    if rows != [] {
      SumBounds(rows[..|rows| - 1], field, low, high);
      assert (|rows| - 1) as real * low + low == |rows| as real * low;
      assert (|rows| - 1) as real * high + high == |rows| as real * high;
    }
  }

  lemma {:induction false} SumIsNonNegative(rows: seq<Metrics>, field: Metrics -> real)
    requires forall i :: 0 <= i < |rows| ==> 0.0 <= field(rows[i])
    ensures 0.0 <= SumOf(rows, field)
  {
    if rows != [] {
      SumIsNonNegative(rows[..|rows| - 1], field);
    }
  }

  lemma QuotientBounds(sum: real, n: real, high: real)
    requires 0.0 < n && 0.0 <= sum <= n * high
    ensures 0.0 <= sum / n <= high
  {
    var q := sum / n;
    assert q * n == sum;
  }

  lemma MeanIsNonNegative(rows: seq<Metrics>, field: Metrics -> real)
    requires rows != [] && forall i :: 0 <= i < |rows| ==> 0.0 <= field(rows[i])
    ensures 0.0 <= MeanOf(rows, field)
  {
    SumIsNonNegative(rows, field);
  }

  lemma CompletionMean(rows: seq<Metrics>)
    requires rows != [] && forall i :: 0 <= i < |rows| ==> 0.0 <= rows[i].completion <= 100.0
    ensures 0.0 <= MeanOf(rows, (m: Metrics) => m.completion) <= 100.0
  {
    SumIsNonNegative(rows, (m: Metrics) => m.completion);
    SumBounds(rows, (m: Metrics) => m.completion, 0.0, 100.0);
    QuotientBounds(SumOf(rows, (m: Metrics) => m.completion), |rows| as real, 100.0);
  }

  lemma {:induction false} WorstIsNonNegative(rows: seq<Metrics>)
    requires rows != []
    ensures 0.0 <= WorstShortfall(rows)
  {
    if |rows| > 1 {
      WorstIsNonNegative(rows[..|rows| - 1]);
    }
  }

  lemma SummaryInRange(rows: seq<Metrics>, spread: real)
    requires rows != [] && 0.0 <= spread && forall i :: 0 <= i < |rows| ==> rows[i].InRange()
    ensures Summarized(rows, spread).InRange()
  {
    MeanIsNonNegative(rows, (m: Metrics) => AtLeastZero(m.shortfall));
    MeanIsNonNegative(rows, (m: Metrics) => AtLeastZero(m.impact));
    MeanIsNonNegative(rows, (m: Metrics) => m.inventoryPenalty);
    MeanIsNonNegative(rows, (m: Metrics) => m.maxParticipation);
    MeanIsNonNegative(rows, (m: Metrics) => m.violations);
    MeanIsNonNegative(rows, (m: Metrics) => m.inventoryPath);
    CompletionMean(rows);
    WorstIsNonNegative(rows);
  }

  /** For all metric rows in range the robustness total lies between 0 and 100. */
  lemma RobustnessWithinHundred(rows: seq<Metrics>, spread: real)
    requires rows != [] && 0.0 <= spread && forall i :: 0 <= i < |rows| ==> rows[i].InRange()
    ensures 0.0 <= Total(Summarized(rows, spread)) <= 100.0
  {
    SummaryInRange(rows, spread);
    TotalWithinHundred(Summarized(rows, spread));
  }

  lemma TotalWithinHundred(s: Summary)
    requires s.InRange()
    ensures 0.0 <= Total(s) <= 100.0
  {
    MarkRange(s.meanShortfall, 250.0);
    MarkRange(s.meanPenalty, 100.0);
    MarkRange(s.meanImpact, 450.0);
    MarkRange(s.worstShortfall, 250.0);
    MarkRange(s.meanParticipation, 50.0);
    MarkRange(s.meanViolations, 120.0);
    MarkRange(s.meanPath, 6000.0);
    MarkRange(s.spread, 100.0);
  }

  // ----- what the score rewards

  const PERFECT: Summary := Summary(0.0, 0.0, 0.0, 100.0, 0.0, 0.0, 0.0, 0.0, 0.0)

  /** A perfect policy scores a hundred, and losing one part completely costs exactly that part's weight. */
  lemma FullLosses()
    ensures Total(PERFECT) == 100.0
    ensures Total(PERFECT.(meanShortfall := 250.0)) == 70.0 && Total(PERFECT.(worstShortfall := 250.0)) == 85.0
    ensures Total(PERFECT.(meanCompletion := 0.0)) == 88.75 && Total(PERFECT.(meanPenalty := 100.0)) == 96.25
    ensures Total(PERFECT.(meanImpact := 450.0)) == 90.0 && Total(PERFECT.(meanParticipation := 50.0)) == 89.5
    ensures Total(PERFECT.(meanViolations := 120.0)) == 95.5 && Total(PERFECT.(meanPath := 6000.0)) == 90.0
    ensures Total(PERFECT.(spread := 100.0)) == 95.0
  {
  }

  lemma MarkIsOneExactly(penalty: real, scale: real)
    requires 0.0 <= penalty && 0.0 < scale
    ensures Mark(penalty, scale) == 1.0 <==> penalty == 0.0
  {
    var q := penalty / scale;
    assert q * scale == penalty;
  }

  /** Only a perfect policy does. */
  lemma HundredIsPerfect(s: Summary)
    requires s.InRange()
    ensures Total(s) == 100.0 <==> s == PERFECT
  {
    MarkRange(s.meanShortfall, 250.0);
    MarkIsOneExactly(s.meanShortfall, 250.0);
    MarkRange(s.meanPenalty, 100.0);
    MarkIsOneExactly(s.meanPenalty, 100.0);
    MarkRange(s.meanImpact, 450.0);
    MarkIsOneExactly(s.meanImpact, 450.0);
    MarkRange(s.worstShortfall, 250.0);
    MarkIsOneExactly(s.worstShortfall, 250.0);
    MarkRange(s.meanParticipation, 50.0);
    MarkIsOneExactly(s.meanParticipation, 50.0);
    MarkRange(s.meanViolations, 120.0);
    MarkIsOneExactly(s.meanViolations, 120.0);
    MarkRange(s.meanPath, 6000.0);
    MarkIsOneExactly(s.meanPath, 6000.0);
    MarkRange(s.spread, 100.0);
    MarkIsOneExactly(s.spread, 100.0);
  }

  lemma MeanOfOne(m: Metrics, field: Metrics -> real)
    ensures MeanOf([m], field) == field(m)
  {
    assert [m][..0] == [];
    assert SumOf([m], field) == field(m);
  }

  /** The summary of one world is that world's metrics, losses only. */
  lemma OneWorld(m: Metrics, spread: real)
    ensures Summarized([m], spread)
         == Summary(AtLeastZero(m.shortfall), AtLeastZero(m.shortfall), spread, m.completion, AtLeastZero(m.impact),
                    m.inventoryPenalty, m.maxParticipation, m.violations, m.inventoryPath)
  {
    MeanOfOne(m, (w: Metrics) => AtLeastZero(w.shortfall));
    MeanOfOne(m, (w: Metrics) => AtLeastZero(w.impact));
    MeanOfOne(m, (w: Metrics) => w.completion);
    MeanOfOne(m, (w: Metrics) => w.inventoryPenalty);
    MeanOfOne(m, (w: Metrics) => w.maxParticipation);
    MeanOfOne(m, (w: Metrics) => w.violations);
    MeanOfOne(m, (w: Metrics) => w.inventoryPath);
  }

  /** Over more worlds, means weigh by their number and the worst is the worse of the two. */
  lemma {:induction false} MoreWorlds(a: seq<Metrics>, b: seq<Metrics>, field: Metrics -> real)
    requires a != [] && b != []
    ensures SumOf(a + b, field) == SumOf(a, field) + SumOf(b, field)
    ensures WorstShortfall(a + b)
         == if WorstShortfall(a) < WorstShortfall(b) then WorstShortfall(b) else WorstShortfall(a)
  {
    assert (a + b)[..|a + b| - 1] == a + b[..|b| - 1];
    if |b| == 1 {
      assert a + b[..0] == a && b[..0] == [];
    } else {
      MoreWorlds(a, b[..|b| - 1], field);
    }
  }
}
