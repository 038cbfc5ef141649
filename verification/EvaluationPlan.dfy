/** Campaign planning: weighted template cycles, world seeds, the default plan and the rule it
    replaced, and the split matrix that keeps training and evaluation worlds apart. */
module EvaluationPlan {
  import opened Wrappers

  datatype Split = Trainable | PublicEval | SealedEval

  datatype Partition = Training | Familiar | Distribution | Mechanism

  datatype Visibility = Public | EvaluatorPrivate

  datatype Template = Template(family: string, ecology: string, split: Split, partition: Partition, weight: nat)

  datatype Plan = Plan(worlds: seq<Template>)
  {
    predicate WellFormed() { worlds != [] && forall i :: 0 <= i < |worlds| ==> 1 <= worlds[i].weight }
  }

  // ----- the cycle: positions of the templates, each repeated by its weight

  function Repeated(position: nat, times: nat): seq<nat> {
    if times == 0 then [] else Repeated(position, times - 1) + [position]
  }

  function CycleTo(worlds: seq<Template>, n: nat): seq<nat>
    requires n <= |worlds|
  {
    if n == 0 then [] else CycleTo(worlds, n - 1) + Repeated(n - 1, worlds[n - 1].weight)
  }

  function Cycle(plan: Plan): seq<nat> { CycleTo(plan.worlds, |plan.worlds|) }

  /** Builds the cycle template by template, repetition by repetition. */
  method ExpandCycle(plan: Plan) returns (cycle: seq<nat>)
    ensures cycle == Cycle(plan)
  {
    cycle := [];
    for i := 0 to |plan.worlds|
      invariant cycle == CycleTo(plan.worlds, i)
    {
      for k := 0 to plan.worlds[i].weight
        invariant cycle == CycleTo(plan.worlds, i) + Repeated(i, k)
      {
        cycle := cycle + [i];
        assert cycle == CycleTo(plan.worlds, i) + (Repeated(i, k) + [i]);
      }
    }
  }

  function Count(positions: seq<nat>, k: nat): nat {
    if positions == [] then 0
    else Count(positions[..|positions| - 1], k) + if positions[|positions| - 1] == k then 1 else 0
  }

  lemma {:induction false} CountConcat(a: seq<nat>, b: seq<nat>, k: nat)
    ensures Count(a + b, k) == Count(a, k) + Count(b, k)
  {
    if b == [] {
      assert a + b == a;
    } else {
      assert (a + b)[..|a + b| - 1] == a + b[..|b| - 1];
      CountConcat(a, b[..|b| - 1], k);
    }
  }

  lemma {:induction false} CountRepeated(position: nat, times: nat, k: nat)
    ensures Count(Repeated(position, times), k) == if k == position then times else 0
    ensures |Repeated(position, times)| == times
    ensures forall i :: 0 <= i < times ==> Repeated(position, times)[i] == position
  {
    if times != 0 {
      CountRepeated(position, times - 1, k);
      assert Repeated(position, times)[..times - 1] == Repeated(position, times - 1);
    }
  }

  lemma {:induction false} CountCycle(worlds: seq<Template>, n: nat, k: nat)
    requires n <= |worlds|
    ensures Count(CycleTo(worlds, n), k) == if k < n then worlds[k].weight else 0
  {
    if n != 0 {
      CountCycle(worlds, n - 1, k);
      CountRepeated(n - 1, worlds[n - 1].weight, k);
      CountConcat(CycleTo(worlds, n - 1), Repeated(n - 1, worlds[n - 1].weight), k);
    }
  }

  lemma {:induction false} CycleIsOfPositions(worlds: seq<Template>, n: nat)
    requires n <= |worlds|
    ensures forall i :: 0 <= i < |CycleTo(worlds, n)| ==> CycleTo(worlds, n)[i] < n
  {
    if n != 0 {
      CycleIsOfPositions(worlds, n - 1);
      CountRepeated(n - 1, worlds[n - 1].weight, 0);
    }
  }

  lemma {:induction false} CycleIsLong(worlds: seq<Template>, n: nat)
    requires n <= |worlds| && forall i :: 0 <= i < |worlds| ==> 1 <= worlds[i].weight
    ensures n <= |CycleTo(worlds, n)|
  {
    if n != 0 {
      CycleIsLong(worlds, n - 1);
      CountRepeated(n - 1, worlds[n - 1].weight, 0);
    }
  }

  /** Position of the template that world `index` uses. */
  function PositionFor(plan: Plan, index: nat): (position: nat)
    requires plan.WellFormed()
    ensures position < |plan.worlds|
  {
    CycleIsLong(plan.worlds, |plan.worlds|);
    CycleIsOfPositions(plan.worlds, |plan.worlds|);
    Cycle(plan)[index % |Cycle(plan)|]
  }

  function TemplateFor(plan: Plan, index: nat): Template
    requires plan.WellFormed()
  {
    plan.worlds[PositionFor(plan, index)]
  }

  /** How many of the `n` worlds from `start` on use the template at position `k`. */
  function Uses(plan: Plan, start: nat, n: nat, k: nat): nat
    requires plan.WellFormed()
  {
    if n == 0 then 0 else Uses(plan, start, n - 1, k) + if PositionFor(plan, start + n - 1) == k then 1 else 0
  }

  lemma {:induction false} FirstCycle(plan: Plan, n: nat, k: nat)
    requires plan.WellFormed() && n <= |Cycle(plan)|
    ensures Uses(plan, 0, n, k) == Count(Cycle(plan)[..n], k)
  {
    if n != 0 {
      FirstCycle(plan, n - 1, k);
      assert Cycle(plan)[..n][..n - 1] == Cycle(plan)[..n - 1];
      SmallModulus(n - 1, |Cycle(plan)|);
    }
  }

  lemma SmallModulus(n: nat, m: nat)
    requires n < m
    ensures n % m == n
  {
  }

  lemma {:induction false} UsesFromFirst(plan: Plan, start: nat, n: nat, k: nat)
    requires plan.WellFormed()
    ensures Uses(plan, start, n + 1, k)
         == (if PositionFor(plan, start) == k then 1 else 0) + Uses(plan, start + 1, n, k)
  {
    if n != 0 {
      UsesFromFirst(plan, start, n - 1, k);
    }
  }

  lemma SamePlaceInCycle(plan: Plan, index: nat)
    requires plan.WellFormed()
    ensures PositionFor(plan, index + |Cycle(plan)|) == PositionFor(plan, index)
  {
    CycleIsLong(plan.worlds, |plan.worlds|);
    ShiftByModulus(index, |Cycle(plan)|);
  }

  lemma ShiftByModulus(n: nat, m: nat)
    requires 0 < m
    ensures (n + m) % m == n % m
  {
    var q, r := n / m, n % m;
    assert n + m == (q + 1) * m + r;
    UniqueRemainder(n + m, m, q + 1, r);
  }

  lemma UniqueRemainder(n: nat, m: nat, q: int, r: nat)
    requires 0 < m && r < m && n == q * m + r
    ensures n % m == r
  {
    var d := n / m - q;
    assert d * m == (n / m) * m - q * m && (-d) * m == q * m - (n / m) * m;
    if d > 0 {
      Grows(d, m);
    } else if d < 0 {
      Grows(-d, m);
    }
  }

  lemma Grows(d: nat, m: nat)
    requires 0 < d
    ensures m <= d * m
  {
  }

  /** In any run of one cycle length, wherever it starts, each template is used exactly as often as
      its weight says. */
  lemma {:induction false} WeightsAreExact(plan: Plan, start: nat, k: nat)
    requires plan.WellFormed() && k < |plan.worlds|
    ensures Uses(plan, start, |Cycle(plan)|, k) == plan.worlds[k].weight
  {
    var length := |Cycle(plan)|;
    CycleIsLong(plan.worlds, |plan.worlds|);
    if start == 0 {
      FirstCycle(plan, length, k);
      assert Cycle(plan)[..length] == Cycle(plan);
      CountCycle(plan.worlds, |plan.worlds|, k);
    } else {
      WeightsAreExact(plan, start - 1, k);
      UsesFromFirst(plan, start - 1, length - 1, k);
      SamePlaceInCycle(plan, start - 1);
    }
  }

  // ----- world seeds

  const MODULUS: int := 2147483647
  const BASE_FACTOR: int := 1000003
  const INDEX_FACTOR: int := 7919

  /** The inverse of the index factor: 7919 * 786425379 == 2900 * 2147483647 + 1. */
  const INVERSE: int := 786425379

  function WorldSeed(base: int, index: int): int { (base * BASE_FACTOR + index * INDEX_FACTOR) % MODULUS }

  /** Recovers a world's index, up to the modulus, from its seed. */
  function IndexOf(base: int, seed: int): int { ((seed - base * BASE_FACTOR) * INVERSE) % MODULUS }

  lemma ModuloOf(n: int, q: int, r: int)
    requires n == q * MODULUS + r && 0 <= r < MODULUS
    ensures n % MODULUS == r
  {
  }

  /** A seed determines its index up to the modulus: the derivation can be inverted. */
  lemma SeedDeterminesIndex(base: int, index: int)
    ensures IndexOf(base, WorldSeed(base, index)) == index % MODULUS
  {
    var n := base * BASE_FACTOR + index * INDEX_FACTOR;
    var q := n / MODULUS;
    var seed := WorldSeed(base, index);
    assert n == q * MODULUS + seed;
    var shifted := (seed - base * BASE_FACTOR) * INVERSE;
    assert seed - base * BASE_FACTOR == index * INDEX_FACTOR - q * MODULUS;
    assert shifted == index * (INDEX_FACTOR * INVERSE) - q * MODULUS * INVERSE;
    assert INDEX_FACTOR * INVERSE == 2900 * MODULUS + 1;
    var p := 2900 * index - q * INVERSE + index / MODULUS;
    assert index == (index / MODULUS) * MODULUS + index % MODULUS;
    assert shifted == p * MODULUS + index % MODULUS;
    ModuloOf(shifted, p, index % MODULUS);
  }

  lemma CloseIndicesDiffer(i: int, j: int)
    requires i < j < i + MODULUS
    ensures i % MODULUS != j % MODULUS
  {
  }

  /** Seeds of worlds less than the modulus apart are distinct, whatever the base seed. */
  lemma SeedsAreDistinct(base: int, i: int, j: int)
    requires i < j < i + MODULUS
    ensures WorldSeed(base, i) != WorldSeed(base, j)
  {
    SeedDeterminesIndex(base, i);
    SeedDeterminesIndex(base, j);
    CloseIndicesDiffer(i, j);
  }

  /** The inverse of the base factor: 1000003 * 1523789695 == 709572 * 2147483647 + 1. */
  const BASE_INVERSE: int := 1523789695

  /** Recovers the base seed, up to the modulus, from a world's seed. */
  function BaseOf(index: int, seed: int): int { ((seed - index * INDEX_FACTOR) * BASE_INVERSE) % MODULUS }

  lemma SeedDeterminesBase(base: int, index: int)
    ensures BaseOf(index, WorldSeed(base, index)) == base % MODULUS
  {
    var n := base * BASE_FACTOR + index * INDEX_FACTOR;
    var q := n / MODULUS;
    var seed := WorldSeed(base, index);
    assert n == q * MODULUS + seed;
    var shifted := (seed - index * INDEX_FACTOR) * BASE_INVERSE;
    assert seed - index * INDEX_FACTOR == base * BASE_FACTOR - q * MODULUS;
    assert shifted == base * (BASE_FACTOR * BASE_INVERSE) - q * MODULUS * BASE_INVERSE;
    assert BASE_FACTOR * BASE_INVERSE == 709572 * MODULUS + 1;
    var p := 709572 * base - q * BASE_INVERSE + base / MODULUS;
    assert base == (base / MODULUS) * MODULUS + base % MODULUS;
    assert shifted == p * MODULUS + base % MODULUS;
    ModuloOf(shifted, p, base % MODULUS);
  }

  /** Campaigns whose base seeds are less than the modulus apart share no world's seed at any index. */
  lemma CampaignsDiffer(a: int, b: int, index: int)
    requires a < b < a + MODULUS
    ensures WorldSeed(a, index) != WorldSeed(b, index)
  {
    SeedDeterminesBase(a, index);
    SeedDeterminesBase(b, index);
    CloseIndicesDiffer(a, b);
  }

  // ----- the default plan and the rule it replaced

  function PublicWorld(family: string, ecology: string, partition: Partition): Template {
    Template(family, ecology, PublicEval, partition, 1)
  }

  const FAMILIAR_FAMILY := "gjr"
  const STOCHASTIC_VOL := "stochastic-vol"
  const REGIME_JUMP := "regime-jump"
  const FAMILIAR_ECOLOGY := "familiar"
  const DISTRIBUTION_ECOLOGY := "distribution"

  const DEFAULT_PLAN: Plan := Plan([
    PublicWorld(FAMILIAR_FAMILY, FAMILIAR_ECOLOGY, Familiar),
    PublicWorld(FAMILIAR_FAMILY, DISTRIBUTION_ECOLOGY, Distribution),
    PublicWorld(STOCHASTIC_VOL, DISTRIBUTION_ECOLOGY, Mechanism),
    PublicWorld(FAMILIAR_FAMILY, FAMILIAR_ECOLOGY, Familiar),
    PublicWorld(FAMILIAR_FAMILY, DISTRIBUTION_ECOLOGY, Distribution),
    PublicWorld(REGIME_JUMP, DISTRIBUTION_ECOLOGY, Mechanism)])

  /** Partition by remainder of three; the held-out families take turns every three worlds. */
  function OldRule(index: nat): Template {
    if index % 3 == 0 then PublicWorld(FAMILIAR_FAMILY, FAMILIAR_ECOLOGY, Familiar)
    else if index % 3 == 1 then PublicWorld(FAMILIAR_FAMILY, DISTRIBUTION_ECOLOGY, Distribution)
    else PublicWorld(if (index / 3) % 2 == 0 then STOCHASTIC_VOL else REGIME_JUMP, DISTRIBUTION_ECOLOGY, Mechanism)
  }

  lemma {:induction false} UnitWeightCycle(worlds: seq<Template>, n: nat)
    requires n <= |worlds| && forall i :: 0 <= i < |worlds| ==> worlds[i].weight == 1
    ensures |CycleTo(worlds, n)| == n && forall i :: 0 <= i < n ==> CycleTo(worlds, n)[i] == i
  {
    if n != 0 {
      UnitWeightCycle(worlds, n - 1);
      CountRepeated(n - 1, 1, 0);
    }
  }

  /** The explicit six-template cycle is the old rule, for every world. */
  lemma DefaultPlanIsOldRule(index: nat)
    ensures DEFAULT_PLAN.WellFormed() && TemplateFor(DEFAULT_PLAN, index) == OldRule(index)
  {
    UnitWeightCycle(DEFAULT_PLAN.worlds, 6);
    assert PositionFor(DEFAULT_PLAN, index) == index % 6;
    assert index % 3 == (index % 6) % 3 && (index / 3) % 2 == (index % 6) / 3;
  }

  // ----- the split matrix and whole-plan validation

  datatype Refusal = BadSplit | UnknownFamily | UnknownEcology | NoWorlds

  datatype Registry = Registry(visibility: map<string, Visibility>, ecologies: set<string>)

  /** Which uses of which families are legal. */
  predicate Legal(visibility: Visibility, template: Template) {
    match template.split
    case Trainable => visibility == Public && template.partition == Training
    case PublicEval => visibility == Public && template.partition != Training
    case SealedEval => visibility == EvaluatorPrivate && template.partition != Training
  }

  /** The matrix is that a world is trainable exactly when it runs the training partition and sealed
      exactly when its family is evaluator-private: each family and partition has one legal split,
      and the training partition of a private family none. */
  lemma MatrixSeparates(visibility: Visibility, template: Template)
    ensures Legal(visibility, template)
       <==> (template.split == Trainable <==> template.partition == Training)
            && (template.split == SealedEval <==> visibility == EvaluatorPrivate)
  {
  }

  datatype World = World(index: nat, seed: int, template: Template, visibility: Visibility)

  predicate PlanValid(plan: Plan, registry: Registry) {
    forall i :: 0 <= i < |plan.worlds| ==>
      && plan.worlds[i].family in registry.visibility
      && Legal(registry.visibility[plan.worlds[i].family], plan.worlds[i])
      && plan.worlds[i].ecology in registry.ecologies
  }

  predicate KnownFamily(registry: Registry, template: Template) { template.family in registry.visibility }

  predicate RightSplit(registry: Registry, template: Template) {
    KnownFamily(registry, template) ==> Legal(registry.visibility[template.family], template)
  }

  /** Checks every template, not just those the requested worlds use; a refusal names what is wrong
      with one of them, ecologies last. */
  method ValidatePlan(plan: Plan, registry: Registry) returns (refusal: Option<Refusal>)
    ensures refusal.None? <==> PlanValid(plan, registry)
    ensures refusal.None? || refusal.value in [UnknownFamily, BadSplit, UnknownEcology]
    ensures refusal == Some(UnknownFamily) ==> exists t :: t in plan.worlds && !KnownFamily(registry, t)
    ensures refusal == Some(BadSplit) ==> exists t :: t in plan.worlds && !RightSplit(registry, t)
    ensures refusal == Some(UnknownEcology) ==>
              && (exists t :: t in plan.worlds && t.ecology !in registry.ecologies)
              && (forall t :: t in plan.worlds ==> KnownFamily(registry, t) && RightSplit(registry, t))
  {
    for i := 0 to |plan.worlds|
      invariant forall j :: 0 <= j < i ==>
                  && plan.worlds[j].family in registry.visibility
                  && Legal(registry.visibility[plan.worlds[j].family], plan.worlds[j])
    {
      var template := plan.worlds[i];
      assert template in plan.worlds;
      if !KnownFamily(registry, template) { return Some(UnknownFamily); }
      if !RightSplit(registry, template) { return Some(BadSplit); }
    }
    for i := 0 to |plan.worlds|
      invariant forall j :: 0 <= j < i ==> plan.worlds[j].ecology in registry.ecologies
    {
      if plan.worlds[i].ecology !in registry.ecologies { return Some(UnknownEcology); }
    }
    refusal := None;
  }

  /** Resolves the first `count` worlds, all or none. Whatever is returned respects the split
      matrix, carries its template's declaration, and has a seed no other world of it has. */
  method PlanWorlds(plan: Plan, registry: Registry, count: nat, base: int)
    returns (worlds: Option<seq<World>>)
    requires plan.WellFormed()
    ensures worlds.Some? <==> 1 <= count && PlanValid(plan, registry)
    ensures worlds.Some? ==>
              && |worlds.value| == count
              && (forall i :: 0 <= i < count ==>
                    && worlds.value[i].index == i && worlds.value[i].template == TemplateFor(plan, i)
                    && worlds.value[i].seed == WorldSeed(base, i)
                    && Legal(worlds.value[i].visibility, worlds.value[i].template))
              && (count <= MODULUS ==>
                    forall i, j :: 0 <= i < j < count ==> worlds.value[i].seed != worlds.value[j].seed)
  {
    if count < 1 { return None; }
    var refusal := ValidatePlan(plan, registry);
    if refusal.Some? { return None; }
    var built: seq<World> := [];
    for i := 0 to count
      invariant |built| == i
      invariant forall j :: 0 <= j < i ==>
                  && built[j].index == j && built[j].template == TemplateFor(plan, j)
                  && built[j].seed == WorldSeed(base, j) && Legal(built[j].visibility, built[j].template)
    {
      var template := TemplateFor(plan, i);
      built := built + [World(i, WorldSeed(base, i), template, registry.visibility[template.family])];
    }
    if count <= MODULUS {
      forall i, j | 0 <= i < j < count
        ensures built[i].seed != built[j].seed
      {
        SeedsAreDistinct(base, i, j);
      }
    }
    worlds := Some(built);
  }

  /** The cycle lists the templates in the plan's order, each as often as it weighs. */
  lemma {:induction false} CycleIsInOrder(worlds: seq<Template>, n: nat)
    requires n <= |worlds|
    ensures forall i, j :: 0 <= i < j < |CycleTo(worlds, n)| ==> CycleTo(worlds, n)[i] <= CycleTo(worlds, n)[j]
    ensures forall i :: 0 <= i < |CycleTo(worlds, n)| ==> CycleTo(worlds, n)[i] < n
  {
    if n != 0 {
      CycleIsInOrder(worlds, n - 1);
      RepeatedIs(n - 1, worlds[n - 1].weight);
    }
  }

  lemma {:induction false} RepeatedIs(position: nat, times: nat)
    ensures forall i :: 0 <= i < |Repeated(position, times)| ==> Repeated(position, times)[i] == position
  {
    if times != 0 {
      RepeatedIs(position, times - 1);
    }
  }
}
