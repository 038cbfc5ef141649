/** The tutorial's defective strategy: it sizes from stale volume, and oversteps its cap only
    as far as the market has thinned since. */
module FragilePov {
  import opened PovHarness

  // ----- the pipeline: at most one slice comes due at a step

  /** One slice per step of the last latency, in order; the fragile strategy's are each within the
      share of what it believed at the time. */
  predicate Pipelined(s: Setup, pending: seq<Slice>, t: nat)
    requires 1 <= s.latency
  {
    && |pending| == (if t < s.latency then t else s.latency)
    && forall i :: 0 <= i < |pending| ==>
         && pending[i].due == t - |pending| + i + s.latency
         && (s.fragile ==> pending[i].amount <= Max(0.0, Share(s, s.calm(t - |pending| + i))))
  }

  lemma {:induction false} NothingDueYet(pending: seq<Slice>, t: nat)
    requires forall i :: 0 <= i < |pending| ==> t < pending[i].due
    ensures DueBy(pending, t) == [] && StillPending(pending, t) == pending
  {
    if pending != [] {
      NothingDueYet(pending[1..], t);
    }
  }

  lemma OneDue(s: Setup, pending: seq<Slice>, t: nat)
    requires 1 <= s.latency && Pipelined(s, pending, t)
    ensures if t < s.latency then DueBy(pending, t) == [] && StillPending(pending, t) == pending
            else DueBy(pending, t) == [pending[0]] && StillPending(pending, t) == pending[1..]
  {
    if t < s.latency {
      NothingDueYet(pending, t);
    } else {
      NothingDueYet(pending[1..], t);
    }
  }

  lemma PipelineNext(s: Setup, pending: seq<Slice>, t: nat, target: real)
    requires 1 <= s.latency && Pipelined(s, pending, t)
    requires s.fragile ==> target <= Max(0.0, Share(s, s.calm(t)))
    ensures Pipelined(s, StillPending(pending, t) + [Slice(t + s.latency, target)], t + 1)
  {
    OneDue(s, pending, t);
    var rest := if t < s.latency then pending else pending[1..];
    var next := rest + [Slice(t + s.latency, target)];
    assert |next| == if t + 1 < s.latency then t + 1 else s.latency;
    forall i | 0 <= i < |next|
      ensures next[i].due == t + 1 - |next| + i + s.latency
      ensures s.fragile ==> next[i].amount <= Max(0.0, Share(s, s.calm(t + 1 - |next| + i)))
    {
      if i < |rest| {
        var j := if t < s.latency then i else i + 1;
        assert next[i] == pending[j];
      }
    }
  }

  lemma TargetWithinBelief(s: Setup, b: Books, t: nat)
    requires s.fragile
    ensures TargetAt(s, b, t) <= Max(0.0, Share(s, s.calm(t)))
  {
  }

  lemma {:induction false} StaysPipelined(s: Setup, steps: nat)
    requires 1 <= s.latency
    ensures Pipelined(s, After(s, steps).pending, steps)
  {
    if steps != 0 {
      var b, t := After(s, steps - 1), steps - 1;
      StaysPipelined(s, t);
      if s.fragile { TargetWithinBelief(s, b, t); }
      PipelineNext(s, b.pending, t, TargetAt(s, b, t));
    }
  }

  /** The fragile strategy fills at most the share of what it believed one latency ago. */
  lemma FragileFill(s: Setup, b: Books, t: nat)
    requires 1 <= s.latency && s.fragile && Pipelined(s, b.pending, t)
    ensures FillAt(s, b, t) <= if t < s.latency then 0.0 else Max(0.0, Share(s, s.calm(t - s.latency)))
  {
    OneDue(s, b.pending, t);
    FillBounds(s, b, t);
    if t >= s.latency {
      assert Total([b.pending[0]]) == b.pending[0].amount + Total([]) by { assert [b.pending[0]][1..] == []; }
    }
  }

  /** Each belief's share is within `worst` of the volume it is filled in. */
  ghost predicate BeliefsWithin(s: Setup, worst: real) {
    forall t: nat :: s.latency <= t ==> Share(s, s.calm(t - s.latency)) <= Portion(worst, s.volume(t))
  }

  function Portion(rate: real, volume: real): real { rate * volume }

  lemma FragileRatio(fill: real, belief: real, worst: real, volume: real)
    requires 0.0 <= worst && 0.0 < volume && fill <= Max(0.0, belief) && belief <= Portion(worst, volume)
    ensures Ratio(fill, volume) <= worst
  {
    Product(worst, volume);
    QuotientBound(fill, volume, worst);
  }

  lemma FragileStep(s: Setup, b: Books, worst: real, t: nat)
    requires s.WellFormed() && s.fragile && 0.0 <= worst && BeliefsWithin(s, worst) && Pipelined(s, b.pending, t)
    ensures Ratio(FillAt(s, b, t), s.volume(t)) <= worst
  {
    FragileFill(s, b, t);
    if t < s.latency {
      Product(worst, s.volume(t));
      FragileRatio(FillAt(s, b, t), 0.0, worst, s.volume(t));
    } else {
      FragileRatio(FillAt(s, b, t), Share(s, s.calm(t - s.latency)), worst, s.volume(t));
    }
  }

  /** The fragile strategy's participation is bounded by how far the market has shrunk since the
      volume it sized from. */
  lemma {:induction false} FragileOvershoot(s: Setup, worst: real, steps: nat)
    requires s.WellFormed() && s.fragile && 0.0 <= worst && BeliefsWithin(s, worst)
    ensures MaxParticipation(s, steps) <= worst
  {
    if steps != 0 {
      FragileOvershoot(s, worst, steps - 1);
      StaysPipelined(s, steps - 1);
      FragileStep(s, After(s, steps - 1), worst, steps - 1);
    }
  }

  // ----- in the harness's own scenarios

  lemma ThinnedScenario(sc: Scenario, seed: nat, t: nat)
    ensures 0.75 * CalmVolume(sc, seed) <= ScenarioVolume(sc, seed, t)
    ensures sc.forcedSeller == 0.0 ==> CalmVolume(sc, seed) == ScenarioVolume(sc, seed, t)
  {
    var x := BaseVolume(seed) * sc.liquidity;
    assert BaseVolume(seed) * (sc.liquidity * 0.75) == 0.75 * x;
    assert BaseVolume(seed) * (sc.liquidity * 1.0) == x;
  }

  lemma Thinned(cap: real, calm: real, volume: real)
    requires 0.0 <= cap && 0.75 * calm <= volume
    ensures cap * calm <= (cap / 0.75) * volume
  {
    var c := cap / 0.75;
    assert cap * calm == c * (0.75 * calm);
    Scales(0.75 * calm, volume, c);
  }

  lemma ScenarioBeliefs(st: Strategy, sc: Scenario, seed: nat)
    requires 0.0 <= st.maxParticipation
    ensures var s := SetupFor(st, sc, seed);
            && BeliefsWithin(s, s.cap / 0.75)
            && (sc.forcedSeller == 0.0 ==> BeliefsWithin(s, s.cap))
  {
    var s := SetupFor(st, sc, seed);
    forall t: nat | s.latency <= t
      ensures Share(s, s.calm(t - s.latency)) <= Portion(s.cap / 0.75, s.volume(t))
      ensures sc.forcedSeller == 0.0 ==> Share(s, s.calm(t - s.latency)) <= Portion(s.cap, s.volume(t))
    {
      ThinnedScenario(sc, seed, t);
      Thinned(s.cap, CalmVolume(sc, seed), ScenarioVolume(sc, seed, t));
    }
  }

  /** In any scenario the fragile strategy oversteps its cap by at most a third, and without forced
      selling it does not overstep it at all. */
  lemma FragileInScenario(st: Strategy, sc: Scenario, seed: nat, steps: nat)
    requires st.fragile && 0.0 < st.quantity && 0.0 <= st.maxParticipation
    ensures var s := SetupFor(st, sc, seed);
            && MaxParticipation(s, steps) <= s.cap / 0.75
            && (sc.forcedSeller == 0.0 ==> MaxParticipation(s, steps) <= s.cap)
  {
    var s := SetupFor(st, sc, seed);
    ScenariosAreWellFormed(st, sc, seed);
    ScenarioBeliefs(st, sc, seed);
    FragileOvershoot(s, s.cap / 0.75, steps);
    if sc.forcedSeller == 0.0 {
      FragileOvershoot(s, s.cap, steps);
    }
  }
}
