/** The path without buffers against the buffered one, and what the buffers hold. */
module IvonFastPath {
  import opened IvonModel
  import opened IvonRuns
  import opened Wrappers

  // ---------- the fast path refines the buffered path ----------

  function Buffered(c: Config): Config {
    c.(single := false)
  }

  /** No sample is pending. */
  ghost predicate Fresh(c: Config, s: State) {
    && Shaped(c, s) && !s.noised && s.count == 0
    && s.avgGrad.None? && s.avgNxg.None? && s.avgGsq.None? && s.holes == {}
  }

  lemma {:induction false} SameHyper(c: Config, i: nat)
    requires i < Numel(c)
    ensures HyperAt(Buffered(c), i) == HyperAt(c, i)
  {
  }

  lemma {:induction false} SameRaw(c: Config, slots: seq<Slot>, st: nat)
    ensures Raw(Buffered(c), slots, st) == Raw(c, slots, st)
  {
    if slots != [] {
      SameRaw(c, slots[..|slots| - 1], st);
    }
  }

  lemma {:induction false} SameNoise(c: Config, hess: seq<real>, st: nat)
    requires |hess| == Numel(c)
    ensures Noise(Buffered(c), hess, st) == Noise(c, hess, st)
  {
    SameRaw(c, Slots(c.groups), st);
    var b := Buffered(c);
    var z := Raw(c, Slots(c.groups), st).0;
    forall i | 0 <= i < Numel(c)
      ensures NoiseAt(b, HyperAt(b, i), hess[i], z[i]) == NoiseAt(c, HyperAt(c, i), hess[i], z[i])
    {
      SameHyper(c, i);
      SameNoiseAt(c, HyperAt(c, i), hess[i], z[i]);
    }
  }

  lemma {:induction false} SameNoiseAt(c: Config, hp: Group, h: real, z: real)
    ensures NoiseAt(Buffered(c), hp, h, z) == NoiseAt(c, hp, h, z)
  {
    assert Buffered(c).sqrt == c.sqrt;
  }

  lemma {:induction false} SameStep(c: Config, s: State, x: Statistics)
    requires Shaped(c, s) && SizedStatistics(c, x)
    ensures Update(Buffered(c), s, x) == Update(c, s, x)
  {
    var b := Buffered(c);
    forall i | 0 <= i < Numel(c)
      ensures HyperAt(b, i) == HyperAt(c, i)
    {
      SameHyper(c, i);
    }
    hide HyperAt, Pow, NewMomentum, Clamp, LrEff, Curvature;
    assert Momenta(b, s, x.g) == Momenta(c, s, x.g);
    forall i | 0 <= i < Numel(c)
      ensures NewHess(b, HyperAt(c, i), s.hess[i], x.nxg[i], x.gsq[i])
           == NewHess(c, HyperAt(c, i), s.hess[i], x.nxg[i], x.gsq[i])
    {
      SameCurvature(c, HyperAt(c, i), s.hess[i], x.nxg[i], x.gsq[i]);
    }
    assert Hessians(b, s, x.nxg, x.gsq) == Hessians(c, s, x.nxg, x.gsq);
    var m, h := Momenta(c, s, x.g), Hessians(c, s, x.nxg, x.gsq);
    forall i | 0 <= i < Numel(c)
      ensures NewParam(b, HyperAt(c, i), s.step + 1, s.theta[i], m[i], h[i])
           == NewParam(c, HyperAt(c, i), s.step + 1, s.theta[i], m[i], h[i])
    {
      SameRate(c, HyperAt(c, i), s.step + 1);
    }
    assert Params(b, s, s.step + 1, m, h) == Params(c, s, s.step + 1, m, h);
    forall i | 0 <= i < Numel(c)
      ensures Debias(b, HyperAt(c, i), s.step + 1) == Debias(c, HyperAt(c, i), s.step + 1)
    {
      SameRate(c, HyperAt(c, i), s.step + 1);
    }
    assert ZeroDivisors(b, s.step + 1) == ZeroDivisors(c, s.step + 1);
  }

  lemma {:induction false} SameCurvature(c: Config, hp: Group, h: real, nxg: real, gsq: real)
    ensures NewHess(Buffered(c), hp, h, nxg, gsq) == NewHess(c, hp, h, nxg, gsq)
  {
  }

  lemma {:induction false} SameRate(c: Config, hp: Group, t: nat)
    ensures Debias(Buffered(c), hp, t) == Debias(c, hp, t) && LrEff(Buffered(c), hp) == LrEff(c, hp)
  {
  }

  /** With a single sample the running mean is the sample. */
  lemma {:induction false} FirstSample(x: seq<real>)
    ensures Welford(Zeros(|x|), x, 1) == x
  {
  }

  /**
   One training step of the single-sample path, which keeps no statistics and regenerates the
   noise, gives exactly the state of the buffered path: parameters, momentum, Hessian, generator.
   */
  lemma {:induction false} FastTrainingStep(c: Config, s: State, grads: Grads)
    requires c.single && Fresh(c, s) && Holes(c, grads) == {}
    ensures TrainingStep(c, s, grads, true) == TrainingStep(Buffered(c), s, grads, true)
    ensures TrainingStep(c, s, grads, true).0.None? && Fresh(c, TrainingStep(c, s, grads, true).1)
  {
    var b := Buffered(c);
    hide Noise, Raw, Slots, Plus, Minus, Welford, Mul, Flat, Momenta, Hessians, Params, Zeros, HolesIn, ZeroDivisors;
    SampleRestore(c, s, true, grads);
    SampleRestore(b, s, true, grads);
    var noise, g := Noise(c, s.hess, s.generator), Grad(c, grads);
    SameNoise(c, s.hess, s.generator);
    SameRaw(c, Slots(c.groups), s.generator);
    FirstSample(g);
    FirstSample(Mul(noise, g));
    FirstSample(Mul(g, g));
    var s1, s2 := Restore(c, Sample(c, s), true, grads).1, Restore(b, Sample(b, s), true, grads).1;
    assert s1.holes == {} && s2.holes == {};
    assert Found(b, s2, grads) == Found(c, s1, grads);
    var x := Found(c, s1, grads).value;
    SameUpdate(c, s, s1, x);
    SameUpdate(b, s, s2, x);
    SameStep(c, s, x);
  }

  /** Over whole runs with evaluations in between the two paths agree as long as no step is skipped. */
  lemma {:induction false} FastPathRefinesBuffered(c: Config, s: State, events: seq<Event>)
    requires c.single && Fresh(c, s)
    requires forall j :: 0 <= j < |events| ==> events[j].Train? ==> Steps(c, events[j])
    ensures Run(c, s, events) == Run(Buffered(c), s, events)
    decreases |events|
  {
    if events != [] {
      FastEvent(c, s, events[0]);
      hide Do, Fresh, Steps;
      assert forall j :: 0 <= j < |events| - 1 ==> events[1..][j] == events[j + 1];
      FastPathRefinesBuffered(c, Do(c, s, events[0]).1, events[1..]);
    }
  }

  lemma {:induction false} FastEvent(c: Config, s: State, e: Event)
    requires c.single && Fresh(c, s) && (e.Train? ==> Steps(c, e))
    ensures Do(c, s, e) == Do(Buffered(c), s, e)
    ensures Do(c, s, e).0.None? && Fresh(c, Do(c, s, e).1)
  {
    hide TrainingStep, Evaluation;
    match e {
      case Train(grads, _) => FastTrainingStep(c, s, grads);
      case Evaluate => FastEvaluation(c, s);
    }
  }

  lemma {:induction false} FastEvaluation(c: Config, s: State)
    requires c.single && Fresh(c, s)
    ensures Evaluation(c, s) == Evaluation(Buffered(c), s)
    ensures Evaluation(c, s).0.None? && Fresh(c, Evaluation(c, s).1)
  {
    hide Noise, Raw, Slots, Plus, Minus, Welford, Mul, Flat;
    SampleRestore(c, s, false, []);
    SampleRestore(Buffered(c), s, false, []);
    SameRaw(c, Slots(c.groups), s.generator);
  }

  // ---------- the accumulators are exact means ----------

  /** Skipped training steps and evaluations only. */
  ghost predicate Idle(c: Config, events: seq<Event>) {
    forall j :: 0 <= j < |events| ==> !Steps(c, events[j])
  }

  /** The generator state after j passes over the parameters. */
  function GeneratorAt(c: Config, st: nat, j: nat): nat {
    if j == 0 then st else Raw(c, Slots(c.groups), GeneratorAt(c, st, j - 1)).1
  }

  /** The samples that the training steps among the events take, while the Hessian stays the same. */
  function Samples(c: Config, hess: seq<real>, st: nat, events: seq<Event>): (xs: seq<Statistics>)
    requires |hess| == Numel(c)
  {
    if events == [] then []
    else
      var last := |events| - 1;
      Samples(c, hess, st, events[..last])
        + if events[last].Train? then [Stats(c, hess, GeneratorAt(c, st, last), events[last].grads)] else []
  }

  function Gradients(c: Config, events: seq<Event>): seq<seq<real>> {
    if events == [] then []
    else
      var last := |events| - 1;
      Gradients(c, events[..last]) + if events[last].Train? then [Grad(c, events[last].grads)] else []
  }

  lemma {:induction false} SamplesGradients(c: Config, hess: seq<real>, st: nat, events: seq<Event>)
    requires |hess| == Numel(c)
    ensures Gs(Samples(c, hess, st, events)) == Gradients(c, events)
  {
    hide Noise, Mul, Flat, Zeros;
    if events != [] {
      var last := |events| - 1;
      SamplesGradients(c, hess, st, events[..last]);
      if events[last].Train? {
        Appended(Samples(c, hess, st, events[..last]), Stats(c, hess, GeneratorAt(c, st, last), events[last].grads));
      } else {
        assert Samples(c, hess, st, events) == Samples(c, hess, st, events[..last]);
        assert Gradients(c, events) == Gradients(c, events[..last]);
      }
    }
  }

  predicate Spoiled(c: Config, events: seq<Event>, i: nat) {
    exists j :: 0 <= j < |events| && Spoils(c, events[j], i)
  }

  lemma {:induction false} SamplesHoles(c: Config, hess: seq<real>, st: nat, events: seq<Event>)
    requires |hess| == Numel(c)
    ensures forall i :: i in AllHoles(Samples(c, hess, st, events)) <==> Spoiled(c, events, i)
  {
    hide Noise, Mul, Flat, Zeros, Slots, Total, HolesIn;
    if events != [] {
      var last := |events| - 1;
      SamplesHoles(c, hess, st, events[..last]);
      var before := Samples(c, hess, st, events[..last]);
      if events[last].Train? {
        Appended(before, Stats(c, hess, GeneratorAt(c, st, last), events[last].grads));
      } else {
        assert Samples(c, hess, st, events) == before;
      }
      forall i
        ensures Spoiled(c, events, i) <==> Spoiled(c, events[..last], i) || Spoils(c, events[last], i)
      {
        SpoiledLast(c, events, i);
      }
    }
  }

  lemma {:induction false} SpoiledLast(c: Config, events: seq<Event>, i: nat)
    requires events != []
    ensures var last := |events| - 1;
            Spoiled(c, events, i) <==> Spoiled(c, events[..last], i) || Spoils(c, events[last], i)
  {
    hide Spoils;
    var last := |events| - 1;
    assert forall j :: 0 <= j < last ==> events[..last][j] == events[j];
  }

  lemma {:induction false} RunAppend(c: Config, s: State, events: seq<Event>, e: Event)
    requires Shaped(c, s) && Run(c, s, events).0.None?
    ensures Run(c, s, events + [e]) == Do(c, Run(c, s, events).1, e)
    decreases |events|
  {
    hide Do;
    var all := events + [e];
    if events == [] {
      assert all == [e] && [e][1..] == [];
      var d := Do(c, s, e);
      assert Run(c, d.1, []) == (None, d.1);
      assert Run(c, s, [e]) == if d.0.Some? then d else (None, d.1);
    } else {
      assert all[0] == events[0] && all[1..] == events[1..] + [e];
      RunAppend(c, Do(c, s, events[0]).1, events[1..], e);
    }
  }

  /**
   After any number of samples without a step the accumulators hold the exact means of gradient,
   noise * gradient and gradient^2, each noise vector being the one its sample was taken with;
   nothing else has changed but the generator.
   */
  lemma {:induction false} BuffersAreMeans(c: Config, s: State, events: seq<Event>)
    requires Fresh(c, s) && Idle(c, events)
    ensures var (error, r) := Run(c, s, events);
            && error.None? && AtRest(c, r)
            && Pending(c, r, if c.single then [] else Samples(c, s.hess, s.generator, events))
            && SameCore(s, r)
            && r.generator == GeneratorAt(c, s.generator, |events|)
    decreases |events|
  {
    hide Do, Raw, Slots, Total, Stats, MeanOf, Gs, Nxgs, Gsqs, NormFinite;
    if events != [] {
      var last := |events| - 1;
      var before, e := events[..last], events[last];
      var xs := if c.single then [] else Samples(c, s.hess, s.generator, before);
      BuffersAreMeans(c, s, before);
      assert before + [e] == events && !Steps(c, e);
      RunAppend(c, s, before, e);
      EventEffect(c, Run(c, s, before).1, xs, e);
      hide Pending, Run;
      if !c.single && !e.Train? {
        assert Samples(c, s.hess, s.generator, events) == xs;
      }
    }
  }

  /** The samples a step after idle events averages. */
  function PoolOf(c: Config, s: State, idle: seq<Event>, used: Grads): (xs: seq<Statistics>)
    requires Shaped(c, s)
    ensures xs != []
  {
    Pool(c, if c.single then [] else Samples(c, s.hess, s.generator, idle), LastSample(c, s, idle, used))
  }

  function LastSample(c: Config, s: State, idle: seq<Event>, used: Grads): Statistics
    requires Shaped(c, s)
  {
    Stats(c, s.hess, GeneratorAt(c, s.generator, |idle|), used)
  }

  /**
   A step updates parameters, momentum and Hessian from the means over all samples since the last
   step; in the fast path, from the last sample.
   */
  lemma {:induction false} StepUsesMean(c: Config, s: State, idle: seq<Event>, used: Grads)
    requires Fresh(c, s) && Idle(c, idle) && Steps(c, Train(used, true))
    ensures var (error, r) := Run(c, s, idle + [Train(used, true)]);
            && error.None? && Fresh(c, r)
            && r == Update(c, s, MeanStats(c, PoolOf(c, s, idle, used)))
                    .(generator := GeneratorAt(c, s.generator, |idle| + 1))
  {
    hide Do, Raw, Slots, Total, Stats, MeanOf, Gs, Nxgs, Gsqs, Run, Momenta, Hessians, Params, NormFinite, AllHoles,
         ZeroDivisors;
    NoHoles();
    BuffersAreMeans(c, s, idle);
    var s1 := Run(c, s, idle).1;
    var xs := if c.single then [] else Samples(c, s.hess, s.generator, idle);
    RunAppend(c, s, idle, Train(used, true));
    EventEffect(c, s1, xs, Train(used, true));
    hide Pending;
    SameUpdate(c, s, s1, MeanStats(c, PoolOf(c, s, idle, used)));
  }

  // ---------- skipped steps ----------

  lemma {:induction false} SameGenerator(c: Config, st: nat, j: nat)
    ensures GeneratorAt(Buffered(c), st, j) == GeneratorAt(c, st, j)
  {
    if j > 0 {
      SameGenerator(c, st, j - 1);
      SameRaw(c, Slots(c.groups), GeneratorAt(c, st, j - 1));
    }
  }

  lemma {:induction false} SameStats(c: Config, hess: seq<real>, st: nat, grads: Grads)
    requires |hess| == Numel(c)
    ensures Stats(Buffered(c), hess, st, grads) == Stats(c, hess, st, grads)
  {
    SameNoise(c, hess, st);
    hide Noise, Flat, Mul, Zeros, Slots, Total;
  }

  lemma {:induction false} SameSamples(c: Config, hess: seq<real>, st: nat, events: seq<Event>)
    requires |hess| == Numel(c)
    ensures Samples(Buffered(c), hess, st, events) == Samples(c, hess, st, events)
  {
    hide Stats, Raw, Slots, Total;
    if events != [] {
      var last := |events| - 1;
      SameSamples(c, hess, st, events[..last]);
      SameGenerator(c, st, last);
      if events[last].Train? {
        SameStats(c, hess, GeneratorAt(c, st, last), events[last].grads);
      }
    }
  }

  /** All samples since the last step. */
  function AllSamples(c: Config, s: State, idle: seq<Event>, used: Grads): (xs: seq<Statistics>)
    requires Shaped(c, s)
    ensures xs != []
  {
    Samples(c, s.hess, s.generator, idle) + [LastSample(c, s, idle, used)]
  }

  /**
   After any number of skipped steps and evaluations the fast path updates from the last sample
   alone, the buffered path from the means over all samples since the last step.
   */
  lemma {:induction false} SkippedSamplesCount(c: Config, s: State, idle: seq<Event>, used: Grads)
    requires c.single && Fresh(c, s) && Idle(c, idle) && Steps(c, Train(used, true))
    ensures var events := idle + [Train(used, true)];
            var x, all, st := LastSample(c, s, idle, used), AllSamples(c, s, idle, used),
                              GeneratorAt(c, s.generator, |events|);
            && Run(c, s, events) == (None, Update(c, s, x).(generator := st))
            && Run(Buffered(c), s, events) == (None, Update(c, s, MeanStats(c, all)).(generator := st))
            && Gs(all) == Gradients(c, idle) + [Grad(c, used)]
            && x.holes == {}
            && forall i :: i in AllHoles(all) <==> Spoiled(c, idle, i)
  {
    var b := Buffered(c);
    var x, all := LastSample(c, s, idle, used), AllSamples(c, s, idle, used);
    hide Run, Raw, Slots, Total, Flat, Noise, MeanOf, Gradients, Momenta, Hessians, Params, Zeros, Mul, Samples,
         AllHoles, HolesIn, ZeroDivisors, Spoiled;
    StepUsesMean(c, s, idle, used);
    StepUsesMean(b, s, idle, used);
    SameGenerator(c, s.generator, |idle|);
    SameGenerator(c, s.generator, |idle| + 1);
    SameStats(c, s.hess, GeneratorAt(c, s.generator, |idle|), used);
    SameSamples(c, s.hess, s.generator, idle);
    SamplesGradients(c, s.hess, s.generator, idle);
    MeanStatsOfOne(c, x);
    Appended(Samples(c, s.hess, s.generator, idle), x);
    SamplesHoles(c, s.hess, s.generator, idle);
    SameStep(c, s, MeanStats(c, all));
  }
}
