/** What holds of IVON over whole runs of training steps, skipped steps and evaluations. */
module IvonRuns {
  import opened IvonModel
  import opened Wrappers

  // ---------- sample and restore ----------

  lemma {:induction false} PlusMinus(a: seq<real>, b: seq<real>)
    requires |a| == |b|
    ensures Minus(Plus(a, b), b) == a
  {
  }

  lemma {:induction false} AllocateOnce(c: Config, s: State, noise: seq<real>, g: seq<real>, holes: set<nat>)
    requires Shaped(c, s) && |noise| == Numel(c) && |g| == Numel(c) && s.count > 0
    ensures Accumulate(c, Allocate(c, s), noise, g, holes) == Accumulate(c, s, noise, g, holes)
  {
  }

  /**
   Restoring a sample gives the parameters back exactly and advances the generator by one pass:
   the noise is regenerated from the state it was drawn from, parameter by parameter.
   */
  lemma {:induction false} SampleRestore(c: Config, s: State, train: bool, grads: Grads)
    requires Shaped(c, s) && !s.noised
    ensures var (error, r) := Restore(c, Sample(c, s), train, grads);
            var noise := Noise(c, s.hess, s.generator);
            var drawn := s.(count := (if c.single then 0 else s.count) + (if train then 1 else 0),
                            genState := Some(s.generator),
                            generator := Raw(c, Slots(c.groups), s.generator).1);
            && Sample(c, s).theta == Plus(s.theta, noise)
            && error.None?
            && r == if train && !c.single then Accumulate(c, drawn, noise, Grad(c, grads), Holes(c, grads)) else drawn
  {
    hide Noise, Raw, Slots, Plus, Minus, Welford, Mul, Grad, HolesIn;
    PlusMinus(s.theta, Noise(c, s.hess, s.generator));
    if train && !c.single {
      var noise := Noise(c, s.hess, s.generator);
      AllocateOnce(c, Sample(c, s).(count := s.count + 1), noise, Grad(c, grads), Holes(c, grads));
    }
  }

  /** Between training steps no noise is left, and there are accumulators exactly for the pending samples. */
  ghost predicate AtRest(c: Config, s: State) {
    && Shaped(c, s) && !s.noised
    && s.avgGrad.Some? == (!c.single && s.count > 0)
    && s.avgNxg.Some? == (!c.single && s.count > 0 && UsesNxg(c))
    && s.avgGsq.Some? == (!c.single && s.count > 0 && UsesGsq(c))
    && (s.avgGrad.None? ==> s.holes == {})
  }

  /** An update reads and keeps nothing of the samples but the generator. */
  lemma {:induction false} SameUpdate(c: Config, s: State, s1: State, x: Statistics)
    requires Shaped(c, s) && Shaped(c, s1) && SizedStatistics(c, x)
    requires s1.theta == s.theta && s1.momentum == s.momentum && s1.hess == s.hess && s1.step == s.step
    requires s1.noised == s.noised && s1.lost == s.lost && s1.nan == s.nan
    ensures Update(c, s1, x) == Update(c, s, x).(generator := s1.generator)
  {
    assert Momenta(c, s, x.g) == Momenta(c, s1, x.g);
    assert Hessians(c, s, x.nxg, x.gsq) == Hessians(c, s1, x.nxg, x.gsq);
    var m, h := Momenta(c, s, x.g), Hessians(c, s, x.nxg, x.gsq);
    assert Params(c, s, s.step + 1, m, h) == Params(c, s1, s.step + 1, m, h);
  }

  /** The gradient of element i is not finite in this event. */
  predicate Spoils(c: Config, e: Event, i: nat) {
    e.Train? && i in Holes(c, e.grads)
  }

  /** Nothing has changed but the samples. */
  predicate SameCore(s: State, r: State) {
    && r.theta == s.theta && r.momentum == s.momentum && r.hess == s.hess
    && r.step == s.step && r.lost == s.lost && r.nan == s.nan
  }

  /** What any event does to any state at rest; the statistics of an update are some or other. */
  lemma {:induction false} EventKeeps(c: Config, s: State, e: Event)
    requires AtRest(c, s)
    ensures var (error, r) := Do(c, s, e);
            && error.None?
            && AtRest(c, r)
            && r.generator == Raw(c, Slots(c.groups), s.generator).1
            && (Steps(c, e) ==> exists x :: SizedStatistics(c, x) && x.holes == s.holes
                                            && r == Update(c, s, x).(generator := r.generator))
            && (!Steps(c, e) ==> SameCore(s, r))
            && r.holes == (if Steps(c, e) then {} else if c.single || e.Evaluate? then s.holes
                           else s.holes + Holes(c, e.grads))
  {
    hide Noise, Raw, Slots, Plus, Minus, Welford, Mul, Flat, Momenta, Hessians, Params, Zeros, HolesIn, ZeroDivisors;
    match e
    case Evaluate => SampleRestore(c, s, false, []);
    case Train(grads, finite) =>
      SampleRestore(c, s, true, grads);
      var s1 := Restore(c, Sample(c, s), true, grads).1;
      if NormFinite(c, grads, finite) {
        var x := Found(c, s1, grads).value;
        SameUpdate(c, s, s1, x);
      }
  }

  /**
   No run ever fails, whatever the gradients and however many steps are skipped: step() always
   finds the samples it needs, and every noise sample can be regenerated.
   */
  lemma {:induction false} RunsNeverFail(c: Config, s: State, events: seq<Event>)
    requires AtRest(c, s)
    ensures var (error, r) := Run(c, s, events); error.None? && AtRest(c, r)
    decreases |events|
  {
    hide Do;
    if events != [] {
      EventKeeps(c, s, events[0]);
      RunsNeverFail(c, Do(c, s, events[0]).1, events[1..]);
    }
  }

  /**
   A step() inside a sampled region loses the saved generator state unless it is refused. The exit
   of the region then fails and the noise is never taken back; the exit works exactly in the fast
   path, whose step() is refused there, and in the buffered path if no sample was pending.
   */
  lemma {:induction false} StepInsideRegion(c: Config, s: State, grads: Grads, train: bool)
    requires AtRest(c, s)
    ensures var (refused, r) := Step(c, Sample(c, s), grads);
            var (error, left) := Restore(c, r, train, grads);
            && (error.None? <==> c.single || (s.count == 0 && Slots(c.groups) != []))
            && (error.None? <==> refused.Some?)
            && (error.None? ==> left.theta == s.theta && !left.noised)
            && (error.Some? ==> error == Some(NoNoiseSample) && left.noised && Sample(c, r) == r)
  {
    hide Noise, Raw, Slots, Plus, Minus, Welford, Mul, Flat, Momenta, Hessians, Params, Zeros;
    PlusMinus(s.theta, Noise(c, s.hess, s.generator));
  }

  // ---------- the statistics of samples ----------

  /** The statistics of a sample whose noise is drawn from generator state `st`. */
  function Stats(c: Config, hess: seq<real>, st: nat, grads: Grads): (x: Statistics)
    requires |hess| == Numel(c)
    ensures SizedStatistics(c, x)
  {
    var n, g := Numel(c), Grad(c, grads);
    Statistics(g, if UsesNxg(c) then Mul(Noise(c, hess, st), g) else Zeros(n),
               if UsesGsq(c) then Mul(g, g) else Zeros(n), Holes(c, grads))
  }

  function SampleStats(c: Config, s: State, grads: Grads): (x: Statistics)
    requires Shaped(c, s)
    ensures SizedStatistics(c, x)
  {
    Stats(c, s.hess, s.generator, grads)
  }

  /** Element i of all vectors, added up. */
  function SumAt(vs: seq<seq<real>>, i: nat): real {
    if vs == [] then 0.0
    else
      var last := vs[|vs| - 1];
      SumAt(vs[..|vs| - 1], i) + if i < |last| then last[i] else 0.0
  }

  function MeanOf(n: nat, vs: seq<seq<real>>): (r: seq<real>)
    requires vs != []
    ensures |r| == n
  {
    seq(n, i requires 0 <= i < n => SumAt(vs, i) / |vs| as real)
  }

  function Gs(xs: seq<Statistics>): (r: seq<seq<real>>)
    ensures |r| == |xs|
  {
    seq(|xs|, j requires 0 <= j < |xs| => xs[j].g)
  }

  function Nxgs(xs: seq<Statistics>): (r: seq<seq<real>>)
    ensures |r| == |xs|
  {
    seq(|xs|, j requires 0 <= j < |xs| => xs[j].nxg)
  }

  function Gsqs(xs: seq<Statistics>): (r: seq<seq<real>>)
    ensures |r| == |xs|
  {
    seq(|xs|, j requires 0 <= j < |xs| => xs[j].gsq)
  }

  /** The elements that are not finite in some sample. */
  function AllHoles(xs: seq<Statistics>): set<nat> {
    if xs == [] then {} else AllHoles(xs[..|xs| - 1]) + xs[|xs| - 1].holes
  }

  /** The exact means of gradient, noise * gradient and gradient^2, as far as the method uses them. */
  function MeanStats(c: Config, xs: seq<Statistics>): (x: Statistics)
    requires xs != []
    ensures SizedStatistics(c, x)
  {
    var n := Numel(c);
    Statistics(MeanOf(n, Gs(xs)), if UsesNxg(c) then MeanOf(n, Nxgs(xs)) else Zeros(n),
               if UsesGsq(c) then MeanOf(n, Gsqs(xs)) else Zeros(n), AllHoles(xs))
  }

  /** The accumulators hold the means of `xs`; the fast path never has any. */
  ghost predicate Pending(c: Config, s: State, xs: seq<Statistics>) {
    if c.single then xs == []
    else
      && s.count == |xs| && s.holes == AllHoles(xs)
      && s.avgGrad == (if xs == [] then None else Some(MeanOf(Numel(c), Gs(xs))))
      && s.avgNxg == (if xs == [] || !UsesNxg(c) then None else Some(MeanOf(Numel(c), Nxgs(xs))))
      && s.avgGsq == (if xs == [] || !UsesGsq(c) then None else Some(MeanOf(Numel(c), Gsqs(xs))))
  }

  /** The samples a step averages: in the fast path the last one, otherwise all that are pending. */
  function Pool(c: Config, xs: seq<Statistics>, x: Statistics): (r: seq<Statistics>)
    ensures r != []
  {
    if c.single then [x] else xs + [x]
  }

  /** The samples pending after an event. */
  function After(c: Config, s: State, xs: seq<Statistics>, e: Event): seq<Statistics>
    requires Shaped(c, s)
  {
    match e
    case Evaluate => xs
    case Train(grads, finite) =>
      if NormFinite(c, grads, finite) || c.single then [] else xs + [SampleStats(c, s, grads)]
  }

  lemma {:induction false} MeanStep(sum: real, x: real, k: nat)
    requires k == 0 ==> sum == 0.0
    ensures var avg := if k == 0 then 0.0 else sum / k as real;
            avg + (x - avg) / (k + 1) as real == (sum + x) / (k + 1) as real
  {
    var n := (k + 1) as real;
    if k > 0 {
      var avg := sum / k as real;
      assert avg * k as real == sum;
      assert avg == avg * n / n;
      assert avg * n == sum + avg;
    }
  }

  /** One in-place Welford step takes the mean of k vectors to the mean of k + 1. */
  lemma {:induction false} WelfordMean(n: nat, buffer: Option<seq<real>>, vs: seq<seq<real>>, x: seq<real>)
    requires |x| == n && buffer == (if vs == [] then None else Some(MeanOf(n, vs)))
    ensures Welford(OrZeros(buffer, n), x, |vs| + 1) == MeanOf(n, vs + [x])
  {
    var w, m, all := Welford(OrZeros(buffer, n), x, |vs| + 1), MeanOf(n, vs + [x]), vs + [x];
    assert all[..|all| - 1] == vs;
    forall i | 0 <= i < n
      ensures w[i] == m[i]
    {
      MeanStep(SumAt(vs, i), x[i], |vs|);
      assert SumAt(all, i) == SumAt(vs, i) + x[i];
    }
  }

  lemma {:induction false} MeanOfOne(v: seq<real>)
    ensures MeanOf(|v|, [v]) == v
  {
    assert [v][..0] == [];
    forall i | 0 <= i < |v|
      ensures SumAt([v], i) == v[i]
    {
      assert SumAt([v][..0], i) == 0.0;
    }
  }

  lemma {:induction false} MeanStatsOfOne(c: Config, x: Statistics)
    requires SizedStatistics(c, x)
    requires (UsesNxg(c) || x.nxg == Zeros(Numel(c))) && (UsesGsq(c) || x.gsq == Zeros(Numel(c)))
    ensures MeanStats(c, [x]) == x
  {
    hide MeanOf, Zeros, Slots, Total;
    MeanOfOne(x.g);
    MeanOfOne(x.nxg);
    MeanOfOne(x.gsq);
    assert Gs([x]) == [x.g] && Nxgs([x]) == [x.nxg] && Gsqs([x]) == [x.gsq];
    assert [x][..0] == [] && AllHoles([x][..0]) == {};
  }

  lemma {:induction false} NoHoles()
    ensures AllHoles([]) == {}
  {
  }

  lemma {:induction false} Appended(xs: seq<Statistics>, x: Statistics)
    ensures Gs(xs + [x]) == Gs(xs) + [x.g]
    ensures Nxgs(xs + [x]) == Nxgs(xs) + [x.nxg]
    ensures Gsqs(xs + [x]) == Gsqs(xs) + [x.gsq]
    ensures AllHoles(xs + [x]) == AllHoles(xs) + x.holes
  {
    assert (xs + [x])[..|xs|] == xs;
  }

  /** A buffered sample joins the pending ones. */
  lemma {:induction false} SampleJoins(c: Config, s: State, xs: seq<Statistics>, noise: seq<real>, grads: Grads)
    requires !c.single && Shaped(c, s) && Pending(c, s.(count := |xs|), xs) && s.count == |xs| + 1
    requires noise == Noise(c, s.hess, s.generator)
    ensures Pending(c, Accumulate(c, s, noise, Grad(c, grads), Holes(c, grads)), xs + [SampleStats(c, s, grads)])
  {
    var x, n, g := SampleStats(c, s, grads), Numel(c), Grad(c, grads);
    hide Noise, Mul, Flat, Slots, Total, MeanOf, Welford, OrZeros, Zeros, Gs, Nxgs, Gsqs, AllHoles, HolesIn;
    Appended(xs, x);
    WelfordMean(n, s.avgGrad, Gs(xs), g);
    if UsesNxg(c) {
      WelfordMean(n, s.avgNxg, Nxgs(xs), Mul(noise, g));
    }
    if UsesGsq(c) {
      WelfordMean(n, s.avgGsq, Gsqs(xs), Mul(g, g));
    }
  }

  /**
   What one event does to a state at rest with pending samples `xs`: a training step updates the
   unperturbed parameters from the means over the pool; everything else leaves parameters,
   momentum and Hessian alone.
   */
  lemma {:induction false} EventEffect(c: Config, s: State, xs: seq<Statistics>, e: Event)
    requires AtRest(c, s) && Pending(c, s, xs)
    ensures var (error, r) := Do(c, s, e);
            && error.None?
            && AtRest(c, r) && Pending(c, r, After(c, s, xs, e))
            && r.generator == Raw(c, Slots(c.groups), s.generator).1
            && (Steps(c, e) ==>
                  r == Update(c, s, MeanStats(c, Pool(c, xs, SampleStats(c, s, e.grads)))).(generator := r.generator))
            && (!Steps(c, e) ==> SameCore(s, r))
  {
    EventKeeps(c, s, e);
    match e
    case Evaluate => EvaluationEffect(c, s, xs);
    case Train(grads, finite) => TrainingEffect(c, s, xs, grads, finite);
  }

  lemma {:induction false} EvaluationEffect(c: Config, s: State, xs: seq<Statistics>)
    requires AtRest(c, s) && Pending(c, s, xs)
    ensures Pending(c, Evaluation(c, s).1, xs)
  {
    hide Noise, Raw, Slots, Total, Flat, Mul, MeanOf;
    SampleRestore(c, s, false, []);
  }

  lemma {:induction false} TrainingEffect(c: Config, s: State, xs: seq<Statistics>, grads: Grads, finite: bool)
    requires AtRest(c, s) && Pending(c, s, xs)
    ensures var x, r := SampleStats(c, s, grads), TrainingStep(c, s, grads, finite).1;
            if NormFinite(c, grads, finite)
            then Pending(c, r, []) && r == Update(c, s, MeanStats(c, Pool(c, xs, x))).(generator := r.generator)
            else Pending(c, r, if c.single then [] else xs + [x])
  {
    hide Noise, Raw, Slots, Total, Flat, Mul, MeanOf, Zeros, Momenta, Hessians, Params, Gs, Nxgs, Gsqs, Welford,
         HolesIn, AllHoles, ZeroDivisors;
    var x := SampleStats(c, s, grads);
    NoHoles();
    SampleRestore(c, s, true, grads);
    var s1 := Restore(c, Sample(c, s), true, grads).1;
    if c.single {
      MeanStatsOfOne(c, x);
      assert Found(c, s1, grads) == Ok(x);
    } else {
      SampleJoins(c, s.(count := s.count + 1), xs, Noise(c, s.hess, s.generator), grads);
      assert Found(c, s1, grads) == Ok(MeanStats(c, xs + [x]));
    }
    SameUpdate(c, s, s1, MeanStats(c, Pool(c, xs, x)));
  }
}
