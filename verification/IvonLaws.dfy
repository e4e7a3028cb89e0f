/** What a sample and a step do to one element, in plain arithmetic. */
module IvonLaws {
  import opened IvonBounds
  import opened IvonModel
  import opened IvonRuns
  import opened IvonSlots
  import opened Wrappers

  // ---------- gradients ----------

  /** Element j of parameter k has the gradient's entry; a parameter without gradient counts as zero. */
  lemma {:induction false} GradientAt(c: Config, grads: Grads, k: nat, j: nat)
    requires k < |Slots(c.groups)| && j < Slots(c.groups)[k].size
    ensures var i := Total(Slots(c.groups)[..k]) + j;
            && i < Numel(c)
            && (k >= |grads| || grads[k].None? ==> Grad(c, grads)[i] == 0.0 && i !in Holes(c, grads))
            && (k < |grads| && grads[k].Some? && j < |grads[k].value| ==>
                  match grads[k].value[j]
                  case Number(x) => Grad(c, grads)[i] == x && i !in Holes(c, grads)
                  case NotFinite => i in Holes(c, grads))
  {
    FlatAt(Slots(c.groups), grads, k, j);
    HoleAt(Slots(c.groups), grads, k, j);
    hide Flat, HolesIn, Slots, Total;
  }

  // ---------- the noise of a sample ----------

  lemma {:induction false} QuotientSquared(d: real, z: real, root: real, p: real)
    requires root > 0.0 && root * root == p && d == z / root
    ensures d * d * p == z * z && d * z >= 0.0
  {
    assert d * root == z;
    assert d * d * p == (d * root) * (d * root);
    assert d * z == d * d * root;
    Nonneg(d * d, root) by { SquareNonNegative(d); }
  }

  /** d is the draw z over the square root of ess * (h + wd): the squares say how large, the product which way. */
  predicate IsScaled(hp: Group, h: real, d: real, z: real) {
    d * d * (hp.ess * (h + hp.wd)) == z * z && d * z >= 0.0
  }

  lemma {:induction false} NoiseLaw(c: Config, hp: Group, h: real, z: real)
    requires ValidConfig(c) && ValidGroup(hp) && (c.isotropic || h + hp.wd > 0.0)
    ensures IsScaled(hp, if c.isotropic then hp.hessInit else h, NoiseAt(c, hp, h, z), z)
  {
    var p := hp.ess * ((if c.isotropic then hp.hessInit else h) + hp.wd);
    Product(hp.ess, (if c.isotropic then hp.hessInit else h) + hp.wd);
    assert p > 0.0 && c.sqrt(p) > 0.0;
    QuotientSquared(z / c.sqrt(p), z, c.sqrt(p), p);
  }

  /** Sampling moves element i by d: d^2 * precision is the square of the normal draw z, and d has its sign. */
  lemma {:induction false} SampleMoves(c: Config, s: State, i: nat)
    requires ValidConfig(c) && Shaped(c, s) && !s.noised && i < Numel(c)
    requires c.isotropic || s.hess[i] + HyperAt(c, i).wd > 0.0
    ensures var d, z := Sample(c, s).theta[i] - s.theta[i], Raw(c, Slots(c.groups), s.generator).0[i];
            var hp := HyperAt(c, i);
            IsScaled(hp, if c.isotropic then hp.hessInit else s.hess[i], d, z)
  {
    var z := Raw(c, Slots(c.groups), s.generator).0[i];
    HyperValid(c, i);
    hide Raw, Slots, Total, HyperAt, IsScaled;
    NoiseLaw(c, HyperAt(c, i), s.hess[i], z);
    assert Sample(c, s).theta[i] - s.theta[i] == NoiseAt(c, HyperAt(c, i), s.hess[i], z);
  }

  lemma {:induction false} StaysPositive(c: Config, theta: seq<real>, seed: nat, events: seq<Event>, i: nat)
    requires ValidConfig(c) && |theta| == Numel(c) && i < Numel(c)
    ensures var s := Run(c, Init(c, theta, seed), events).1;
            AtRest(c, s) && s.hess[i] + HyperAt(c, i).wd > 0.0
  {
    var s := Init(c, theta, seed);
    InitBounded(c, theta, seed);
    RunsNeverFail(c, s, events);
    RunBounded(c, s, events);
    HyperValid(c, i);
    hide Run, Init, HyperAt, Slots, Total, BoundedAt, ValidGroup;
    BoundedPositive(HyperAt(c, i), Run(c, s, events).1.hess[i], Run(c, s, events).1.step);
  }

  /**
   At any point of any run a sample perturbs an element that is a number by a normal draw divided by
   the square root of ess * (h + wd), where h is its Hessian, or hess_init in the isotropic mode.
   */
  lemma {:induction false} PerturbationLaw(c: Config, theta: seq<real>, seed: nat, events: seq<Event>, i: nat)
    requires ValidConfig(c) && |theta| == Numel(c) && i < Numel(c)
    ensures var s := Run(c, Init(c, theta, seed), events).1;
            var d, z := Sample(c, s).theta[i] - s.theta[i], Raw(c, Slots(c.groups), s.generator).0[i];
            var hp := HyperAt(c, i);
            c.isotropic || i !in s.lost ==> IsScaled(hp, if c.isotropic then hp.hessInit else s.hess[i], d, z)
  {
    StaysPositive(c, theta, seed, events, i);
    var s := Run(c, Init(c, theta, seed), events).1;
    hide Run, Init, HyperAt, Raw, Slots, Total, Sample, ValidConfig, IsScaled;
    SampleMoves(c, s, i);
  }

  /** What a sample adds to the accumulators: the gradient, and its product with the perturbation or with itself. */
  lemma {:induction false} StatisticsLaw(c: Config, s: State, grads: Grads, i: nat)
    requires Shaped(c, s) && !s.noised && i < Numel(c)
    ensures var x, g, d := SampleStats(c, s, grads), Grad(c, grads)[i], Sample(c, s).theta[i] - s.theta[i];
            && x.g[i] == g
            && (!c.isotropic && c.price ==> x.nxg[i] == d * g)
            && (!c.isotropic && !c.price ==> x.gsq[i] == g * g)
  {
    hide Noise, Slots, Total, Flat;
    assert Sample(c, s).theta[i] - s.theta[i] == Noise(c, s.hess, s.generator)[i];
  }

  // ---------- a step ----------

  /** The momentum without its bias towards the zero it started from. */
  function Unbiased(c: Config, hp: Group, m: real, t: nat): real
    requires ValidGroup(hp) && t > 0 && (c.debias ==> hp.beta1 < 1.0)
  {
    DebiasPositive(hp.beta1, t);
    if c.debias then m / (1.0 - Pow(hp.beta1, t)) else m
  }

  /** A quotient pull / w, clipped to the radius, times the rate. */
  predicate IsMove(move: real, rate: real, pull: real, w: real, clip: Option<real>) {
    if clip.None? || Abs(pull) <= clip.value * w then move * w == rate * pull
    else move == if pull > 0.0 then rate * clip.value else -(rate * clip.value)
  }

  /**
   The parameter goes from p to q against the pull of momentum and decay: by rate * pull / (h + wd),
   unless the clip radius is smaller than the quotient; then by rate * radius.
   */
  predicate Descends(c: Config, hp: Group, t: nat, p: real, q: real, m: real, h: real)
    requires ValidGroup(hp) && t > 0 && (c.debias ==> hp.beta1 < 1.0)
  {
    var rate := if c.rescaleLr then hp.lr * (hp.hessInit + hp.wd) else hp.lr;
    IsMove(p - q, rate, Unbiased(c, hp, m, t) + hp.wd * p, h + hp.wd, hp.clip)
  }

  lemma {:induction false} ParamDescends(c: Config, hp: Group, t: nat, p: real, m: real, h: real)
    requires ValidGroup(hp) && t > 0 && (c.debias ==> hp.beta1 < 1.0) && h + hp.wd > 0.0
    ensures Descends(c, hp, t, p, NewParam(c, hp, t, p, m, h), m, h)
  {
    DebiasPositive(hp.beta1, t);
    assert Pull(c, hp, t, p, m) == Unbiased(c, hp, m, t) + hp.wd * p;
    assert LrEff(c, hp) == if c.rescaleLr then hp.lr * (hp.hessInit + hp.wd) else hp.lr;
    hide Pull, Unbiased, Pow, LrEff, IsMove, Clamp, Quot, Prod;
    ClampedQuotient(Pull(c, hp, t, p, m), h + hp.wd, hp.clip, LrEff(c, hp));
  }

  lemma {:induction false} ClampedQuotient(pull: real, w: real, clip: Option<real>, rate: real)
    requires w > 0.0 && (clip.Some? ==> clip.value > 0.0)
    ensures IsMove(Prod(rate, Clamp(Quot(pull, w), clip)), rate, pull, w, clip)
  {
    var q := pull / w;
    assert q * w == pull;
    if clip.Some? {
      WithinRadius(q, w, clip.value);
    }
    if clip.None? || Abs(pull) <= clip.value * w {
      assert Clamp(q, clip) == q;
      assert (rate * q) * w == rate * (q * w);
    } else {
      assert Clamp(q, clip) == if pull > 0.0 then clip.value else -clip.value;
      assert rate * -clip.value == -(rate * clip.value);
    }
  }

  lemma {:induction false} SameOrder(a: real, b: real, w: real)
    requires w > 0.0
    ensures a <= b <==> a * w <= b * w
  {
    assert (b - a) * w == b * w - a * w;
    if a <= b {
      Nonneg(b - a, w);
    } else {
      Product(a - b, w);
    }
  }

  lemma {:induction false} WithinRadius(q: real, w: real, radius: real)
    requires w > 0.0 && radius > 0.0
    ensures Abs(q * w) <= radius * w <==> Abs(q) <= radius
    ensures q * w > 0.0 <==> q > 0.0
  {
    SameOrder(q, radius, w);
    SameOrder(-radius, q, w);
    SameOrder(q, 0.0, w);
    assert -radius * w == -(radius * w);
  }

  /** b2 * h + (1 - b2) * f with the quadratic correction; f is the curvature that the means stand for. */
  predicate Curves(c: Config, hp: Group, h: real, h': real, nxg: real, gsq: real) {
    if c.isotropic then h' == h
    else
      var f := if c.price then hp.ess * (h + hp.wd) * nxg else hp.ess * gsq;
      var rest := h' - hp.beta2 * h - (1.0 - hp.beta2) * f;
      2.0 * rest * (h + hp.wd) == (1.0 - hp.beta2) * (1.0 - hp.beta2) * ((h - f) * (h - f))
  }

  lemma {:induction false} HessianCurves(c: Config, hp: Group, h: real, nxg: real, gsq: real)
    requires h + hp.wd > 0.0
    ensures Curves(c, hp, h, NewHess(c, hp, h, nxg, gsq), nxg, gsq)
  {
    if !c.isotropic {
      var f := Curvature(c, hp, h, nxg, gsq);
      var d, e := 1.0 - hp.beta2, h - f;
      CurvatureIs(c, hp, h, nxg, gsq);
      CorrectionIs(hp, h, f);
      hide Curvature, Correction;
      assert (d * (f - h)) * (d * (f - h)) == d * d * (e * e);
    }
  }

  lemma {:induction false} CurvatureIs(c: Config, hp: Group, h: real, nxg: real, gsq: real)
    ensures Curvature(c, hp, h, nxg, gsq) == if c.price then hp.ess * (h + hp.wd) * nxg else hp.ess * gsq
  {
  }

  /** beta1 * m + (1 - beta1) * g */
  predicate Averages(hp: Group, m: real, m': real, g: real) {
    m' == hp.beta1 * m + (1.0 - hp.beta1) * g
  }

  /**
   One training step that is not skipped, in either path and every mode: momentum, Hessian and
   parameter of an element follow the formulas of the method, from the means over the pending
   samples and the step's own.
   */
  lemma {:induction false} StepLaw(c: Config, s: State, xs: seq<Statistics>, e: Event, i: nat)
    requires ValidConfig(c) && AtRest(c, s) && Pending(c, s, xs) && Steps(c, e) && i < Numel(c)
    requires s.hess[i] + HyperAt(c, i).wd > 0.0
    ensures var r, hp, n := Do(c, s, e).1, HyperAt(c, i), Numel(c);
            var pool := Pool(c, xs, SampleStats(c, s, e.grads));
            && r.step == s.step + 1 && ValidGroup(hp) && r.hess[i] + hp.wd > 0.0
            && Averages(hp, s.momentum[i], r.momentum[i], MeanOf(n, Gs(pool))[i])
            && Curves(c, hp, s.hess[i], r.hess[i], MeanOf(n, Nxgs(pool))[i], MeanOf(n, Gsqs(pool))[i])
            && ((c.debias ==> hp.beta1 < 1.0) ==>
                  Descends(c, hp, r.step, s.theta[i], r.theta[i], r.momentum[i], r.hess[i]))
  {
    EventEffect(c, s, xs, e);
    HyperValid(c, i);
    UpdateLaw(c, s, MeanStats(c, Pool(c, xs, SampleStats(c, s, e.grads))), i);
    MeansUsed(c, Pool(c, xs, SampleStats(c, s, e.grads)), i);
    hide Do, HyperAt, Slots, Total, Update, MeanStats, MeanOf, Gs, Nxgs, Gsqs, Pool, SampleStats, Pending, Averages,
         Curves, Descends, ValidGroup, AtRest;
    var x := MeanStats(c, Pool(c, xs, SampleStats(c, s, e.grads)));
    SameCurve(c, HyperAt(c, i), s.hess[i], Update(c, s, x).hess[i], x, Pool(c, xs, SampleStats(c, s, e.grads)), i);
  }

  lemma {:induction false} MeansUsed(c: Config, pool: seq<Statistics>, i: nat)
    requires pool != [] && i < Numel(c)
    ensures var x, n := MeanStats(c, pool), Numel(c);
            && x.g[i] == MeanOf(n, Gs(pool))[i]
            && (!c.isotropic && c.price ==> x.nxg[i] == MeanOf(n, Nxgs(pool))[i])
            && (!c.isotropic && !c.price ==> x.gsq[i] == MeanOf(n, Gsqs(pool))[i])
  {
    hide MeanOf, Gs, Nxgs, Gsqs, Slots, Total;
  }

  lemma {:induction false} SameCurve(c: Config, hp: Group, h: real, h': real, x: Statistics, pool: seq<Statistics>,
                                     i: nat)
    requires pool != [] && i < Numel(c) && x == MeanStats(c, pool) && Curves(c, hp, h, h', x.nxg[i], x.gsq[i])
    ensures Curves(c, hp, h, h', MeanOf(Numel(c), Nxgs(pool))[i], MeanOf(Numel(c), Gsqs(pool))[i])
  {
    MeansUsed(c, pool, i);
    hide MeanStats, MeanOf, Nxgs, Gsqs, Slots, Total;
  }

  lemma {:induction false} UpdateLaw(c: Config, s: State, x: Statistics, i: nat)
    requires ValidConfig(c) && Shaped(c, s) && SizedStatistics(c, x) && i < Numel(c)
    requires s.hess[i] + HyperAt(c, i).wd > 0.0
    ensures var r, hp := Update(c, s, x), HyperAt(c, i);
            && r.step == s.step + 1 && ValidGroup(hp) && r.hess[i] + hp.wd > 0.0
            && Averages(hp, s.momentum[i], r.momentum[i], x.g[i])
            && Curves(c, hp, s.hess[i], r.hess[i], x.nxg[i], x.gsq[i])
            && ((c.debias ==> hp.beta1 < 1.0) ==>
                  Descends(c, hp, r.step, s.theta[i], r.theta[i], r.momentum[i], r.hess[i]))
  {
    var hp := HyperAt(c, i);
    HyperValid(c, i);
    MomentumAverages(hp, s.momentum[i], x.g[i]);
    HessianCurves(c, hp, s.hess[i], x.nxg[i], x.gsq[i]);
    HessianHalves(c, hp, s.hess[i], x.nxg[i], x.gsq[i]);
    var r := Update(c, s, x);
    hide HyperAt, NewMomentum, NewHess, NewParam, Slots, Total, Averages, Curves, Descends, ZeroDivisors, ValidGroup;
    if c.debias ==> hp.beta1 < 1.0 {
      ParamDescends(c, hp, s.step + 1, s.theta[i], r.momentum[i], r.hess[i]);
    }
  }

  lemma {:induction false} MomentumAverages(hp: Group, m: real, g: real)
    ensures Averages(hp, m, NewMomentum(hp, m, g), g)
  {
  }

  /** A step is taken exactly if all shards of the gradient are finite; otherwise only the samples change. */
  lemma {:induction false} SkipLaw(c: Config, s: State, grads: Grads, finite: bool)
    requires AtRest(c, s)
    ensures var (error, r) := TrainingStep(c, s, grads, finite);
            && error.None?
            && (finite && Holes(c, grads) == {} ==> r.step == s.step + 1)
            && (!(finite && Holes(c, grads) == {}) ==> SameCore(s, r))
  {
    EventKeeps(c, s, Train(grads, finite));
    hide TrainingStep, HolesIn, Momenta, Hessians, Params, ZeroDivisors, Slots, Total;
  }

  /** A step uses its samples up: a second one is refused, and nothing changes but the step counter. */
  lemma {:induction false} StepOnce(c: Config, s: State, e: Event, grads: Grads)
    requires AtRest(c, s) && Steps(c, e) && (c.single || Slots(c.groups) != [])
    ensures var r := Do(c, s, e).1;
            Step(c, r, grads) == (Some(if c.single then SampleCount else NoStatistics), r.(step := r.step + 1))
  {
    EventKeeps(c, s, e);
    hide Do, HolesIn, Momenta, Hessians, Params, ZeroDivisors, Slots, Total, Flat, Noise, Mul;
  }

  /**
   The memory of a state at rest: the fast path keeps no statistics, the buffered one the gradient's
   while a sample is pending, and a second one only for the Hessian estimate in use.
   */
  lemma {:induction false} MemoryLaw(c: Config, s: State)
    requires AtRest(c, s)
    ensures c.single || s.count == 0 ==> s.avgGrad.None? && s.avgNxg.None? && s.avgGsq.None?
    ensures !c.single && s.count > 0 ==>
              && s.avgGrad.Some? && (s.avgNxg.Some? <==> !c.isotropic && c.price)
              && (s.avgGsq.Some? <==> !c.isotropic && !c.price)
  {
    hide Slots, Total;
  }

  /** Regions nest: sampling in a region and leaving one twice change nothing. */
  lemma {:induction false} RegionsNest(c: Config, s: State, train: bool, grads: Grads)
    requires Shaped(c, s)
    ensures Sample(c, Sample(c, s)) == Sample(c, s)
    ensures AtRest(c, s) ==>
              var r := Restore(c, Sample(c, s), train, grads).1;
              !r.noised && Restore(c, r, train, grads) == (None, r)
  {
    hide Noise, Raw, Slots, Total, Plus;
    if AtRest(c, s) {
      SampleRestore(c, s, train, grads);
    }
  }

  // ---------- the isotropic mode ----------

  /** One step of SGD at the plain learning rate. */
  function SgdStep(c: Config, hp: Group, t: nat, p: real, m: real): real
    requires ValidGroup(hp) && t > 0 && (c.debias ==> hp.beta1 < 1.0)
  {
    p - hp.lr * (Unbiased(c, hp, m, t) + hp.wd * p)
  }

  /** Momentum-SGD with weight decay: the parameter after steps with these gradients, t steps having been taken. */
  function Sgd(c: Config, hp: Group, t: nat, p: real, m: real, gs: seq<real>): real
    requires ValidGroup(hp) && (c.debias ==> hp.beta1 < 1.0)
    decreases |gs|
  {
    if gs == [] then p
    else
      var m' := hp.beta1 * m + (1.0 - hp.beta1) * gs[0];
      Sgd(c, hp, t + 1, SgdStep(c, hp, t + 1, p, m'), m', gs[1..])
  }

  lemma {:induction false} SgdUnfold(c: Config, hp: Group, t: nat, p: real, m: real, m': real, gs: seq<real>)
    requires ValidGroup(hp) && (c.debias ==> hp.beta1 < 1.0) && gs != [] && Averages(hp, m, m', gs[0])
    ensures Sgd(c, hp, t, p, m, gs) == Sgd(c, hp, t + 1, SgdStep(c, hp, t + 1, p, m'), m', gs[1..])
  {
    hide SgdStep;
  }

  lemma {:induction false} PlainDescent(c: Config, hp: Group, t: nat, p: real, q: real, m: real)
    requires ValidGroup(hp) && t > 0 && (c.debias ==> hp.beta1 < 1.0) && c.rescaleLr && hp.clip.None?
    requires Descends(c, hp, t, p, q, m, hp.hessInit)
    ensures q == SgdStep(c, hp, t, p, m)
  {
    var w, pull := hp.hessInit + hp.wd, Unbiased(c, hp, m, t) + hp.wd * p;
    hide Unbiased;
    assert (p - q) * w == hp.lr * w * pull;
    assert (hp.lr * pull) * w == hp.lr * w * pull;
    SameOrder(p - q, hp.lr * pull, w);
    SameOrder(hp.lr * pull, p - q, w);
  }

  /** An event of a run in the isotropic mode, without clipping. */
  lemma {:induction false} IsotropicEvent(c: Config, s: State, xs: seq<Statistics>, e: Event, i: nat)
    requires ValidConfig(c) && AtRest(c, s) && Pending(c, s, xs) && i < Numel(c)
    requires c.isotropic && c.rescaleLr && HyperAt(c, i).clip.None? && s.hess[i] == HyperAt(c, i).hessInit
    requires c.debias ==> HyperAt(c, i).beta1 < 1.0
    ensures var r, hp := Do(c, s, e).1, HyperAt(c, i);
            && ValidGroup(hp) && Do(c, s, e).0.None? && AtRest(c, r) && Pending(c, r, After(c, s, xs, e))
            && r.hess[i] == hp.hessInit
            && if Steps(c, e)
               then
                 && r.step == s.step + 1
                 && Averages(hp, s.momentum[i], r.momentum[i],
                             MeanOf(Numel(c), Gs(Pool(c, xs, SampleStats(c, s, e.grads))))[i])
                 && r.theta[i] == SgdStep(c, hp, r.step, s.theta[i], r.momentum[i])
               else r.step == s.step && r.momentum[i] == s.momentum[i] && r.theta[i] == s.theta[i]
  {
    HyperValid(c, i);
    EventEffect(c, s, xs, e);
    hide Do, HyperAt, Slots, Total, Update, MeanOf, Gs, Nxgs, Gsqs, Pool, SampleStats, Pending, Averages, Curves,
         Descends, SgdStep, ValidGroup, ValidConfig, AtRest, After, Steps;
    if Steps(c, e) {
      StepLaw(c, s, xs, e, i);
      StaysFrozen(c, HyperAt(c, i), s.hess[i], Do(c, s, e).1.hess[i],
                  MeanOf(Numel(c), Nxgs(Pool(c, xs, SampleStats(c, s, e.grads))))[i],
                  MeanOf(Numel(c), Gsqs(Pool(c, xs, SampleStats(c, s, e.grads))))[i]);
      PlainDescent(c, HyperAt(c, i), s.step + 1, s.theta[i], Do(c, s, e).1.theta[i], Do(c, s, e).1.momentum[i]);
    }
  }

  lemma {:induction false} StaysFrozen(c: Config, hp: Group, h: real, h': real, nxg: real, gsq: real)
    requires c.isotropic && Curves(c, hp, h, h', nxg, gsq)
    ensures h' == h
  {
  }

  /** An event in terms of SGD: the state moves along the step gradients. */
  lemma {:induction false} IsotropicUnfold(c: Config, hp: Group, s: State, r: State, i: nat, gs: seq<real>,
                                           rest: seq<real>, steps: bool)
    requires ValidGroup(hp) && (c.debias ==> hp.beta1 < 1.0)
    requires i < |s.theta| && i < |s.momentum| && i < |r.theta| && i < |r.momentum|
    requires steps ==>
               && gs != [] && gs[1..] == rest && r.step == s.step + 1
               && Averages(hp, s.momentum[i], r.momentum[i], gs[0])
               && r.theta[i] == SgdStep(c, hp, r.step, s.theta[i], r.momentum[i])
    requires !steps ==>
               gs == rest && r.step == s.step && r.momentum[i] == s.momentum[i] && r.theta[i] == s.theta[i]
    ensures Sgd(c, hp, s.step, s.theta[i], s.momentum[i], gs) == Sgd(c, hp, r.step, r.theta[i], r.momentum[i], rest)
  {
    hide *;
    if steps {
      SgdUnfold(c, hp, s.step, s.theta[i], s.momentum[i], r.momentum[i], gs);
    }
  }

  /** The first event's share in the step gradients of a run. */
  lemma {:induction false} NextGradient(c: Config, s: State, xs: seq<Statistics>, events: seq<Event>, i: nat)
    requires Shaped(c, s) && i < Numel(c) && events != []
    ensures var e, gs := events[0], Column(StepGradients(c, Gs(xs), events), i);
            var rest := Column(StepGradients(c, Gs(After(c, s, xs, e)), events[1..]), i);
            if Steps(c, e)
            then
              && gs != [] && gs[1..] == rest
              && gs[0] == MeanOf(Numel(c), Gs(Pool(c, xs, SampleStats(c, s, e.grads))))[i]
            else gs == rest
  {
    hide Slots, Total, MeanOf, Gs, Pool, SampleStats, Flat, HolesIn;
    var e := events[0];
    if e.Train? {
      PoolGradients(c, s, xs, e.grads);
      if Steps(c, e) {
        var gs := StepGradients(c, Gs(xs), events);
        assert gs == [gs[0]] + StepGradients(c, [], events[1..]);
        assert Column(gs, i)[1..] == Column(gs[1..], i);
        assert Column(gs, i)[0] == gs[0][i];
      }
    }
  }

  /**
   In the isotropic mode without clipping a run is momentum-SGD with weight decay at the plain
   learning rate: hess_init drops out, and noise and Hessian estimates leave no trace.
   */
  lemma {:induction false} IsotropicRun(c: Config, s: State, xs: seq<Statistics>, events: seq<Event>, i: nat)
    requires ValidConfig(c) && AtRest(c, s) && Pending(c, s, xs) && i < Numel(c)
    requires c.isotropic && c.rescaleLr && HyperAt(c, i).clip.None? && s.hess[i] == HyperAt(c, i).hessInit
    requires c.debias ==> HyperAt(c, i).beta1 < 1.0
    ensures var r, hp := Run(c, s, events).1, HyperAt(c, i);
            && ValidGroup(hp)
            && r.theta[i] == Sgd(c, hp, s.step, s.theta[i], s.momentum[i],
                                 Column(StepGradients(c, Gs(xs), events), i))
    decreases |events|
  {
    HyperValid(c, i);
    hide Do, HyperAt, Slots, Total, Gs, Pending, ValidGroup, After;
    if events != [] {
      hide Sgd, StepGradients, Column, ValidConfig;
      var e, r, ys := events[0], Do(c, s, events[0]).1, After(c, s, xs, events[0]);
      IsotropicEvent(c, s, xs, e, i);
      NextGradient(c, s, xs, events, i);
      IsotropicUnfold(c, HyperAt(c, i), s, r, i, Column(StepGradients(c, Gs(xs), events), i),
                      Column(StepGradients(c, Gs(ys), events[1..]), i), Steps(c, e));
      IsotropicRun(c, r, ys, events[1..], i);
    }
  }

  /** The isotropic Hessian is never touched. */
  lemma {:induction false} FrozenRun(c: Config, s: State, events: seq<Event>)
    requires AtRest(c, s) && c.isotropic
    ensures Run(c, s, events).1.hess == s.hess
    decreases |events|
  {
    if events != [] {
      EventKeeps(c, s, events[0]);
      hide Do, Slots, Total;
      FrozenRun(c, Do(c, s, events[0]).1, events[1..]);
    }
  }

  /** The same from the start, for an element that stays a number. */
  lemma {:induction false} IsotropicIsSgd(c: Config, theta: seq<real>, seed: nat, events: seq<Event>, i: nat)
    requires ValidConfig(c) && |theta| == Numel(c) && i < Numel(c)
    requires c.isotropic && c.rescaleLr && HyperAt(c, i).clip.None?
    ensures var r, hp := Run(c, Init(c, theta, seed), events).1, HyperAt(c, i);
            && ValidGroup(hp) && r.hess[i] == hp.hessInit
            && (i !in r.nan && (c.debias ==> hp.beta1 < 1.0) ==>
                  r.theta[i] == Sgd(c, hp, 0, theta[i], 0.0, Column(StepGradients(c, [], events), i)))
  {
    HyperValid(c, i);
    InitLaw(c, theta, seed, i);
    NoGradients();
    hide Do, Run, HyperAt, Slots, Total, Pending, ValidGroup, Sgd, Init;
    FrozenRun(c, Init(c, theta, seed), events);
    if c.debias ==> HyperAt(c, i).beta1 < 1.0 {
      IsotropicRun(c, Init(c, theta, seed), [], events, i);
    }
  }

  /** What an optimizer starts with. */
  lemma {:induction false} InitLaw(c: Config, theta: seq<real>, seed: nat, i: nat)
    requires |theta| == Numel(c) && i < Numel(c)
    ensures var s := Init(c, theta, seed);
            && AtRest(c, s) && Pending(c, s, [])
            && s.theta == theta && s.momentum[i] == 0.0 && s.hess[i] == HyperAt(c, i).hessInit
            && s.step == 0 && s.generator == seed && s.genState.None? && s.lost == {} && s.nan == {}
  {
    hide HyperAt;
  }
}
