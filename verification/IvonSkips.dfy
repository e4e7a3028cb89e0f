/** When the path without buffers and the buffered one agree after skipped steps. */
module IvonSkips {
  import opened IvonBounds
  import opened IvonFastPath
  import opened IvonModel
  import opened IvonRuns
  import opened Wrappers

  // ---------- one element ----------

  lemma {:induction false} NoZeroDivisors(d: real, e: real)
    ensures d * e == 0.0 <==> d == 0.0 || e == 0.0
  {
    if d != 0.0 && e != 0.0 {
      Product(if d > 0.0 then d else -d, if e > 0.0 then e else -e);
      assert (-d) * (-e) == d * e && (-d) * e == -(d * e) && d * (-e) == -(d * e);
    }
  }

  /** Two gradients give the same momentum exactly when they are equal or have no weight. */
  lemma {:induction false} MomentaDiffer(hp: Group, m: real, g0: real, g1: real)
    ensures NewMomentum(hp, m, g0) == NewMomentum(hp, m, g1) <==> hp.beta1 == 1.0 || g0 == g1
  {
    var d := 1.0 - hp.beta1;
    assert d * g0 - d * g1 == d * (g0 - g1);
    NoZeroDivisors(d, g0 - g1);
  }

  /** How far an estimate pulls the Hessian: (1 - beta2) * (f - h) */
  function Shift(hp: Group, h: real, f: real): real {
    (1.0 - hp.beta2) * (f - h)
  }

  /** The new Hessian is even in h + wd + shift, so two estimates can mirror each other. */
  predicate SameHessian(c: Config, hp: Group, h: real, f0: real, f1: real) {
    c.isotropic || hp.beta2 == 1.0 || f0 == f1 || 2.0 * (h + hp.wd) + Shift(hp, h, f0) + Shift(hp, h, f1) == 0.0
  }

  lemma {:induction false} ShiftsDiffer(hp: Group, h: real, f0: real, f1: real)
    ensures Shift(hp, h, f0) == Shift(hp, h, f1) <==> hp.beta2 == 1.0 || f0 == f1
  {
    var d := 1.0 - hp.beta2;
    assert d * (f0 - h) - d * (f1 - h) == d * (f0 - f1);
    NoZeroDivisors(d, f0 - f1);
  }

  lemma {:induction false} CorrectedSquare(hp: Group, h: real, f: real)
    requires h + hp.wd > 0.0
    ensures (Corrected(hp, h, f) + hp.wd) * (2.0 * (h + hp.wd))
         == Square(h + hp.wd + Shift(hp, h, f)) + Square(h + hp.wd)
  {
    var s, d := h + hp.wd, 1.0 - hp.beta2;
    var x, y := d * (f - h), Correction(hp, h, f);
    CorrectionIs(hp, h, f);
    hide Correction;
    SquareComplete(s, x, y);
    assert hp.beta2 * h + d * f == h + d * (f - h);
  }

  lemma {:induction false} SquaresEqual(a: real, b: real)
    ensures Square(a) == Square(b) <==> a == b || a + b == 0.0
  {
    assert a * a - b * b == (a - b) * (a + b);
    NoZeroDivisors(a - b, a + b);
  }

  lemma {:induction false} SameProduct(a: real, b: real, s: real)
    requires s > 0.0
    ensures a * s == b * s <==> a == b
  {
    assert a * s - b * s == (a - b) * s;
    NoZeroDivisors(a - b, s);
  }

  lemma {:induction false} HessiansDiffer(c: Config, hp: Group, h: real, x: Statistics, y: Statistics, i: nat)
    requires h + hp.wd > 0.0 && i < |x.nxg| == |x.gsq| && i < |y.nxg| == |y.gsq|
    ensures NewHess(c, hp, h, x.nxg[i], x.gsq[i]) == NewHess(c, hp, h, y.nxg[i], y.gsq[i])
       <==> SameHessian(c, hp, h, Curvature(c, hp, h, x.nxg[i], x.gsq[i]), Curvature(c, hp, h, y.nxg[i], y.gsq[i]))
  {
    hide Curvature, Corrected;
    CorrectedDiffer(hp, h, Curvature(c, hp, h, x.nxg[i], x.gsq[i]), Curvature(c, hp, h, y.nxg[i], y.gsq[i]));
  }

  lemma {:induction false} CorrectedDiffer(hp: Group, h: real, f0: real, f1: real)
    requires h + hp.wd > 0.0
    ensures Corrected(hp, h, f0) == Corrected(hp, h, f1) <==>
              hp.beta2 == 1.0 || f0 == f1 || 2.0 * (h + hp.wd) + Shift(hp, h, f0) + Shift(hp, h, f1) == 0.0
  {
    hide Corrected, Square, Shift;
    CorrectedSquare(hp, h, f0);
    CorrectedSquare(hp, h, f1);
    Mirrored(Corrected(hp, h, f0) + hp.wd, Corrected(hp, h, f1) + hp.wd, h + hp.wd, Shift(hp, h, f0), Shift(hp, h, f1));
    ShiftsDiffer(hp, h, f0, f1);
  }

  lemma {:induction false} Mirrored(a0: real, a1: real, s: real, x0: real, x1: real)
    requires s > 0.0
    requires a0 * (2.0 * s) == Square(s + x0) + Square(s) && a1 * (2.0 * s) == Square(s + x1) + Square(s)
    ensures a0 == a1 <==> x0 == x1 || 2.0 * s + x0 + x1 == 0.0
  {
    hide Square;
    SameProduct(a0, a1, 2.0 * s);
    SquaresEqual(s + x0, s + x1);
  }

  // ---------- the whole state ----------

  /** Replacing the statistics x by y makes no difference to element i. */
  predicate SameElement(c: Config, s: State, x: Statistics, y: Statistics, i: nat)
    requires Shaped(c, s) && SizedStatistics(c, x) && SizedStatistics(c, y) && i < Numel(c)
  {
    var hp, h := HyperAt(c, i), s.hess[i];
    && (hp.beta1 == 1.0 || x.g[i] == y.g[i])
    && SameHessian(c, hp, h, Curvature(c, hp, h, x.nxg[i], x.gsq[i]), Curvature(c, hp, h, y.nxg[i], y.gsq[i]))
  }

  /** Two states agree where they hold numbers, and hold numbers in the same places. */
  predicate Agree(c: Config, r: State, t: State)
    requires Shaped(c, r) && Shaped(c, t)
  {
    && r.avgGrad == t.avgGrad && r.avgNxg == t.avgNxg && r.avgGsq == t.avgGsq && r.holes == t.holes
    && r.count == t.count && r.genState == t.genState && r.generator == t.generator
    && r.noised == t.noised && r.step == t.step
    && forall i :: 0 <= i < Numel(c) ==> AgreeAt(c, r, t, i)
  }

  predicate AgreeAt(c: Config, r: State, t: State, i: nat)
    requires Shaped(c, r) && Shaped(c, t) && i < Numel(c)
  {
    && SameMomentum(r, t, i)
    && ((i in r.lost && !c.isotropic) || r.hess[i] == t.hess[i])
    && (i in r.nan <==> i in t.nan) && (i in r.nan || r.theta[i] == t.theta[i])
  }

  predicate SameMomentum(r: State, t: State, i: nat)
    requires i < |r.momentum| && i < |t.momentum|
  {
    (i in r.lost <==> i in t.lost) && (i in r.lost || r.momentum[i] == t.momentum[i])
  }

  /** Element i was lost before, or both statistics are finite there and replacing x by y makes no difference. */
  predicate NoDifference(c: Config, s: State, x: Statistics, y: Statistics, i: nat)
    requires Shaped(c, s) && SizedStatistics(c, x) && SizedStatistics(c, y) && i < Numel(c)
  {
    i in s.lost || ((i in x.holes <==> i in y.holes) && (i in x.holes || SameElement(c, s, x, y, i)))
  }

  lemma {:induction false} UpdatesDiffer(c: Config, s: State, x: Statistics, y: Statistics)
    requires Shaped(c, s) && SizedStatistics(c, x) && SizedStatistics(c, y) && Positive(c, s.hess)
    ensures Agree(c, Update(c, s, x), Update(c, s, y)) <==>
              forall i :: 0 <= i < Numel(c) ==> NoDifference(c, s, x, y, i)
  {
    forall i | 0 <= i < Numel(c)
      ensures AgreeAt(c, Update(c, s, x), Update(c, s, y), i) <==> NoDifference(c, s, x, y, i)
    {
      UpdatesDifferAt(c, s, x, y, i);
    }
    hide AgreeAt, NoDifference, Positive, Slots, Total, Momenta, Hessians, Params, ZeroDivisors;
  }

  lemma {:induction false} UpdatesDifferAt(c: Config, s: State, x: Statistics, y: Statistics, i: nat)
    requires Shaped(c, s) && SizedStatistics(c, x) && SizedStatistics(c, y) && Positive(c, s.hess) && i < Numel(c)
    ensures AgreeAt(c, Update(c, s, x), Update(c, s, y), i) <==> NoDifference(c, s, x, y, i)
  {
    ElementsDiffer(c, s, x, y, i);
    FrozenHessian(c, s, x, y, i);
    if Momenta(c, s, x.g)[i] == Momenta(c, s, y.g)[i]
       && Hessians(c, s, x.nxg, x.gsq)[i] == Hessians(c, s, y.nxg, y.gsq)[i] {
      SameParam(c, s, x, y, i);
    }
    hide SameElement, Positive, Slots, Total, Momenta, Hessians, Params, ZeroDivisors;
  }

  lemma {:induction false} FrozenHessian(c: Config, s: State, x: Statistics, y: Statistics, i: nat)
    requires Shaped(c, s) && SizedStatistics(c, x) && SizedStatistics(c, y) && i < Numel(c)
    ensures c.isotropic ==> Hessians(c, s, x.nxg, x.gsq)[i] == Hessians(c, s, y.nxg, y.gsq)[i]
  {
  }

  /** The parameter depends on the statistics through momentum and Hessian only. */
  lemma {:induction false} SameParam(c: Config, s: State, x: Statistics, y: Statistics, i: nat)
    requires Shaped(c, s) && SizedStatistics(c, x) && SizedStatistics(c, y) && i < Numel(c)
    requires Momenta(c, s, x.g)[i] == Momenta(c, s, y.g)[i]
    requires Hessians(c, s, x.nxg, x.gsq)[i] == Hessians(c, s, y.nxg, y.gsq)[i]
    ensures Update(c, s, x).theta[i] == Update(c, s, y).theta[i]
  {
    hide HyperAt, NewParam, Momenta, Hessians, Slots, Total, ZeroDivisors;
  }

  lemma {:induction false} ElementsDiffer(c: Config, s: State, x: Statistics, y: Statistics, i: nat)
    requires Shaped(c, s) && SizedStatistics(c, x) && SizedStatistics(c, y) && Positive(c, s.hess) && i < Numel(c)
    ensures SameElement(c, s, x, y, i) <==>
              Momenta(c, s, x.g)[i] == Momenta(c, s, y.g)[i]
              && Hessians(c, s, x.nxg, x.gsq)[i] == Hessians(c, s, y.nxg, y.gsq)[i]
  {
    hide HyperAt, NewMomentum, NewHess, Curvature, SameHessian, Slots, Total;
    MomentaDiffer(HyperAt(c, i), s.momentum[i], x.g[i], y.g[i]);
    HessiansDiffer(c, HyperAt(c, i), s.hess[i], x, y, i);
  }

  // ---------- skipped steps ----------

  /**
   After any number of skipped steps and evaluations the two paths agree exactly when, for every
   element that was a number, no skipped gradient was infinite or NaN and averaging the last sample
   with the skipped ones makes no difference: the gradient is the mean of all gradients or beta1 is
   one, and the two curvature estimates are equal, have no weight, or mirror each other.
   */
  lemma {:induction false} PathsAgreeIff(c: Config, s: State, idle: seq<Event>, used: Grads)
    requires c.single && Fresh(c, s) && Idle(c, idle) && Steps(c, Train(used, true)) && Positive(c, s.hess)
    ensures var events := idle + [Train(used, true)];
            var x, y := LastSample(c, s, idle, used), MeanStats(c, AllSamples(c, s, idle, used));
            var (e0, fast), (e1, buffered) := Run(c, s, events), Run(Buffered(c), s, events);
            && e0.None? && e1.None?
            && (Agree(c, fast, buffered) <==>
                  forall i :: 0 <= i < Numel(c) ==>
                    i in s.lost || (!Spoiled(c, idle, i) && SameElement(c, s, x, y, i)))
  {
    var x, y := LastSample(c, s, idle, used), MeanStats(c, AllSamples(c, s, idle, used));
    hide Run, Update, SameElement, Positive, LastSample, AllSamples, Slots, Total, Agree, Spoiled, NoDifference,
         MeanStats, HyperAt, Gs, NormFinite, Fresh, Idle;
    SkippedSamplesCount(c, s, idle, used);
    forall i | 0 <= i < Numel(c)
      ensures NoDifference(c, s, x, y, i) <==>
                i in s.lost || (!Spoiled(c, idle, i) && SameElement(c, s, x, y, i))
    {
      SpoiledDiffers(c, s, idle, x, AllSamples(c, s, idle, used), i);
    }
    UpdatesDiffer(c, s, x, y);
    SameButGenerator(c, s, x, y, GeneratorAt(c, s.generator, |idle + [Train(used, true)]|));
  }

  lemma {:induction false} SpoiledDiffers(c: Config, s: State, idle: seq<Event>, x: Statistics, all: seq<Statistics>,
                                          i: nat)
    requires Shaped(c, s) && SizedStatistics(c, x) && all != [] && i < Numel(c)
    requires x.holes == {} && (i in AllHoles(all) <==> Spoiled(c, idle, i))
    ensures NoDifference(c, s, x, MeanStats(c, all), i) <==>
              i in s.lost || (!Spoiled(c, idle, i) && SameElement(c, s, x, MeanStats(c, all), i))
  {
    hide SameElement, Spoiled, AllHoles, MeanOf, Slots, Total;
  }

  lemma {:induction false} SameButGenerator(c: Config, s: State, x: Statistics, y: Statistics, st: nat)
    requires Shaped(c, s) && SizedStatistics(c, x) && SizedStatistics(c, y)
    ensures Agree(c, Update(c, s, x).(generator := st), Update(c, s, y).(generator := st)) <==>
              Agree(c, Update(c, s, x), Update(c, s, y))
  {
    var r, t := Update(c, s, x), Update(c, s, y);
    hide Momenta, Hessians, Params, ZeroDivisors, Slots, Total;
    assert forall i :: 0 <= i < Numel(c) ==>
             (AgreeAt(c, r, t, i) <==> AgreeAt(c, r.(generator := st), t.(generator := st), i));
  }

  /**
   For the momentum alone: the paths agree on an element exactly when it was lost before, or no
   skipped gradient was infinite or NaN there and beta1 is one or the last gradient is the mean of the
   gradients of all training steps since the last step that was taken.
   */
  lemma {:induction false} SkippedStepsCount(c: Config, s: State, idle: seq<Event>, used: Grads, i: nat)
    requires c.single && Fresh(c, s) && Idle(c, idle) && Steps(c, Train(used, true)) && i < Numel(c)
    ensures var events := idle + [Train(used, true)];
            var fast, buffered := Run(c, s, events), Run(Buffered(c), s, events);
            var m, hp := s.momentum[i], HyperAt(c, i);
            var last := Grad(c, used)[i];
            var mean := MeanOf(Numel(c), Gradients(c, idle) + [Grad(c, used)])[i];
            && fast.0.None? && buffered.0.None?
            && (i in fast.1.lost <==> i in s.lost)
            && (i in buffered.1.lost <==> i in s.lost || Spoiled(c, idle, i))
            && fast.1.momentum[i] == NewMomentum(hp, m, last)
            && buffered.1.momentum[i] == NewMomentum(hp, m, mean)
            && (SameMomentum(fast.1, buffered.1, i) <==>
                  i in s.lost || (!Spoiled(c, idle, i) && (hp.beta1 == 1.0 || last == mean)))
  {
    hide Run, HyperAt, Flat, NewMomentum, Slots, Total, MeanOf, Gs, Nxgs, Gsqs, Hessians, Params, AllSamples, Raw,
         Noise, AllHoles, Spoiled, HolesIn, ZeroDivisors, NormFinite;
    SkippedSamplesCount(c, s, idle, used);
    var mean := MeanOf(Numel(c), Gradients(c, idle) + [Grad(c, used)])[i];
    MomentaDiffer(HyperAt(c, i), s.momentum[i], Grad(c, used)[i], mean);
  }

  lemma {:induction false} OneGradient(c: Config, e: Event, i: nat)
    requires e.Train?
    ensures Gradients(c, [e]) == [Grad(c, e.grads)]
    ensures Spoiled(c, [e], i) <==> i in Holes(c, e.grads)
  {
    assert [e][..0] == [];
    assert Spoils(c, [e][0], i) <==> i in Holes(c, e.grads);
    hide Flat, HolesIn;
  }

  /** One skipped step: the mean is of two gradients. */
  lemma {:induction false} OneSkippedStep(c: Config, s: State, skipped: Grads, finite: bool, used: Grads, i: nat)
    requires c.single && Fresh(c, s) && i < Numel(c)
    requires !NormFinite(c, skipped, finite) && NormFinite(c, used, true)
    ensures var events := [Train(skipped, finite), Train(used, true)];
            var g0, g1 := Grad(c, skipped)[i], Grad(c, used)[i];
            SameMomentum(Run(c, s, events).1, Run(Buffered(c), s, events).1, i) <==>
              i in s.lost || (i !in Holes(c, skipped) && (HyperAt(c, i).beta1 == 1.0 || g0 == g1))
  {
    var g0, g1 := Grad(c, skipped), Grad(c, used);
    var idle := [Train(skipped, finite)];
    OneGradient(c, idle[0], i);
    assert idle + [Train(used, true)] == [Train(skipped, finite), Train(used, true)] && [g0] + [g1] == [g0, g1];
    TwoMean(g0, g1, i);
    hide Run, HyperAt, Flat, NewMomentum, Slots, Total, MeanOf, Gradients, SameMomentum, Spoiled, NormFinite, HolesIn;
    SkippedStepsCount(c, s, idle, used, i);
  }

  lemma {:induction false} TwoMean(g0: seq<real>, g1: seq<real>, i: nat)
    requires i < |g0| == |g1|
    ensures MeanOf(|g0|, [g0, g1])[i] == (g0[i] + g1[i]) / 2.0
  {
    assert [g0, g1][..1] == [g0] && [g0][..0] == [];
    assert SumAt([g0], i) == g0[i];
    assert SumAt([g0, g1], i) == g0[i] + g1[i];
  }
}
