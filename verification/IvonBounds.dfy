/** What the update keeps positive and bounded, over whole runs. */
module IvonBounds {
  import opened IvonModel
  import opened IvonRuns
  import opened Wrappers

  // ---------- the Hessian stays positive ----------

  lemma {:induction false} HalfAtLeast(hp: Group, h: real, f: real)
    requires h + hp.wd > 0.0
    ensures Corrected(hp, h, f) + hp.wd >= (h + hp.wd) / 2.0
  {
    var s, d := h + hp.wd, 1.0 - hp.beta2;
    var x, y := d * (f - h), Correction(hp, h, f);
    CorrectionIs(hp, h, f);
    hide Correction;
    SquareComplete(s, x, y);
    assert hp.beta2 * h + d * f == h + d * (f - h);
  }

  lemma {:induction false} CorrectionIs(hp: Group, h: real, f: real)
    requires h + hp.wd > 0.0
    ensures Correction(hp, h, f) * (h + hp.wd) * 2.0 == ((1.0 - hp.beta2) * (f - h)) * ((1.0 - hp.beta2) * (f - h))
  {
    var s, d, e := h + hp.wd, 1.0 - hp.beta2, h - f;
    var q := Quot(Square(e), s);
    assert q * s == e * e;
    assert 0.5 * (d * d) * q * s * 2.0 == (d * d) * (q * s);
    assert (d * d) * (e * e) == (d * e) * (d * e);
    assert (d * -e) * (d * -e) == (d * e) * (d * e);
  }

  /** s + x + x^2 / (2s) is ((s + x)^2 + s^2) / (2s). */
  lemma {:induction false} SquareComplete(s: real, x: real, y: real)
    requires s > 0.0 && y * s * 2.0 == x * x
    ensures (s + x + y) * (2.0 * s) == (s + x) * (s + x) + s * s
    ensures s + x + y >= s / 2.0
  {
    assert (s + x + y) * (2.0 * s) == (s + x) * (s + x) + s * s;
    var z := s + x + y - s / 2.0;
    assert z * (2.0 * s) == (s + x) * (s + x);
    SquareNonNegative(s + x);
    NonNegative(z, 2.0 * s);
  }

  lemma {:induction false} SquareNonNegative(x: real)
    ensures x * x >= 0.0
  {
  }

  lemma {:induction false} NonNegative(z: real, s: real)
    requires s > 0.0 && z * s >= 0.0
    ensures z >= 0.0
  {
    if z < 0.0 {
      Negative(z, s);
    }
  }

  lemma {:induction false} Negative(z: real, s: real)
    requires s > 0.0 && z < 0.0
    ensures z * s < 0.0
  {
    assert (-z) * s > 0.0;
  }

  /** One update at most halves h + weight_decay, for every gradient and noise. */
  lemma {:induction false} HessianHalves(c: Config, hp: Group, h: real, nxg: real, gsq: real)
    requires h + hp.wd > 0.0
    ensures NewHess(c, hp, h, nxg, gsq) + hp.wd >= (h + hp.wd) / 2.0
  {
    hide Curvature;
    if !c.isotropic {
      HalfAtLeast(hp, h, Curvature(c, hp, h, nxg, gsq));
    }
  }

  /** Every divisor of an update is positive. */
  ghost predicate Positive(c: Config, hess: seq<real>) {
    |hess| == Numel(c) && forall i :: 0 <= i < |hess| ==> hess[i] + HyperAt(c, i).wd > 0.0
  }

  /** h + weight_decay has at most been halved in every step so far. */
  ghost predicate HessBounded(c: Config, s: State) {
    Shaped(c, s) && forall i :: 0 <= i < Numel(c) ==> BoundedAt(HyperAt(c, i), s.hess[i], s.step)
  }

  predicate BoundedAt(hp: Group, h: real, steps: nat) {
    (h + hp.wd) * Pow(2.0, steps) >= hp.hessInit + hp.wd
  }

  lemma {:induction false} BoundedPositive(hp: Group, h: real, steps: nat)
    requires ValidGroup(hp) && BoundedAt(hp, h, steps)
    ensures h + hp.wd > 0.0
    ensures h + hp.wd >= (hp.hessInit + hp.wd) / Pow(2.0, steps)
  {
    var p, a := Pow(2.0, steps), hp.hessInit + hp.wd;
    PowPositive(2.0, steps);
    var q := a / p;
    assert q * p == a;
    var z := h + hp.wd;
    assert (z - q) * p == z * p - q * p;
    NonNegative(z - q, p);
    if q <= 0.0 {
      NotPositive(q, p);
    }
  }

  lemma {:induction false} NotPositive(q: real, p: real)
    requires q <= 0.0 && p > 0.0
    ensures q * p <= 0.0
  {
    if q < 0.0 {
      Negative(q, p);
    }
  }

  lemma {:induction false} PowPositive(x: real, n: nat)
    requires x > 0.0
    ensures Pow(x, n) > 0.0
  {
    if n > 0 {
      PowPositive(x, n - 1);
      assert x * Pow(x, n - 1) > 0.0;
    }
  }

  lemma {:induction false} BoundedStep(c: Config, hp: Group, h: real, nxg: real, gsq: real, steps: nat)
    requires ValidGroup(hp) && BoundedAt(hp, h, steps)
    ensures BoundedAt(hp, NewHess(c, hp, h, nxg, gsq), steps + 1)
  {
    BoundedPositive(hp, h, steps);
    HessianHalves(c, hp, h, nxg, gsq);
    var p := Pow(2.0, steps);
    PowPositive(2.0, steps);
    var z, z' := h + hp.wd, NewHess(c, hp, h, nxg, gsq) + hp.wd;
    hide NewHess;
    assert (z' - z / 2.0) * (2.0 * p) >= 0.0;
    assert (z' - z / 2.0) * (2.0 * p) == z' * (2.0 * p) - z * p;
  }

  lemma {:induction false} UpdateBounded(c: Config, s: State, x: Statistics)
    requires ValidConfig(c) && HessBounded(c, s) && SizedStatistics(c, x)
    ensures HessBounded(c, Update(c, s, x))
  {
    hide HyperAt, NewHess, BoundedAt, Momenta, Params, ValidGroup;
    forall i | 0 <= i < Numel(c)
      ensures BoundedAt(HyperAt(c, i), Update(c, s, x).hess[i], s.step + 1)
    {
      HyperValid(c, i);
      BoundedStep(c, HyperAt(c, i), s.hess[i], x.nxg[i], x.gsq[i], s.step);
    }
  }

  lemma {:induction false} HyperValid(c: Config, i: nat)
    requires ValidConfig(c) && i < Numel(c)
    ensures ValidGroup(HyperAt(c, i))
  {
    SlotsInRange(c.groups);
  }

  lemma {:induction false} RunBounded(c: Config, s: State, events: seq<Event>)
    requires ValidConfig(c) && AtRest(c, s) && HessBounded(c, s)
    ensures HessBounded(c, Run(c, s, events).1)
    decreases |events|
  {
    if events != [] {
      var e := events[0];
      var s1 := Do(c, s, e).1;
      EventKeeps(c, s, e);
      hide Do, Update;
      if Steps(c, e) {
        var x :| SizedStatistics(c, x) && s1 == Update(c, s, x).(generator := s1.generator);
        UpdateBounded(c, s, x);
      }
      RunBounded(c, s1, events[1..]);
    }
  }

  /**
   Over any run from the start, with any gradients, hess + weight_decay of an element that is still
   a number never falls below (hess_init + weight_decay) / 2^steps; so its divisors and arguments of
   square roots are positive.
   */
  lemma {:induction false} HessianStaysPositive(c: Config, theta: seq<real>, seed: nat, events: seq<Event>, i: nat)
    requires ValidConfig(c) && |theta| == Numel(c) && i < Numel(c)
    ensures var r := Run(c, Init(c, theta, seed), events).1;
            var hp := HyperAt(c, i);
            c.isotropic || i !in r.lost ==>
            && Pow(2.0, r.step) > 0.0
            && r.hess[i] + hp.wd >= (hp.hessInit + hp.wd) / Pow(2.0, r.step) > 0.0
            && Precision(hp, c.isotropic, r.hess[i]) > 0.0
            && c.sqrt(Precision(hp, c.isotropic, r.hess[i])) > 0.0
  {
    hide Run, HyperAt, Init, AtRest, BoundedAt, Pow;
    var s := Init(c, theta, seed);
    InitBounded(c, theta, seed);
    RunBounded(c, s, events);
    HyperValid(c, i);
    BoundsAt(c, HyperAt(c, i), Run(c, s, events).1.hess[i], Run(c, s, events).1.step);
  }

  lemma {:induction false} BoundsAt(c: Config, hp: Group, h: real, steps: nat)
    requires ValidGroup(hp) && BoundedAt(hp, h, steps) && forall x :: x > 0.0 ==> c.sqrt(x) > 0.0
    ensures Pow(2.0, steps) > 0.0
    ensures h + hp.wd >= (hp.hessInit + hp.wd) / Pow(2.0, steps) > 0.0
    ensures Precision(hp, c.isotropic, h) > 0.0 && c.sqrt(Precision(hp, c.isotropic, h)) > 0.0
  {
    BoundedPositive(hp, h, steps);
    PowPositive(2.0, steps);
    Fraction(hp.hessInit + hp.wd, Pow(2.0, steps));
    Product(hp.ess, (if c.isotropic then hp.hessInit else h) + hp.wd);
  }

  lemma {:induction false} InitBounded(c: Config, theta: seq<real>, seed: nat)
    requires ValidConfig(c) && |theta| == Numel(c)
    ensures AtRest(c, Init(c, theta, seed)) && HessBounded(c, Init(c, theta, seed))
  {
    hide HyperAt;
  }

  lemma {:induction false} InitAt(c: Config, theta: seq<real>, seed: nat, i: nat)
    requires |theta| == Numel(c) && i < Numel(c)
    ensures var s := Init(c, theta, seed); AtRest(c, s) && Pending(c, s, []) && s.momentum[i] == 0.0 && s.step == 0
  {
    hide HyperAt;
  }

  lemma {:induction false} Fraction(a: real, b: real)
    requires a > 0.0 && b > 0.0
    ensures a / b > 0.0
  {
    var q := a / b;
    assert q * b == a;
    if q <= 0.0 {
      NotPositive(q, b);
    }
  }

  lemma {:induction false} Product(a: real, b: real)
    requires a > 0.0 && b > 0.0
    ensures a * b > 0.0
  {
  }

  /** The divisor of the bias correction is positive exactly when beta1 is below one. */
  lemma {:induction false} DebiasPositive(beta1: real, t: nat)
    requires 0.0 <= beta1 <= 1.0 && t > 0
    ensures 1.0 - Pow(beta1, t) > 0.0 <==> beta1 < 1.0
    ensures 0.0 <= Pow(beta1, t) <= 1.0
  {
    if t > 1 {
      DebiasPositive(beta1, t - 1);
    }
    var p := Pow(beta1, t - 1);
    assert 0.0 <= p <= 1.0;
    Shrink(beta1, p);
  }

  lemma {:induction false} Shrink(b: real, p: real)
    requires 0.0 <= b <= 1.0 && 0.0 <= p <= 1.0
    ensures 0.0 <= b * p <= b
  {
    assert b * (1.0 - p) >= 0.0;
  }

  // ---------- what stays a number ----------

  /** Bias correction is on for an element whose beta1 is one. */
  predicate Undamped(c: Config, i: nat)
    requires i < Numel(c)
  {
    c.debias && HyperAt(c, i).beta1 == 1.0
  }

  lemma {:induction false} ZeroDivisorIff(c: Config, t: nat, i: nat)
    requires ValidConfig(c) && t > 0 && i < Numel(c)
    ensures i in ZeroDivisors(c, t) <==> Undamped(c, i)
  {
    hide HyperAt, Pow, ValidGroup;
    HyperValid(c, i);
    DebiasPositive(HyperAt(c, i).beta1, t) by {
      assert ValidGroup(HyperAt(c, i)) && 0.0 <= HyperAt(c, i).beta1 <= 1.0;
    }
  }

  /** What one event does to element i: holes wait in the accumulators until a step takes them over. */
  lemma {:induction false} EventNumbers(c: Config, s: State, e: Event, i: nat)
    requires ValidConfig(c) && AtRest(c, s) && i < Numel(c)
    ensures var (error, s1) := Do(c, s, e);
            && error.None? && AtRest(c, s1)
            && s1.step == s.step + (if Steps(c, e) then 1 else 0)
            && (i in s1.holes <==> !Steps(c, e) && (i in s.holes || (!c.single && Spoils(c, e, i))))
            && (i in s1.lost <==> i in s.lost || (Steps(c, e) && i in s.holes))
            && (i in s1.nan <==>
                  i in s.nan || (Steps(c, e) && (i in s.lost || i in s.holes || Undamped(c, i))))
  {
    EventKeeps(c, s, e);
    hide Do, HyperAt, Undamped, Update, Slots, Total, HolesIn, NormFinite, ValidConfig;
    if Steps(c, e) {
      var s1 := Do(c, s, e).1;
      var x :| SizedStatistics(c, x) && x.holes == s.holes && s1 == Update(c, s, x).(generator := s1.generator);
      UpdateNumbers(c, s, x, i);
    }
  }

  lemma {:induction false} UpdateNumbers(c: Config, s: State, x: Statistics, i: nat)
    requires ValidConfig(c) && Shaped(c, s) && SizedStatistics(c, x) && i < Numel(c)
    ensures var r := Update(c, s, x);
            && r.step == s.step + 1 && r.holes == {}
            && (i in r.lost <==> i in s.lost || i in x.holes)
            && (i in r.nan <==> i in s.nan || i in s.lost || i in x.holes || Undamped(c, i))
  {
    ZeroDivisorIff(c, s.step + 1, i);
    hide HyperAt, Undamped, ZeroDivisors, Momenta, Hessians, Params, Slots, Total, ValidConfig;
  }

  /** Some event takes a step. */
  predicate Stepped(c: Config, events: seq<Event>) {
    exists k :: 0 <= k < |events| && Steps(c, events[k])
  }

  /** The gradient of element i is not finite in a training step, and a later one takes a step. */
  predicate Poisoned(c: Config, events: seq<Event>, i: nat) {
    exists j, k :: 0 <= j < k < |events| && Spoils(c, events[j], i) && Steps(c, events[k])
  }

  lemma {:induction false} FirstStepped(c: Config, events: seq<Event>)
    requires events != []
    ensures Stepped(c, events) <==> Steps(c, events[0]) || Stepped(c, events[1..])
  {
    hide Steps;
    var rest := events[1..];
    assert forall k :: 0 <= k < |rest| ==> rest[k] == events[k + 1];
    if Stepped(c, events) {
      var k :| 0 <= k < |events| && Steps(c, events[k]);
      assert k > 0 ==> rest[k - 1] == events[k];
    }
  }

  lemma {:induction false} FirstPoisoned(c: Config, events: seq<Event>, i: nat)
    requires events != []
    ensures Poisoned(c, events, i) <==>
              Poisoned(c, events[1..], i) || (Spoils(c, events[0], i) && Stepped(c, events[1..]))
  {
    hide Steps, Spoils;
    var rest := events[1..];
    assert forall k :: 0 <= k < |rest| ==> rest[k] == events[k + 1];
    if Poisoned(c, events, i) {
      var j, k :| 0 <= j < k < |events| && Spoils(c, events[j], i) && Steps(c, events[k]);
      assert rest[k - 1] == events[k];
      assert j > 0 ==> rest[j - 1] == events[j];
    }
    if Poisoned(c, rest, i) {
      var j, k :| 0 <= j < k < |rest| && Spoils(c, rest[j], i) && Steps(c, rest[k]);
      assert events[j + 1] == rest[j] && events[k + 1] == rest[k];
    }
  }

  lemma {:induction false} RunNumbers(c: Config, s: State, events: seq<Event>, i: nat)
    requires ValidConfig(c) && AtRest(c, s) && i < Numel(c)
    ensures var r, stepped := Run(c, s, events).1, Stepped(c, events);
            var poisoned := (stepped && i in s.holes) || (!c.single && Poisoned(c, events, i));
            && r.step >= s.step && (r.step > s.step <==> stepped)
            && (i in r.lost <==> i in s.lost || poisoned)
            && (i in r.nan <==> i in s.nan || poisoned || (stepped && (i in s.lost || Undamped(c, i))))
    decreases |events|
  {
    hide Do, Undamped, ValidConfig, Slots, Total, Steps, Spoils;
    if events != [] {
      FirstStepped(c, events);
      FirstPoisoned(c, events, i);
      hide Stepped, Poisoned;
      EventNumbers(c, s, events[0], i);
      NoStepSpoils(c, events[0], i);
      RunNumbers(c, Do(c, s, events[0]).1, events[1..], i);
    }
  }

  lemma {:induction false} NoStepSpoils(c: Config, e: Event, i: nat)
    ensures !(Steps(c, e) && Spoils(c, e, i))
  {
  }

  /**
   Over any run the momentum of an element is lost exactly when, in the buffered path, some training
   step had a gradient that is not finite there and a later one was not skipped: skipping keeps the
   bad sample in the running mean. The parameter is lost with it, and also by a step with bias
   correction and a beta1 of one.
   */
  lemma {:induction false} NotANumberIff(c: Config, theta: seq<real>, seed: nat, events: seq<Event>, i: nat)
    requires ValidConfig(c) && |theta| == Numel(c) && i < Numel(c)
    ensures var r := Run(c, Init(c, theta, seed), events).1;
            && (i in r.lost <==> !c.single && Poisoned(c, events, i))
            && (i in r.nan <==> i in r.lost || (Stepped(c, events) && Undamped(c, i)))
  {
    InitBounded(c, theta, seed);
    RunNumbers(c, Init(c, theta, seed), events, i);
    hide Run, Undamped, Stepped, Poisoned;
  }

  // ---------- momentum is a weighted mean ----------

  /**
   The gradients that the steps of a run use, when the samples with gradients `pool` are pending: in
   the fast path the last one, otherwise the mean over all samples since the last step.
   */
  function StepGradients(c: Config, pool: seq<seq<real>>, events: seq<Event>): seq<seq<real>>
    decreases |events|
  {
    if events == [] then []
    else
      match events[0]
      case Evaluate => StepGradients(c, pool, events[1..])
      case Train(grads, finite) =>
        var more := if c.single then [Grad(c, grads)] else pool + [Grad(c, grads)];
        if NormFinite(c, grads, finite) then [MeanOf(Numel(c), more)] + StepGradients(c, [], events[1..])
        else StepGradients(c, if c.single then [] else more, events[1..])
  }

  /** Element i of all vectors. */
  function Column(vs: seq<seq<real>>, i: nat): (r: seq<real>)
    ensures |r| == |vs|
  {
    seq(|vs|, j requires 0 <= j < |vs| => if i < |vs[j]| then vs[j][i] else 0.0)
  }

  function MomentumOver(hp: Group, m: real, gs: seq<real>): real
    decreases |gs|
  {
    if gs == [] then m else MomentumOver(hp, NewMomentum(hp, m, gs[0]), gs[1..])
  }

  /** The weight of gradient j out of n is (1 - b) * b^(n - 1 - j). */
  function Weights(b: real, n: nat): (r: seq<real>)
    ensures |r| == n
  {
    if n == 0 then [] else [(1.0 - b) * Pow(b, n - 1)] + Weights(b, n - 1)
  }

  function Dot(ws: seq<real>, gs: seq<real>): real
    requires |ws| == |gs|
  {
    if ws == [] then 0.0 else ws[0] * gs[0] + Dot(ws[1..], gs[1..])
  }

  function SumOf(ws: seq<real>): real {
    if ws == [] then 0.0 else ws[0] + SumOf(ws[1..])
  }

  lemma {:induction false} MomentumIsDot(hp: Group, m: real, gs: seq<real>)
    ensures MomentumOver(hp, m, gs) == Pow(hp.beta1, |gs|) * m + Dot(Weights(hp.beta1, |gs|), gs)
    decreases |gs|
  {
    if gs != [] {
      MomentumUnfold(hp, m, gs);
      hide Pow, Dot, Weights, MomentumOver;
      var b, p, g := hp.beta1, Pow(hp.beta1, |gs| - 1), gs[0];
      MomentumIsDot(hp, NewMomentum(hp, m, g), gs[1..]);
      Distribute(p, b, m, 1.0 - b, g);
    }
  }

  lemma {:induction false} MomentumUnfold(hp: Group, m: real, gs: seq<real>)
    requires gs != []
    ensures MomentumOver(hp, m, gs) == MomentumOver(hp, NewMomentum(hp, m, gs[0]), gs[1..])
    ensures var b, n := hp.beta1, |gs| - 1;
            && Pow(b, n + 1) == b * Pow(b, n)
            && Dot(Weights(b, n + 1), gs) == (1.0 - b) * Pow(b, n) * gs[0] + Dot(Weights(b, n), gs[1..])
  {
    assert Weights(hp.beta1, |gs|)[1..] == Weights(hp.beta1, |gs| - 1);
    hide NewMomentum;
  }

  lemma {:induction false} Distribute(p: real, b: real, m: real, d: real, g: real)
    ensures p * (b * m + d * g) == b * p * m + d * p * g
  {
  }

  lemma {:induction false} WeightsSum(b: real, n: nat)
    requires 0.0 <= b <= 1.0
    ensures SumOf(Weights(b, n)) == 1.0 - Pow(b, n)
    ensures forall j :: 0 <= j < n ==> Weights(b, n)[j] >= 0.0
  {
    if n > 0 {
      WeightsSum(b, n - 1);
      assert Weights(b, n)[1..] == Weights(b, n - 1);
      if n > 1 {
        DebiasPositive(b, n - 1);
      }
      Nonneg(1.0 - b, Pow(b, n - 1));
    }
  }

  lemma {:induction false} Nonneg(a: real, b: real)
    requires a >= 0.0 && b >= 0.0
    ensures a * b >= 0.0
  {
  }

  function Abs(x: real): real {
    if x < 0.0 then -x else x
  }

  lemma {:induction false} DotBounded(ws: seq<real>, gs: seq<real>, bound: real)
    requires |ws| == |gs| && (forall j :: 0 <= j < |ws| ==> ws[j] >= 0.0)
    requires forall j :: 0 <= j < |gs| ==> Abs(gs[j]) <= bound
    ensures Abs(Dot(ws, gs)) <= SumOf(ws) * bound
  {
    hide Abs;
    DotCases(ws, gs, bound);
    hide Dot, SumOf;
    if ws != [] {
      DotBounded(ws[1..], gs[1..], bound);
      OneMoreTerm(ws[0], gs[0], SumOf(ws[1..]), Dot(ws[1..], gs[1..]), bound, SumOf(ws), Dot(ws, gs));
    }
  }

  lemma {:induction false} DotCases(ws: seq<real>, gs: seq<real>, bound: real)
    requires |ws| == |gs|
    ensures ws == [] ==> Abs(Dot(ws, gs)) <= SumOf(ws) * bound
    ensures ws != [] ==> Dot(ws, gs) == ws[0] * gs[0] + Dot(ws[1..], gs[1..]) && SumOf(ws) == ws[0] + SumOf(ws[1..])
  {
  }

  lemma {:induction false} OneMoreTerm(w: real, g: real, sum: real, dot: real, bound: real, total: real, value: real)
    requires total == w + sum && value == w * g + dot
    requires w >= 0.0 && Abs(g) <= bound && Abs(dot) <= sum * bound
    ensures Abs(value) <= total * bound
  {
    Weighted(w, g, bound);
    Split(total, w, sum, bound);
  }

  lemma {:induction false} Split(total: real, a: real, b: real, x: real)
    requires total == a + b
    ensures total * x == a * x + b * x
  {
    assert (a + b) * x == a * x + b * x;
  }

  lemma {:induction false} Weighted(w: real, g: real, bound: real)
    requires w >= 0.0 && Abs(g) <= bound
    ensures Abs(w * g) <= w * bound
  {
    Nonneg(w, bound - g);
    Nonneg(w, bound + g);
    assert w * (bound - g) == w * bound - w * g && w * (bound + g) == w * bound + w * g;
  }

  /** The momentum of an element after one event. */
  lemma {:induction false} EventMomentum(c: Config, s: State, xs: seq<Statistics>, e: Event, i: nat)
    requires AtRest(c, s) && Pending(c, s, xs) && i < Numel(c)
    ensures var (error, s1) := Do(c, s, e);
            && error.None? && AtRest(c, s1) && Pending(c, s1, After(c, s, xs, e))
            && if Steps(c, e)
               then var g := MeanOf(Numel(c), Gs(Pool(c, xs, SampleStats(c, s, e.grads))));
                    s1.step == s.step + 1
                    && s1.momentum[i] == NewMomentum(HyperAt(c, i), s.momentum[i], g[i])
               else s1.step == s.step && s1.momentum[i] == s.momentum[i]
  {
    EventEffect(c, s, xs, e);
    hide Do, HyperAt, NewMomentum, Flat, Hessians, Params, MeanOf, Gs, Nxgs, Gsqs, SampleStats, Pending, Slots, Total;
  }

  /** The gradients of the samples in the pool, and of those still pending afterwards. */
  lemma {:induction false} PoolGradients(c: Config, s: State, xs: seq<Statistics>, grads: Grads)
    requires Shaped(c, s)
    ensures var g, x := Grad(c, grads), SampleStats(c, s, grads);
            && Gs(Pool(c, xs, x)) == (if c.single then [g] else Gs(xs) + [g])
            && (forall finite :: Gs(After(c, s, xs, Train(grads, finite))) ==
                  if NormFinite(c, grads, finite) || c.single then [] else Gs(xs) + [g])
  {
    hide Noise, Mul, Flat, Zeros, Slots, Total;
    Appended(xs, SampleStats(c, s, grads));
    Appended([], SampleStats(c, s, grads));
  }

  lemma {:induction false} RunMomentum(c: Config, s: State, xs: seq<Statistics>, events: seq<Event>, i: nat)
    requires AtRest(c, s) && Pending(c, s, xs) && i < Numel(c)
    ensures var r, gs := Run(c, s, events).1, StepGradients(c, Gs(xs), events);
            && r.step == s.step + |gs|
            && r.momentum[i] == MomentumOver(HyperAt(c, i), s.momentum[i], Column(gs, i))
    decreases |events|
  {
    hide Do, HyperAt, NewMomentum, Flat, Slots, Total, MeanOf, Pending, SampleStats, Gs, Pool;
    if events != [] {
      var e := events[0];
      EventMomentum(c, s, xs, e, i);
      var s1, ys := Do(c, s, e).1, After(c, s, xs, e);
      RunMomentum(c, s1, ys, events[1..], i);
      if e.Train? {
        PoolGradients(c, s, xs, e.grads);
        if Steps(c, e) {
          var gs := StepGradients(c, Gs(xs), events);
          assert gs == [gs[0]] + StepGradients(c, [], events[1..]);
          assert Column(gs, i)[1..] == Column(gs[1..], i);
          assert Column(gs, i)[0] == gs[0][i];
        }
      }
    }
  }

  /** A mean of values within a bound is within the bound. */
  lemma {:induction false} SumBounded(vs: seq<seq<real>>, i: nat, bound: real)
    requires forall j :: 0 <= j < |vs| ==> i < |vs[j]| && Abs(vs[j][i]) <= bound
    ensures Abs(SumAt(vs, i)) <= |vs| as real * bound
  {
    if vs != [] {
      var last := |vs| - 1;
      SumBounded(vs[..last], i, bound);
      OneMoreValue(SumAt(vs[..last], i), vs[last][i], last, bound);
    }
  }

  lemma {:induction false} OneMoreValue(sum: real, x: real, k: nat, bound: real)
    requires Abs(sum) <= k as real * bound && Abs(x) <= bound
    ensures Abs(sum + x) <= (k + 1) as real * bound
  {
    Split((k + 1) as real, k as real, 1.0, bound);
  }

  lemma {:induction false} MeanBounded(n: nat, vs: seq<seq<real>>, i: nat, bound: real)
    requires vs != [] && i < n && forall j :: 0 <= j < |vs| ==> i < |vs[j]| && Abs(vs[j][i]) <= bound
    ensures Abs(MeanOf(n, vs)[i]) <= bound
  {
    SumBounded(vs, i, bound);
    Divided(SumAt(vs, i), |vs| as real, bound);
  }

  /** Step gradients are means of gradients of training steps. */
  lemma {:induction false} StepGradientsBounded(c: Config, pool: seq<seq<real>>, events: seq<Event>, i: nat,
                                                bound: real)
    requires i < Numel(c) && forall j :: 0 <= j < |pool| ==> i < |pool[j]| && Abs(pool[j][i]) <= bound
    requires forall j :: 0 <= j < |events| && events[j].Train? ==> Abs(Grad(c, events[j].grads)[i]) <= bound
    ensures forall g :: g in Column(StepGradients(c, pool, events), i) ==> Abs(g) <= bound
    decreases |events|
  {
    hide MeanOf, Abs, Flat, Slots, Total;
    if events != [] {
      assert forall j :: 0 <= j < |events| - 1 ==> events[1..][j] == events[j + 1];
      match events[0]
      case Evaluate => StepGradientsBounded(c, pool, events[1..], i, bound);
      case Train(grads, finite) =>
        var g := Grad(c, grads);
        assert Abs(g[i]) <= bound;
        var more := if c.single then [g] else pool + [g];
        if NormFinite(c, grads, finite) {
          MeanBounded(Numel(c), more, i, bound);
          StepGradientsBounded(c, [], events[1..], i, bound);
          var rest := StepGradients(c, [], events[1..]);
          assert Column([MeanOf(Numel(c), more)] + rest, i) == [MeanOf(Numel(c), more)[i]] + Column(rest, i);
        } else {
          StepGradientsBounded(c, if c.single then [] else more, events[1..], i, bound);
        }
    }
  }

  /**
   A momentum that is a number is a weighted sum of the gradients of all steps, in either path, with weights that
   add up to 1 - beta1^steps; divided by that, it is a weighted mean, so no larger than the largest
   step gradient, nor than the largest gradient of any training step.
   */
  lemma {:induction false} DebiasedMomentumIsMean(c: Config, theta: seq<real>, seed: nat, events: seq<Event>,
                                                  i: nat, bound: real)
    requires ValidConfig(c) && |theta| == Numel(c) && i < Numel(c)
    ensures var r := Run(c, Init(c, theta, seed), events).1;
            var gs, hp := Column(StepGradients(c, [], events), i), HyperAt(c, i);
            i !in r.lost ==>
            && r.step == |gs|
            && r.momentum[i] == Dot(Weights(hp.beta1, |gs|), gs)
            && SumOf(Weights(hp.beta1, |gs|)) == 1.0 - Pow(hp.beta1, r.step)
            && (forall j :: 0 <= j < |gs| ==> Weights(hp.beta1, |gs|)[j] >= 0.0)
            && (gs != [] && hp.beta1 < 1.0 && (forall g :: g in gs ==> Abs(g) <= bound) ==>
                  Abs(Quot(r.momentum[i], 1.0 - Pow(hp.beta1, r.step))) <= bound)
            && ((forall j :: 0 <= j < |events| && events[j].Train? ==> Abs(Grad(c, events[j].grads)[i]) <= bound) ==>
                  forall g :: g in gs ==> Abs(g) <= bound)
  {
    hide *;
    var s := Init(c, theta, seed);
    InitAt(c, theta, seed, i);
    RunMomentum(c, s, [], events, i);
    NoGradients();
    HyperValid(c, i);
    FoldIsMean(HyperAt(c, i), Column(StepGradients(c, [], events), i), bound);
    if forall j :: 0 <= j < |events| && events[j].Train? ==> Abs(Grad(c, events[j].grads)[i]) <= bound {
      StepGradientsBounded(c, [], events, i, bound);
    }
  }

  lemma {:induction false} NoGradients()
    ensures Gs([]) == []
  {
  }

  lemma {:induction false} FoldIsMean(hp: Group, gs: seq<real>, bound: real)
    requires ValidGroup(hp)
    ensures MomentumOver(hp, 0.0, gs) == Dot(Weights(hp.beta1, |gs|), gs)
    ensures SumOf(Weights(hp.beta1, |gs|)) == 1.0 - Pow(hp.beta1, |gs|)
    ensures forall j :: 0 <= j < |gs| ==> Weights(hp.beta1, |gs|)[j] >= 0.0
    ensures gs != [] && hp.beta1 < 1.0 && (forall g :: g in gs ==> Abs(g) <= bound) ==>
              Abs(Quot(MomentumOver(hp, 0.0, gs), 1.0 - Pow(hp.beta1, |gs|))) <= bound
  {
    hide Quot, Pow, Dot, SumOf, Weights, MomentumOver;
    MomentumIsDot(hp, 0.0, gs);
    WeightsSum(hp.beta1, |gs|);
    if gs != [] && hp.beta1 < 1.0 && (forall g :: g in gs ==> Abs(g) <= bound) {
      DotBounded(Weights(hp.beta1, |gs|), gs, bound);
      DebiasPositive(hp.beta1, |gs|);
      Divided(MomentumOver(hp, 0.0, gs), 1.0 - Pow(hp.beta1, |gs|), bound);
    }
  }

  lemma {:induction false} Divided(m: real, d: real, bound: real)
    requires d > 0.0 && Abs(m) <= d * bound
    ensures Abs(Quot(m, d)) <= bound
  {
    var q := m / d;
    assert q * d == m;
    assert (bound - q) * d == d * bound - m && (bound + q) * d == d * bound + m;
    NonNegative(bound - q, d);
    NonNegative(bound + q, d);
  }

  // ---------- a step moves a parameter by a bounded amount ----------

  lemma {:induction false} ClampBound(x: real, radius: real, rate: real)
    requires radius > 0.0 && rate >= 0.0
    ensures Abs(rate * Clamp(x, Some(radius))) <= rate * radius
  {
    Weighted(rate, Clamp(x, Some(radius)), radius);
  }

  lemma {:induction false} RateNonNegative(c: Config, hp: Group)
    requires ValidGroup(hp)
    ensures LrEff(c, hp) >= 0.0
  {
    Nonneg(hp.lr, hp.hessInit + hp.wd);
  }

  /** How far one event moves an element, as long as its parameter is a number. */
  lemma {:induction false} EventMoves(c: Config, s: State, e: Event, i: nat)
    requires ValidConfig(c) && AtRest(c, s) && i < Numel(c) && HyperAt(c, i).clip.Some?
    ensures var (error, s1) := Do(c, s, e);
            && error.None? && AtRest(c, s1)
            && s1.step == s.step + (if Steps(c, e) then 1 else 0)
            && (i in s1.nan || Abs(s1.theta[i] - s.theta[i]) <= (if Steps(c, e) then Reach(c, HyperAt(c, i)) else 0.0))
  {
    hide Do, HyperAt, Reach, Update, Slots, Total;
    var s1 := Do(c, s, e).1;
    EventKeeps(c, s, e);
    HyperValid(c, i);
    if Steps(c, e) {
      var x :| SizedStatistics(c, x) && s1 == Update(c, s, x).(generator := s1.generator);
      UpdateMoves(c, s, x, i);
    }
  }

  lemma {:induction false} UpdateMoves(c: Config, s: State, x: Statistics, i: nat)
    requires ValidConfig(c) && Shaped(c, s) && SizedStatistics(c, x) && i < Numel(c) && HyperAt(c, i).clip.Some?
    ensures var r := Update(c, s, x);
            && r.step == s.step + 1
            && (i in r.nan || Abs(r.theta[i] - s.theta[i]) <= Reach(c, HyperAt(c, i)))
  {
    hide HyperAt, Reach, Momenta, Hessians, NewParam, Slots, Total, ZeroDivisors;
    var m, h := Momenta(c, s, x.g)[i], Hessians(c, s, x.nxg, x.gsq)[i];
    HyperValid(c, i);
    ParamMoves(c, HyperAt(c, i), s.step + 1, s.theta[i], m, h);
  }

  /** The largest step of an element of a group with a clip radius. */
  function Reach(c: Config, hp: Group): real
    requires hp.clip.Some?
  {
    LrEff(c, hp) * hp.clip.value
  }

  lemma {:induction false} ParamMoves(c: Config, hp: Group, t: nat, p: real, m: real, h: real)
    requires ValidGroup(hp) && hp.clip.Some?
    ensures Abs(NewParam(c, hp, t, p, m, h) - p) <= Reach(c, hp)
  {
    hide Direction, Clamp, LrEff;
    RateNonNegative(c, hp);
    ClampBound(Direction(c, hp, t, p, m, h), hp.clip.value, LrEff(c, hp));
    assert hp.clip == Some(hp.clip.value);
  }

  /**
   Over a run a parameter element that stays a number moves at most lr_eff * clip_radius per step
   that was not skipped.
   */
  lemma {:induction false} RunMoves(c: Config, s: State, events: seq<Event>, i: nat)
    requires ValidConfig(c) && AtRest(c, s) && i < Numel(c) && HyperAt(c, i).clip.Some?
    ensures var r := Run(c, s, events).1;
            && r.step >= s.step
            && (i in r.nan || Abs(r.theta[i] - s.theta[i]) <= (r.step - s.step) as real * Reach(c, HyperAt(c, i)))
    decreases |events|
  {
    hide Do, HyperAt, Reach, ValidConfig, Slots, Total, Stepped, Poisoned, Undamped;
    if events == [] {
      assert (s.step - s.step) as real * Reach(c, HyperAt(c, i)) == 0.0;
    } else {
      EventMoves(c, s, events[0], i);
      var s1 := Do(c, s, events[0]).1;
      RunNumbers(c, s1, events[1..], i);
      RunMoves(c, s1, events[1..], i);
      var r := Run(c, s1, events[1..]).1;
      var reach := Reach(c, HyperAt(c, i));
      OneMore((r.step - s1.step) as real, reach);
    }
  }

  lemma {:induction false} OneMore(k: real, reach: real)
    ensures (k + 1.0) * reach == k * reach + reach
  {
  }
}
