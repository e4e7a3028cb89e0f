/**
 The IVON optimizer on values, over the reals. The noise of a sample is never stored: it is drawn
 again, parameter by parameter, from the generator state saved when the sample was taken.
 */
module IvonModel {
  import opened Wrappers

  /** The hyperparameters of a parameter group and the sizes of its parameters; no clip is an infinite radius. */
  datatype Group = Group(lr: real, ess: real, beta1: real, beta2: real, wd: real, hessInit: real,
                         clip: Option<real>, sizes: seq<nat>)

  /**
   `single` is train_mc_samples == 1, mc_samples == 1 and no sync; `price` chooses between the two
   Hessian estimates. `randn(st, n, i)` is value i of a call for n values in generator state `st`,
   and `next(st, n)` the state after that call.
   */
  datatype Config = Config(groups: seq<Group>, single: bool, price: bool, isotropic: bool, debias: bool,
                           rescaleLr: bool, randn: (nat, nat, nat) -> real, next: (nat, nat) -> nat,
                           sqrt: real -> real)

  /** What __init__ checks, and what a square root of a positive number is. */
  ghost predicate ValidConfig(c: Config) {
    && (forall g :: 0 <= g < |c.groups| ==> ValidGroup(c.groups[g]))
    && (forall x :: x > 0.0 ==> c.sqrt(x) > 0.0 && c.sqrt(x) * c.sqrt(x) == x)
  }

  predicate ValidGroup(g: Group) {
    && g.lr >= 0.0 && g.ess > 0.0 && g.wd >= 0.0 && g.hessInit > 0.0
    && 0.0 <= g.beta1 <= 1.0 && 0.0 <= g.beta2 <= 1.0
    && (g.clip.Some? ==> g.clip.value > 0.0)
  }

  // ---------- the canonical order of parameters ----------

  /** What _local_params yields: the group, the size and the offset within the group. */
  datatype Slot = Slot(group: nat, size: nat, goffset: nat)

  function Sum(sizes: seq<nat>): nat {
    if sizes == [] then 0 else Sum(sizes[..|sizes| - 1]) + sizes[|sizes| - 1]
  }

  function GroupSlots(group: nat, sizes: seq<nat>): seq<Slot> {
    if sizes == [] then []
    else
      var last := |sizes| - 1;
      GroupSlots(group, sizes[..last]) + [Slot(group, sizes[last], Sum(sizes[..last]))]
  }

  function Slots(groups: seq<Group>): seq<Slot> {
    if groups == [] then []
    else
      var last := |groups| - 1;
      Slots(groups[..last]) + GroupSlots(last, groups[last].sizes)
  }

  function Total(slots: seq<Slot>): nat {
    if slots == [] then 0 else Total(slots[..|slots| - 1]) + slots[|slots| - 1].size
  }

  /** Where the buffers of a group start when those of all groups lie side by side. */
  function Base(groups: seq<Group>, group: nat): nat
    requires group <= |groups|
  {
    if group == 0 then 0 else Base(groups, group - 1) + Sum(groups[group - 1].sizes)
  }

  function Numel(c: Config): nat {
    Total(Slots(c.groups))
  }

  /** The group that owns element i. */
  function GroupAt(slots: seq<Slot>, i: nat): (g: nat)
    requires i < Total(slots)
    ensures exists k :: 0 <= k < |slots| && g == slots[k].group
  {
    var last := |slots| - 1;
    if i < Total(slots[..last]) then
      var g := GroupAt(slots[..last], i);
      var k :| 0 <= k < last && g == slots[..last][k].group;
      assert slots[k].group == g;
      g
    else slots[last].group
  }

  lemma {:induction false} SlotsInRange(groups: seq<Group>)
    ensures forall k :: 0 <= k < |Slots(groups)| ==> Slots(groups)[k].group < |groups|
  {
    if groups != [] {
      var last := |groups| - 1;
      SlotsInRange(groups[..last]);
      OneGroup(last, groups[last].sizes);
    }
  }

  lemma {:induction false} OneGroup(group: nat, sizes: seq<nat>)
    ensures forall k :: 0 <= k < |GroupSlots(group, sizes)| ==> GroupSlots(group, sizes)[k].group == group
  {
    if sizes != [] {
      OneGroup(group, sizes[..|sizes| - 1]);
    }
  }

  function HyperAt(c: Config, i: nat): Group
    requires i < Numel(c)
  {
    SlotsInRange(c.groups);
    c.groups[GroupAt(Slots(c.groups), i)]
  }

  // ---------- noise ----------

  function Draw(c: Config, st: nat, n: nat): seq<real> {
    seq(n, i requires 0 <= i < n => c.randn(st, n, i))
  }

  /** One randn call per parameter, in order: the values and the state of the generator afterwards. */
  function Raw(c: Config, slots: seq<Slot>, st: nat): (r: (seq<real>, nat))
    ensures |r.0| == Total(slots)
  {
    if slots == [] then ([], st)
    else
      var last := |slots| - 1;
      var (z, mid) := Raw(c, slots[..last], st);
      (z + Draw(c, mid, slots[last].size), c.next(mid, slots[last].size))
  }

  /** a / b; all divisors but the one of the bias correction are proved positive. */
  function Quot(a: real, b: real): real {
    if b == 0.0 then 0.0 else a / b
  }

  /** The precision of the noise: from the Hessian, or from its initial value. */
  function Precision(hp: Group, isotropic: bool, h: real): real {
    hp.ess * ((if isotropic then hp.hessInit else h) + hp.wd)
  }

  /** _draw_noise, one element */
  function NoiseAt(c: Config, hp: Group, h: real, z: real): real {
    Quot(z, c.sqrt(Precision(hp, c.isotropic, h)))
  }

  function Noise(c: Config, hess: seq<real>, st: nat): (noise: seq<real>)
    requires |hess| == Numel(c)
    ensures |noise| == Numel(c)
  {
    var z := Raw(c, Slots(c.groups), st).0;
    seq(Numel(c), i requires 0 <= i < Numel(c) => NoiseAt(c, HyperAt(c, i), hess[i], z[i]))
  }

  // ---------- gradients ----------

  /** An entry of a gradient: a real number, or an infinity or NaN. */
  datatype Entry = Number(x: real) | NotFinite

  /** `p.grad` of every parameter; a missing gradient counts as zero. */
  type Grads = seq<Option<seq<Entry>>>

  function EntryOf(grads: Grads, k: nat, i: nat): Entry {
    if k < |grads| && grads[k].Some? && i < |grads[k].value| then grads[k].value[i] else Number(0.0)
  }

  /** What the vectors of the model hold for an entry; what it stands for if it is not finite is kept apart. */
  function GradOf(grads: Grads, k: nat, i: nat): real {
    var entry := EntryOf(grads, k, i);
    if entry.Number? then entry.x else 0.0
  }

  function Flat(slots: seq<Slot>, grads: Grads): (g: seq<real>)
    ensures |g| == Total(slots)
  {
    if slots == [] then []
    else
      var last := |slots| - 1;
      Flat(slots[..last], grads) + seq(slots[last].size, i requires 0 <= i < slots[last].size => GradOf(grads, last, i))
  }

  function Grad(c: Config, grads: Grads): (g: seq<real>)
    ensures |g| == Numel(c)
  {
    Flat(Slots(c.groups), grads)
  }

  /** The elements whose gradient entry is not finite. */
  function HolesIn(slots: seq<Slot>, grads: Grads): set<nat> {
    if slots == [] then {}
    else
      var last := |slots| - 1;
      HolesIn(slots[..last], grads)
        + set i | 0 <= i < slots[last].size && EntryOf(grads, last, i).NotFinite? :: Total(slots[..last]) + i
  }

  function Holes(c: Config, grads: Grads): set<nat> {
    HolesIn(Slots(c.groups), grads)
  }

  // ---------- state ----------

  /**
   Vectors are real; three sets say which of their elements are infinite or NaN in the program:
   `holes` those of the accumulators, `lost` those of momentum and Hessian (a frozen Hessian stays
   finite), `nan` those of the parameters.
   */
  datatype State = State(theta: seq<real>, momentum: seq<real>, hess: seq<real>,
                         avgGrad: Option<seq<real>>, avgNxg: Option<seq<real>>, avgGsq: Option<seq<real>>,
                         count: nat, genState: Option<nat>, generator: nat, noised: bool, step: nat,
                         holes: set<nat>, lost: set<nat>, nan: set<nat>)

  datatype Error =
    | NoNoiseSample // assertion in _regen_generator
    | TwoSamples    // assertion in _restore_param_average
    | SampleCount   // RuntimeError in _update
    | NoStatistics  // subscript of a missing accumulator

  predicate Sized(c: Config, buffer: Option<seq<real>>) {
    buffer.Some? ==> |buffer.value| == Numel(c)
  }

  predicate Shaped(c: Config, s: State) {
    && |s.theta| == Numel(c) && |s.momentum| == Numel(c) && |s.hess| == Numel(c)
    && Sized(c, s.avgGrad) && Sized(c, s.avgNxg) && Sized(c, s.avgGsq)
  }

  function Init(c: Config, theta: seq<real>, seed: nat): (s: State)
    requires |theta| == Numel(c)
    ensures Shaped(c, s)
  {
    var n := Numel(c);
    State(theta, seq(n, _ => 0.0), seq(n, i requires 0 <= i < n => HyperAt(c, i).hessInit),
          None, None, None, 0, None, seed, false, 0, {}, {}, {})
  }

  // ---------- sample ----------

  function Plus(a: seq<real>, b: seq<real>): (r: seq<real>)
    requires |a| == |b|
    ensures |r| == |a|
  {
    seq(|a|, i requires 0 <= i < |a| => a[i] + b[i])
  }

  function Minus(a: seq<real>, b: seq<real>): (r: seq<real>)
    requires |a| == |b|
    ensures |r| == |a|
  {
    seq(|a|, i requires 0 <= i < |a| => a[i] - b[i])
  }

  function Prod(x: real, y: real): real {
    x * y
  }

  function Mul(a: seq<real>, b: seq<real>): (r: seq<real>)
    requires |a| == |b|
    ensures |r| == |a|
  {
    seq(|a|, i requires 0 <= i < |a| => Prod(a[i], b[i]))
  }

  /** _sample_params */
  function Sample(c: Config, s: State): (r: State)
    requires Shaped(c, s)
    ensures Shaped(c, r)
  {
    if s.noised then s
    else s.(count := if c.single then 0 else s.count,
            genState := Some(s.generator),
            generator := Raw(c, Slots(c.groups), s.generator).1,
            theta := Plus(s.theta, Noise(c, s.hess, s.generator)),
            noised := true)
  }

  // ---------- restore ----------

  function Zeros(n: nat): (r: seq<real>)
    ensures |r| == n
  {
    seq(n, _ => 0.0)
  }

  function OrZeros(buffer: Option<seq<real>>, n: nat): seq<real> {
    if buffer.Some? then buffer.value else Zeros(n)
  }

  /** In-place Welford: avg += (new - avg) / count */
  function Welford(avg: seq<real>, x: seq<real>, count: nat): (r: seq<real>)
    requires |avg| == |x| && count > 0
    ensures |r| == |avg|
  {
    seq(|avg|, i requires 0 <= i < |avg| => avg[i] + (x[i] - avg[i]) / count as real)
  }

  predicate UsesNxg(c: Config) {
    !c.isotropic && c.price
  }

  predicate UsesGsq(c: Config) {
    !c.isotropic && !c.price
  }

  /** The accumulators are allocated at the first sample. */
  function Allocate(c: Config, s: State): (r: State)
    requires Shaped(c, s)
    ensures Shaped(c, r)
  {
    var n := Numel(c);
    s.(avgGrad := Some(OrZeros(s.avgGrad, n)),
       avgNxg := if UsesNxg(c) then Some(OrZeros(s.avgNxg, n)) else s.avgNxg,
       avgGsq := if UsesGsq(c) then Some(OrZeros(s.avgGsq, n)) else s.avgGsq)
  }

  /** A running mean stays without value once it has taken in an infinity or NaN. */
  function Accumulate(c: Config, s: State, noise: seq<real>, g: seq<real>, holes: set<nat>): (r: State)
    requires Shaped(c, s) && s.count > 0 && |noise| == Numel(c) && |g| == Numel(c)
    ensures Shaped(c, r)
  {
    var n := Numel(c);
    s.(avgGrad := Some(Welford(OrZeros(s.avgGrad, n), g, s.count)),
       avgNxg := if UsesNxg(c) then Some(Welford(OrZeros(s.avgNxg, n), Mul(noise, g), s.count)) else s.avgNxg,
       avgGsq := if UsesGsq(c) then Some(Welford(OrZeros(s.avgGsq, n), Mul(g, g), s.count)) else s.avgGsq,
       holes := s.holes + holes)
  }

  /** The first half of _restore_param_average: the sample is counted, the accumulators allocated. */
  function CountSample(c: Config, s: State, train: bool): (r: (Option<Error>, State))
    requires Shaped(c, s)
    ensures Shaped(c, r.1)
  {
    var s1 := if train then s.(count := s.count + 1) else s;
    if train && c.single && s1.count != 1 then (Some(TwoSamples), s1)
    else
      (if s.genState.None? then Some(NoNoiseSample) else None, if train && !c.single then Allocate(c, s1) else s1)
  }

  /** The second half: the noise is regenerated, taken back and, if asked for, accumulated. */
  function TakeBack(c: Config, s: State, accumulate: bool, grads: Grads): (r: State)
    requires Shaped(c, s) && s.genState.Some? && (accumulate ==> s.count > 0)
    ensures Shaped(c, r)
  {
    var noise := Noise(c, s.hess, s.genState.value);
    var s1 := if accumulate then Accumulate(c, s, noise, Grad(c, grads), Holes(c, grads)) else s;
    s1.(theta := Minus(s.theta, noise), noised := false)
  }

  /** _restore_param_average */
  function Restore(c: Config, s: State, train: bool, grads: Grads): (r: (Option<Error>, State))
    requires Shaped(c, s)
    ensures Shaped(c, r.1)
  {
    if !s.noised then (None, s)
    else
      var (error, s1) := CountSample(c, s, train);
      if error.Some? then (error, s1) else (None, TakeBack(c, s1, train && !c.single, grads))
  }

  // ---------- step ----------

  function Pow(x: real, n: nat): real {
    if n == 0 then 1.0 else x * Pow(x, n - 1)
  }

  function Debias(c: Config, hp: Group, t: nat): real {
    if c.debias then 1.0 - Pow(hp.beta1, t) else 1.0
  }

  function LrEff(c: Config, hp: Group): real {
    if c.rescaleLr then hp.lr * (hp.hessInit + hp.wd) else hp.lr
  }

  function Clamp(x: real, radius: Option<real>): real {
    if radius.None? then x
    else if x < -radius.value then -radius.value
    else if x > radius.value then radius.value
    else x
  }

  /** momentum <- beta1 * m + (1 - beta1) * grad */
  function NewMomentum(hp: Group, m: real, g: real): real {
    hp.beta1 * m + (1.0 - hp.beta1) * g
  }

  /** The curvature estimate: ess * (h + wd) * noise * grad, or ess * grad^2. */
  function Curvature(c: Config, hp: Group, h: real, nxg: real, gsq: real): real {
    if c.price then nxg * (h + hp.wd) * hp.ess else gsq * hp.ess
  }

  function Square(x: real): real {
    x * x
  }

  /** 0.5 * (1 - b2)^2 * (h - f)^2 / (h + wd) */
  function Correction(hp: Group, h: real, f: real): real {
    0.5 * Square(1.0 - hp.beta2) * Quot(Square(h - f), h + hp.wd)
  }

  /** b2 * h + (1 - b2) * f, and the correction */
  function Corrected(hp: Group, h: real, f: real): real {
    hp.beta2 * h + (1.0 - hp.beta2) * f + Correction(hp, h, f)
  }

  /** The Hessian after an update; frozen in the isotropic mode. */
  function NewHess(c: Config, hp: Group, h: real, nxg: real, gsq: real): real {
    if c.isotropic then h else Corrected(hp, h, Curvature(c, hp, h, nxg, gsq))
  }

  /** m / debias + wd * param: the corrected momentum and the decay */
  function Pull(c: Config, hp: Group, t: nat, p: real, m: real): real {
    Quot(m, Debias(c, hp, t)) + hp.wd * p
  }

  /** (m / debias + wd * param) / (h + wd), with the new m and h */
  function Direction(c: Config, hp: Group, t: nat, p: real, m: real, h: real): real {
    Quot(Pull(c, hp, t, p, m), h + hp.wd)
  }

  /** param <- param - lr_eff * clip(direction) */
  function NewParam(c: Config, hp: Group, t: nat, p: real, m: real, h: real): real {
    p - Prod(LrEff(c, hp), Clamp(Direction(c, hp, t, p, m, h), hp.clip))
  }

  function Momenta(c: Config, s: State, g: seq<real>): (r: seq<real>)
    requires Shaped(c, s) && |g| == Numel(c)
    ensures |r| == Numel(c)
  {
    seq(Numel(c), i requires 0 <= i < Numel(c) => NewMomentum(HyperAt(c, i), s.momentum[i], g[i]))
  }

  function Hessians(c: Config, s: State, nxg: seq<real>, gsq: seq<real>): (r: seq<real>)
    requires Shaped(c, s) && |nxg| == Numel(c) && |gsq| == Numel(c)
    ensures |r| == Numel(c)
  {
    seq(Numel(c), i requires 0 <= i < Numel(c) => NewHess(c, HyperAt(c, i), s.hess[i], nxg[i], gsq[i]))
  }

  function Params(c: Config, s: State, t: nat, m: seq<real>, h: seq<real>): (r: seq<real>)
    requires Shaped(c, s) && |m| == Numel(c) && |h| == Numel(c)
    ensures |r| == Numel(c)
  {
    seq(Numel(c), i requires 0 <= i < Numel(c) => NewParam(c, HyperAt(c, i), t, s.theta[i], m[i], h[i]))
  }

  /** The statistics an update works on: gradient, noise * gradient, gradient^2, and where these are not finite. */
  datatype Statistics = Statistics(g: seq<real>, nxg: seq<real>, gsq: seq<real>, holes: set<nat>)

  predicate SizedStatistics(c: Config, x: Statistics) {
    |x.g| == Numel(c) && |x.nxg| == Numel(c) && |x.gsq| == Numel(c)
  }

  /** The elements whose bias correction divides zero by zero; the quotient is NaN. */
  function ZeroDivisors(c: Config, t: nat): set<nat> {
    set i: nat | i < Numel(c) && Debias(c, HyperAt(c, i), t) == 0.0
  }

  /** _update for given statistics, and _reset_samples */
  function Update(c: Config, s: State, x: Statistics): (r: State)
    requires Shaped(c, s) && SizedStatistics(c, x)
    ensures Shaped(c, r)
  {
    var m := Momenta(c, s, x.g);
    var h := Hessians(c, s, x.nxg, x.gsq);
    s.(momentum := m, hess := h, theta := Params(c, s, s.step + 1, m, h), step := s.step + 1,
       count := 0, avgGrad := None, avgNxg := None, avgGsq := None, genState := None,
       holes := {}, lost := s.lost + x.holes, nan := s.nan + s.lost + x.holes + ZeroDivisors(c, s.step + 1))
  }

  /** The statistics step() finds: in single-sample mode from p.grad and the regenerated noise. */
  function Found(c: Config, s: State, grads: Grads): (r: Result<Statistics, Error>)
    requires Shaped(c, s)
    ensures r.Ok? ==> SizedStatistics(c, r.value)
  {
    var n := Numel(c);
    if c.single then
      var g := Grad(c, grads);
      if s.count != 1 then Err(SampleCount)
      else if UsesNxg(c) && s.genState.None? then Err(NoNoiseSample)
      else Ok(Statistics(g, if UsesNxg(c) then Mul(Noise(c, s.hess, s.genState.value), g) else Zeros(n),
                         if UsesGsq(c) then Mul(g, g) else Zeros(n), Holes(c, grads)))
    else if s.avgGrad.None? && Slots(c.groups) != [] then Err(NoStatistics)
    else Ok(Statistics(OrZeros(s.avgGrad, n), OrZeros(s.avgNxg, n), OrZeros(s.avgGsq, n), s.holes))
  }

  /** step(): the step counter advances even when the update is refused. */
  function Step(c: Config, s: State, grads: Grads): (r: (Option<Error>, State))
    requires Shaped(c, s)
    ensures Shaped(c, r.1)
  {
    match Found(c, s, grads)
    case Err(e) => (Some(e), s.(step := s.step + 1))
    case Ok(x) => (None, Update(c, s, x))
  }

  // ---------- training_step ----------

  predicate NormFinite(c: Config, grads: Grads, finite: bool) {
    finite && Holes(c, grads) == {}
  }

  /**
   training_step: sample, backward, restore, then step or, when the gradient norm is not finite,
   skip. `grads` is what backward produced at the sampled parameters; the norm is taken over all
   shards of the gradient, and `finite` says whether the others have left it finite.
   */
  function TrainingStep(c: Config, s: State, grads: Grads, finite: bool): (r: (Option<Error>, State))
    requires Shaped(c, s)
    ensures Shaped(c, r.1)
  {
    var (error, s1) := Restore(c, Sample(c, s), true, grads);
    if error.Some? || !NormFinite(c, grads, finite) then (error, s1) else Step(c, s1, grads)
  }

  /** sampled_params(train=False) around an evaluation */
  function Evaluation(c: Config, s: State): (r: (Option<Error>, State))
    requires Shaped(c, s)
    ensures Shaped(c, r.1)
  {
    Restore(c, Sample(c, s), false, [])
  }

  datatype Event = Train(grads: Grads, finite: bool) | Evaluate

  function Do(c: Config, s: State, e: Event): (r: (Option<Error>, State))
    requires Shaped(c, s)
    ensures Shaped(c, r.1)
  {
    match e
    case Train(grads, finite) => TrainingStep(c, s, grads, finite)
    case Evaluate => Evaluation(c, s)
  }

  /** The event takes a step: a training step that is not skipped. */
  predicate Steps(c: Config, e: Event) {
    e.Train? && NormFinite(c, e.grads, e.finite)
  }

  /** A run stops at the first error. */
  function Run(c: Config, s: State, events: seq<Event>): (r: (Option<Error>, State))
    requires Shaped(c, s)
    ensures Shaped(c, r.1)
    decreases |events|
  {
    if events == [] then (None, s)
    else
      var (error, s1) := Do(c, s, events[0]);
      if error.Some? then (error, s1) else Run(c, s1, events[1..])
  }
}
