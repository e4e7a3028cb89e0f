/** The optimizer as it runs: flat buffers updated in place, parameter by parameter. */
module IvonOptimizer {
  import opened IvonModel
  import opened IvonSlots
  import opened IvonBounds
  import opened Wrappers

  // ---------- what a pass over the parameters has reached ----------

  /** The first n elements have been brought from `before` to `target`. */
  ghost predicate Upto(now: seq<real>, before: seq<real>, target: seq<real>, n: nat) {
    && |now| == |before| == |target|
    && forall i :: 0 <= i < |now| ==> now[i] == if i < n then target[i] else before[i]
  }

  lemma {:induction false} UptoAll(now: seq<real>, before: seq<real>, target: seq<real>, n: nat)
    requires Upto(now, before, target, n) && n >= |now|
    ensures now == target
  {
  }

  /** `a` with the elements from `off` on replaced. */
  function Splice(a: seq<real>, off: nat, part: seq<real>): (r: seq<real>)
    requires off + |part| <= |a|
    ensures |r| == |a|
  {
    a[..off] + part + a[off + |part|..]
  }

  lemma {:induction false} UptoStep(before: seq<real>, target: seq<real>, now: seq<real>, off: nat, size: nat)
    requires Upto(now, before, target, off) && off + size <= |now|
    ensures now[off..off + size] == before[off..off + size]
    ensures Upto(Splice(now, off, target[off..off + size]), before, target, off + size)
  {
  }

  lemma {:induction false} PlusSlice(a: seq<real>, b: seq<real>, off: nat, size: nat)
    requires |a| == |b| && off + size <= |a|
    ensures Plus(a, b)[off..off + size] == Plus(a[off..off + size], b[off..off + size])
  {
  }

  lemma {:induction false} MinusSlice(a: seq<real>, b: seq<real>, off: nat, size: nat)
    requires |a| == |b| && off + size <= |a|
    ensures Minus(a, b)[off..off + size] == Minus(a[off..off + size], b[off..off + size])
  {
  }

  lemma {:induction false} MulSlice(a: seq<real>, b: seq<real>, off: nat, size: nat)
    requires |a| == |b| && off + size <= |a|
    ensures Mul(a, b)[off..off + size] == Mul(a[off..off + size], b[off..off + size])
  {
    hide Prod;
  }

  lemma {:induction false} WelfordAt(avg: seq<real>, x: seq<real>, count: nat, off: nat, size: nat)
    requires |avg| == |x| && count > 0 && off + size <= |x|
    ensures Welford(avg, x, count)[off..off + size] == Welford(avg[off..off + size], x[off..off + size], count)
  {
  }

  /** The first n entries of an accumulator have taken in the sample x. */
  ghost predicate TakenIn(now: Option<seq<real>>, before: Option<seq<real>>, x: seq<real>, count: nat, n: nat) {
    && count > 0 && now.Some? == before.Some?
    && (now.Some? ==> |before.value| == |x| && Upto(now.value, before.value, Welford(before.value, x, count), n))
  }

  lemma {:induction false} TakeIn(now: seq<real>, before: Option<seq<real>>, x: seq<real>, count: nat, off: nat,
                                  size: nat)
    requires TakenIn(Some(now), before, x, count, off) && off + size <= |x|
    ensures off + size <= |now|
    ensures var next := Splice(now, off, Welford(now[off..off + size], x[off..off + size], count));
            TakenIn(Some(next), before, x, count, off + size)
  {
    var target := Welford(before.value, x, count);
    UptoStep(before.value, target, now, off, size);
    WelfordAt(before.value, x, count, off, size);
    hide Upto, Splice, Welford;
  }

  lemma {:induction false} TakenNone(before: Option<seq<real>>, x: seq<real>, count: nat, n: nat, m: nat)
    requires TakenIn(None, before, x, count, n)
    ensures TakenIn(None, before, x, count, m)
  {
  }

  lemma {:induction false} TakenStart(buffer: Option<seq<real>>, x: seq<real>, count: nat)
    requires count > 0 && (buffer.Some? ==> |buffer.value| == |x|)
    ensures TakenIn(buffer, buffer, x, count, 0)
  {
  }

  lemma {:induction false} TakenAll(now: Option<seq<real>>, before: Option<seq<real>>, x: seq<real>, count: nat, n: nat)
    requires TakenIn(now, before, x, count, n) && n >= |x|
    ensures now == if before.Some? then Some(Welford(before.value, x, count)) else None
  {
    if now.Some? {
      UptoAll(now.value, before.value, Welford(before.value, x, count), n);
    }
  }

  lemma {:induction false} NumelTotal(c: Config)
    ensures Total(Slots(c.groups)) == Numel(c)
  {
  }

  lemma {:induction false} PassStart(c: Config, st: nat, before: seq<real>, target: seq<real>)
    requires |target| == |before|
    ensures Total(Slots(c.groups)[..0]) == 0
    ensures Raw(c, Slots(c.groups)[..0], st).1 == st
    ensures Upto(before, before, target, 0)
  {
  }

  /** Parameter k occupies elements off .. off + size, all of its group. */
  lemma {:induction false} SlotFacts(c: Config, k: nat)
    requires k < |Slots(c.groups)|
    ensures var slots := Slots(c.groups);
            var slot, off := slots[k], Total(slots[..k]);
            && slot.group < |c.groups|
            && Base(c.groups, slot.group) + slot.goffset == off
            && Total(slots[..k + 1]) == off + slot.size <= Numel(c)
            && forall i {:trigger HyperAt(c, i)} :: off <= i < off + slot.size ==> HyperAt(c, i) == c.groups[slot.group]
  {
    SlotAligned(c.groups, k);
    TotalNext(Slots(c.groups), k);
    var slots := Slots(c.groups);
    var slot, off := slots[k], Total(slots[..k]);
    forall i {:trigger HyperAt(c, i)} | off <= i < off + slot.size
      ensures HyperAt(c, i) == c.groups[slot.group]
    {
      OwnerAt(slots, k, i);
    }
  }

  /** The part of the noise of a sample that belongs to parameter k. */
  lemma {:induction false} NoiseFacts(c: Config, k: nat, hess: seq<real>, st: nat)
    requires k < |Slots(c.groups)| && |hess| == Numel(c)
    ensures var slots := Slots(c.groups);
            var slot, off, mid := slots[k], Total(slots[..k]), Raw(c, slots[..k], st).1;
            && slot.group < |c.groups| && off + slot.size <= Numel(c)
            && Raw(c, slots[..k + 1], st).1 == c.next(mid, slot.size)
            && Noise(c, hess, st)[off..off + slot.size]
            == NoisePart(c, c.groups[slot.group], hess[off..off + slot.size], mid)
  {
    var slots := Slots(c.groups);
    var slot, off, mid := slots[k], Total(slots[..k]), Raw(c, slots[..k], st).1;
    var z := Raw(c, slots, st).0;
    SlotFacts(c, k);
    RawNext(c, slots, k, st);
    forall j | 0 <= j < slot.size
      ensures z[off + j] == c.randn(mid, slot.size, j)
    {
      RawAt(c, slots, k, st, j);
    }
    NoiseSlice(c, hess, z, off, slot.size, c.groups[slot.group], mid);
  }

  lemma {:induction false} NoiseSlice(c: Config, hess: seq<real>, z: seq<real>, off: nat, size: nat, hp: Group,
                                      mid: nat)
    requires |hess| == |z| == Numel(c) && off + size <= Numel(c)
    requires forall i {:trigger HyperAt(c, i)} :: off <= i < off + size ==> HyperAt(c, i) == hp
    requires forall j :: 0 <= j < size ==> z[off + j] == c.randn(mid, size, j)
    ensures seq(Numel(c), i requires 0 <= i < Numel(c) => NoiseAt(c, HyperAt(c, i), hess[i], z[i]))[off..off + size]
         == NoisePart(c, hp, hess[off..off + size], mid)
  {
    hide HyperAt, NoiseAt, Slots, Total;
    forall j | 0 <= j < size
      ensures NoiseAt(c, HyperAt(c, off + j), hess[off + j], z[off + j])
           == NoiseAt(c, hp, hess[off..off + size][j], c.randn(mid, size, j))
    {
      assert HyperAt(c, off + j) == hp;
    }
  }

  lemma {:induction false} GradFacts(c: Config, k: nat, grads: Grads)
    requires k < |Slots(c.groups)|
    requires Total(Slots(c.groups)[..k]) + Slots(c.groups)[k].size <= Numel(c)
    ensures var slots := Slots(c.groups);
            var off, size := Total(slots[..k]), slots[k].size;
            Grad(c, grads)[off..off + size] == GradSlice(grads, k, size)
  {
    var slots := Slots(c.groups);
    forall j | 0 <= j < slots[k].size
      ensures Grad(c, grads)[Total(slots[..k]) + j] == GradOf(grads, k, j)
    {
      FlatAt(slots, grads, k, j);
    }
  }

  // ---------- tensor operations ----------

  class Generator {
    var state: nat

    constructor (state: nat)
      ensures this.state == state
    {
      this.state := state;
    }

    method Randn(c: Config, n: nat) returns (z: array<real>)
      modifies this
      ensures fresh(z) && z.Length == n && state == c.next(old(state), n)
      ensures forall i :: 0 <= i < n ==> z[i] == c.randn(old(state), n, i)
    {
      z := new real[n];
      for i := 0 to n
        modifies z
        invariant forall j :: 0 <= j < i ==> z[j] == c.randn(state, n, j)
      {
        z[i] := c.randn(state, n, i);
      }
      state := c.next(state, n);
    }
  }

  /** The noise of one randn call, scaled by a slice of the Hessian. */
  function NoisePart(c: Config, hp: Group, h: seq<real>, st: nat): (r: seq<real>)
    ensures |r| == |h|
  {
    seq(|h|, j requires 0 <= j < |h| => NoiseAt(c, hp, h[j], c.randn(st, |h|, j)))
  }

  /** _draw_noise */
  method DrawNoise(c: Config, hp: Group, hess: array<real>, at: nat, numel: nat, gen: Generator)
    returns (noise: array<real>)
    requires ValidConfig(c) && ValidGroup(hp) && at + numel <= hess.Length
    requires forall i :: at <= i < at + numel ==> hess[i] + hp.wd > 0.0
    modifies gen
    ensures fresh(noise) && noise.Length == numel && gen.state == c.next(old(gen.state), numel)
    ensures noise[..] == NoisePart(c, hp, hess[at..at + numel], old(gen.state))
  {
    noise := gen.Randn(c, numel);
    ghost var z := noise[..];
    for j := 0 to numel
      modifies noise
      invariant forall i :: 0 <= i < j ==> noise[i] == NoiseAt(c, hp, hess[at + i], z[i])
      invariant noise[j..] == z[j..]
    {
      ScalePositive(c, hp, hess[at + j]);
      var scale := c.sqrt(Precision(hp, c.isotropic, hess[at + j]));
      assert noise[j] == noise[j..][0] == z[j];
      noise[j] := noise[j] / scale;
      assert noise[j + 1..] == z[j..][1..] == z[j + 1..];
    }
  }

  lemma {:induction false} ScalePositive(c: Config, hp: Group, h: real)
    requires ValidConfig(c) && ValidGroup(hp) && h + hp.wd > 0.0
    ensures c.sqrt(Precision(hp, c.isotropic, h)) > 0.0
  {
    Product(hp.ess, (if c.isotropic then hp.hessInit else h) + hp.wd);
  }

  method AddSlice(a: array<real>, off: nat, x: array<real>)
    requires a != x && off + x.Length <= a.Length
    modifies a
    ensures a[..] == Splice(old(a[..]), off, Plus(old(a[off..off + x.Length]), x[..]))
  {
    for j := 0 to x.Length
      invariant forall i :: 0 <= i < a.Length ==>
                  a[i] == if off <= i < off + j then old(a[i]) + x[i - off] else old(a[i])
    {
      a[off + j] := a[off + j] + x[j];
    }
    assert a[..] == Splice(old(a[..]), off, Plus(old(a[off..off + x.Length]), x[..]));
  }

  method SubSlice(a: array<real>, off: nat, x: array<real>)
    requires a != x && off + x.Length <= a.Length
    modifies a
    ensures a[..] == Splice(old(a[..]), off, Minus(old(a[off..off + x.Length]), x[..]))
  {
    for j := 0 to x.Length
      invariant forall i :: 0 <= i < a.Length ==>
                  a[i] == if off <= i < off + j then old(a[i]) - x[i - off] else old(a[i])
    {
      a[off + j] := a[off + j] - x[j];
    }
    assert a[..] == Splice(old(a[..]), off, Minus(old(a[off..off + x.Length]), x[..]));
  }

  /** avg += (x - avg) / count on a slice */
  method WelfordSlice(avg: array<real>, off: nat, x: seq<real>, count: nat)
    requires off + |x| <= avg.Length && count > 0
    modifies avg
    ensures avg[..] == Splice(old(avg[..]), off, Welford(old(avg[off..off + |x|]), x, count))
  {
    ghost var target := Splice(avg[..], off, Welford(avg[off..off + |x|], x, count));
    for j := 0 to |x|
      invariant forall i :: 0 <= i < avg.Length ==> avg[i] == if i < off + j then target[i] else old(avg[i])
    {
      assert avg[off + j] == old(avg[off..off + |x|])[j];
      avg[off + j] := avg[off + j] + (x[j] - avg[off + j]) / count as real;
    }
  }

  method MulInPlace(a: array<real>, x: seq<real>)
    requires a.Length == |x|
    modifies a
    ensures a[..] == Mul(old(a[..]), x)
  {
    ghost var target := Mul(a[..], x);
    for j := 0 to |x|
      invariant forall i :: 0 <= i < a.Length ==> a[i] == if i < j then target[i] else old(a[i])
    {
      a[j] := a[j] * x[j];
    }
  }

  function MomentumPart(hp: Group, m: seq<real>, g: seq<real>): (r: seq<real>)
    requires |m| == |g|
    ensures |r| == |m|
  {
    seq(|m|, i requires 0 <= i < |m| => NewMomentum(hp, m[i], g[i]))
  }

  function HessPart(c: Config, hp: Group, h: seq<real>, nxg: seq<real>, gsq: seq<real>): (r: seq<real>)
    requires |h| == |nxg| == |gsq|
    ensures |r| == |h|
  {
    seq(|h|, i requires 0 <= i < |h| => NewHess(c, hp, h[i], nxg[i], gsq[i]))
  }

  function ParamPart(c: Config, hp: Group, t: nat, p: seq<real>, m: seq<real>, h: seq<real>): (r: seq<real>)
    requires |p| == |m| == |h|
    ensures |r| == |p|
  {
    seq(|p|, i requires 0 <= i < |p| => NewParam(c, hp, t, p[i], m[i], h[i]))
  }

  /** m.mul_(b1).add_(g, alpha=1 - b1) on a slice */
  method MomentumSlice(hp: Group, m: array<real>, off: nat, g: seq<real>)
    requires off + |g| <= m.Length
    modifies m
    ensures m[..] == Splice(old(m[..]), off, MomentumPart(hp, old(m[off..off + |g|]), g))
  {
    ghost var target := Splice(m[..], off, MomentumPart(hp, m[off..off + |g|], g));
    for j := 0 to |g|
      invariant forall i :: 0 <= i < m.Length ==> m[i] == if i < off + j then target[i] else old(m[i])
    {
      assert m[off + j] == old(m[off..off + |g|])[j];
      m[off + j] := hp.beta1 * m[off + j] + (1.0 - hp.beta1) * g[j];
    }
  }

  /** h.mul_(b2).add_(f, alpha=1 - b2).add_((h - f)^2 / hw, alpha=0.5 * (1 - b2)^2) on one element */
  method HessElement(c: Config, hp: Group, h: real, nxg: real, gsq: real) returns (r: real)
    requires h + hp.wd > 0.0 && !c.isotropic
    ensures r == NewHess(c, hp, h, nxg, gsq)
  {
    var hw := h + hp.wd;
    var f := if c.price then nxg * hw * hp.ess else gsq * hp.ess;
    assert f == Curvature(c, hp, h, nxg, gsq);
    var hmf := h - f;
    var ratio := hmf * hmf / hw;
    assert ratio == Quot(Square(h - f), h + hp.wd);
    var rest := 1.0 - hp.beta2;
    var correction := 0.5 * (rest * rest) * ratio;
    assert correction == Correction(hp, h, f);
    hide Correction, Curvature;
    r := hp.beta2 * h + (1.0 - hp.beta2) * f + correction;
    assert r == Corrected(hp, h, f);
  }

  /** The Hessian update on a slice. */
  method HessSlice(c: Config, hp: Group, h: array<real>, off: nat, nxg: seq<real>, gsq: seq<real>)
    requires off + |nxg| <= h.Length && |gsq| == |nxg| && !c.isotropic
    requires forall i :: off <= i < off + |nxg| ==> h[i] + hp.wd > 0.0
    modifies h
    ensures h[..] == Splice(old(h[..]), off, HessPart(c, hp, old(h[off..off + |nxg|]), nxg, gsq))
  {
    ghost var target := Splice(h[..], off, HessPart(c, hp, h[off..off + |nxg|], nxg, gsq));
    hide NewHess;
    for j := 0 to |nxg|
      invariant forall i :: 0 <= i < h.Length ==> h[i] == if i < off + j then target[i] else old(h[i])
    {
      assert h[off + j] == old(h[off..off + |nxg|])[j];
      var updated := HessElement(c, hp, h[off + j], nxg[j], gsq[j]);
      h[off + j] := updated;
    }
  }

  /** p - lr_eff * clamp((m / debias + wd * p) / (h + wd)) on one element; the state notes a zero debias. */
  method ParamElement(c: Config, hp: Group, t: nat, p: real, m: real, h: real) returns (r: real)
    requires h + hp.wd > 0.0
    ensures r == NewParam(c, hp, t, p, m, h)
  {
    var debias := if c.debias then 1.0 - Pow(hp.beta1, t) else 1.0;
    var lrEff := if c.rescaleLr then hp.lr * (hp.hessInit + hp.wd) else hp.lr;
    assert debias == Debias(c, hp, t) && lrEff == LrEff(c, hp);
    hide Debias, LrEff, Clamp;
    var corrected := if debias == 0.0 then 0.0 else m / debias;
    var pull := corrected + hp.wd * p;
    assert pull == Pull(c, hp, t, p, m);
    var upd := pull / (h + hp.wd);
    assert upd == Direction(c, hp, t, p, m, h);
    hide Direction, Pull;
    var move := lrEff * Clamp(upd, hp.clip);
    assert move == Prod(lrEff, Clamp(upd, hp.clip));
    r := p - move;
  }

  /** The parameter update on a slice, after momentum and Hessian. */
  method ParamSlice(c: Config, hp: Group, t: nat, p: array<real>, m: seq<real>, h: seq<real>, off: nat)
    requires off + |m| <= p.Length && |h| == |m|
    requires forall i :: 0 <= i < |h| ==> h[i] + hp.wd > 0.0
    modifies p
    ensures p[..] == Splice(old(p[..]), off, ParamPart(c, hp, t, old(p[off..off + |m|]), m, h))
  {
    ghost var target := Splice(p[..], off, ParamPart(c, hp, t, p[off..off + |m|], m, h));
    hide Debias, NewParam;
    for j := 0 to |m|
      invariant forall i :: 0 <= i < p.Length ==> p[i] == if i < off + j then target[i] else old(p[i])
    {
      assert p[off + j] == old(p[off..off + |m|])[j];
      var updated := ParamElement(c, hp, t, p[off + j], m[j], h[j]);
      p[off + j] := updated;
    }
  }

  function GradSlice(grads: Grads, k: nat, size: nat): (g: seq<real>)
    ensures |g| == size
  {
    seq(size, j requires 0 <= j < size => GradOf(grads, k, j))
  }

  // ---------- slices of the update ----------

  lemma {:induction false} MomentaSlice(c: Config, s: State, g: seq<real>, off: nat, size: nat, hp: Group)
    requires Shaped(c, s) && |g| == Numel(c) && off + size <= Numel(c)
    requires forall i {:trigger HyperAt(c, i)} :: off <= i < off + size ==> HyperAt(c, i) == hp
    ensures Momenta(c, s, g)[off..off + size] == MomentumPart(hp, s.momentum[off..off + size], g[off..off + size])
  {
    hide HyperAt, NewMomentum, Slots, Total;
  }

  lemma {:induction false} HessiansSlice(c: Config, s: State, nxg: seq<real>, gsq: seq<real>, off: nat, size: nat,
                                         hp: Group)
    requires Shaped(c, s) && |nxg| == |gsq| == Numel(c) && off + size <= Numel(c)
    requires forall i {:trigger HyperAt(c, i)} :: off <= i < off + size ==> HyperAt(c, i) == hp
    ensures Hessians(c, s, nxg, gsq)[off..off + size]
         == HessPart(c, hp, s.hess[off..off + size], nxg[off..off + size], gsq[off..off + size])
  {
    hide HyperAt, NewHess, Slots, Total;
  }

  lemma {:induction false} ParamsSlice(c: Config, s: State, t: nat, m: seq<real>, h: seq<real>, off: nat,
                                       size: nat, hp: Group)
    requires Shaped(c, s) && |m| == |h| == Numel(c) && off + size <= Numel(c)
    requires forall i {:trigger HyperAt(c, i)} :: off <= i < off + size ==> HyperAt(c, i) == hp
    ensures Params(c, s, t, m, h)[off..off + size]
         == ParamPart(c, hp, t, s.theta[off..off + size], m[off..off + size], h[off..off + size])
  {
    hide HyperAt, NewParam, Slots, Total;
  }

  /** A frozen Hessian is its own update. */
  lemma {:induction false} FrozenPart(c: Config, hp: Group, h: seq<real>, nxg: seq<real>, gsq: seq<real>)
    requires c.isotropic && |h| == |nxg| == |gsq|
    ensures HessPart(c, hp, h, nxg, gsq) == h
  {
  }

  lemma {:induction false} SpliceSame(a: seq<real>, off: nat, size: nat)
    requires off + size <= |a|
    ensures Splice(a, off, a[off..off + size]) == a
  {
  }

  lemma {:induction false} SpliceSlice(a: seq<real>, off: nat, part: seq<real>)
    requires off + |part| <= |a|
    ensures Splice(a, off, part)[off..off + |part|] == part
  {
  }

  /** The update keeps every divisor positive. */
  lemma {:induction false} PositivePart(c: Config, hp: Group, h: seq<real>, nxg: seq<real>, gsq: seq<real>)
    requires |h| == |nxg| == |gsq|
    requires forall i :: 0 <= i < |h| ==> h[i] + hp.wd > 0.0
    ensures forall i :: 0 <= i < |h| ==> HessPart(c, hp, h, nxg, gsq)[i] + hp.wd > 0.0
  {
    forall i | 0 <= i < |h|
      ensures HessPart(c, hp, h, nxg, gsq)[i] + hp.wd > 0.0
    {
      HessianHalves(c, hp, h[i], nxg[i], gsq[i]);
    }
  }

  lemma {:induction false} PositiveSplice(c: Config, h: seq<real>, off: nat, part: seq<real>, hp: Group)
    requires Positive(c, h) && off + |part| <= |h|
    requires forall i {:trigger HyperAt(c, i)} :: off <= i < off + |part| ==> HyperAt(c, i) == hp
    requires forall i :: 0 <= i < |part| ==> part[i] + hp.wd > 0.0
    ensures Positive(c, Splice(h, off, part))
  {
    forall i | 0 <= i < |h|
      ensures Splice(h, off, part)[i] + HyperAt(c, i).wd > 0.0
    {
      if off <= i < off + |part| {
        assert HyperAt(c, i) == hp && Splice(h, off, part)[i] == part[i - off];
      } else {
        assert Splice(h, off, part)[i] == h[i];
      }
    }
  }

  /** Regenerating a slice of noise needs only that slice of the Hessian, as it was at sampling time. */
  lemma {:induction false} NoiseIsLocal(c: Config, h0: seq<real>, h1: seq<real>, st: nat, off: nat, size: nat)
    requires |h0| == |h1| == Numel(c) && off + size <= Numel(c) && h0[off..off + size] == h1[off..off + size]
    ensures Noise(c, h0, st)[off..off + size] == Noise(c, h1, st)[off..off + size]
  {
    hide HyperAt, NoiseAt, Slots, Raw, Total;
    forall i | off <= i < off + size
      ensures h0[i] == h1[i]
    {
      assert h0[off..off + size][i - off] == h1[off..off + size][i - off];
    }
  }

  lemma {:induction false} InitPositive(c: Config, theta: seq<real>, seed: nat)
    requires ValidConfig(c) && |theta| == Numel(c)
    ensures Positive(c, Init(c, theta, seed).hess)
  {
    hide HyperAt, Slots, Total;
    forall i | 0 <= i < Numel(c)
      ensures Init(c, theta, seed).hess[i] + HyperAt(c, i).wd > 0.0
    {
      HyperValid(c, i);
    }
  }

  // ---------- the optimizer ----------

  function Values(buffer: array?<real>): Option<seq<real>>
    reads if buffer == null then {} else {buffer}
  {
    if buffer == null then None else Some(buffer[..])
  }

  class Ivon {
    const c: Config
    const theta: array<real>
    const momentum: array<real>
    const hess: array<real>
    const generator: Generator
    var avgGrad: array?<real>
    var avgNxg: array?<real>
    var avgGsq: array?<real>
    var count: nat
    var genState: Option<nat>
    var isNoised: bool
    var currentStep: nat
    var holes: set<nat>
    var lost: set<nat>
    var nan: set<nat>

    ghost function Buffers(): set<object>
      reads this
    {
      (if avgGrad == null then {} else {avgGrad}) + (if avgNxg == null then {} else {avgNxg})
        + (if avgGsq == null then {} else {avgGsq})
    }

    ghost function S(): State
      reads this, theta, momentum, hess, generator, Buffers()
    {
      State(theta[..], momentum[..], hess[..], Values(avgGrad), Values(avgNxg), Values(avgGsq),
            count, genState, generator.state, isNoised, currentStep, holes, lost, nan)
    }

    /** The arrays are separate and fit the parameters; no divisor of the Hessian is zero. */
    ghost predicate Valid()
      reads this, hess
    {
      && ValidConfig(c)
      && theta.Length == momentum.Length == hess.Length == Numel(c)
      && theta != momentum && theta != hess && momentum != hess
      && Separate(avgGrad) && Separate(avgNxg) && Separate(avgGsq)
      && (avgGrad != null ==> avgGrad != avgNxg && avgGrad != avgGsq)
      && (avgNxg != null ==> avgNxg != avgGsq)
      && (avgNxg != null <==> avgGrad != null && UsesNxg(c))
      && (avgGsq != null <==> avgGrad != null && UsesGsq(c))
      && Positive(c, hess[..])
    }

    ghost predicate Separate(buffer: array?<real>)
      reads this
    {
      buffer != null ==> buffer.Length == Numel(c) && buffer != theta && buffer != momentum && buffer != hess
    }

    constructor (c: Config, theta: array<real>, seed: nat)
      requires ValidConfig(c) && theta.Length == Numel(c)
      ensures Valid() && this.c == c && this.theta == theta && S() == Init(c, theta[..], seed)
    {
      this.c := c;
      this.theta := theta;
      momentum := new real[Numel(c)](_ => 0.0);
      hess := new real[Numel(c)](i requires 0 <= i < Numel(c) => HyperAt(c, i).hessInit);
      generator := new Generator(seed);
      avgGrad, avgNxg, avgGsq := null, null, null;
      count, genState, isNoised, currentStep := 0, None, false, 0;
      holes, lost, nan := {}, {}, {};
      new;
      InitPositive(c, theta[..], seed);
      hide HyperAt, Slots, Total, Positive, ValidConfig;
      assert hess[..] == Init(c, theta[..], seed).hess;
      assert momentum[..] == Init(c, theta[..], seed).momentum;
    }

    /** _local_params: the parameters in canonical order, with their offsets within their groups. */
    method LocalParams() returns (slots: seq<Slot>)
      ensures slots == Slots(c.groups)
    {
      slots := [];
      for g := 0 to |c.groups|
        invariant slots == Slots(c.groups[..g])
      {
        var goffset: nat := 0;
        var sizes := c.groups[g].sizes;
        ghost var before := slots;
        for j := 0 to |sizes|
          invariant goffset == Sum(sizes[..j]) && slots == before + GroupSlots(g, sizes[..j])
        {
          assert sizes[..j + 1][..j] == sizes[..j];
          slots := slots + [Slot(g, sizes[j], goffset)];
          goffset := goffset + sizes[j];
        }
        assert sizes[..|sizes|] == sizes && c.groups[..g + 1][..g] == c.groups[..g];
      }
      assert c.groups[..|c.groups|] == c.groups;
    }

    /** _sample_params */
    method SampleParams()
      requires Valid()
      modifies this`count, this`genState, this`isNoised, theta, generator
      ensures Valid() && S() == Sample(c, old(S()))
    {
      if isNoised {
        return;
      }
      if c.single && count != 0 {
        count := 0;
      }
      genState := Some(generator.state);
      AddPass();
      isNoised := true;
      hide Slots, Raw, Noise, Plus, HyperAt, Total;
    }

    /** The loop of _sample_params: one draw per parameter, added to it. */
    method AddPass()
      requires Valid()
      modifies theta, generator
      ensures theta[..] == Plus(old(theta[..]), Noise(c, hess[..], old(generator.state)))
      ensures generator.state == Raw(c, Slots(c.groups), old(generator.state)).1
    {
      var slots := LocalParams();
      var offset: nat := 0;
      ghost var st, before, h := generator.state, theta[..], hess[..];
      ghost var all := Noise(c, h, st);
      PassStart(c, st, before, Plus(before, all));
      hide *;
      for k := 0 to |slots|
        invariant offset == Total(slots[..k])
        invariant generator.state == Raw(c, slots[..k], st).1
        invariant hess[..] == h && Upto(theta[..], before, Plus(before, all), offset)
      {
        offset := AddParam(k, slots[k], offset, st, before, all);
      }
      assert slots[..|slots|] == slots;
      UptoAll(theta[..], before, Plus(before, all), offset);
    }

    /** One round of that loop. */
    method AddParam(k: nat, slot: Slot, offset: nat, ghost st: nat, ghost before: seq<real>, ghost all: seq<real>)
      returns (next: nat)
      requires Valid() && k < |Slots(c.groups)| && slot == Slots(c.groups)[k]
      requires offset == Total(Slots(c.groups)[..k]) && generator.state == Raw(c, Slots(c.groups)[..k], st).1
      requires |before| == Numel(c) && all == Noise(c, hess[..], st)
      requires Upto(theta[..], before, Plus(before, all), offset)
      modifies theta, generator
      ensures hess[..] == old(hess[..])
      ensures next == Total(Slots(c.groups)[..k + 1]) && generator.state == Raw(c, Slots(c.groups)[..k + 1], st).1
      ensures Upto(theta[..], before, Plus(before, all), next)
    {
      hide Slots, Raw, Total, Noise, HyperAt, Plus, Upto, Splice;
      SlotFacts(c, k);
      var noise := NoiseOf(k, slot, st, generator);
      UptoStep(before, Plus(before, all), theta[..], offset, slot.size);
      PlusSlice(before, all, offset, slot.size);
      AddSlice(theta, offset, noise);
      next := offset + slot.size;
    }

    /** The noise of parameter k, drawn at its place in the stream that starts in state `st`. */
    method NoiseOf(k: nat, slot: Slot, ghost st: nat, gen: Generator) returns (noise: array<real>)
      requires Valid() && k < |Slots(c.groups)| && slot == Slots(c.groups)[k]
      requires gen.state == Raw(c, Slots(c.groups)[..k], st).1
      modifies gen
      ensures fresh(noise) && noise.Length == slot.size
      ensures gen.state == Raw(c, Slots(c.groups)[..k + 1], st).1
      ensures var off := Total(Slots(c.groups)[..k]);
              off + slot.size <= Numel(c) && noise[..] == Noise(c, hess[..], st)[off..off + slot.size]
    {
      hide Slots, Raw, Total, Noise, HyperAt, NoisePart;
      SlotFacts(c, k);
      NoiseFacts(c, k, hess[..], st);
      var at := Base(c.groups, slot.group) + slot.goffset;
      PositiveSlice(c, hess[..], at, slot.size, c.groups[slot.group]);
      noise := DrawNoise(c, c.groups[slot.group], hess, at, slot.size, gen);
    }

    /** _restore_param_average */
    method RestoreParamAverage(train: bool, grads: Grads) returns (error: Option<Error>)
      requires Valid()
      modifies this`count, this`isNoised, this`avgGrad, this`avgNxg, this`avgGsq, this`holes, theta, Buffers()
      ensures Valid() && (error, S()) == Restore(c, old(S()), train, grads)
      ensures fresh(Buffers() - old(Buffers()))
      ensures error == Some(TwoSamples) <==> old(isNoised) && train && c.single && old(count) > 0
      ensures error == Some(NoNoiseSample) <==>
                old(isNoised) && old(genState).None? && !(train && c.single && old(count) > 0)
      ensures error.None? ==> !isNoised
    {
      hide IvonModel.CountSample, TakeBack, Positive, ValidConfig, Slots, Total;
      if !isNoised {
        return None;
      }
      error := CountSample(train);
      if error.None? {
        TakeBackNoise(train && !c.single, grads);
      }
    }

    method CountSample(train: bool) returns (error: Option<Error>)
      requires Valid()
      modifies this`count, this`avgGrad, this`avgNxg, this`avgGsq
      ensures Valid() && (error, S()) == IvonModel.CountSample(c, old(S()), train)
      ensures fresh(Buffers() - old(Buffers()))
      ensures error.None? ==> genState.Some? && (train && !c.single ==> avgGrad != null && count > 0)
      ensures error == Some(TwoSamples) <==> train && c.single && old(count) > 0
      ensures error == Some(NoNoiseSample) <==> genState.None? && !(train && c.single && old(count) > 0)
    {
      hide Positive, ValidConfig, Allocate, Slots, Total, Sum;
      if train {
        count := count + 1;
        if c.single {
          if count != 1 {
            return Some(TwoSamples);
          }
        } else {
          AllocateBuffers();
        }
      }
      if genState.None? {
        return Some(NoNoiseSample);
      }
      return None;
    }

    /** The lazy allocation at the first sample. */
    method AllocateBuffers()
      requires Valid()
      modifies this`avgGrad, this`avgNxg, this`avgGsq
      ensures Valid() && avgGrad != null && S() == Allocate(c, old(S()))
      ensures fresh(Buffers() - old(Buffers()))
    {
      if avgGrad == null {
        avgGrad := new real[Numel(c)](_ => 0.0);
        assert avgGrad[..] == Zeros(Numel(c));
      }
      if !c.isotropic {
        if c.price && avgNxg == null {
          avgNxg := new real[Numel(c)](_ => 0.0);
          assert avgNxg[..] == Zeros(Numel(c));
        } else if !c.price && avgGsq == null {
          avgGsq := new real[Numel(c)](_ => 0.0);
          assert avgGsq[..] == Zeros(Numel(c));
        }
      }
    }

    /** The second half of _restore_param_average. */
    method TakeBackNoise(accumulate: bool, grads: Grads)
      requires Valid() && genState.Some? && (accumulate ==> avgGrad != null && count > 0)
      modifies this`isNoised, this`holes, theta, Buffers()
      ensures Valid() && S() == TakeBack(c, old(S()), accumulate, grads) && !isNoised
    {
      hide Noise, Minus, Flat, Slots, Total, Progress, TakeBack, Raw, Positive, ValidConfig, GroupAt, Base, Sum;
      ghost var s := S();
      Regenerate(accumulate, grads, s);
      PassEnd(s, accumulate, grads);
      isNoised := false;
      if accumulate {
        holes := holes + Holes(c, grads);
      }
    }

    /** The pass with a generator of its own, put in the state in which the noise was drawn. */
    method Regenerate(accumulate: bool, grads: Grads, ghost s: State)
      requires Valid() && s == S() && s.genState.Some? && (accumulate ==> s.avgGrad.Some? && s.count > 0)
      modifies theta, Buffers()
      ensures Valid() && s == S().(theta := s.theta, avgGrad := s.avgGrad, avgNxg := s.avgNxg, avgGsq := s.avgGsq)
      ensures theta[..] == Minus(s.theta, Noise(c, s.hess, s.genState.value))
      ensures Progress(s, accumulate, Noise(c, s.hess, s.genState.value), Grad(c, grads), Numel(c))
    {
      hide Noise, Minus, Flat, Slots, Total, Progress, Raw, Positive, ValidConfig, GroupAt, Base, Sum;
      var gen := new Generator(genState.value);
      RestorePass(accumulate, grads, gen, s);
    }

    /** At the end of the pass the state is the one that TakeBack describes. */
    lemma {:induction false} PassEnd(s: State, accumulate: bool, grads: Grads)
      requires Valid() && Shaped(c, s) && s.genState.Some? && (accumulate ==> s.count > 0 && s.avgGrad.Some?)
      requires s.avgNxg.Some? == (s.avgGrad.Some? && UsesNxg(c)) && s.avgGsq.Some? == (s.avgGrad.Some? && UsesGsq(c))
      requires s == S().(theta := s.theta, avgGrad := s.avgGrad, avgNxg := s.avgNxg, avgGsq := s.avgGsq)
      requires theta[..] == Minus(s.theta, Noise(c, s.hess, s.genState.value))
      requires Progress(s, accumulate, Noise(c, s.hess, s.genState.value), Grad(c, grads), Numel(c))
      ensures S().(noised := false, holes := if accumulate then s.holes + Holes(c, grads) else s.holes)
           == TakeBack(c, s, accumulate, grads)
    {
      hide Noise, Minus, Flat, Slots, Total, Raw, Positive, ValidConfig, Welford, Mul, Taken;
      if accumulate {
        TakenEnd(s, Noise(c, s.hess, s.genState.value), Grad(c, grads));
      }
    }

    lemma {:induction false} TakenEnd(s: State, noise: seq<real>, g: seq<real>)
      requires Valid() && Shaped(c, s) && |noise| == |g| == Numel(c) && Taken(s, noise, g, Numel(c))
      ensures Values(avgGrad) == if s.avgGrad.Some? then Some(Welford(s.avgGrad.value, g, count)) else None
      ensures Values(avgNxg) == if s.avgNxg.Some? then Some(Welford(s.avgNxg.value, Mul(noise, g), count)) else None
      ensures Values(avgGsq) == if s.avgGsq.Some? then Some(Welford(s.avgGsq.value, Mul(g, g), count)) else None
    {
      hide TakenIn, Welford, Mul;
      TakenAll(Values(avgGrad), s.avgGrad, g, count, Numel(c));
      TakenAll(Values(avgNxg), s.avgNxg, Mul(noise, g), count, Numel(c));
      TakenAll(Values(avgGsq), s.avgGsq, Mul(g, g), count, Numel(c));
    }

    /** The loop of _restore_param_average. */
    method RestorePass(accumulate: bool, grads: Grads, gen: Generator, ghost s: State)
      requires Valid() && Shaped(c, s) && s == S() && (accumulate ==> avgGrad != null && count > 0)
      requires gen != generator
      modifies theta, gen, Buffers()
      ensures theta[..] == Minus(s.theta, Noise(c, s.hess, old(gen.state)))
      ensures Progress(s, accumulate, Noise(c, s.hess, old(gen.state)), Grad(c, grads), Numel(c))
    {
      hide Slots, Raw, Total, Noise, HyperAt, Minus, Upto, Progress, Flat, Positive, ValidConfig;
      var slots := LocalParams();
      var offset: nat := 0;
      ghost var st := gen.state;
      ghost var noise := Noise(c, s.hess, st);
      PassStart(c, st, s.theta, Minus(s.theta, noise));
      RestoreStart(accumulate, noise, Grad(c, grads), s);
      for k := 0 to |slots|
        invariant offset == Total(slots[..k])
        invariant gen.state == Raw(c, slots[..k], st).1
        invariant hess[..] == s.hess && Upto(theta[..], s.theta, Minus(s.theta, noise), offset)
        invariant Progress(s, accumulate, noise, Grad(c, grads), offset)
      {
        offset := RestoreParam(k, slots[k], offset, accumulate, grads, gen, s, st);
      }
      assert slots[..|slots|] == slots;
      NumelTotal(c);
      UptoAll(theta[..], s.theta, Minus(s.theta, noise), offset);
    }

    lemma {:induction false} RestoreStart(accumulate: bool, noise: seq<real>, g: seq<real>, s: State)
      requires Valid() && s == S() && |noise| == |g| == Numel(c) && (accumulate ==> count > 0)
      ensures hess[..] == s.hess && theta[..] == s.theta && |s.theta| == Numel(c)
      ensures Progress(s, accumulate, noise, g, 0)
    {
      hide TakenIn, Mul;
      if accumulate {
        TakenStart(s.avgGrad, g, count);
        TakenStart(s.avgNxg, Mul(noise, g), count);
        TakenStart(s.avgGsq, Mul(g, g), count);
      }
    }

    /** The accumulators while a pass is under way. */
    ghost predicate Progress(s: State, accumulate: bool, noise: seq<real>, g: seq<real>, n: nat)
      requires |noise| == |g|
      reads this, Buffers()
    {
      if accumulate then Taken(s, noise, g, n) else SameBuffers(s)
    }

    ghost predicate SameBuffers(s: State)
      reads this, Buffers()
    {
      Values(avgGrad) == s.avgGrad && Values(avgNxg) == s.avgNxg && Values(avgGsq) == s.avgGsq
    }

    /** The first n entries of the accumulators of `s` have taken in one more sample. */
    ghost predicate Taken(s: State, noise: seq<real>, g: seq<real>, n: nat)
      requires |noise| == |g|
      reads this, Buffers()
    {
      && TakenIn(Values(avgGrad), s.avgGrad, g, count, n)
      && TakenIn(Values(avgNxg), s.avgNxg, Mul(noise, g), count, n)
      && TakenIn(Values(avgGsq), s.avgGsq, Mul(g, g), count, n)
    }

    /** One round of that loop. */
    method RestoreParam(k: nat, slot: Slot, offset: nat, accumulate: bool, grads: Grads, gen: Generator,
                        ghost s: State, ghost st: nat) returns (next: nat)
      requires Valid() && k < |Slots(c.groups)| && slot == Slots(c.groups)[k] && Shaped(c, s)
      requires offset == Total(Slots(c.groups)[..k]) && gen.state == Raw(c, Slots(c.groups)[..k], st).1
      requires hess[..] == s.hess && Upto(theta[..], s.theta, Minus(s.theta, Noise(c, s.hess, st)), offset)
      requires accumulate ==> avgGrad != null && count > 0
      requires Progress(s, accumulate, Noise(c, s.hess, st), Grad(c, grads), offset)
      modifies theta, gen, Buffers()
      ensures hess[..] == s.hess
      ensures next == Total(Slots(c.groups)[..k + 1]) && gen.state == Raw(c, Slots(c.groups)[..k + 1], st).1
      ensures Upto(theta[..], s.theta, Minus(s.theta, Noise(c, s.hess, st)), next)
      ensures Progress(s, accumulate, Noise(c, s.hess, st), Grad(c, grads), next)
    {
      hide Slots, Raw, Total, Noise, HyperAt, Minus, Upto, Splice, Taken, SameBuffers, GradSlice, Flat;
      hide Positive, ValidConfig, Base, Sum;
      SlotFacts(c, k);
      var noise := NoiseOf(k, slot, st, gen);
      ghost var all := Noise(c, s.hess, st);
      UptoStep(s.theta, Minus(s.theta, all), theta[..], offset, slot.size);
      MinusSlice(s.theta, all, offset, slot.size);
      SubSlice(theta, offset, noise);
      next := offset + slot.size;
      if accumulate {
        var g32 := GradSlice(grads, k, slot.size);
        GradFacts(c, k, grads);
        AccumulateSlice(offset, noise, g32, s, all, Grad(c, grads));
      }
    }

    /** The accumulators take in one parameter's noise and gradient. */
    method AccumulateSlice(offset: nat, noise: array<real>, g32: seq<real>,
                           ghost s: State, ghost all: seq<real>, ghost g: seq<real>)
      requires Valid() && avgGrad != null && count > 0
      requires |all| == |g| == Numel(c) && noise.Length == |g32| && offset + |g32| <= Numel(c)
      requires noise[..] == all[offset..offset + |g32|] && g32 == g[offset..offset + |g32|]
      requires noise !in Buffers() && noise != hess && noise != theta && noise != momentum
      requires Taken(s, all, g, offset)
      modifies noise, Buffers()
      ensures Taken(s, all, g, offset + |g32|)
    {
      hide TakenIn, Mul, Welford, Splice;
      if !c.isotropic {
        if c.price {
          TakeIn(avgNxg[..], s.avgNxg, Mul(all, g), count, offset, |g32|);
          MulSlice(all, g, offset, |g32|);
          MulInPlace(noise, g32);
          WelfordSlice(avgNxg, offset, noise[..], count);
        } else {
          TakeIn(avgGsq[..], s.avgGsq, Mul(g, g), count, offset, |g32|);
          MulSlice(g, g, offset, |g32|);
          WelfordSlice(avgGsq, offset, Mul(g32, g32), count);
        }
      }
      if avgNxg == null {
        TakenNone(s.avgNxg, Mul(all, g), count, offset, offset + |g32|);
      }
      if avgGsq == null {
        TakenNone(s.avgGsq, Mul(g, g), count, offset, offset + |g32|);
      }
      TakeIn(avgGrad[..], s.avgGrad, g, count, offset, |g32|);
      WelfordSlice(avgGrad, offset, g32, count);
    }

    /** Why step() would be refused. */
    ghost function Refusal(count: nat, genState: Option<nat>, avgGrad: array?<real>): Option<Error> {
      if c.single && count != 1 then Some(SampleCount)
      else if c.single && !c.isotropic && c.price && genState.None? then Some(NoNoiseSample)
      else if !c.single && avgGrad == null && Slots(c.groups) != [] then Some(NoStatistics)
      else None
    }

    /** step() without a closure */
    method Step(grads: Grads) returns (error: Option<Error>)
      requires Valid()
      modifies this`count, this`genState, this`currentStep, this`avgGrad, this`avgNxg, this`avgGsq,
               this`holes, this`lost, this`nan, theta, momentum, hess
      ensures Valid() && (error, S()) == IvonModel.Step(c, old(S()), grads)
      ensures error == Refusal(old(count), old(genState), old(avgGrad)) && currentStep == old(currentStep) + 1
    {
      hide Found, Update, Slots, Total, Positive, ValidConfig, Updated, HolesIn, ZeroDivisors;
      ghost var s := S();
      currentStep := currentStep + 1;
      var regen: Generator?;
      error, regen := Prepare(grads, s);
      if error.None? {
        FinishStep(grads, regen, s);
      }
    }

    /** The loop of _update, what it leaves without a number, and _reset_samples. */
    method FinishStep(grads: Grads, regen: Generator?, ghost s: State)
      requires Valid() && Shaped(c, s) && S() == s.(step := s.step + 1) && Found(c, s, grads).Ok?
      requires Found(c, s, grads).value.holes == if c.single then Holes(c, grads) else holes
      requires regen != null <==> c.single && UsesNxg(c)
      requires regen != null ==> regen != generator && s.genState == Some(regen.state)
      modifies this`count, this`genState, this`avgGrad, this`avgNxg, this`avgGsq,
               this`holes, this`lost, this`nan, theta, momentum, hess, if regen == null then {} else {regen}
      ensures Valid() && S() == Update(c, s, Found(c, s, grads).value)
    {
      hide Found, Update, Slots, Total, Positive, ValidConfig, Updated, HolesIn, ZeroDivisors;
      UpdatePass(grads, regen, s);
      UpdateEnd(s, Found(c, s, grads).value);
      var found := if c.single then Holes(c, grads) else holes;
      nan := nan + lost + found + ZeroDivisors(c, currentStep);
      lost := lost + found;
      ResetSamples();
    }

    /** _reset_samples */
    method ResetSamples()
      requires Valid()
      modifies this`count, this`genState, this`avgGrad, this`avgNxg, this`avgGsq, this`holes
      ensures Valid()
      ensures S() == old(S()).(count := 0, avgGrad := None, avgNxg := None, avgGsq := None, genState := None,
                               holes := {})
    {
      count, avgGrad, avgNxg, avgGsq, genState, holes := 0, null, null, null, None, {};
    }

    lemma {:induction false} UpdateEnd(s: State, x: Statistics)
      requires Valid() && Shaped(c, s) && SizedStatistics(c, x) && Updated(s, Update(c, s, x), Numel(c))
      requires s.(step := s.step + 1) == S().(theta := s.theta, momentum := s.momentum, hess := s.hess)
      ensures S().(count := 0, avgGrad := None, avgNxg := None, avgGsq := None, genState := None,
                   holes := {}, lost := s.lost + x.holes,
                   nan := s.nan + s.lost + x.holes + ZeroDivisors(c, currentStep))
           == Update(c, s, x)
    {
      hide Upto, Momenta, Hessians, Params, Slots, Total, ZeroDivisors;
      var r := Update(c, s, x);
      UptoAll(theta[..], s.theta, r.theta, Numel(c));
      UptoAll(momentum[..], s.momentum, r.momentum, Numel(c));
      UptoAll(hess[..], s.hess, r.hess, Numel(c));
    }

    /** The checks of _update, and the generator that replays the noise. */
    method Prepare(grads: Grads, ghost s: State) returns (error: Option<Error>, regen: Generator?)
      requires Valid() && Shaped(c, s) && S() == s.(step := s.step + 1)
      ensures match Found(c, s, grads) case Err(e) => error == Some(e)
              case Ok(x) => error.None? && x.holes == if c.single then Holes(c, grads) else holes
      ensures error == Refusal(count, genState, avgGrad)
      ensures error.None? ==> (regen != null <==> c.single && UsesNxg(c))
      ensures regen != null ==> fresh(regen) && s.genState == Some(regen.state)
    {
      hide Mul, Noise, Flat, Zeros, Total, Positive, ValidConfig;
      regen := null;
      error := None;
      if c.single {
        if count != 1 {
          return Some(SampleCount), null;
        }
        if UsesNxg(c) {
          if genState.None? {
            return Some(NoNoiseSample), null;
          }
          regen := new Generator(genState.value);
        }
      } else if avgGrad == null {
        var slots := LocalParams();
        if slots != [] {
          return Some(NoStatistics), null;
        }
      }
    }

    /** The loop of _update. */
    method UpdatePass(grads: Grads, regen: Generator?, ghost s: State)
      requires Valid() && Shaped(c, s) && S() == s.(step := s.step + 1) && Found(c, s, grads).Ok?
      requires regen != null <==> c.single && UsesNxg(c)
      requires regen != null ==> regen != generator && s.genState == Some(regen.state)
      modifies theta, momentum, hess, if regen == null then {} else {regen}
      ensures Valid()
      ensures Updated(s, Update(c, s, Found(c, s, grads).value), Numel(c))
    {
      hide Slots, Total, Raw, Noise, HyperAt, Upto, Found, Update, Positive, ValidConfig;
      var slots := LocalParams();
      var offset: nat := 0;
      ghost var r := Update(c, s, Found(c, s, grads).value);
      PassStart(c, if s.genState.Some? then s.genState.value else 0, s.theta, r.theta);
      PassStart(c, 0, s.momentum, r.momentum);
      PassStart(c, 0, s.hess, r.hess);
      for k := 0 to |slots|
        invariant Valid() && offset == Total(slots[..k]) && Updated(s, r, offset) && SameBuffers(s)
        invariant regen != null ==> regen.state == Raw(c, slots[..k], s.genState.value).1
      {
        offset := UpdateParam(k, slots[k], offset, grads, regen, s);
      }
      assert slots[..|slots|] == slots;
      NumelTotal(c);
    }

    /** The first n elements have been updated from state s to state r. */
    ghost predicate Updated(s: State, r: State, n: nat)
      reads this, theta, momentum, hess
    {
      && Upto(theta[..], s.theta, r.theta, n)
      && Upto(momentum[..], s.momentum, r.momentum, n)
      && Upto(hess[..], s.hess, r.hess, n)
    }

    /** One round of that loop. */
    method UpdateParam(k: nat, slot: Slot, offset: nat, grads: Grads, regen: Generator?, ghost s: State)
      returns (next: nat)
      requires Valid() && Shaped(c, s) && k < |Slots(c.groups)| && slot == Slots(c.groups)[k]
      requires offset == Total(Slots(c.groups)[..k]) && Found(c, s, grads).Ok?
      requires currentStep == s.step + 1 && SameBuffers(s) && (regen != null <==> c.single && UsesNxg(c))
      requires regen != null ==> s.genState.Some? && regen.state == Raw(c, Slots(c.groups)[..k], s.genState.value).1
      requires Updated(s, Update(c, s, Found(c, s, grads).value), offset)
      modifies theta, momentum, hess, if regen == null then {} else {regen}
      ensures Valid() && next == Total(Slots(c.groups)[..k + 1])
      ensures regen != null ==> regen.state == Raw(c, Slots(c.groups)[..k + 1], s.genState.value).1
      ensures Updated(s, Update(c, s, Found(c, s, grads).value), next)
    {
      hide Slots, Total, Raw, Noise, HyperAt, Found, Positive, ValidConfig, Momenta, Hessians, Params;
      SlotFacts(c, k);
      ghost var x := Found(c, s, grads).value;
      UptoStep(s.hess, Update(c, s, x).hess, hess[..], offset, slot.size);
      var g32, nxg, gsq := StatisticsOf(k, slot, offset, grads, regen, s);
      ApplySlice(c.groups[slot.group], slot.size, offset, g32, nxg, gsq, s, x);
      next := offset + slot.size;
    }

    /** Gradient, noise * gradient and gradient^2 of one parameter. */
    method StatisticsOf(k: nat, slot: Slot, offset: nat, grads: Grads, regen: Generator?, ghost s: State)
      returns (g32: seq<real>, nxg: seq<real>, gsq: seq<real>)
      requires Valid() && Shaped(c, s) && k < |Slots(c.groups)| && slot == Slots(c.groups)[k]
      requires offset == Total(Slots(c.groups)[..k]) && offset + slot.size <= Numel(c) && Found(c, s, grads).Ok?
      requires SameBuffers(s) && (regen != null <==> c.single && UsesNxg(c))
      requires regen != null ==> s.genState.Some? && regen.state == Raw(c, Slots(c.groups)[..k], s.genState.value).1
      requires hess[offset..offset + slot.size] == s.hess[offset..offset + slot.size]
      modifies if regen == null then {} else {regen}
      ensures regen != null ==> regen.state == Raw(c, Slots(c.groups)[..k + 1], s.genState.value).1
      ensures var x := Found(c, s, grads).value;
              && g32 == x.g[offset..offset + slot.size]
              && nxg == x.nxg[offset..offset + slot.size]
              && gsq == x.gsq[offset..offset + slot.size]
    {
      hide Slots, Total, Raw, Noise, HyperAt, Positive, ValidConfig, Flat, Mul, GradSlice, Zeros;
      ZerosSlice(Numel(c), offset, slot.size);
      if c.single {
        g32, nxg, gsq := GradSlice(grads, k, slot.size), Zeros(slot.size), Zeros(slot.size);
        GradFacts(c, k, grads);
        ghost var g := Grad(c, grads);
        if regen != null {
          ghost var st := s.genState.value;
          var noise := NoiseOf(k, slot, st, regen);
          NoiseIsLocal(c, s.hess, hess[..], st, offset, slot.size);
          MulSlice(Noise(c, s.hess, st), g, offset, slot.size);
          MulInPlace(noise, g32);
          nxg := noise[..];
        }
        if UsesGsq(c) {
          MulSlice(g, g, offset, slot.size);
          gsq := Mul(g32, g32);
        }
      } else {
        g32 := avgGrad[offset..offset + slot.size];
        nxg := if avgNxg != null then avgNxg[offset..offset + slot.size] else Zeros(slot.size);
        gsq := if avgGsq != null then avgGsq[offset..offset + slot.size] else Zeros(slot.size);
      }
    }

    /** momentum, hess and param of one parameter, updated in place. */
    method ApplySlice(hp: Group, size: nat, offset: nat, g32: seq<real>, nxg: seq<real>, gsq: seq<real>,
                      ghost s: State, ghost x: Statistics)
      requires Valid() && Shaped(c, s) && SizedStatistics(c, x) && offset + size <= Numel(c)
      requires currentStep == s.step + 1
      requires forall i {:trigger HyperAt(c, i)} :: offset <= i < offset + size ==> HyperAt(c, i) == hp
      requires g32 == x.g[offset..offset + size]
      requires nxg == x.nxg[offset..offset + size]
      requires gsq == x.gsq[offset..offset + size]
      requires Updated(s, Update(c, s, x), offset)
      modifies theta, momentum, hess
      ensures Valid() && Updated(s, Update(c, s, x), offset + size)
    {
      hide Slots, Total, HyperAt, Upto, Momenta, Hessians, Params, Positive, ValidConfig, Splice;
      ghost var r := Update(c, s, x);
      UpdateMomentum(hp, size, offset, g32, s, x);
      UpdateHess(hp, size, offset, nxg, gsq, s, x);
      UpdateTheta(hp, size, offset, momentum[offset..offset + size], hess[offset..offset + size], s, r);
    }

    method UpdateMomentum(hp: Group, size: nat, offset: nat, g32: seq<real>, ghost s: State, ghost x: Statistics)
      requires Valid() && Shaped(c, s) && SizedStatistics(c, x) && offset + size <= Numel(c)
      requires forall i {:trigger HyperAt(c, i)} :: offset <= i < offset + size ==> HyperAt(c, i) == hp
      requires g32 == x.g[offset..offset + size] && Upto(momentum[..], s.momentum, Momenta(c, s, x.g), offset)
      modifies momentum
      ensures Upto(momentum[..], s.momentum, Momenta(c, s, x.g), offset + size)
      ensures momentum[offset..offset + size] == Momenta(c, s, x.g)[offset..offset + size]
    {
      hide Slots, Total, HyperAt, Upto, Momenta, Positive, ValidConfig, Splice, MomentumPart;
      UptoStep(s.momentum, Momenta(c, s, x.g), momentum[..], offset, size);
      MomentaSlice(c, s, x.g, offset, size, hp);
      MomentumSlice(hp, momentum, offset, g32);
      SpliceSlice(old(momentum[..]), offset, Momenta(c, s, x.g)[offset..offset + size]);
    }

    method UpdateHess(hp: Group, size: nat, offset: nat, nxg: seq<real>, gsq: seq<real>, ghost s: State,
                      ghost x: Statistics)
      requires Valid() && Shaped(c, s) && SizedStatistics(c, x) && offset + size <= Numel(c)
      requires forall i {:trigger HyperAt(c, i)} :: offset <= i < offset + size ==> HyperAt(c, i) == hp
      requires nxg == x.nxg[offset..offset + size] && gsq == x.gsq[offset..offset + size]
      requires Upto(hess[..], s.hess, Hessians(c, s, x.nxg, x.gsq), offset)
      modifies hess
      ensures Valid() && Upto(hess[..], s.hess, Hessians(c, s, x.nxg, x.gsq), offset + size)
      ensures hess[offset..offset + size] == Hessians(c, s, x.nxg, x.gsq)[offset..offset + size]
      ensures forall i :: offset <= i < offset + size ==> hess[i] + hp.wd > 0.0
    {
      hide Slots, Total, HyperAt, Upto, Hessians, Positive, ValidConfig, Splice, HessPart;
      ghost var target := Hessians(c, s, x.nxg, x.gsq);
      ghost var h := hess[offset..offset + size];
      UptoStep(s.hess, target, hess[..], offset, size);
      HessiansSlice(c, s, x.nxg, x.gsq, offset, size, hp);
      PositiveSlice(c, hess[..], offset, size, hp);
      PositivePart(c, hp, h, nxg, gsq);
      PositiveSplice(c, hess[..], offset, HessPart(c, hp, h, nxg, gsq), hp);
      if c.isotropic {
        FrozenPart(c, hp, h, nxg, gsq);
        SpliceSame(hess[..], offset, size);
      } else {
        HessSlice(c, hp, hess, offset, nxg, gsq);
      }
      SpliceSlice(old(hess[..]), offset, target[offset..offset + size]);
      PositiveSlice(c, hess[..], offset, size, hp);
    }

    method UpdateTheta(hp: Group, size: nat, offset: nat, m: seq<real>, h: seq<real>, ghost s: State, ghost r: State)
      requires Valid() && Shaped(c, s) && Shaped(c, r) && offset + size <= Numel(c)
      requires currentStep == s.step + 1
      requires forall i {:trigger HyperAt(c, i)} :: offset <= i < offset + size ==> HyperAt(c, i) == hp
      requires r.theta == Params(c, s, s.step + 1, r.momentum, r.hess)
      requires m == r.momentum[offset..offset + size] && h == r.hess[offset..offset + size]
      requires forall i :: 0 <= i < size ==> h[i] + hp.wd > 0.0
      requires Upto(theta[..], s.theta, r.theta, offset)
      modifies theta
      ensures Upto(theta[..], s.theta, r.theta, offset + size)
    {
      hide Slots, Total, HyperAt, Upto, Params, Positive, Splice, ParamPart, Pow;
      UptoStep(s.theta, r.theta, theta[..], offset, size);
      ParamsSlice(c, s, s.step + 1, r.momentum, r.hess, offset, size, hp);
      ParamSlice(c, hp, currentStep, theta, m, h, offset);
    }
  }

  /**
   training_step: the gradients are taken at the sampled parameters, which are restored before the
   update; a gradient norm that is not finite skips the update. `isFinite` is the part of the norm
   that comes from other shards.
   */
  method TrainingStep(opt: Ivon, backward: seq<real> -> Grads, isFinite: Grads -> bool)
    returns (error: Option<Error>)
    requires opt.Valid()
    modifies opt, opt.theta, opt.momentum, opt.hess, opt.generator, opt.Buffers()
    ensures opt.Valid()
    ensures var s := old(opt.S());
            var grads := backward(Sample(opt.c, s).theta);
            (error, opt.S()) == IvonModel.TrainingStep(opt.c, s, grads, isFinite(grads))
  {
    hide Sample, Restore, Step, Numel, Positive, ValidConfig, HolesIn;
    opt.SampleParams();
    var grads := backward(opt.theta[..]);
    error := opt.RestoreParamAverage(true, grads);
    if error.None? && NormFinite(opt.c, grads, isFinite(grads)) {
      error := opt.Step(grads);
    }
  }

  lemma {:induction false} ZerosSlice(n: nat, off: nat, size: nat)
    requires off + size <= n
    ensures Zeros(n)[off..off + size] == Zeros(size)
  {
  }

  lemma {:induction false} PositiveSlice(c: Config, h: seq<real>, off: nat, size: nat, hp: Group)
    requires Positive(c, h) && off + size <= |h|
    requires forall i {:trigger HyperAt(c, i)} :: off <= i < off + size ==> HyperAt(c, i) == hp
    ensures forall i :: off <= i < off + size ==> h[i] + hp.wd > 0.0
  {
    forall i | off <= i < off + size
      ensures h[i] + hp.wd > 0.0
    {
      assert HyperAt(c, i) == hp;
    }
  }
}
