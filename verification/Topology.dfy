/** How the checkpoint engine manager turns the workers' metadata into one chain of NIXL agents. */
module Topology {
  import opened Wrappers

  // ---------- Python lists ----------

  /** `[x] * n` */
  function Repeat<T>(x: T, n: int): (r: seq<T>)
    ensures |r| == if n <= 0 then 0 else n
    ensures forall i :: 0 <= i < |r| ==> r[i] == x
  {
    if n <= 0 then [] else seq(n, _ => x)
  }

  /** Where a slice bound points: negative bounds count from the end, and both ends are clamped. */
  function Bound(i: int, n: nat): (b: nat)
    ensures b <= n
  {
    if i < 0 then if i + n < 0 then 0 else i + n
    else if i < n then i else n
  }

  /** `s[lo:hi]` */
  function Slice<T>(s: seq<T>, lo: int, hi: int): seq<T> {
    var a, b := Bound(lo, |s|), Bound(hi, |s|);
    if a <= b then s[a..b] else []
  }

  /** `s[i]`, None for an IndexError */
  function At<T>(s: seq<T>, i: int): Option<T> {
    if 0 <= i < |s| then Some(s[i])
    else if -|s| <= i < 0 then Some(s[|s| + i])
    else None
  }

  function Somes<T>(s: seq<T>): (r: seq<Option<T>>)
    ensures |r| == |s| && forall i :: 0 <= i < |s| ==> r[i] == Some(s[i])
  {
    seq(|s|, i requires 0 <= i < |s| => Some(s[i]))
  }

  // ---------- the engine ----------

  /** Keyword arguments, one list per argument of init_process_group. */
  datatype Kwargs<M> = Kwargs(rank: seq<int>, worldSize: seq<int>, prev: seq<Option<M>>, next: seq<Option<M>>)

  datatype Error = IndexError | AssertionError

  /** NIXLCheckpointEngine.build_topology */
  function BuildTopology<M>(trainers: nat, rollouts: nat, metadata: seq<M>): Result<(Kwargs<M>, Kwargs<M>), Error> {
    match (At(metadata, -(rollouts as int)), At(metadata, 0))
    case (Some(first), Some(master)) =>
      Ok((
        Kwargs([0] + Repeat<int>(-1, trainers - 1), Repeat(rollouts + 1, trainers),
               Repeat(None, trainers), [Some(first)] + Repeat(None, trainers - 1)),
        Kwargs(seq<int>(rollouts, i => i + 1), Repeat(rollouts + 1, rollouts),
               [Some(master)] + Somes(Slice(metadata, -(rollouts as int), -1)),
               Somes(Slice(metadata, -(rollouts as int) + 1, |metadata|)) + [None])))
    case _ => Err(IndexError)
  }

  /** What an engine knows after init_process_group. */
  datatype Engine<M> = Engine(rank: int, worldSize: int, prev: Option<M>, next: Option<M>)

  /** NIXLCheckpointEngine.init_process_group; its assertions depend on the rank. */
  function InitProcessGroup<M>(rank: int, worldSize: int, prev: Option<M>, next: Option<M>): Result<Engine<M>, Error> {
    var ok :=
      if rank < 0 then prev.None? && next.None?
      else if rank == 0 then prev.None? && next.Some?
      else if 0 < rank < worldSize - 1 then prev.Some? && next.Some?
      else if rank == worldSize - 1 then prev.Some? && next.None?
      else true;
    if ok then Ok(Engine(rank, worldSize, prev, next)) else Err(AssertionError)
  }

  /** The manager's assertions on the length of every list. */
  predicate LengthsOk<M>(k: Kwargs<M>, n: nat) {
    |k.rank| == |k.worldSize| == |k.prev| == |k.next| == n
  }

  /** CheckpointEngineManager.build_process_group: the trainer workers first, then the rollout workers. */
  method BuildProcessGroup<M>(trainers: nat, rollouts: nat, metadata: seq<M>) returns (r: Result<seq<Engine<M>>, Error>)
    requires |metadata| == trainers + rollouts
    ensures r.Ok? <==> trainers >= 1 && rollouts >= 2
    ensures r == Err(IndexError) <==> metadata == []
    ensures r.Ok? ==> IsChain(trainers, rollouts, metadata, r.value)
  {
    Verdict(trainers, rollouts, metadata);
    TopologyIff(trainers, rollouts, metadata);
    hide BuildTopology, ExpectedEngine, InitProcessGroup, LengthsOk;
    var topology := BuildTopology(trainers, rollouts, metadata);
    if topology.Err? {
      return Err(IndexError);
    }
    var (t, o) := topology.value;
    if !LengthsOk(t, trainers) || !LengthsOk(o, rollouts) {
      return Err(AssertionError);
    }
    var engines: seq<Engine<M>> := [];
    for i := 0 to trainers + rollouts
      invariant |engines| == i
      invariant forall j :: 0 <= j < i ==> engines[j] == ExpectedEngine(trainers, rollouts, metadata, j)
    {
      var e := InitWorker(trainers, rollouts, metadata, t, o, i);
      if e.Err? {
        return Err(AssertionError);
      }
      engines := engines + [e.value];
    }
    r := Ok(engines);
  }

  /** init_process_group on worker i, with its entry of every list. */
  method InitWorker<M>(trainers: nat, rollouts: nat, metadata: seq<M>, t: Kwargs<M>, o: Kwargs<M>, i: nat)
    returns (e: Result<Engine<M>, Error>)
    requires |metadata| == trainers + rollouts && i < |metadata| && trainers >= 1 && rollouts >= 2
    requires BuildTopology(trainers, rollouts, metadata) == Ok((t, o))
    ensures e == Ok(ExpectedEngine(trainers, rollouts, metadata, i))
  {
    hide BuildTopology, ExpectedEngine, InitProcessGroup;
    if i < trainers {
      TrainerKwarg(trainers, rollouts, metadata, i);
      e := InitProcessGroup(t.rank[i], t.worldSize[i], t.prev[i], t.next[i]);
    } else {
      var j := i - trainers;
      RolloutKwarg(trainers, rollouts, metadata, j);
      e := InitProcessGroup(o.rank[j], o.worldSize[j], o.prev[j], o.next[j]);
    }
  }

  // ---------- the chain ----------

  /** Position in the metadata list of the worker with rank `k`. */
  function WorkerOf(trainers: nat, k: nat): nat
    requires trainers >= 1
  {
    if k == 0 then 0 else trainers + k - 1
  }

  /** Rank of the worker at position `i`; trainer workers other than the first have none. */
  function RankOf(trainers: nat, i: nat): int {
    if i == 0 then 0 else if i < trainers then -1 else i - trainers + 1
  }

  /** A chain of ranks 0..rollouts: every rank knows its neighbours, and nobody else knows anyone. */
  function ExpectedEngine<M>(trainers: nat, rollouts: nat, metadata: seq<M>, i: nat): Engine<M>
    requires trainers >= 1 && rollouts >= 2 && |metadata| == trainers + rollouts && i < |metadata|
  {
    var k := RankOf(trainers, i);
    Engine(k, rollouts + 1,
           if k <= 0 then None else Some(metadata[WorkerOf(trainers, k - 1)]),
           if k < 0 || k == rollouts then None else Some(metadata[WorkerOf(trainers, k + 1)]))
  }

  ghost predicate IsChain<M>(trainers: nat, rollouts: nat, metadata: seq<M>, engines: seq<Engine<M>>)
    requires |metadata| == trainers + rollouts
  {
    && trainers >= 1 && rollouts >= 2
    && |engines| == |metadata|
    && forall i :: 0 <= i < |engines| ==> engines[i] == ExpectedEngine(trainers, rollouts, metadata, i)
  }

  /** The topology passes the manager's checks exactly for one or more trainers and two or more rollout workers. */
  lemma {:induction false} Verdict<M>(trainers: nat, rollouts: nat, metadata: seq<M>)
    requires |metadata| == trainers + rollouts
    ensures var topology := BuildTopology(trainers, rollouts, metadata);
            trainers >= 1 && rollouts >= 2 <==>
              topology.Ok? && LengthsOk(topology.value.0, trainers) && LengthsOk(topology.value.1, rollouts)
  {
  }

  /** Indexing the metadata fails only when there is none. */
  lemma {:induction false} TopologyIff<M>(trainers: nat, rollouts: nat, metadata: seq<M>)
    requires |metadata| == trainers + rollouts
    ensures BuildTopology(trainers, rollouts, metadata).Ok? <==> metadata != []
  {
  }

  lemma {:induction false} TrainerKwarg<M>(trainers: nat, rollouts: nat, metadata: seq<M>, i: nat)
    requires |metadata| == trainers + rollouts && rollouts >= 2 && i < trainers
    ensures BuildTopology(trainers, rollouts, metadata).Ok?
    ensures var k := BuildTopology(trainers, rollouts, metadata).value.0;
            LengthsOk(k, trainers)
            && InitProcessGroup(k.rank[i], k.worldSize[i], k.prev[i], k.next[i])
              == Ok(ExpectedEngine(trainers, rollouts, metadata, i))
  {
    hide Slice, Somes;
  }

  lemma {:induction false} RolloutSlices<M>(trainers: nat, rollouts: nat, metadata: seq<M>)
    requires |metadata| == trainers + rollouts && trainers >= 1 && rollouts >= 2
    ensures Slice(metadata, -(rollouts as int), -1) == metadata[trainers..|metadata| - 1]
    ensures Slice(metadata, -(rollouts as int) + 1, |metadata|) == metadata[trainers + 1..]
  {
  }

  lemma {:induction false} RolloutKwarg<M>(trainers: nat, rollouts: nat, metadata: seq<M>, i: nat)
    requires |metadata| == trainers + rollouts && trainers >= 1 && rollouts >= 2 && i < rollouts
    ensures BuildTopology(trainers, rollouts, metadata).Ok?
    ensures var k := BuildTopology(trainers, rollouts, metadata).value.1;
            LengthsOk(k, rollouts)
            && InitProcessGroup(k.rank[i], k.worldSize[i], k.prev[i], k.next[i])
              == Ok(ExpectedEngine(trainers, rollouts, metadata, trainers + i))
  {
    RolloutSlices(trainers, rollouts, metadata);
    hide Slice;
  }

  /** A worker is accepted exactly if it has a predecessor after rank 0 and a successor before the last rank. */
  lemma {:induction false} AcceptedIff<M>(rank: int, worldSize: int, prev: Option<M>, next: Option<M>)
    requires worldSize >= 2 && rank < worldSize
    ensures InitProcessGroup(rank, worldSize, prev, next) ==
              if (prev.Some? <==> rank > 0) && (next.Some? <==> 0 <= rank < worldSize - 1)
              then Ok(Engine(rank, worldSize, prev, next))
              else Err(AssertionError)
  {
  }

  /** The chain in full: the first trainer worker is rank 0, the others have none, the rollout workers follow. */
  lemma {:induction false} ChainIs<M>(trainers: nat, rollouts: nat, metadata: seq<M>, engines: seq<Engine<M>>, j: nat)
    requires |metadata| == trainers + rollouts && IsChain(trainers, rollouts, metadata, engines)
    ensures engines[0] == Engine(0, rollouts + 1, None, Some(metadata[trainers]))
    ensures 0 < j < trainers ==> engines[j] == Engine(-1, rollouts + 1, None, None)
    ensures j < rollouts ==>
              engines[trainers + j] ==
                Engine(j + 1, rollouts + 1, Some(if j == 0 then metadata[0] else metadata[trainers + j - 1]),
                       if j == rollouts - 1 then None else Some(metadata[trainers + j + 1]))
  {
    assert engines[0] == ExpectedEngine(trainers, rollouts, metadata, 0);
    if j < rollouts {
      assert engines[trainers + j] == ExpectedEngine(trainers, rollouts, metadata, trainers + j);
    }
    if 0 < j < trainers {
      assert engines[j] == ExpectedEngine(trainers, rollouts, metadata, j);
    }
  }

  /** The engine of the worker with metadata `m`, if there is one. */
  ghost function EngineOf<M>(engines: seq<Engine<M>>, metadata: seq<M>, m: M): Option<Engine<M>>
    requires |engines| == |metadata|
  {
    if i: nat :| i < |metadata| && metadata[i] == m then Some(engines[i]) else None
  }

  /** The worker that the engine of worker `m` names as its next. */
  ghost function NextOf<M>(engines: seq<Engine<M>>, metadata: seq<M>, m: M): Option<M>
    requires |engines| == |metadata|
  {
    match EngineOf(engines, metadata, m)
    case Some(e) => e.next
    case None => None
  }

  /** The worker reached from rank 0 by following `n` next links. */
  ghost function Follow<M>(engines: seq<Engine<M>>, metadata: seq<M>, n: nat): Option<M>
    requires |engines| == |metadata| > 0
  {
    if n == 0 then Some(metadata[0])
    else
      match Follow(engines, metadata, n - 1)
      case Some(m) => NextOf(engines, metadata, m)
      case None => None
  }

  lemma {:induction false} FollowStep<M>(engines: seq<Engine<M>>, metadata: seq<M>, n: nat)
    requires |engines| == |metadata| > 0
    ensures Follow(engines, metadata, n) ==
              if n == 0 then Some(metadata[0])
              else
                match Follow(engines, metadata, n - 1)
                case Some(m) => NextOf(engines, metadata, m)
                case None => None
  {
  }

  ghost predicate Distinct<M>(metadata: seq<M>) {
    forall i, j :: 0 <= i < j < |metadata| ==> metadata[i] != metadata[j]
  }

  lemma {:induction false} NeighboursOf<M>(trainers: nat, rollouts: nat, metadata: seq<M>, engines: seq<Engine<M>>,
                                           k: nat)
    requires |metadata| == trainers + rollouts && IsChain(trainers, rollouts, metadata, engines) && k <= rollouts
    requires Distinct(metadata)
    ensures var e := EngineOf(engines, metadata, metadata[WorkerOf(trainers, k)]);
            && e.Some? && e.value.rank == k && e.value == engines[WorkerOf(trainers, k)]
            && e.value.prev == (if k == 0 then None else Some(metadata[WorkerOf(trainers, k - 1)]))
            && e.value.next == (if k == rollouts then None else Some(metadata[WorkerOf(trainers, k + 1)]))
    ensures NextOf(engines, metadata, metadata[WorkerOf(trainers, k)])
         == if k == rollouts then None else Some(metadata[WorkerOf(trainers, k + 1)])
  {
    var w := WorkerOf(trainers, k);
    assert RankOf(trainers, w) == k;
    assert engines[w] == ExpectedEngine(trainers, rollouts, metadata, w);
  }

  /**
   The links form one chain: from rank 0 the next links reach every rollout worker, in order, and
   end after the last; the prev links are the same links backwards.
   */
  lemma {:induction false} ChainVisitsAll<M>(trainers: nat, rollouts: nat, metadata: seq<M>,
                                             engines: seq<Engine<M>>, n: nat)
    requires |metadata| == trainers + rollouts && IsChain(trainers, rollouts, metadata, engines)
    requires Distinct(metadata)
    ensures n <= rollouts ==> Follow(engines, metadata, n) == Some(metadata[WorkerOf(trainers, n)])
    ensures n > rollouts ==> Follow(engines, metadata, n) == None
    ensures 1 <= n <= rollouts ==> engines[WorkerOf(trainers, n)].prev == Follow(engines, metadata, n - 1)
  {
    hide EngineOf, NextOf, Distinct, Follow, ExpectedEngine;
    FollowStep(engines, metadata, n);
    if n > 0 {
      ChainVisitsAll(trainers, rollouts, metadata, engines, n - 1);
      if n <= rollouts {
        NeighboursOf(trainers, rollouts, metadata, engines, n);
      }
      if n - 1 <= rollouts {
        NeighboursOf(trainers, rollouts, metadata, engines, n - 1);
      }
    }
  }

  /** With a single rollout worker the next list is the whole metadata list, and the length check rejects it. */
  lemma {:induction false} OneRolloutIsRejected<M>(trainers: nat, metadata: seq<M>)
    requires trainers >= 1 && |metadata| == trainers + 1
    ensures BuildTopology(trainers, 1, metadata).Ok?
    ensures BuildTopology(trainers, 1, metadata).value.1.next == Somes(metadata) + [None]
    ensures !LengthsOk(BuildTopology(trainers, 1, metadata).value.1, 1)
  {
    assert Slice(metadata, 0, |metadata|) == metadata;
  }
}
