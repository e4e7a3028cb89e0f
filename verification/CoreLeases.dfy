/**
 CPU core leasing under the admission semaphore. Requests interleave freely; each takes a permit
 (or is turned away), leases at most one group of cores, gives it back however the execution ends,
 and gives its permit back.
 */
module CoreLeases {
  import opened Tensors
  import opened Wrappers

  type Group = seq<nat>

  // ---------- the groups ----------

  /** _init_core_groups: the slices of a `range` with step n, or one group of all cores if there is none. */
  function InitCoreGroups(cores: seq<nat>, coresPerExec: int): (groups: seq<Group>)
    ensures groups != []
  {
    var n := if coresPerExec > 1 then coresPerExec else 1;
    var groups := Slices(cores, n, 0);
    if groups != [] then groups else [cores]
  }

  function Slices(cores: seq<nat>, n: nat, i: nat): seq<Group>
    requires n > 0
    decreases |cores| - i
  {
    if i + n > |cores| then [] else [cores[i..i + n]] + Slices(cores, n, i + n)
  }

  ghost predicate Disjoint(g: Group, h: Group) {
    forall c :: c in g ==> c !in h
  }

  ghost predicate PairwiseDisjoint(groups: seq<Group>) {
    forall a, b :: 0 <= a < b < |groups| ==> Disjoint(groups[a], groups[b])
  }

  ghost predicate Distinct(cores: seq<nat>) {
    forall a, b :: 0 <= a < b < |cores| ==> cores[a] != cores[b]
  }

  lemma {:induction false} SlicesTile(cores: seq<nat>, n: nat, i: nat)
    requires n > 0 && i <= |cores|
    ensures var s := Slices(cores, n, i);
            && |s| == (|cores| - i) / n
            && (forall k :: 0 <= k < |s| ==> |s[k]| == n)
            && i + |Cat(s)| <= |cores| && Cat(s) == cores[i..i + |Cat(s)|]
            && |cores| - i - |Cat(s)| < n
    decreases |cores| - i
  {
    if i + n <= |cores| {
      var rest := Slices(cores, n, i + n);
      SlicesTile(cores, n, i + n);
      CatCons(cores[i..i + n], rest);
      assert cores[i..i + n] + cores[i + n..i + n + |Cat(rest)|] == cores[i..i + n + |Cat(rest)|];
      OneMore(|cores| - i - n, n);
    } else {
      Small(|cores| - i, n);
    }
  }

  lemma {:induction false} OneMore(m: nat, n: nat)
    requires n > 0
    ensures (m + n) / n == m / n + 1
  {
    var q, r := m / n, m % n;
    assert m == q * n + r;
    var p := (m + n) / n;
    assert p * n <= m + n < (p + 1) * n;
    assert (q + 1) * n == q * n + n && (q + 2) * n == q * n + n + n;
    CancelLess(q + 1, p + 1, n);
    CancelLess(p, q + 2, n);
  }

  lemma {:induction false} Small(m: nat, n: nat)
    requires m < n
    ensures m / n == 0
  {
    var p := m / n;
    CancelLess(p, 1, n);
  }

  lemma {:induction false} InCat(groups: seq<Group>, k: nat, c: nat)
    requires k < |groups| && c in groups[k]
    ensures c in Cat(groups)
  {
    if k < |groups| - 1 {
      InCat(groups[..|groups| - 1], k, c);
    }
  }

  lemma {:induction false} DisjointParts(groups: seq<Group>)
    requires Distinct(Cat(groups))
    ensures PairwiseDisjoint(groups)
  {
    if groups != [] {
      var last := |groups| - 1;
      var init := Cat(groups[..last]);
      forall a, b | 0 <= a < b < |init|
        ensures init[a] != init[b]
      {
        assert Cat(groups)[a] == init[a] && Cat(groups)[b] == init[b];
      }
      DisjointParts(groups[..last]);
      forall a, b | 0 <= a < b < |groups|
        ensures Disjoint(groups[a], groups[b])
      {
        if b < last {
          assert Disjoint(groups[..last][a], groups[..last][b]);
        } else {
          forall c | c in groups[a]
            ensures c !in groups[last]
          {
            InCat(groups[..last], a, c);
            var x :| 0 <= x < |init| && init[x] == c;
            forall y | 0 <= y < |groups[last]|
              ensures groups[last][y] != c
            {
              assert Cat(groups)[|init| + y] == groups[last][y] && Cat(groups)[x] == c;
            }
          }
        }
      }
    }
  }

  /**
   The groups are pairwise disjoint and made of the process's cores, in order. Fewer than
   `coresPerExec` cores make one short group; otherwise there are floor(cores / coresPerExec)
   full groups and fewer than `coresPerExec` cores are left over.
   */
  lemma {:induction false} CoreGroups(cores: seq<nat>, coresPerExec: int)
    requires Distinct(cores)
    ensures var groups := InitCoreGroups(cores, coresPerExec);
            var n := if coresPerExec > 1 then coresPerExec else 1;
            && PairwiseDisjoint(groups)
            && Cat(groups) <= cores
            && |cores| - |Cat(groups)| < n
            && (|cores| < n ==> groups == [cores])
            && (|cores| >= n ==> |groups| == |cores| / n && forall k :: 0 <= k < |groups| ==> |groups[k]| == n)
  {
    var n := if coresPerExec > 1 then coresPerExec else 1;
    var slices := Slices(cores, n, 0);
    SlicesTile(cores, n, 0);
    if slices == [] {
      assert [cores][..0] == [];
      if |cores| >= n {
        assert false;
      }
    } else {
      DisjointParts(slices);
    }
  }

  // ---------- the shared state ----------

  /** `maxConcurrency` and `queueTimeout` come from the configuration. */
  datatype Config = Config(cores: seq<nat>, coresPerExec: int, maxConcurrency: int, queueTimeout: real)

  /** Both are created on first use. */
  datatype Shared = Shared(groups: Option<seq<Group>>, permits: Option<nat>)

  datatype Error = ServiceUnavailable

  function Groups(config: Config): seq<Group> {
    InitCoreGroups(config.cores, config.coresPerExec)
  }

  /** _get_run_code_semaphore; None while concurrency is not limited. */
  function GetSemaphore(config: Config, sh: Shared): Shared {
    if sh.permits.None? && config.maxConcurrency > 0 then sh.(permits := Some(config.maxConcurrency)) else sh
  }

  /** The entry of tmp_cpuset: `pop()`, or no group when every one is leased. */
  function LeaseCores(config: Config, sh: Shared): (Option<Group>, Shared) {
    var groups := if sh.groups.Some? then sh.groups.value else Groups(config);
    if groups == [] then (None, sh.(groups := Some(groups)))
    else (Some(groups[|groups| - 1]), sh.(groups := Some(groups[..|groups| - 1])))
  }

  /** The exit of tmp_cpuset. */
  function ReturnCores(sh: Shared, cores: Option<Group>): Shared
    requires cores.Some? ==> sh.groups.Some?
  {
    if cores.None? then sh else sh.(groups := Some(sh.groups.value + [cores.value]))
  }

  class Server {
    const config: Config
    var coreGroups: Option<seq<Group>>
    var semaphore: Option<nat>

    constructor (config: Config)
      ensures this.config == config && Both() == Shared(None, None)
    {
      this.config := config;
      coreGroups := None;
      semaphore := None;
    }

    ghost function Both(): Shared
      reads this
    {
      Shared(coreGroups, semaphore)
    }

    /**
     _acquire_slot after _get_run_code_semaphore. `expired` says that the queue timeout fired
     before a permit was free; a call still waiting has not returned.
     */
    method AcquireSlot(expired: bool) returns (acquired: Result<bool, Error>)
      requires expired ==> config.queueTimeout > 0.0
      requires var sh := GetSemaphore(config, Both());
               sh.permits.Some? && !expired ==> sh.permits.value > 0
      modifies this`semaphore
      ensures var sh := GetSemaphore(config, old(Both()));
              if sh.permits.None? then acquired == Ok(false) && Both() == sh
              else if expired then acquired == Err(ServiceUnavailable) && Both() == sh
              else acquired == Ok(true) && Both() == sh.(permits := Some(sh.permits.value - 1))
      ensures acquired == Ok(false) <==> old(semaphore).None? && config.maxConcurrency <= 0
      ensures acquired.Ok? && acquired.value ==>
                semaphore == Some((if old(semaphore).Some? then old(semaphore).value else config.maxConcurrency) - 1)
      ensures acquired.Err? ==>
                expired && semaphore == if old(semaphore).Some? then old(semaphore) else Some(config.maxConcurrency)
    {
      if semaphore.None? && config.maxConcurrency > 0 {
        semaphore := Some(config.maxConcurrency);
      }
      if semaphore.None? {
        return Ok(false);
      }
      if config.queueTimeout > 0.0 && expired {
        return Err(ServiceUnavailable);
      }
      semaphore := Some(semaphore.value - 1);
      return Ok(true);
    }

    /** The `finally` of run_code. */
    method ReleaseSlot(acquired: bool)
      requires acquired ==> semaphore.Some?
      modifies this`semaphore
      ensures semaphore == if acquired then Some(old(semaphore).value + 1) else old(semaphore)
    {
      if acquired {
        semaphore := Some(semaphore.value + 1);
      }
    }

    method EnterCpuset() returns (cores: Option<Group>)
      modifies this`coreGroups
      ensures (cores, Both()) == LeaseCores(config, old(Both()))
      ensures var free := if old(coreGroups).Some? then old(coreGroups).value
                          else InitCoreGroups(config.cores, config.coresPerExec);
              && coreGroups.Some?
              && match cores
                 case Some(group) => free == coreGroups.value + [group]
                 case None => free == coreGroups.value == []
    {
      if coreGroups.None? {
        coreGroups := Some(InitCoreGroups(config.cores, config.coresPerExec));
      }
      var groups := coreGroups.value;
      if groups == [] {
        cores := None;
      } else {
        cores := Some(groups[|groups| - 1]);
        coreGroups := Some(groups[..|groups| - 1]);
      }
    }

    method ExitCpuset(cores: Option<Group>)
      requires cores.Some? ==> coreGroups.Some?
      modifies this`coreGroups
      ensures Both() == ReturnCores(old(Both()), cores)
      ensures cores.Some? ==> coreGroups == Some(old(coreGroups).value + [cores.value])
      ensures cores.None? ==> coreGroups == old(coreGroups)
    {
      if cores.Some? {
        coreGroups := Some(coreGroups.value + [cores.value]);
      }
    }
  }

  // ---------- interleaved requests ----------

  /** Where a request is: `slot` says that it holds a permit. */
  datatype Phase =
    | Arrived
    | Rejected
    | Admitted(slot: bool)
    | Running(slot: bool, cores: Option<Group>)
    | Leaving(slot: bool)
    | Answered

  datatype Action =
    | Admit  // a permit is taken, or none is needed
    | Expire // the queue timeout fires while waiting
    | Pin    // tmp_cpuset is entered
    | Fail   // an exception before tmp_cpuset
    | Unpin  // tmp_cpuset is left, normally or by an exception
    | Leave  // the `finally` of run_code

  datatype State = State(shared: Shared, requests: seq<Phase>)

  datatype Event = Event(request: nat, action: Action)

  function Init(n: nat): State {
    State(Shared(None, None), seq(n, _ => Arrived))
  }

  /** Whether a request in `phase` can act; waiting is not acting. */
  predicate Can(config: Config, sh: Shared, phase: Phase, action: Action) {
    var sem := GetSemaphore(config, sh).permits;
    match action
    case Admit => phase.Arrived? && (sem.Some? ==> sem.value > 0)
    case Expire => phase.Arrived? && sem.Some? && config.queueTimeout > 0.0
    case Pin => phase.Admitted?
    case Fail => phase.Admitted?
    case Unpin => phase.Running? && (phase.cores.Some? ==> sh.groups.Some?)
    case Leave => phase.Leaving? && (phase.slot ==> sh.permits.Some?)
  }

  /** What an action does to the shared state and to its request. */
  function Act(config: Config, sh: Shared, phase: Phase, action: Action): (Shared, Phase)
    requires Can(config, sh, phase, action)
  {
    match action
    case Admit =>
      var sem := GetSemaphore(config, sh);
      if sem.permits.None? then (sem, Admitted(false))
      else (sem.(permits := Some(sem.permits.value - 1)), Admitted(true))
    case Expire => (GetSemaphore(config, sh), Rejected)
    case Pin =>
      var (cores, leased) := LeaseCores(config, sh);
      (leased, Running(phase.slot, cores))
    case Fail => (sh, Leaving(phase.slot))
    case Unpin => (ReturnCores(sh, phase.cores), Leaving(phase.slot))
    case Leave => (if phase.slot then sh.(permits := Some(sh.permits.value + 1)) else sh, Answered)
  }

  predicate Enabled(config: Config, s: State, e: Event) {
    e.request < |s.requests| && Can(config, s.shared, s.requests[e.request], e.action)
  }

  function Step(config: Config, s: State, e: Event): State
    requires Enabled(config, s, e)
  {
    var (shared, phase) := Act(config, s.shared, s.requests[e.request], e.action);
    State(shared, s.requests[e.request := phase])
  }

  predicate Runs(config: Config, s: State, events: seq<Event>)
    decreases |events|
  {
    events == [] || (Enabled(config, s, events[0]) && Runs(config, Step(config, s, events[0]), events[1..]))
  }

  function Run(config: Config, s: State, events: seq<Event>): State
    requires Runs(config, s, events)
    decreases |events|
  {
    if events == [] then s else Run(config, Step(config, s, events[0]), events[1..])
  }

  // ---------- the invariant ----------

  function Lease(cores: Option<Group>): multiset<Group> {
    if cores.Some? then multiset{cores.value} else multiset{}
  }

  function HeldBy(phase: Phase): multiset<Group> {
    if phase.Running? then Lease(phase.cores) else multiset{}
  }

  function Held(requests: seq<Phase>): multiset<Group> {
    if requests == [] then multiset{} else HeldBy(requests[0]) + Held(requests[1..])
  }

  predicate HasSlot(phase: Phase) {
    (phase.Admitted? || phase.Running? || phase.Leaving?) && phase.slot
  }

  function Slots(requests: seq<Phase>): nat {
    if requests == [] then 0 else (if HasSlot(requests[0]) then 1 else 0) + Slots(requests[1..])
  }

  function Free(config: Config, sh: Shared): seq<Group> {
    if sh.groups.Some? then sh.groups.value else Groups(config)
  }

  /** A phase the configuration allows: a limited server runs nothing without a permit. */
  predicate Legal(config: Config, sh: Shared, phase: Phase) {
    && (HasSlot(phase) ==> sh.permits.Some?)
    && (phase.Admitted? || phase.Running? || phase.Leaving? ==> phase.slot == (config.maxConcurrency > 0))
    && (phase.Running? ==> sh.groups.Some?)
  }

  /** Free and leased groups together are the initial groups. */
  ghost predicate GroupsKept(config: Config, s: State) {
    multiset(Free(config, s.shared)) + Held(s.requests) == multiset(Groups(config))
  }

  /** Free permits and permits held add up to the configured maximum. */
  ghost predicate PermitsKept(config: Config, s: State) {
    var sem := GetSemaphore(config, s.shared).permits;
    if config.maxConcurrency <= 0 then sem.None?
    else sem.Some? && sem.value + Slots(s.requests) == config.maxConcurrency
  }

  ghost predicate AllLegal(config: Config, s: State) {
    forall i :: 0 <= i < |s.requests| ==> Legal(config, s.shared, s.requests[i])
  }

  ghost predicate Inv(config: Config, s: State) {
    GroupsKept(config, s) && PermitsKept(config, s) && AllLegal(config, s)
  }

  lemma {:induction false} Replace(requests: seq<Phase>, i: nat, phase: Phase)
    requires i < |requests|
    ensures Held(requests[i := phase]) + HeldBy(requests[i]) == Held(requests) + HeldBy(phase)
    ensures Slots(requests[i := phase]) + (if HasSlot(requests[i]) then 1 else 0)
         == Slots(requests) + (if HasSlot(phase) then 1 else 0)
  {
    if i > 0 {
      var tail := requests[1..];
      Replace(tail, i - 1, phase);
      assert requests[i := phase][1..] == tail[i - 1 := phase];
      Add(HeldBy(requests[0]), Held(tail[i - 1 := phase]), HeldBy(requests[i]), Held(tail), HeldBy(phase));
    } else {
      assert requests[i := phase][1..] == requests[1..];
    }
  }

  lemma {:induction false} Add<T>(a: multiset<T>, b: multiset<T>, c: multiset<T>, d: multiset<T>, e: multiset<T>)
    requires b + c == d + e
    ensures (a + b) + c == (a + d) + e
  {
    assert (a + b) + c == a + (b + c);
    assert (a + d) + e == a + (d + e);
  }

  lemma {:induction false} Exchange<T>(free: multiset<T>, held: multiset<T>, now: multiset<T>,
                                       free': multiset<T>, held': multiset<T>, then': multiset<T>)
    requires free' + then' == free + now && held' + now == held + then'
    ensures free' + held' == free + held
  {
    assert (free' + held') + (then' + now) == (free' + then') + (held' + now);
    assert (free + held) + (then' + now) == (free + now) + (held + then');
    Cancel(free' + held', free + held, then' + now);
  }

  lemma {:induction false} Cancel<T>(a: multiset<T>, b: multiset<T>, c: multiset<T>)
    requires a + c == b + c
    ensures a == b
  {
    assert a == (a + c) - c;
    assert b == (b + c) - c;
  }

  lemma {:induction false} InitInv(config: Config, n: nat)
    ensures Inv(config, Init(n))
  {
    Idle(n);
  }

  lemma {:induction false} Idle(n: nat)
    ensures Held(Init(n).requests) == multiset{} && Slots(Init(n).requests) == 0
  {
    if n > 0 {
      Idle(n - 1);
      assert Init(n).requests[1..] == Init(n - 1).requests;
    }
  }

  lemma {:induction false} Moved<T>(s: seq<T>, x: T)
    ensures multiset(s + [x]) + multiset{} == multiset(s) + multiset{x}
  {
  }

  lemma {:induction false} LeaseMoves(config: Config, sh: Shared)
    ensures var (cores, sh') := LeaseCores(config, sh);
            multiset(Free(config, sh')) + Lease(cores) == multiset(Free(config, sh)) + multiset{}
  {
    var free := Free(config, sh);
    if free != [] {
      var last := |free| - 1;
      assert free == free[..last] + [free[last]];
      Moved(free[..last], free[last]);
    }
  }

  lemma {:induction false} ReturnMoves(config: Config, sh: Shared, cores: Option<Group>)
    requires cores.Some? ==> sh.groups.Some?
    ensures multiset(Free(config, ReturnCores(sh, cores))) + multiset{} == multiset(Free(config, sh)) + Lease(cores)
  {
    if cores.Some? {
      Moved(sh.groups.value, cores.value);
    }
  }

  lemma {:induction false} ActGroups(config: Config, sh: Shared, phase: Phase, action: Action)
    requires Can(config, sh, phase, action)
    ensures var (sh', phase') := Act(config, sh, phase, action);
            multiset(Free(config, sh')) + HeldBy(phase') == multiset(Free(config, sh)) + HeldBy(phase)
  {
    hide Groups, Lease, LeaseCores, ReturnCores;
    match action
    case Pin => LeaseMoves(config, sh);
    case Unpin => ReturnMoves(config, sh, phase.cores);
    case _ =>
  }

  lemma {:induction false} ActPermits(config: Config, sh: Shared, phase: Phase, action: Action)
    requires Can(config, sh, phase, action) && Legal(config, sh, phase)
    requires config.maxConcurrency <= 0 ==> sh.permits.None?
    ensures var (sh', phase') := Act(config, sh, phase, action);
            var sem, sem' := GetSemaphore(config, sh).permits, GetSemaphore(config, sh').permits;
            && Legal(config, sh', phase')
            && (sh.permits.Some? ==> sh'.permits.Some?) && (sh.groups.Some? ==> sh'.groups.Some?)
            && (sem.Some? <==> sem'.Some?)
            && (sem.Some? ==>
                  sem'.value + (if HasSlot(phase') then 1 else 0) == sem.value + (if HasSlot(phase) then 1 else 0))
  {
    hide Groups;
  }

  lemma {:induction false} StepGroups(config: Config, s: State, e: Event)
    requires GroupsKept(config, s) && Enabled(config, s, e)
    ensures GroupsKept(config, Step(config, s, e))
  {
    hide Can, Act, Free, HeldBy, Held, Slots, Groups, HasSlot;
    var phase := s.requests[e.request];
    var (sh', phase') := Act(config, s.shared, phase, e.action);
    ActGroups(config, s.shared, phase, e.action);
    Replace(s.requests, e.request, phase');
    Exchange(multiset(Free(config, s.shared)), Held(s.requests), HeldBy(phase),
             multiset(Free(config, sh')), Held(s.requests[e.request := phase']), HeldBy(phase'));
  }

  lemma {:induction false} StepPermits(config: Config, s: State, e: Event)
    requires PermitsKept(config, s) && AllLegal(config, s) && Enabled(config, s, e)
    ensures PermitsKept(config, Step(config, s, e)) && AllLegal(config, Step(config, s, e))
  {
    hide Can, Act, Free, HeldBy, Held, Slots, Groups, HasSlot, Legal;
    var phase := s.requests[e.request];
    var (sh', phase') := Act(config, s.shared, phase, e.action);
    ActPermits(config, s.shared, phase, e.action);
    Replace(s.requests, e.request, phase');
    var t := Step(config, s, e);
    forall j | 0 <= j < |t.requests|
      ensures Legal(config, t.shared, t.requests[j])
    {
      if j != e.request {
        StaysLegal(config, s.shared, t.shared, s.requests[j]);
      }
    }
  }

  lemma {:induction false} StaysLegal(config: Config, sh: Shared, sh': Shared, phase: Phase)
    requires Legal(config, sh, phase)
    requires (sh.permits.Some? ==> sh'.permits.Some?) && (sh.groups.Some? ==> sh'.groups.Some?)
    ensures Legal(config, sh', phase)
  {
  }

  /** Every step of every request keeps groups and permits. */
  lemma {:induction false} StepInv(config: Config, s: State, e: Event)
    requires Inv(config, s) && Enabled(config, s, e)
    ensures Inv(config, Step(config, s, e))
  {
    hide GroupsKept, PermitsKept, AllLegal, Step;
    StepGroups(config, s, e);
    StepPermits(config, s, e);
  }

  lemma {:induction false} RunInv(config: Config, s: State, events: seq<Event>)
    requires Inv(config, s) && Runs(config, s, events)
    ensures Inv(config, Run(config, s, events))
    decreases |events|
  {
    if events != [] {
      StepInv(config, s, events[0]);
      RunInv(config, Step(config, s, events[0]), events[1..]);
    }
  }

  // ---------- what follows ----------

  lemma {:induction false} HeldAt(requests: seq<Phase>, i: nat)
    requires i < |requests|
    ensures HeldBy(requests[i]) <= Held(requests)
  {
    if i > 0 {
      HeldAt(requests[1..], i - 1);
    }
  }

  lemma {:induction false} HeldAtBoth(requests: seq<Phase>, i: nat, j: nat)
    requires i < |requests| && j < |requests| && i != j
    ensures HeldBy(requests[i]) + HeldBy(requests[j]) <= Held(requests)
  {
    var others := requests[i := Arrived];
    Replace(requests, i, Arrived);
    HeldAt(others, j);
    assert Held(requests) == Held(others) + HeldBy(requests[i]);
  }

  lemma {:induction false} Without(groups: seq<Group>, a: nat)
    requires a < |groups|
    ensures multiset(groups[..a] + groups[a + 1..]) + multiset{groups[a]} == multiset(groups)
  {
    assert groups == groups[..a] + [groups[a]] + groups[a + 1..];
  }

  lemma {:induction false} Position(groups: seq<Group>, g: Group) returns (a: nat)
    requires multiset(groups)[g] > 0
    ensures a < |groups| && groups[a] == g
  {
    assert g in groups;
    a :| a < |groups| && groups[a] == g;
  }

  lemma {:induction false} TwoPositions(groups: seq<Group>, g: Group, h: Group) returns (a: nat, b: nat)
    requires multiset{g} + multiset{h} <= multiset(groups)
    ensures a < |groups| && b < |groups| && a != b && groups[a] == g && groups[b] == h
  {
    assert (multiset{g} + multiset{h})[g] > 0 && (multiset{g} + multiset{h})[h] > multiset{g}[h];
    a := Position(groups, g);
    Without(groups, a);
    var rest := groups[..a] + groups[a + 1..];
    b := Position(rest, h);
    if b >= a {
      assert rest[b] == groups[b + 1];
      b := b + 1;
    }
  }

  /** In every interleaving, executions that run at the same time share no core. */
  lemma {:induction false} LeasesNeverOverlap(config: Config, n: nat, events: seq<Event>, i: nat, j: nat)
    requires Distinct(config.cores) && Runs(config, Init(n), events)
    requires var rs := Run(config, Init(n), events).requests;
             && i < |rs| && j < |rs| && i != j
             && rs[i].Running? && rs[i].cores.Some? && rs[j].Running? && rs[j].cores.Some?
    ensures var rs := Run(config, Init(n), events).requests;
            Disjoint(rs[i].cores.value, rs[j].cores.value)
  {
    InitInv(config, n);
    RunInv(config, Init(n), events);
    var rs := Run(config, Init(n), events).requests;
    HeldAtBoth(rs, i, j);
    CoreGroups(config.cores, config.coresPerExec);
    var g, h := rs[i].cores.value, rs[j].cores.value;
    var a, b := TwoPositions(Groups(config), g, h);
  }

  lemma {:induction false} HeldWithinSlots(requests: seq<Phase>)
    requires forall i :: 0 <= i < |requests| ==> HeldBy(requests[i]) != multiset{} ==> HasSlot(requests[i])
    ensures |Held(requests)| <= Slots(requests)
  {
    if requests != [] {
      HeldWithinSlots(requests[1..]);
    }
  }

  lemma {:induction false} NoneFree(config: Config, s: State)
    requires GroupsKept(config, s) && Free(config, s.shared) == []
    ensures |Held(s.requests)| == |Groups(config)|
  {
    assert Held(s.requests) == multiset(Groups(config));
    assert |multiset(Groups(config))| == |Groups(config)|;
  }

  /** A request that has not leased anything yet holds a permit on top of those of the leases. */
  lemma {:induction false} SlotToSpare(config: Config, s: State, i: nat)
    requires AllLegal(config, s) && config.maxConcurrency > 0
    requires i < |s.requests| && s.requests[i].Admitted?
    ensures |Held(s.requests)| < Slots(s.requests)
  {
    assert Legal(config, s.shared, s.requests[i]);
    var others := s.requests[i := Arrived];
    Replace(s.requests, i, Arrived);
    forall j | 0 <= j < |others| && HeldBy(others[j]) != multiset{}
      ensures HasSlot(others[j])
    {
      assert Legal(config, s.shared, s.requests[j]);
    }
    HeldWithinSlots(others);
    Cancel(Held(others), Held(s.requests), multiset{});
  }

  /** A limited server with no more permits than groups always has a group for an admitted request. */
  lemma {:induction false} GroupAvailable(config: Config, s: State, i: nat)
    requires Inv(config, s) && 0 < config.maxConcurrency <= |Groups(config)|
    requires i < |s.requests| && s.requests[i].Admitted?
    ensures LeaseCores(config, s.shared).0.Some?
  {
    SlotToSpare(config, s, i);
    if Free(config, s.shared) == [] {
      NoneFree(config, s);
    }
  }

  predicate RunsUnpinned(phase: Phase) {
    phase.Running? && phase.cores.None?
  }

  ghost predicate Unpinned(s: State) {
    exists i :: 0 <= i < |s.requests| && RunsUnpinned(s.requests[i])
  }

  /** An execution starts unpinned in some run exactly when there are more permits than groups, or no limit. */
  ghost predicate Overcommits(config: Config) {
    exists n: nat, events :: Runs(config, Init(n), events) && Unpinned(Run(config, Init(n), events))
  }

  lemma {:induction false} StepPinned(config: Config, s: State, e: Event)
    requires Inv(config, s) && Enabled(config, s, e) && !Unpinned(s)
    requires 0 < config.maxConcurrency <= |Groups(config)|
    ensures !Unpinned(Step(config, s, e))
  {
    var t := Step(config, s, e);
    if e.action == Pin {
      GroupAvailable(config, s, e.request);
    }
    hide Inv, Groups;
    forall i | 0 <= i < |t.requests|
      ensures !RunsUnpinned(t.requests[i])
    {
      assert !RunsUnpinned(s.requests[i]);
    }
  }

  lemma {:induction false} RunPinned(config: Config, s: State, events: seq<Event>)
    requires Inv(config, s) && Runs(config, s, events) && !Unpinned(s)
    requires 0 < config.maxConcurrency <= |Groups(config)|
    ensures !Unpinned(Run(config, s, events))
    decreases |events|
  {
    hide Inv, Unpinned;
    if events != [] {
      StepInv(config, s, events[0]);
      StepPinned(config, s, events[0]);
      RunPinned(config, Step(config, s, events[0]), events[1..]);
    }
  }

  /** `k` requests that were admitted one after the other and took the groups from the end. */
  function Crowd(config: Config, n: nat, k: nat): State
    requires k <= n && k <= |Groups(config)|
    requires config.maxConcurrency > 0 ==> k <= config.maxConcurrency
  {
    var groups := Groups(config);
    var limited := config.maxConcurrency > 0;
    State(Shared(if k == 0 then None else Some(groups[..|groups| - k]),
                 if k == 0 || !limited then None else Some(config.maxConcurrency - k)),
          seq(n, i requires 0 <= i < n =>
            if i < k then Running(limited, Some(groups[|groups| - 1 - i])) else Arrived))
  }

  lemma {:induction false} JoinCrowd(config: Config, n: nat, k: nat)
    requires k < n && k <= |Groups(config)|
    requires config.maxConcurrency > 0 ==> k < config.maxConcurrency
    ensures var s := Crowd(config, n, k);
            && Enabled(config, s, Event(k, Admit))
            && Enabled(config, Step(config, s, Event(k, Admit)), Event(k, Pin))
            && var t := Step(config, Step(config, s, Event(k, Admit)), Event(k, Pin));
               if k < |Groups(config)| then t == Crowd(config, n, k + 1) else RunsUnpinned(t.requests[k])
  {
    var s := Crowd(config, n, k);
    var groups := Groups(config);
    assert groups[..|groups|] == groups;
    var t := Step(config, Step(config, s, Event(k, Admit)), Event(k, Pin));
    if k < |groups| {
      assert groups[..|groups| - k][..|groups| - k - 1] == groups[..|groups| - (k + 1)];
      assert t.requests == Crowd(config, n, k + 1).requests;
    } else {
      assert groups[..0] == [];
    }
  }

  lemma {:induction false} CrowdUnpinned(config: Config, n: nat, k: nat)
    requires n == |Groups(config)| + 1 && k < n
    requires config.maxConcurrency <= 0 || n <= config.maxConcurrency
    ensures exists events :: Runs(config, Crowd(config, n, k), events)
                             && Unpinned(Run(config, Crowd(config, n, k), events))
    decreases n - k
  {
    var s := Crowd(config, n, k);
    var admit, pin := Event(k, Admit), Event(k, Pin);
    var t := Step(config, s, admit);
    JoinCrowd(config, n, k);
    var u := Step(config, t, pin);
    var rest: seq<Event> := [];
    if k < |Groups(config)| {
      CrowdUnpinned(config, n, k + 1);
      rest :| Runs(config, u, rest) && Unpinned(Run(config, u, rest));
    }
    hide Groups, Crowd, Step, Enabled;
    var tail := [pin] + rest;
    assert tail[1..] == rest;
    var all := [admit] + tail;
    assert all[0] == admit && all[1..] == tail;
    assert Runs(config, t, tail);
    assert Run(config, t, tail) == Run(config, u, rest);
    assert Runs(config, s, all);
    assert Run(config, s, all) == Run(config, t, tail);
  }

  /** No admitted execution ever runs unpinned if and only if 0 < max_concurrency <= number of groups. */
  lemma {:induction false} PinnedIffBounded(config: Config)
    ensures !Overcommits(config) <==> 0 < config.maxConcurrency <= |Groups(config)|
  {
    if 0 < config.maxConcurrency <= |Groups(config)| {
      forall n: nat, events | Runs(config, Init(n), events)
        ensures !Unpinned(Run(config, Init(n), events))
      {
        InitInv(config, n);
        RunPinned(config, Init(n), events);
      }
    } else {
      var n := |Groups(config)| + 1;
      assert Crowd(config, n, 0) == Init(n);
      CrowdUnpinned(config, n, 0);
    }
  }

  /** A request is turned away in some run. */
  ghost predicate Rejects(config: Config) {
    exists n: nat, events ::
      Runs(config, Init(n), events) && HasRejected(Run(config, Init(n), events).requests)
  }

  ghost predicate HasRejected(requests: seq<Phase>) {
    exists i :: 0 <= i < |requests| && requests[i].Rejected?
  }

  lemma {:induction false} NeverRejected(config: Config, s: State, events: seq<Event>)
    requires Runs(config, s, events) && Inv(config, s) && !HasRejected(s.requests)
    requires config.maxConcurrency <= 0 || config.queueTimeout <= 0.0
    ensures !HasRejected(Run(config, s, events).requests)
    decreases |events|
  {
    if events != [] {
      StepInv(config, s, events[0]);
      StepAdmits(config, s, events[0]);
      hide Inv, HasRejected, Step, Enabled;
      NeverRejected(config, Step(config, s, events[0]), events[1..]);
    }
  }

  lemma {:induction false} StepAdmits(config: Config, s: State, e: Event)
    requires Enabled(config, s, e) && PermitsKept(config, s) && !HasRejected(s.requests)
    requires config.maxConcurrency <= 0 || config.queueTimeout <= 0.0
    ensures !HasRejected(Step(config, s, e).requests)
  {
    var phase := Act(config, s.shared, s.requests[e.request], e.action).1;
    assert !phase.Rejected? by {
      hide LeaseCores, ReturnCores, Slots;
    }
    hide Act, Can, PermitsKept;
    assert forall i :: 0 <= i < |s.requests| ==> !s.requests[i].Rejected?;
  }

  /** Requests are turned away in some run exactly when concurrency is limited and there is a queue timeout. */
  lemma {:induction false} RejectsIff(config: Config)
    ensures Rejects(config) <==> config.maxConcurrency > 0 && config.queueTimeout > 0.0
  {
    if config.maxConcurrency > 0 && config.queueTimeout > 0.0 {
      var events := [Event(0, Expire)];
      assert Enabled(config, Init(1), events[0]);
      var t := Step(config, Init(1), events[0]);
      assert events[1..] == [] && Runs(config, t, []) && Run(config, t, []) == t;
      assert Runs(config, Init(1), events) && Run(config, Init(1), events) == t;
      assert t.requests[0].Rejected?;
      assert HasRejected(Run(config, Init(1), events).requests);
    } else {
      forall n: nat, events | Runs(config, Init(n), events)
        ensures !HasRejected(Run(config, Init(n), events).requests)
      {
        InitInv(config, n);
        NeverRejected(config, Init(n), events);
      }
    }
  }

  ghost predicate Settled(requests: seq<Phase>) {
    forall i :: 0 <= i < |requests| ==> requests[i].Answered? || requests[i].Rejected?
  }

  /** Once every request has been answered or rejected, all groups and all permits are back. */
  lemma {:induction false} AllReturned(config: Config, n: nat, events: seq<Event>)
    requires Runs(config, Init(n), events)
    requires Settled(Run(config, Init(n), events).requests)
    ensures var s := Run(config, Init(n), events);
            && multiset(Free(config, s.shared)) == multiset(Groups(config))
            && (config.maxConcurrency > 0 ==> GetSemaphore(config, s.shared).permits == Some(config.maxConcurrency))
  {
    var s := Run(config, Init(n), events);
    InitInv(config, n);
    RunInv(config, Init(n), events);
    NothingHeld(s.requests);
    assert multiset(Free(config, s.shared)) + multiset{} == multiset(Free(config, s.shared));
  }

  lemma {:induction false} NothingHeld(requests: seq<Phase>)
    requires Settled(requests)
    ensures Held(requests) == multiset{} && Slots(requests) == 0
  {
    if requests != [] {
      assert forall i :: 0 <= i < |requests| - 1 ==> requests[1..][i] == requests[i + 1];
      NothingHeld(requests[1..]);
    }
  }

  /** An execution that is running, and a request that is leaving, can always go on. */
  lemma {:induction false} NeverStuck(config: Config, n: nat, events: seq<Event>, i: nat)
    requires Runs(config, Init(n), events) && i < |Run(config, Init(n), events).requests|
    ensures var s := Run(config, Init(n), events);
            match s.requests[i]
            case Admitted(_) => Enabled(config, s, Event(i, Pin)) && Enabled(config, s, Event(i, Fail))
            case Running(_, _) => Enabled(config, s, Event(i, Unpin))
            case Leaving(_) => Enabled(config, s, Event(i, Leave))
            case _ => true
  {
    var s := Run(config, Init(n), events);
    InitInv(config, n);
    RunInv(config, Init(n), events);
    assert Legal(config, s.shared, s.requests[i]);
  }
}
