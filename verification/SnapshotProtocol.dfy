/**
 The account snapshot of the scheduler: concurrent store mutations that commit and then
 bump a version counter, against `loadSnapshot` calls that read the version, list the
 accounts under the snapshot gate and install both.

 `A` is the content of the account table apart from `last_used`. A mutation is any
 function on it; `last_used` flushes write `used` without a bump.
 */
module SnapshotProtocol {
  import G = GateProtocol

  type Pid = G.Pid
  type Used = map<string, int>

  const SNAPSHOT_GATE: G.Key := "@scheduler-snapshot"

  /** Where one call of `loadSnapshot` is. `must` is what had returned when the call began. */
  datatype Load<A> =
    | Called(must: set<nat>)
    | FirstRead(must: set<nat>, v: nat)
    | AtGate(must: set<nat>)                        // stale: acquiring the gate, or holding it
    | SecondRead(must: set<nat>, v: nat)
    | Listing(must: set<nat>, v: nat)
    | Listed(must: set<nat>, v: nat, core: A, used: Used, len: nat)
    | Done(must: set<nat>)
    | Failed(must: set<nat>)
  {
    predicate Critical() {
      SecondRead? || Listing? || Listed?
    }
  }

  /**
   `log` holds the committed mutations in commit order, `bumps` the log positions in the
   order of their bumps, `returned` those whose store call has returned. `len` is the
   length of the log prefix that the installed snapshot shows.
   */
  datatype State<!A> = State(
    base: A,
    log: seq<A -> A>,
    core: A,
    used: Used,
    bumps: seq<nat>,
    returned: set<nat>,
    loads: map<Pid, Load<A>>,
    gate: G.State<nat>,
    version: nat,
    snapshot: A,
    snapshotUsed: Used,
    len: nat)
  {
    /** `AccountsVersion`: one after opening, one more for every bump. */
    function StoreVersion(): nat {
      1 + |bumps|
    }
  }

  datatype Step<!A> =
    | Commit(m: A -> A, used: Used)
    | Bump(pos: nat)
    | MutationReturns(pos: nat)
    | Flush(used: Used)
    | Call(p: Pid)
    | ReadFirst(p: Pid)
    | CompareFirst(p: Pid)
    | ReadSecond(p: Pid)
    | CompareSecond(p: Pid)
    | List(p: Pid)
    | Install(p: Pid)
    | Fail(p: Pid)
    | OnGate(g: G.Step<nat>)

  function Replay<A>(base: A, log: seq<A -> A>): A {
    if log == [] then base else log[|log| - 1](Replay(base, log[..|log| - 1]))
  }

  ghost predicate Initial<A(!new)>(s: State<A>) {
    && s.log == [] && s.core == s.base && s.bumps == [] && s.returned == {} && s.loads == map[]
    && s.gate == G.Initial() && s.version == 0 && s.len == 0
  }

  predicate HoldsGate<A>(s: State<A>, p: Pid) {
    p in s.gate.procs && s.gate.procs[p].Holding? && s.gate.procs[p].id == SNAPSHOT_GATE
  }

  /** A load touches the gate only at its gate step, and unlocks only after its critical section. */
  predicate GateStepAllowed<A>(s: State<A>, g: G.Step<nat>) {
    && G.Enabled(s.gate, g)
    && (g.p in s.loads ==>
          match g
          case Enter(_, id, _) => s.loads[g.p].AtGate? && id == SNAPSHOT_GATE
          case Return(_) => !s.loads[g.p].Critical()
          case _ => true)
  }

  predicate Enabled<A>(s: State<A>, step: Step<A>) {
    match step
    case Commit(_, _) => true
    case Bump(pos) => pos < |s.log| && pos !in s.bumps
    case MutationReturns(pos) => pos in s.bumps
    case Flush(_) => true
    case Call(p) => p !in s.loads && p !in s.gate.procs
    case ReadFirst(p) => p in s.loads && s.loads[p].Called?
    case CompareFirst(p) => p in s.loads && s.loads[p].FirstRead?
    case ReadSecond(p) => p in s.loads && s.loads[p].AtGate? && HoldsGate(s, p)
    case CompareSecond(p) => p in s.loads && s.loads[p].SecondRead?
    case List(p) => p in s.loads && s.loads[p].Listing?
    case Install(p) => p in s.loads && s.loads[p].Listed?
    case Fail(p) => p in s.loads && !s.loads[p].Done?
    case OnGate(g) => GateStepAllowed(s, g)
  }

  ghost function Apply<A>(s: State<A>, step: Step<A>): State<A>
    requires Enabled(s, step)
  {
    match step
    case Commit(m, used) => s.(log := s.log + [m], core := m(s.core), used := used)
    case Bump(pos) => s.(bumps := s.bumps + [pos])
    case MutationReturns(pos) => s.(returned := s.returned + {pos})
    case Flush(used) => s.(used := used)
    case Call(p) => s.(loads := s.loads[p := Called(s.returned)])
    case ReadFirst(p) => s.(loads := s.loads[p := FirstRead(s.loads[p].must, s.StoreVersion())])
    case CompareFirst(p) =>
      var l := s.loads[p];
      s.(loads := s.loads[p := if s.version == l.v then Done(l.must) else AtGate(l.must)])
    case ReadSecond(p) => s.(loads := s.loads[p := SecondRead(s.loads[p].must, s.StoreVersion())])
    case CompareSecond(p) =>
      var l := s.loads[p];
      s.(loads := s.loads[p := if s.version == l.v then Done(l.must) else Listing(l.must, l.v)])
    case List(p) =>
      var l := s.loads[p];
      s.(loads := s.loads[p := Listed(l.must, l.v, s.core, s.used, |s.log|)])
    case Install(p) =>
      var l := s.loads[p];
      s.(loads := s.loads[p := Done(l.must)], version := l.v, snapshot := l.core, snapshotUsed := l.used, len := l.len)
    case Fail(p) => s.(loads := s.loads[p := Failed(s.loads[p].must)])
    case OnGate(g) => s.(gate := G.Apply(s.gate, g))
  }

  /** The first `v - 1` bumps are for mutations at log positions below `n`. */
  ghost predicate Covers(bumps: seq<nat>, v: nat, n: nat) {
    v <= 1 + |bumps| && forall k | 0 <= k < v - 1 :: bumps[k] < n
  }

  /** Everything in `must` was bumped before the version `v` was read. */
  ghost predicate BumpedBy(bumps: seq<nat>, must: set<nat>, v: nat) {
    1 <= v <= 1 + |bumps| && forall m <- must :: m in bumps[..v - 1]
  }

  ghost predicate StoreInv<A>(s: State<A>) {
    && s.core == Replay(s.base, s.log)
    && (forall m <- s.bumps :: m < |s.log|)
    && (forall m <- s.returned :: m in s.bumps)
  }

  ghost predicate SnapshotInv<A>(s: State<A>) {
    && s.len <= |s.log|
    && Covers(s.bumps, s.version, s.len)
    && (s.version >= 1 ==> s.snapshot == Replay(s.base, s.log[..s.len]))
  }

  ghost predicate LoadInv<A>(s: State<A>, p: Pid)
    requires p in s.loads
  {
    var l := s.loads[p];
    && (forall m <- l.must :: m in s.returned)
    && (l.FirstRead? || l.Critical() ==> BumpedBy(s.bumps, l.must, l.v))
    && (l.Critical() ==> HoldsGate(s, p) && s.version <= l.v)
    && (l.Listed? ==>
          && s.len <= l.len <= |s.log| && Covers(s.bumps, l.v, l.len)
          && l.core == Replay(s.base, s.log[..l.len]))
    && (l.Done? ==> s.version >= 1 && forall m <- l.must :: m < s.len)
  }

  ghost predicate LoadsInv<A>(s: State<A>) {
    forall p <- s.loads :: LoadInv(s, p)
  }

  ghost predicate Inv<A>(s: State<A>) {
    G.Inv(s.gate) && StoreInv(s) && SnapshotInv(s) && LoadsInv(s)
  }

  lemma InitialInv<A(!new)>(s: State<A>)
    requires Initial(s)
    ensures Inv(s)
  {
    G.InitialInv<nat>();
  }

  // ---- Mutations --------------------------------------------------------------

  lemma StoreStepKeepsStoreInv<A>(s: State<A>, step: Step<A>)
    requires StoreInv(s) && Enabled(s, step)
    ensures StoreInv(Apply(s, step))
  {
    if step.Commit? {
      assert (s.log + [step.m])[..|s.log|] == s.log;
    }
  }

  /** A store step keeps what a load has seen: logs and bump orders only grow. */
  lemma StoreStepKeepsLoad<A>(s: State<A>, step: Step<A>, p: Pid)
    requires p in s.loads && LoadInv(s, p)
    requires step.Commit? || step.Bump? || step.MutationReturns? || step.Flush?
    requires Enabled(s, step)
    ensures LoadInv(Apply(s, step), p)
  {
    var l, t := s.loads[p], Apply(s, step);
    if l.FirstRead? || l.Critical() {
      assert t.bumps[..l.v - 1] == s.bumps[..l.v - 1];
    }
    if l.Listed? {
      assert t.log[..l.len] == s.log[..l.len];
    }
  }

  lemma StoreStepKeepsSnapshotInv<A>(s: State<A>, step: Step<A>)
    requires SnapshotInv(s)
    requires step.Commit? || step.Bump? || step.MutationReturns? || step.Flush?
    requires Enabled(s, step)
    ensures SnapshotInv(Apply(s, step))
  {
    assert Apply(s, step).log[..s.len] == s.log[..s.len];
  }

  lemma StoreStepKeepsInv<A>(s: State<A>, step: Step<A>)
    requires Inv(s) && Enabled(s, step)
    requires step.Commit? || step.Bump? || step.MutationReturns? || step.Flush?
    ensures Inv(Apply(s, step))
  {
    hide LoadInv, StoreInv, SnapshotInv, G.Inv;
    StoreStepKeepsStoreInv(s, step);
    StoreStepKeepsSnapshotInv(s, step);
    forall p <- s.loads ensures LoadInv(Apply(s, step), p) {
      StoreStepKeepsLoad(s, step, p);
    }
  }

  // ---- Loads ------------------------------------------------------------------

  /** A version that matches means the snapshot already shows everything in `must`. */
  lemma MatchingVersionCovers(bumps: seq<nat>, must: set<nat>, v: nat, n: nat)
    requires BumpedBy(bumps, must, v) && Covers(bumps, v, n)
    ensures forall m <- must :: m < n
  {
    forall m <- must ensures m < n {
      var k :| 0 <= k < |bumps[..v - 1]| && bumps[..v - 1][k] == m;
      assert bumps[k] == m;
    }
  }

  lemma ReturnedIsBumped<A>(s: State<A>, must: set<nat>)
    requires StoreInv(s) && forall m <- must :: m in s.returned
    ensures BumpedBy(s.bumps, must, s.StoreVersion())
  {
    assert s.bumps[..s.StoreVersion() - 1] == s.bumps;
  }

  /** Bumps seen before the listing belong to mutations the listing shows. */
  lemma ListingCovers<A>(s: State<A>, v: nat)
    requires StoreInv(s) && v <= s.StoreVersion()
    ensures Covers(s.bumps, v, |s.log|)
  {
    forall k | 0 <= k < v - 1 ensures s.bumps[k] < |s.log| {
      assert s.bumps[k] in s.bumps;
    }
  }

  predicate IsLoadStep<A>(step: Step<A>) {
    step.Call? || step.ReadFirst? || step.CompareFirst? || step.ReadSecond? || step.CompareSecond? || step.List?
    || step.Install? || step.Fail?
  }

  /** The caller that moves keeps its own invariant. */
  lemma LoadStepKeepsOwn<A>(s: State<A>, step: Step<A>)
    requires StoreInv(s) && SnapshotInv(s) && IsLoadStep(step) && Enabled(s, step)
    requires !step.Call? ==> LoadInv(s, step.p)
    ensures LoadInv(Apply(s, step), step.p)
  {
    match step
    case Call(p) =>
    case ReadFirst(p) => ReturnedIsBumped(s, s.loads[p].must);
    case CompareFirst(p) => CompareKeepsOwn(s, p);
    case ReadSecond(p) => ReturnedIsBumped(s, s.loads[p].must);
    case CompareSecond(p) => CompareKeepsOwn(s, p);
    case List(p) =>
      ListingCovers(s, s.loads[p].v);
      assert s.log[..|s.log|] == s.log;
    case Install(p) => MatchingVersionCovers(s.bumps, s.loads[p].must, s.loads[p].v, s.loads[p].len);
    case Fail(p) =>
  }

  lemma CompareKeepsOwn<A>(s: State<A>, p: Pid)
    requires SnapshotInv(s) && p in s.loads && LoadInv(s, p) && (s.loads[p].FirstRead? || s.loads[p].SecondRead?)
    ensures s.version == s.loads[p].v ==> s.version >= 1 && forall m <- s.loads[p].must :: m < s.len
  {
    if s.version == s.loads[p].v {
      MatchingVersionCovers(s.bumps, s.loads[p].must, s.version, s.len);
    }
  }

  /** Other loads keep theirs; an installation can only meet one other critical load, and there is none. */
  lemma LoadStepKeepsOthers<A>(s: State<A>, step: Step<A>, q: Pid)
    requires SnapshotInv(s) && IsLoadStep(step) && Enabled(s, step)
    requires !step.Call? ==> LoadInv(s, step.p)
    requires q in s.loads && q != step.p && LoadInv(s, q)
    requires step.Install? ==> !s.loads[q].Critical()
    ensures LoadInv(Apply(s, step), q)
  {
  }

  lemma OneCriticalLoad<A>(s: State<A>, p: Pid, q: Pid)
    requires G.Inv(s.gate) && p in s.loads && q in s.loads && LoadInv(s, p) && LoadInv(s, q)
    requires s.loads[p].Critical() && s.loads[q].Critical()
    ensures p == q
  {
    hide G.Inv;
    G.MutualExclusion(s.gate, p, q);
  }

  lemma LoadStepKeepsSnapshotInv<A>(s: State<A>, step: Step<A>)
    requires SnapshotInv(s) && IsLoadStep(step) && Enabled(s, step)
    requires step.Install? ==> LoadInv(s, step.p)
    ensures SnapshotInv(Apply(s, step))
    ensures s.version <= Apply(s, step).version && s.len <= Apply(s, step).len
  {
  }

  lemma LoadStepKeepsInv<A>(s: State<A>, step: Step<A>)
    requires Inv(s) && IsLoadStep(step) && Enabled(s, step)
    ensures Inv(Apply(s, step))
  {
    hide LoadInv, SnapshotInv, G.Inv;
    assert step.Call? || LoadInv(s, step.p);
    LoadStepKeepsSnapshotInv(s, step);
    LoadStepKeepsOwn(s, step);
    forall q <- Apply(s, step).loads ensures LoadInv(Apply(s, step), q) {
      if q != step.p {
        if step.Install? && s.loads[q].Critical() {
          OneCriticalLoad(s, step.p, q);
        }
        LoadStepKeepsOthers(s, step, q);
      }
    }
  }

  // ---- Gate steps -------------------------------------------------------------

  lemma GateStepKeepsLoad<A>(s: State<A>, g: G.Step<nat>, p: Pid)
    requires p in s.loads && LoadInv(s, p) && Enabled(s, Step<A>.OnGate(g))
    ensures LoadInv(Apply(s, Step<A>.OnGate(g)), p)
  {
    if s.loads[p].Critical() && p != g.p {
      assert G.Apply(s.gate, g).procs[p] == s.gate.procs[p];
    }
  }

  lemma GateStepKeepsInv<A>(s: State<A>, g: G.Step<nat>)
    requires Inv(s) && Enabled(s, Step<A>.OnGate(g))
    ensures Inv(Apply(s, Step<A>.OnGate(g)))
  {
    hide LoadInv, G.Inv, G.Apply;
    G.StepKeepsInv(s.gate, g);
    forall p <- s.loads ensures LoadInv(Apply(s, Step<A>.OnGate(g)), p) {
      GateStepKeepsLoad(s, g, p);
    }
  }

  // ---- Results ----------------------------------------------------------------

  lemma StepKeepsInv<A>(s: State<A>, step: Step<A>)
    requires Inv(s) && Enabled(s, step)
    ensures Inv(Apply(s, step))
    ensures s.version <= Apply(s, step).version && s.len <= Apply(s, step).len
  {
    if step.OnGate? {
      GateStepKeepsInv(s, step.g);
    } else if IsLoadStep(step) {
      LoadStepKeepsInv(s, step);
      LoadStepKeepsSnapshotInv(s, step);
    } else {
      StoreStepKeepsInv(s, step);
    }
  }

  ghost predicate Next<A(!new)>(s: State<A>, t: State<A>) {
    exists step: Step<A> :: Enabled(s, step) && t == Apply(s, step)
  }

  ghost predicate IsRun<A(!new)>(run: seq<State<A>>) {
    |run| > 0 && Initial(run[0]) && forall i | 0 <= i < |run| - 1 :: Next(run[i], run[i + 1])
  }

  lemma {:induction false} RunKeepsInv<A(!new)>(run: seq<State<A>>, n: nat)
    requires IsRun(run) && n < |run|
    ensures Inv(run[n])
  {
    if n == 0 {
      InitialInv(run[0]);
    } else {
      RunKeepsInv(run, n - 1);
      var s := run[n - 1];
      assert Next(s, run[n - 1 + 1]);
      var step :| Enabled(s, step) && run[n] == Apply(s, step);
      StepKeepsInv(s, step);
    }
  }

  /** Along a run neither the scheduler's version nor the prefix its snapshot shows ever goes back. */
  lemma {:induction false} VersionNeverDecreases<A(!new)>(run: seq<State<A>>, i: nat, j: nat)
    requires IsRun(run) && i <= j < |run|
    ensures run[i].version <= run[j].version && run[i].len <= run[j].len
  {
    if i < j {
      VersionNeverDecreases(run, i, j - 1);
      var s := run[j - 1];
      assert Next(s, run[j - 1 + 1]);
      var step :| Enabled(s, step) && run[j] == Apply(s, step);
      RunKeepsInv(run, j - 1);
      StepKeepsInv(s, step);
    }
  }

  lemma StepKeepsMust<A>(s: State<A>, step: Step<A>, p: Pid)
    requires Enabled(s, step) && p in s.loads
    ensures p in Apply(s, step).loads && Apply(s, step).loads[p].must == s.loads[p].must
  {
  }

  /** `must` is fixed when a call begins, whatever happens later. */
  lemma {:induction false} CallRemembers<A(!new)>(run: seq<State<A>>, p: Pid, i: nat, j: nat)
    requires IsRun(run) && i <= j < |run| && p in run[i].loads
    ensures p in run[j].loads && run[j].loads[p].must == run[i].loads[p].must
  {
    if i < j {
      CallRemembers(run, p, i, j - 1);
      var s := run[j - 1];
      assert Next(s, run[j - 1 + 1]);
      var step :| Enabled(s, step) && run[j] == Apply(s, step);
      hide *;
      StepKeepsMust(s, step, p);
    }
  }

  /**
   Freshness: a call of `loadSnapshot` by `p` that begins right after state `i` and has
   succeeded by state `j` leaves in the scheduler a table that is the replay of a commit
   prefix containing every mutation that had returned before the call.
   */
  lemma SuccessfulLoadIsFresh<A(!new)>(run: seq<State<A>>, p: Pid, i: nat, j: nat)
    requires IsRun(run) && i < j < |run|
    requires p !in run[i].loads && p in run[i + 1].loads
    requires p in run[j].loads && run[j].loads[p].Done?
    ensures forall m <- run[i].returned :: m < run[j].len
    ensures run[j].len <= |run[j].log| && run[j].snapshot == Replay(run[j].base, run[j].log[..run[j].len])
  {
    assert Next(run[i], run[i + 1]);
    var step :| Enabled(run[i], step) && run[i + 1] == Apply(run[i], step);
    assert run[i + 1].loads[p].must == run[i].returned;
    CallRemembers(run, p, i + 1, j);
    RunKeepsInv(run, j);
    assert LoadInv(run[j], p);
  }

  lemma BumpedIsCovered(bumps: seq<nat>, n: nat, pos: nat)
    requires Covers(bumps, 1 + |bumps|, n) && pos in bumps
    ensures pos < n
  {
    var k :| 0 <= k < |bumps| && bumps[k] == pos;
    assert k < 1 + |bumps| - 1;
  }

  /** Once every commit has been bumped, a matching version means the snapshot is the table itself. */
  lemma MatchingQuietSnapshotIsExact<A>(s: State<A>)
    requires Inv(s)
    requires forall pos | 0 <= pos < |s.log| :: pos in s.bumps
    requires s.version == s.StoreVersion()
    ensures s.snapshot == s.core
  {
    if s.len < |s.log| {
      BumpedIsCovered(s.bumps, s.len, s.len);
    }
    assert s.log[..s.len] == s.log;
  }
}
