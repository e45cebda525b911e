/**
 `Acquire`, with other callers acting between its critical sections and with every outcome of
 the network and of the store.

 What the others do is an input: `others(k)` is their k-th critical section, and how many of
 them run at any point is arbitrary. A log records every critical section of the pool, its
 author, its time and the state after it. A caller cannot invent what the others did: their
 entries follow `others` in order, and its own entries are of the kinds that `Acquire` makes.
 */
module Acquisition {
  import opened Wrappers
  import opened Scheduling
  import opened Pools
  import opened Cooldowns

  datatype Acquired =
    | Granted(account: Account, lease: Lease)
    | NoAccounts(earliest: Option<Time>)
    | Failed                                  // the context ended, or the store failed

  datatype Confirmation = Confirmed | GiveUp | Exclude | Again

  /** How a round of `Acquire` ends: the call is over, or goes on, perhaps without an account. */
  datatype RoundEnd = Over(out: Acquired) | More(exclude: Option<Id>)

  /**
   What the network, the store and the caller's context do in one round: the listing before the selection
   succeeds, the credentials are fresh, a refresh is refused for good, the listing after the refresh
   succeeds, the use is recorded, and the context has ended.
   */
  datatype Circumstance = Circumstance(listed: bool, refreshed: bool, revoked: bool, loaded: bool, recorded: bool,
                                       ended: bool)

  /** The round cannot end with an account, and the call is over. */
  predicate Fatal(w: Circumstance) {
    !w.listed || w.ended || (w.refreshed && (!w.loaded || !w.recorded))
  }

  /** A critical section of another caller; a snapshot comes from the store, whoever installs it. */
  datatype Foreign = Take(req: Request, now: Time, owner: nat) | Return | Bookkeep(op: Op)

  predicate Performs(f: Foreign, op: Op) {
    match f
    case Take(req, now, _) => op.Select? && op.req == req && op.now == now
    case Return => op.Release?
    case Bookkeep(o) => op == o
  }

  /** `history` holds one state more than `ops`; an author is one of the others by number, or the caller. */
  datatype Log = Log(history: seq<View>, ops: seq<Op>, authors: seq<Option<nat>>, times: seq<Time>)

  /** The others' entries perform their critical sections number 0 to `turn`, none twice and in order. */
  ghost predicate Scripted(others: nat -> Foreign, turn: nat, l: Log) {
    && |l.authors| == |l.ops|
    && (forall i | 0 <= i < |l.ops| && l.authors[i].Some? ::
          l.authors[i].value < turn && Performs(others(l.authors[i].value), l.ops[i]))
    && (forall i, j | 0 <= i < j < |l.ops| && l.authors[i].Some? && l.authors[j].Some? ::
          l.authors[i].value < l.authors[j].value)
  }

  /** The entries were made one after the other, and not after `clock`. */
  ghost predicate Timed(l: Log, clock: Time) {
    && |l.times| == |l.ops|
    && (forall i | 0 <= i < |l.ops| :: l.times[i] <= clock)
    && (forall i, j | 0 <= i < j < |l.ops| :: l.times[i] <= l.times[j])
  }

  ghost predicate IsLog(cfg: Config, others: nat -> Foreign, turn: nat, clock: Time, l: Log, v: View) {
    IsRun(cfg, l.history, l.ops) && l.history[|l.ops|] == v && Scripted(others, turn, l) && Timed(l, clock)
  }

  /**
   What a call for `request` does itself: select, excluding at least what was asked, release, and limit
   a failed account.
   */
  predicate OwnOp(request: Request, op: Op) {
    match op
    case Select(req, _, _) => req.(excluded := request.excluded) == request && request.excluded <= req.excluded
    case Release(_) => true
    case Mark(_, model, until, now) => model == "" && until <= now + 5 * SECOND
    case _ => false
  }

  /** A log and the time it was looked at. */
  datatype Base = Base(log: Log, since: Time)

  /** `m` goes on from `base` up to `clock`, and the caller itself has done only what `Acquire` does. */
  ghost predicate Follows(request: Request, base: Base, m: Log, clock: Time) {
    var l := base.log;
    && base.since <= clock
    && l.history <= m.history && l.ops <= m.ops && l.authors <= m.authors && l.times <= m.times
    && |m.authors| == |m.ops| == |m.times|
    && (forall i | |l.ops| <= i < |m.ops| :: base.since <= m.times[i])
    && (forall i | |l.ops| <= i < |m.ops| && m.authors[i].None? :: OwnOp(request, m.ops[i]))
  }

  function Extended(l: Log, op: Op, author: Option<nat>, v: View, now: Time): Log {
    Log(l.history + [v], l.ops + [op], l.authors + [author], l.times + [now])
  }

  lemma ExtendedIsRun(cfg: Config, l: Log, v: View, op: Op, author: Option<nat>, w: View, now: Time)
    requires IsRun(cfg, l.history, l.ops) && l.history[|l.ops|] == v && Next(cfg, v, op, w)
    ensures IsRun(cfg, Extended(l, op, author, w, now).history, Extended(l, op, author, w, now).ops)
  {
    hide Next;
    var run, ops := l.history + [w], l.ops + [op];
    forall k | 0 <= k < |ops|
      ensures Next(cfg, run[k], ops[k], run[k + 1])
    {
      if k < |l.ops| {
        assert run[k] == l.history[k] && run[k + 1] == l.history[k + 1] && ops[k] == l.ops[k];
      }
    }
  }

  lemma OwnEntryIsLogged(cfg: Config, others: nat -> Foreign, turn: nat, clock: Time, request: Request, base: Base,
                         l: Log, v: View, op: Op, w: View)
    requires IsLog(cfg, others, turn, clock, l, v) && Next(cfg, v, op, w) && OwnOp(request, op)
    requires Follows(request, base, l, clock)
    ensures IsLog(cfg, others, turn, clock, Extended(l, op, None, w, clock), w)
    ensures Follows(request, base, Extended(l, op, None, w, clock), clock)
  {
    hide Next, IsRun, OwnOp;
    LogIsRun(cfg, others, turn, clock, l, v);
    ExtendedIsRun(cfg, l, v, op, None, w, clock);
  }

  lemma ForeignEntryIsLogged(cfg: Config, others: nat -> Foreign, turn: nat, clock: Time, request: Request, base: Base,
                             l: Log, v: View, op: Op, w: View)
    requires IsLog(cfg, others, turn, clock, l, v) && Next(cfg, v, op, w) && Performs(others(turn), op)
    requires Follows(request, base, l, clock)
    ensures IsLog(cfg, others, turn + 1, clock, Extended(l, op, Some(turn), w, clock), w)
    ensures Follows(request, base, Extended(l, op, Some(turn), w, clock), clock)
  {
    hide Next, IsRun, Performs;
    LogIsRun(cfg, others, turn, clock, l, v);
    ExtendedIsRun(cfg, l, v, op, Some(turn), w, clock);
  }

  lemma LogIsRun(cfg: Config, others: nat -> Foreign, turn: nat, clock: Time, l: Log, v: View)
    requires IsLog(cfg, others, turn, clock, l, v)
    ensures |l.history| == |l.ops| + 1 && |l.authors| == |l.ops| == |l.times|
  {
    hide Next;
  }

  /** Neither the turns of callers with nothing to do nor the passing of time concerns the log. */
  lemma LogStays(cfg: Config, others: nat -> Foreign, turn: nat, clock: Time, later: nat, now: Time, l: Log, v: View)
    requires IsLog(cfg, others, turn, clock, l, v) && turn <= later && clock <= now
    ensures IsLog(cfg, others, later, now, l, v)
  {
    hide IsRun, Performs;
  }

  lemma FollowsOn(request: Request, base: Base, middle: Base, n: Log, clock: Time)
    requires Follows(request, base, middle.log, middle.since) && Follows(request, middle, n, clock)
    ensures Follows(request, base, n, clock)
  {
    hide OwnOp;
    var m := middle.log;
    forall i | |base.log.ops| <= i < |n.ops|
      ensures base.since <= n.times[i] && (n.authors[i].None? ==> OwnOp(request, n.ops[i]))
    {
      if i < |m.ops| {
        assert n.ops[i] == m.ops[i] && n.authors[i] == m.authors[i] && n.times[i] == m.times[i];
      }
    }
  }

  lemma FollowsItself(cfg: Config, others: nat -> Foreign, turn: nat, clock: Time, request: Request, l: Log, v: View)
    requires IsLog(cfg, others, turn, clock, l, v)
    ensures Follows(request, Base(l, clock), l, clock)
  {
  }

  /** State number `k` is the state of the pool at the time `at`. */
  ghost predicate CurrentAt(l: Log, k: nat, at: Time) {
    && |l.history| == |l.ops| + 1 && |l.times| == |l.ops| && k <= |l.ops|
    && (k > 0 ==> l.times[k - 1] <= at) && (k < |l.ops| ==> at <= l.times[k])
  }

  /** At the time `at`, when `base` was already past, the account passed every check. */
  ghost predicate SeenReady(cfg: Config, request: Request, base: Log, l: Log, id: Id, k: nat, at: Time) {
    |base.ops| <= k && CurrentAt(l, k, at) && ReadyIn(cfg, l.history[k], id, request, at)
  }

  /**
   At the time `at` no account outside `req.excluded` was ready, and `earliest` is when the first one
   stops waiting.
   */
  ghost predicate SeenNone(cfg: Config, req: Request, base: Log, l: Log, k: nat, at: Time, earliest: Option<Time>) {
    && |base.ops| <= k && CurrentAt(l, k, at)
    && (forall a <- l.history[k].accounts :: !VerdictOn(cfg, l.history[k], req, at, a).Ready?)
    && EarliestOf(cfg, l.history[k], req, at, |l.history[k].accounts|, earliest)
  }

  /** The checks of an account at the time `at`: whether it may serve, and whether only a cooldown keeps it from it. */
  ghost predicate Judged(cfg: Config, request: Request, base: Log, l: Log, id: Id, k: nat, at: Time, able: bool,
                         permitted: bool) {
    && |base.ops| <= k && CurrentAt(l, k, at)
    && (able <==> MayServe(cfg, l.history[k], id, request, at))
    && (permitted <==> Permits(cfg, l.history[k], id, request, at))
  }

  lemma StillJudged(cfg: Config, request: Request, base: Log, l: Base, m: Log, clock: Time, id: Id, k: nat, at: Time,
                    able: bool, permitted: bool)
    requires Judged(cfg, request, base, l.log, id, k, at, able, permitted) && Follows(request, l, m, clock)
    requires at <= l.since && |m.history| == |m.ops| + 1
    ensures Judged(cfg, request, base, m, id, k, at, able, permitted)
  {
    hide MayServe, Permits, OwnOp;
    assert m.history[k] == l.log.history[k];
  }

  lemma JudgedIsReady(cfg: Config, request: Request, base: Log, l: Log, id: Id, k: nat, at: Time, permitted: bool)
    requires Judged(cfg, request, base, l, id, k, at, true, permitted)
    ensures SeenReady(cfg, request, base, l, id, k, at)
  {
    hide MayServe, Permits, ReadyIn;
    ReadyByFields(cfg, l.history[k], id, request, at);
  }

  /** At the time `at`, when `base` was already past, the account could serve by its fields. */
  ghost predicate SeenServing(cfg: Config, request: Request, base: Log, l: Log, id: Id, k: nat, at: Time) {
    |base.ops| <= k && CurrentAt(l, k, at) && MayServe(cfg, l.history[k], id, request, at)
  }

  /** At the time `at` no account outside `req.excluded` could serve; `earliest` is when the first one can. */
  ghost predicate SeenNoneServing(cfg: Config, req: Request, base: Log, l: Log, k: nat, at: Time,
                                  earliest: Option<Time>) {
    |base.ops| <= k && CurrentAt(l, k, at) && NoneServes(cfg, l.history[k], req, at, earliest)
  }

  lemma SeenByFields(cfg: Config, request: Request, base: Log, l: Log, id: Id, k: nat, at: Time)
    requires SeenReady(cfg, request, base, l, id, k, at)
    ensures SeenServing(cfg, request, base, l, id, k, at)
  {
    hide ReadyIn, MayServe;
    ReadyByFields(cfg, l.history[k], id, request, at);
  }

  lemma SeenNoneByFields(cfg: Config, req: Request, base: Log, l: Log, k: nat, at: Time, earliest: Option<Time>)
    requires SeenNone(cfg, req, base, l, k, at, earliest)
    ensures SeenNoneServing(cfg, req, base, l, k, at, earliest)
  {
    hide VerdictOn, NoneServes, EarliestOf;
    NoneReadyByFields(cfg, l.history[k], req, at, earliest);
  }

  /** Entry `i` is the caller's own selection of this account. */
  ghost predicate PicksAt(l: Log, i: nat, id: Id) {
    && i < |l.ops| && i < |l.history| && i < |l.authors| && l.authors[i].None?
    && l.ops[i].Select? && l.ops[i].pick.Some? && l.ops[i].pick.value < |l.history[i].accounts|
    && l.history[i].accounts[l.ops[i].pick.value].id == id
  }

  /** Every account in `excluded` was excluded by the request, or the call itself has selected it since `base`. */
  ghost predicate OnlyTried(request: Request, excluded: set<Id>, base: Log, l: Log) {
    forall id <- excluded :: id in request.excluded || exists i: nat :: |base.ops| <= i && PicksAt(l, i, id)
  }

  lemma StillOnlyTried(request: Request, excluded: set<Id>, base: Log, l: Base, m: Log, clock: Time)
    requires OnlyTried(request, excluded, base, l.log) && Follows(request, l, m, clock)
    ensures OnlyTried(request, excluded, base, m)
  {
    hide OwnOp;
    forall id <- excluded | id !in request.excluded
      ensures exists i: nat :: |base.ops| <= i && PicksAt(m, i, id)
    {
      var i: nat :| |base.ops| <= i && PicksAt(l.log, i, id);
      assert PicksAt(m, i, id);
    }
  }

  /** The pool with its callers: whose turn it is, the time, and the log of what was done so far. */
  class Scheduler {
    const pool: Pool
    const others: nat -> Foreign
    var turn: nat
    var clock: Time
    ghost var log: Log

    ghost predicate Valid()
      reads this`turn, this`clock, this`log, pool, pool.reservations.Values, pool.leases
    {
      pool.Valid() && IsLog(pool.cfg, others, turn, clock, log, pool.State())
    }

    constructor (cfg: Config, others: nat -> Foreign, start: Time)
      ensures Valid() && fresh(pool) && pool.cfg == cfg && this.others == others && clock == start && pool.leases == {}
    {
      pool := new Pool(cfg);
      this.others, turn, clock := others, 0, start;
      log := Log([View([], 0, 0, map[], map[], map[])], [], [], []);
    }

    ghost function HeldBy(me: nat): set<Lease>
      reads pool, pool.leases
    {
      pool.HeldBy(me)
    }

    /** Time passes. */
    method Wait(ghost request: Request, ghost base: Base)
      requires Valid() && Follows(request, base, log, clock)
      modifies this`clock
      ensures Valid() && Follows(request, base, log, clock) && clock >= old(clock)
    {
      hide Pool.Valid, Pool.State, IsLog, OwnOp;
      var later :| later >= clock;
      LogStays(pool.cfg, others, turn, clock, turn, later, log, pool.State());
      clock := later;
    }

    /** Enters one critical section that took the pool from `v` to its state now. */
    ghost method Record(request: Request, base: Base, op: Op, v: View)
      requires Follows(request, base, log, clock)
      requires pool.Valid() && IsLog(pool.cfg, others, turn, clock, log, v) && Next(pool.cfg, v, op, pool.State())
      requires OwnOp(request, op)
      modifies this`log
      ensures Valid() && Follows(request, base, log, clock) && log == Extended(old(log), op, None, pool.State(), clock)
    {
      hide Pool.Valid, Pool.State, IsLog, Next, OwnOp, Follows, Extended;
      OwnEntryIsLogged(pool.cfg, others, turn, clock, request, base, log, v, op, pool.State());
      log := Extended(log, op, None, pool.State(), clock);
    }

    /** Enters the critical section of the others whose turn it was. */
    ghost method RecordOther(request: Request, base: Base, op: Op, v: View)
      requires Follows(request, base, log, clock)
      requires pool.Valid() && IsLog(pool.cfg, others, turn, clock, log, v) && Next(pool.cfg, v, op, pool.State())
      requires Performs(others(turn), op)
      modifies this`log
      ensures pool.Valid() && IsLog(pool.cfg, others, turn + 1, clock, log, pool.State())
      ensures Follows(request, base, log, clock)
    {
      hide Pool.Valid, Pool.State, IsLog, Next, Performs, Follows;
      ForeignEntryIsLogged(pool.cfg, others, turn, clock, request, base, log, v, op, pool.State());
      log := Extended(log, op, Some(turn), pool.State(), clock);
    }

    // ---- The others ----------------------------------------------------------------------

    /** Another caller selects. */
    method OtherSelects(ghost request: Request, ghost base: Base, me: nat, req: Request, now: Time, who: nat)
      requires Valid() && Follows(request, base, log, clock) && others(turn) == Take(req, now, who)
      modifies this`log, pool, pool.objects
      ensures pool.Valid() && IsLog(pool.cfg, others, turn + 1, clock, log, pool.State())
      ensures Follows(request, base, log, clock)
      ensures pool.objects >= old(pool.objects) && fresh(pool.objects - old(pool.objects))
      ensures pool.leases >= old(pool.leases) && fresh(pool.leases - old(pool.leases))
      ensures HeldBy(me) == old(HeldBy(me))
    {
      hide Pool.Valid, IsLog, Selected, NothingSelected, BusyOf, EarliestOf, Follows;
      ghost var v := pool.State();
      var out := pool.Select(req, now, if who < me then who else who + 1);
      RecordOther(request, base, Select(req, now, if out.Picked? then Some(out.index) else None), v);
    }

    /** Another caller gives a slot back, when one of them holds any. */
    method OtherReturns(ghost request: Request, ghost base: Base, me: nat)
      requires Valid() && Follows(request, base, log, clock) && others(turn) == Return
      modifies this`log, pool.objects, pool.leases
      ensures pool.Valid() && IsLog(pool.cfg, others, turn + 1, clock, log, pool.State())
      ensures Follows(request, base, log, clock)
      ensures HeldBy(me) == old(HeldBy(me))
    {
      hide Pool.Valid, IsLog, Released, Follows;
      ghost var v := pool.State();
      if lease :| lease in pool.leases && lease.owner != me && !lease.done {
        pool.LeaseIsLinked(lease);
        pool.Release(lease);
        RecordOther(request, base, Release(lease.id), v);
      } else {
        TurnPasses();
      }
    }

    /** The turn of a caller that has nothing to do. */
    lemma TurnPasses()
      requires Valid()
      ensures IsLog(pool.cfg, others, turn + 1, clock, log, pool.State())
    {
      hide Pool.Valid, Pool.State, IsRun;
      LogStays(pool.cfg, others, turn, clock, turn + 1, clock, log, pool.State());
    }

    /** Another caller marks or clears a limit, or installs a listing of the store. */
    method OtherKeepsBooks(ghost request: Request, ghost base: Base, op: Op)
      requires Valid() && Follows(request, base, log, clock) && others(turn) == Bookkeep(op)
      modifies this`log, pool
      ensures pool.Valid() && IsLog(pool.cfg, others, turn + 1, clock, log, pool.State())
      ensures Follows(request, base, log, clock)
      ensures pool.objects == old(pool.objects) && pool.leases == old(pool.leases)
    {
      hide Pool.Valid, IsLog, Marked, Installed, Follows;
      ghost var v := pool.State();
      match op
      case Mark(id, model, until, now) =>
        pool.MarkLimited(id, model, until, now);
        RecordOther(request, base, op, v);
      case Clear(id, model) =>
        pool.ClearLimited(id, model);
        RecordOther(request, base, op, v);
      case ClearBefore(id, model, started) =>
        pool.ClearLimitedBefore(id, model, started);
        RecordOther(request, base, op, v);
      case Install(listing, version) =>
        if i, j :| 0 <= i < j < |listing| && listing[i].id == listing[j].id {
          TurnPasses();
        } else {
          pool.Install(listing, version);
          RecordOther(request, base, op, v);
        }
      case _ =>
        TurnPasses();
    }

    /** The others' next critical section. */
    method OneOther(me: nat, ghost request: Request, ghost base: Base)
      requires Valid() && Follows(request, base, log, clock)
      modifies this`turn, this`log, pool, pool.objects, pool.leases
      ensures Valid() && pool.objects >= old(pool.objects) && fresh(pool.objects - old(pool.objects))
      ensures pool.leases >= old(pool.leases) && fresh(pool.leases - old(pool.leases))
      ensures HeldBy(me) == old(HeldBy(me)) && Follows(request, base, log, clock)
    {
      hide Pool.Valid, Pool.State, IsLog, Follows;
      match others(turn) {
        case Take(req, now, who) => OtherSelects(request, base, me, req, now, who);
        case Return => OtherReturns(request, base, me);
        case Bookkeep(op) => OtherKeepsBooks(request, base, op);
      }
      turn := turn + 1;
    }

    /** Any number of the others' critical sections, while time passes. */
    method Others(me: nat, ghost request: Request, ghost base: Base)
      requires Valid() && Follows(request, base, log, clock)
      modifies this, pool, pool.objects, pool.leases
      ensures Valid() && pool.objects >= old(pool.objects) && fresh(pool.objects - old(pool.objects))
      ensures pool.leases >= old(pool.leases) && fresh(pool.leases - old(pool.leases))
      ensures HeldBy(me) == old(HeldBy(me)) && Follows(request, base, log, clock) && clock >= old(clock)
    {
      hide Valid, Follows, Pool.HeldBy;
      var steps: int := *;
      while 0 < steps
        invariant Valid() && pool.objects >= old(pool.objects) && fresh(pool.objects - old(pool.objects))
        invariant pool.leases >= old(pool.leases) && fresh(pool.leases - old(pool.leases))
        invariant HeldBy(me) == old(HeldBy(me)) && Follows(request, base, log, clock) && clock >= old(clock)
      {
        Wait(request, base);
        OneOther(me, request, base);
        steps := steps - 1;
      }
      Wait(request, base);
    }

    // ---- The caller's own steps ------------------------------------------------------------

    method Pick(me: nat, ghost request: Request, ghost base: Base, req: Request) returns (out: Selection)
      requires Valid() && Follows(request, base, log, clock)
      requires req == request.(excluded := req.excluded) && request.excluded <= req.excluded
      modifies this`log, pool, pool.objects
      ensures Valid() && pool.objects >= old(pool.objects) && fresh(pool.objects - old(pool.objects))
      ensures pool.leases >= old(pool.leases) && fresh(pool.leases - old(pool.leases))
      ensures Follows(request, base, log, clock)
      ensures HeldBy(me) == old(HeldBy(me)) + if out.Picked? then {out.lease} else {}
      ensures out.Picked? ==>
        && out.lease in pool.leases && out.lease.owner == me
        && out.lease.id == out.account.id && out.account.id !in req.excluded
        && PicksAt(log, |old(log).ops|, out.account.id)
      ensures out.Unavailable? ==> SeenNone(pool.cfg, req, base.log, log, |old(log).ops|, clock, out.earliest)
    {
      hide Pool.Valid, IsRun, Selected, BusyOf, EarliestOf, VerdictOn, OwnOp, Scripted, PicksAt, SeenNone;
      ghost var v, l := pool.State(), log;
      out := pool.Select(req, clock, me);
      if out.Picked? {
        SelectedIsNotExcluded(pool.cfg, v, pool.State(), req, clock, out.index);
        RecordPick(me, request, base, req, Some(out.index), v);
        PickIsLogged(l, v, req, out.index, out.account, pool.State());
      } else {
        RecordPick(me, request, base, req, None, v);
        if out.Unavailable? {
          NobodyIsReady(pool.cfg, v, req, clock);
          NoneIsLogged(base, l, v, req, pool.State(), out.earliest);
        }
      }
    }

    /** The entry of a selection, made now. */
    function PickEntry(l: Log, req: Request, pick: Option<nat>, w: View): Log
      reads this`clock
    {
      Extended(l, Select(req, clock, pick), None, w, clock)
    }

    lemma PickIsLogged(l: Log, v: View, req: Request, index: nat, account: Account, w: View)
      requires |l.history| == |l.ops| + 1 && |l.authors| == |l.ops| && l.history[|l.ops|] == v
      requires index < |v.accounts| && v.accounts[index] == account
      ensures PicksAt(PickEntry(l, req, Some(index), w), |l.ops|, account.id)
    {
    }

    lemma NoneIsLogged(base: Base, l: Log, v: View, req: Request, w: View, earliest: Option<Time>)
      requires |l.history| == |l.ops| + 1 && Timed(l, clock) && l.history[|l.ops|] == v && |base.log.ops| <= |l.ops|
      requires forall a <- v.accounts :: !VerdictOn(pool.cfg, v, req, clock, a).Ready?
      requires EarliestOf(pool.cfg, v, req, clock, |v.accounts|, earliest)
      ensures SeenNone(pool.cfg, req, base.log, PickEntry(l, req, None, w), |l.ops|, clock, earliest)
    {
      hide VerdictOn, EarliestOf;
    }

    ghost method RecordPick(me: nat, request: Request, base: Base, req: Request, pick: Option<nat>, v: View)
      requires Follows(request, base, log, clock)
      requires pool.Valid() && IsLog(pool.cfg, others, turn, clock, log, v)
      requires Next(pool.cfg, v, Select(req, clock, pick), pool.State())
      requires req == request.(excluded := req.excluded) && request.excluded <= req.excluded
      modifies this`log
      ensures Valid() && Follows(request, base, log, clock) && log == PickEntry(old(log), req, pick, pool.State())
      ensures |old(log).history| == |old(log).ops| + 1 && |old(log).authors| == |old(log).ops| && Timed(old(log), clock)
      ensures |base.log.ops| <= |old(log).ops|
    {
      hide Pool.Valid, Pool.State, IsRun, Next;
      LogIsRun(pool.cfg, others, turn, clock, log, v);
      Record(request, base, Select(req, clock, pick), v);
    }

    method GiveBack(me: nat, ghost request: Request, ghost base: Base, lease: Lease)
      requires Valid() && Follows(request, base, log, clock) && lease in pool.leases && HeldBy(me) == {lease}
      modifies this`log, pool.objects, pool.leases
      ensures Valid() && HeldBy(me) == {} && Follows(request, base, log, clock)
    {
      hide Pool.Valid, IsLog, Released, Follows;
      ghost var v, held := pool.State(), HeldBy(me);
      HeldIsOut(me, lease);
      pool.LeaseIsLinked(lease);
      pool.Release(lease);
      assert forall l <- pool.leases | !l.done :: !old(l.done) && l != lease;
      assert forall l <- HeldBy(me) :: l in held;
      Record(request, base, Release(lease.id), v);
    }

    lemma HeldIsOut(me: nat, lease: Lease)
      requires lease in HeldBy(me)
      ensures !lease.done
    {
    }

    /**
     Limits an account whose credentials failed: five seconds from `asked`, which is when the caller read
     the clock.
     */
    method Penalize(me: nat, ghost request: Request, ghost base: Base, id: Id, asked: Time)
      requires Valid() && Follows(request, base, log, clock) && asked <= clock
      modifies this`log, pool
      ensures Valid() && pool.objects == old(pool.objects) && pool.leases == old(pool.leases)
      ensures Follows(request, base, log, clock) && HeldBy(me) == old(HeldBy(me))
    {
      hide Pool.Valid, IsLog, Marked, Follows;
      ghost var v := pool.State();
      pool.MarkLimited(id, "", asked + 5 * SECOND, clock);
      Record(request, base, Mark(id, "", asked + 5 * SECOND, clock), v);
    }

    // ---- Acquire ---------------------------------------------------------------------------

    /** Credentials could not be refreshed: the slot goes back, and the account is limited unless it was revoked. */
    method Abandon(me: nat, ghost request: Request, ghost base: Base, lease: Lease, w: Circumstance)
      returns (c: Confirmation)
      requires Valid() && Follows(request, base, log, clock) && lease in pool.leases && HeldBy(me) == {lease}
      modifies this, pool, pool.objects, pool.leases
      ensures Valid() && pool.objects >= old(pool.objects) && fresh(pool.objects - old(pool.objects))
      ensures pool.leases >= old(pool.leases) && fresh(pool.leases - old(pool.leases))
      ensures Follows(request, base, log, clock) && clock >= old(clock) && HeldBy(me) == {}
      ensures c == if w.ended then GiveUp else Exclude
    {
      hide Valid, Follows, Pool.HeldBy;
      GiveBack(me, request, base, lease);
      if w.ended {
        return GiveUp;
      }
      var asked := clock;
      Others(me, request, base);
      if !w.revoked {
        Penalize(me, request, base, lease.id, asked);
      }
      c := Exclude;
    }

    /** The reloaded pool checked again under the lock. */
    method Recheck(ghost request: Request, ghost base: Base, req: Request, id: Id) returns (valid: bool, cooling: bool)
      requires Valid() && Follows(request, base, log, clock) && req == request.(excluded := req.excluded)
      modifies pool`modelViews
      ensures Valid()
      ensures Judged(pool.cfg, request, base.log, log, id, |log.ops|, clock, valid && !cooling, valid)
    {
      hide Pool.Valid, IsRun, OwnOp, Scripted, VerdictOn, MayServe, Permits;
      LogIsRun(pool.cfg, others, turn, clock, log, pool.State());
      valid, cooling := pool.Revalidate(id, req, clock);
      SameChecks(id, req, request);
    }

    lemma SameChecks(id: Id, req: Request, request: Request)
      requires req == request.(excluded := req.excluded)
      ensures MayServe(pool.cfg, pool.State(), id, req, clock) == MayServe(pool.cfg, pool.State(), id, request, clock)
      ensures Permits(pool.cfg, pool.State(), id, req, clock) == Permits(pool.cfg, pool.State(), id, request, clock)
    {
      hide Serves, Barred, HasQuota, Pool.State;
      assert req.(excluded := {}) == request.(excluded := {});
    }

    /** The others go on after the account was judged, which does not unmake how it was judged. */
    method OthersAfter(me: nat, ghost request: Request, ghost base: Base, ghost id: Id, ghost k: nat, at: Time,
                       ghost able: bool, ghost permitted: bool)
      requires Valid() && Follows(request, base, log, clock) && at <= clock
      requires Judged(pool.cfg, request, base.log, log, id, k, at, able, permitted)
      modifies this, pool, pool.objects, pool.leases
      ensures Valid() && pool.objects >= old(pool.objects) && fresh(pool.objects - old(pool.objects))
      ensures HeldBy(me) == old(HeldBy(me)) && Follows(request, base, log, clock) && clock >= old(clock)
      ensures pool.leases >= old(pool.leases) && fresh(pool.leases - old(pool.leases))
      ensures Judged(pool.cfg, request, base.log, log, id, k, at, able, permitted)
    {
      hide Valid, Follows, Judged, Pool.HeldBy;
      ghost var now := Base(log, clock);
      LogFollowsItself(request);
      Others(me, request, now);
      FollowsOn(request, base, now, log, clock);
      LogFollowsItself(request);
      StillJudged(pool.cfg, request, base.log, now, log, clock, id, k, at, able, permitted);
    }

    lemma LogFollowsItself(request: Request)
      requires Valid()
      ensures Follows(request, Base(log, clock), log, clock) && |log.history| == |log.ops| + 1
    {
      FollowsItself(pool.cfg, others, turn, clock, request, log, pool.State());
    }

    /** The slot after the account was judged: kept when all is well, else given back. */
    method Conclude(me: nat, ghost request: Request, ghost base: Base, lease: Lease, w: Circumstance, able: bool,
                    permitted: bool, ghost k: nat, at: Time)
      returns (c: Confirmation)
      requires Valid() && Follows(request, base, log, clock) && lease in pool.leases && HeldBy(me) == {lease}
      requires Judged(pool.cfg, request, base.log, log, lease.id, k, at, able, permitted) && at <= clock
      modifies this, pool, pool.objects, pool.leases
      ensures Valid() && pool.objects >= old(pool.objects) && fresh(pool.objects - old(pool.objects))
      ensures pool.leases >= old(pool.leases) && fresh(pool.leases - old(pool.leases))
      ensures Follows(request, base, log, clock) && clock >= old(clock)
      ensures HeldBy(me) == if c.Confirmed? then {lease} else {}
      ensures Judged(pool.cfg, request, base.log, log, lease.id, k, at, able, permitted)
      ensures c == if able then (if w.ended || !w.recorded then GiveUp else Confirmed)
                   else if permitted then Again else Exclude
    {
      hide Valid, Follows, Judged, Pool.HeldBy;
      OthersAfter(me, request, base, lease.id, k, at, able, permitted);
      if able && !w.ended && w.recorded {
        return Confirmed;
      }
      ghost var now := Base(log, clock);
      LogFollowsItself(request);
      GiveBack(me, request, now, lease);
      FollowsOn(request, base, now, log, clock);
      LogFollowsItself(request);
      StillJudged(pool.cfg, request, base.log, now, log, clock, lease.id, k, at, able, permitted);
      c := if able then GiveUp else if !permitted then Exclude else Again;
    }

    /**
     What follows a selection: refresh, reload and recheck, with the others acting in between.
     `k` is the place in the log, and `at` the time, at which the account was judged: whether it may
     serve, and whether but for a cooldown it could.
     */
    method Confirm(me: nat, ghost request: Request, ghost base: Base, req: Request, lease: Lease, w: Circumstance)
      returns (c: Confirmation, ghost k: nat, at: Time, able: bool, permitted: bool)
      requires Valid() && Follows(request, base, log, clock) && req == request.(excluded := req.excluded)
      requires lease in pool.leases && HeldBy(me) == {lease}
      modifies this, pool, pool.objects, pool.leases
      ensures Valid() && pool.objects >= old(pool.objects) && fresh(pool.objects - old(pool.objects))
      ensures pool.leases >= old(pool.leases) && fresh(pool.leases - old(pool.leases))
      ensures Follows(request, base, log, clock) && clock >= old(clock)
      ensures HeldBy(me) == if c.Confirmed? then {lease} else {}
      ensures w.refreshed && w.loaded ==>
        && Judged(pool.cfg, request, base.log, log, lease.id, k, at, able, permitted) && old(clock) <= at <= clock
        && c == if able then (if w.ended || !w.recorded then GiveUp else Confirmed)
                else if permitted then Again else Exclude
      ensures w.refreshed && !w.loaded ==> c == GiveUp
      ensures !w.refreshed ==> c == if w.ended then GiveUp else Exclude
      ensures c.Confirmed? ==> SeenReady(pool.cfg, request, base.log, log, lease.id, k, at) && old(clock) <= at <= clock
    {
      hide Valid, Follows, SeenReady, Judged, Pool.HeldBy;
      Others(me, request, base);
      k, at, able, permitted := |log.ops|, clock, false, false;
      if !w.refreshed {
        c := Abandon(me, request, base, lease, w);
        return;
      }
      if !w.loaded {
        Others(me, request, base);
        GiveBack(me, request, base, lease);
        return GiveUp, k, at, able, permitted;
      }
      var cooling;
      permitted, cooling := Recheck(request, base, req, lease.id);
      able := permitted && !cooling;
      c := Conclude(me, request, base, lease, w, able, permitted, k, at);
      if able {
        JudgedIsReady(pool.cfg, request, base.log, log, lease.id, k, at, permitted);
      }
    }

    /** One round of the loop: an account to return, the end, or another round, perhaps without the account. */
    method Round(me: nat, ghost request: Request, ghost base: Base, req: Request, w: Circumstance)
      returns (end: RoundEnd, ghost k: nat, at: Time)
      requires Valid() && Follows(request, base, log, clock) && HeldBy(me) == {}
      requires req == request.(excluded := req.excluded) && request.excluded <= req.excluded
      modifies this, pool, pool.objects, pool.leases
      ensures Valid() && pool.objects >= old(pool.objects) && fresh(pool.objects - old(pool.objects))
      ensures pool.leases >= old(pool.leases) && fresh(pool.leases - old(pool.leases))
      ensures Follows(request, base, log, clock) && old(clock) <= at <= clock
      ensures match end
        case Over(Granted(account, lease)) =>
          && !Fatal(w) && w.refreshed && HeldBy(me) == {lease} && lease.id == account.id && account.id !in req.excluded
          && SeenReady(pool.cfg, request, base.log, log, account.id, k, at)
        case Over(NoAccounts(earliest)) => HeldBy(me) == {} && SeenNone(pool.cfg, req, base.log, log, k, at, earliest)
        case Over(Failed) => HeldBy(me) == {} && Fatal(w)
        case More(None) => HeldBy(me) == {} && w.listed
        case More(Some(id)) => HeldBy(me) == {} && w.listed && k >= |base.log.ops| && PicksAt(log, k, id)
    {
      hide Valid, Follows, SeenReady, SeenNone, PicksAt, Pool.HeldBy;
      Others(me, request, base);
      k, at := |log.ops|, clock;
      BaseIsBefore(request, base);
      if !w.listed {
        return Over(Failed), k, at;
      }
      var selection := Pick(me, request, base, req);
      match selection {
        case Unavailable(earliest) =>
          end := Over(NoAccounts(earliest));
        case Busy =>
          end := More(None);
        case Picked(_, account, lease) =>
          ghost var picked := Base(log, clock);
          LogFollowsItself(request);
          var c, able, permitted;
          ghost var seen;
          c, seen, at, able, permitted := Confirm(me, request, picked, req, lease, w);
          FollowsOn(request, base, picked, log, clock);
          if c.Confirmed? {
            SeenSince(request, base, picked, account.id, seen, at);
            end, k := Over(Granted(account, lease)), seen;
          } else {
            at := clock;
            StillPicked(request, picked, log, clock, k, account.id);
            end := if c.GiveUp? then Over(Failed) else if c.Exclude? then More(Some(account.id)) else More(None);
          }
      }
    }

    lemma BaseIsBefore(request: Request, base: Base)
      requires Follows(request, base, log, clock)
      ensures |base.log.ops| <= |log.ops|
    {
    }

    lemma SeenSince(request: Request, base: Base, picked: Base, id: Id, k: nat, at: Time)
      requires Follows(request, base, picked.log, picked.since)
      requires SeenReady(pool.cfg, request, picked.log, log, id, k, at)
      ensures SeenReady(pool.cfg, request, base.log, log, id, k, at)
    {
      hide ReadyIn, OwnOp;
    }

    /**
     One account for one request. A grant holds exactly its lease, on an account the caller did
     not exclude and that passed every check at one time during the call, in the state that the
     pool had then. A refusal holds nothing; at one time during the call no account was ready
     that the caller had not excluded and that this call had not selected and given back. The
     call fails only when its context ends, after `patience` rounds or within one, or the store does.
     */
    method Acquire(me: nat, request: Request, world: nat -> Circumstance, patience: nat)
      returns (out: Acquired, rounds: nat, ghost excluded: set<Id>, ghost k: nat, at: Time)
      requires Valid() && HeldBy(me) == {}
      modifies this, pool, pool.objects, pool.leases
      ensures Valid() && Follows(request, Base(old(log), old(clock)), log, clock)
      ensures HeldBy(me) == if out.Granted? then {out.lease} else {}
      ensures out.Granted? ==> out.lease.id == out.account.id && out.account.id !in request.excluded
      ensures out.Granted? ==> SeenServing(pool.cfg, request, old(log), log, out.account.id, k, at)
      ensures out.NoAccounts? ==>
        && request.excluded <= excluded && OnlyTried(request, excluded, old(log), log)
        && SeenNoneServing(pool.cfg, request.(excluded := excluded), old(log), log, k, at, out.earliest)
      ensures old(clock) <= at <= clock && rounds <= patience
      ensures out.Failed? ==> rounds == patience || (0 < rounds && Fatal(world(rounds - 1)))
      ensures out.Granted? ==> 0 < rounds && !Fatal(world(rounds - 1)) && world(rounds - 1).refreshed
    {
      hide Valid, Follows, Fatal, SeenReady, SeenNone, SeenServing, SeenNoneServing, OnlyTried, PicksAt, Pool.HeldBy;
      ghost var base := Base(log, clock);
      LogFollowsItself(request);
      NothingTried(request, log);
      var req := request;
      rounds := 0;
      while rounds < patience
        invariant rounds <= patience
        invariant Valid() && Follows(request, base, log, clock) && HeldBy(me) == {} && clock >= old(clock)
        invariant pool.objects >= old(pool.objects) && fresh(pool.objects - old(pool.objects))
        invariant pool.leases >= old(pool.leases) && fresh(pool.leases - old(pool.leases))
        invariant req == request.(excluded := req.excluded) && request.excluded <= req.excluded
        invariant OnlyTried(request, req.excluded, base.log, log)
      {
        var w := world(rounds);
        rounds := rounds + 1;
        ghost var now := Base(log, clock);
        LogFollowsItself(request);
        var end;
        end, k, at := Round(me, request, now, req, w);
        FollowsOn(request, base, now, log, clock);
        StillOnlyTried(request, req.excluded, base.log, now, log, clock);
        SeenSinceBase(request, base, now, req, end, k, at);
        match end {
          case Over(outcome) =>
            AnswerByFields(request, base, req, outcome, k, at);
            return outcome, rounds, req.excluded, k, at;
          case More(Some(id)) =>
            req := req.(excluded := req.excluded + {id});
          case More(None) =>
        }
      }
      out, excluded, k, at := Failed, {}, 0, clock;
    }

    lemma AnswerByFields(request: Request, base: Base, req: Request, outcome: Acquired, k: nat, at: Time)
      ensures match outcome
        case Granted(account, _) =>
          SeenReady(pool.cfg, request, base.log, log, account.id, k, at) ==>
            SeenServing(pool.cfg, request, base.log, log, account.id, k, at)
        case NoAccounts(earliest) =>
          SeenNone(pool.cfg, req, base.log, log, k, at, earliest) ==>
            SeenNoneServing(pool.cfg, req, base.log, log, k, at, earliest)
        case Failed => true
    {
      hide SeenReady, SeenServing, SeenNone, SeenNoneServing;
      match outcome
      case Granted(account, _) =>
        if SeenReady(pool.cfg, request, base.log, log, account.id, k, at) {
          SeenByFields(pool.cfg, request, base.log, log, account.id, k, at);
        }
      case NoAccounts(earliest) =>
        if SeenNone(pool.cfg, req, base.log, log, k, at, earliest) {
          SeenNoneByFields(pool.cfg, req, base.log, log, k, at, earliest);
        }
      case Failed =>
    }

    /** What a round has seen since it began, the call has seen since it began. */
    lemma SeenSinceBase(request: Request, base: Base, now: Base, req: Request, end: RoundEnd, k: nat, at: Time)
      requires Follows(request, base, now.log, now.since)
      requires OnlyTried(request, req.excluded, base.log, log)
      ensures match end
        case Over(Granted(account, _)) =>
          SeenReady(pool.cfg, request, now.log, log, account.id, k, at) ==>
            SeenReady(pool.cfg, request, base.log, log, account.id, k, at)
        case Over(NoAccounts(earliest)) =>
          SeenNone(pool.cfg, req, now.log, log, k, at, earliest) ==>
            SeenNone(pool.cfg, req, base.log, log, k, at, earliest)
        case More(Some(id)) =>
          k >= |now.log.ops| && PicksAt(log, k, id) ==> OnlyTried(request, req.excluded + {id}, base.log, log)
        case _ => true
    {
      hide ReadyIn, OwnOp, PicksAt, VerdictOn, EarliestOf;
    }
  }

  lemma NothingTried(request: Request, l: Log)
    ensures OnlyTried(request, request.excluded, l, l)
  {
  }

  lemma StillPicked(request: Request, l: Base, m: Log, clock: Time, k: nat, id: Id)
    requires PicksAt(l.log, k, id) && Follows(request, l, m, clock)
    ensures PicksAt(m, k, id)
  {
    hide OwnOp;
  }
}
