/**
 Token refresh of `ensureFreshContext` under the per-account gate: callers that queue on
 one stale token share one upstream call, and callers that queue behind a failed call
 share its failure.

 Writes that do not come from a refresh (an administrator's update, `InvalidateToken`, the
 eviction of a remembered failure) start a new epoch of the account. Everything is promised
 within one epoch.
 */
module RefreshProtocol {
  import G = GateProtocol

  type Pid = G.Pid
  type Id = G.Key

  const REFRESH_SKEW := 900
  const FAILURE_SECONDS := 5

  datatype Credential = Credential(hasToken: bool, expiry: int)

  datatype Outcome =
    | Pending
    | Persisted(expiry: int)  // a token was stored with this expiry
    | Failed(until: int)      // the failure is remembered until then
    | Lost                    // nothing was stored or remembered

  datatype Call = Call(id: Id, epoch: nat, start: int, outcome: Outcome)

  datatype Caller =
    | Queued(id: Id)
    | Read(id: Id, epoch: nat, credential: Credential)
    | Refreshing(id: Id, call: nat)
    | Storing(id: Id, call: nat, credential: Credential)
    | Finished(id: Id)
  {
    predicate InFlight() {
      Refreshing? || Storing?
    }
  }

  datatype State = State(
    now: int,
    credentials: map<Id, Credential>,
    failures: map<Id, int>,
    epochs: map<Id, nat>,
    callers: map<Pid, Caller>,
    calls: seq<Call>,
    gate: G.State<nat>)
  {
    function Epoch(id: Id): nat {
      if id in epochs then epochs[id] else 0
    }

    function CredentialOf(id: Id): Credential {
      if id in credentials then credentials[id] else Credential(false, 0)
    }
  }

  datatype Step =
    | Tick(seconds: nat)
    | Outside(id: Id, credential: Credential, forgetFailure: bool)
    | Queue(p: Pid, id: Id)
    | ReadAccount(p: Pid)
    | Skip(p: Pid)
    | StartRefresh(p: Pid)
    | RefreshOk(p: Pid, hasToken: bool, lifetime: int)
    | RefreshFails(p: Pid)
    | Persist(p: Pid)
    | Give(p: Pid)
    | OnGate(g: G.Step<nat>)

  predicate NeedsRefresh(c: Credential, now: int) {
    !c.hasToken || c.expiry <= now + REFRESH_SKEW
  }

  predicate FailureRemembered(s: State, id: Id) {
    id in s.failures && s.failures[id] > s.now
  }

  predicate HoldsGate(s: State, p: Pid, id: Id) {
    p in s.gate.procs && s.gate.procs[p].Holding? && s.gate.procs[p].id == id
  }

  predicate GateStepAllowed(s: State, g: G.Step<nat>) {
    && G.Enabled(s.gate, g)
    && (g.p in s.callers ==>
          match g
          case Enter(_, id, _) => s.callers[g.p].Queued? && s.callers[g.p].id == id
          case Return(_) => s.callers[g.p].Finished?
          case _ => true)
  }

  predicate Enabled(s: State, step: Step) {
    match step
    case Tick(_) => true
    case Outside(_, _, _) => true
    case Queue(p, id) => p !in s.callers && p !in s.gate.procs
    case ReadAccount(p) => p in s.callers && s.callers[p].Queued? && HoldsGate(s, p, s.callers[p].id)
    case Skip(p) => p in s.callers && !s.callers[p].InFlight()
    case StartRefresh(p) =>
      && p in s.callers && s.callers[p].Read?
      && NeedsRefresh(s.callers[p].credential, s.now)
      && !FailureRemembered(s, s.callers[p].id)
    case RefreshOk(p, _, _) => p in s.callers && s.callers[p].Refreshing?
    case RefreshFails(p) => p in s.callers && s.callers[p].Refreshing? && s.callers[p].call < |s.calls|
    case Persist(p) => p in s.callers && s.callers[p].Storing? && s.callers[p].call < |s.calls|
    case Give(p) => p in s.callers && s.callers[p].InFlight() && s.callers[p].call < |s.calls|
    case OnGate(g) => GateStepAllowed(s, g)
  }

  function Settle(s: State, p: Pid, outcome: Outcome): State
    requires p in s.callers && s.callers[p].InFlight() && s.callers[p].call < |s.calls|
  {
    var c := s.callers[p];
    s.(calls := s.calls[c.call := s.calls[c.call].(outcome := outcome)], callers := s.callers[p := Finished(c.id)])
  }

  function Apply(s: State, step: Step): State
    requires Enabled(s, step)
  {
    match step
    case Tick(seconds) => s.(now := s.now + seconds)
    case Outside(id, c, forget) =>
      s.(credentials := s.credentials[id := c],
         failures := if forget then s.failures - {id} else s.failures,
         epochs := s.epochs[id := s.Epoch(id) + 1])
    case Queue(p, id) => s.(callers := s.callers[p := Queued(id)])
    case ReadAccount(p) =>
      var id := s.callers[p].id;
      s.(callers := s.callers[p := Read(id, s.Epoch(id), s.CredentialOf(id))])
    case Skip(p) => s.(callers := s.callers[p := Finished(s.callers[p].id)])
    case StartRefresh(p) =>
      var id := s.callers[p].id;
      s.(calls := s.calls + [Call(id, s.Epoch(id), s.now, Pending)], callers :=
        s.callers[p := Refreshing(id, |s.calls|)])
    case RefreshOk(p, hasToken, lifetime) =>
      var c := s.callers[p];
      s.(failures := s.failures - {c.id},
         callers := s.callers[p := Storing(c.id, c.call, Credential(hasToken, s.now + lifetime))])
    case RefreshFails(p) =>
      Settle(s, p, Failed(s.now + FAILURE_SECONDS)).(failures := s.failures[s.callers[p].id := s.now + FAILURE_SECONDS])
    case Persist(p) =>
      var c := s.callers[p];
      Settle(s, p, if c.credential.hasToken then Persisted(c.credential.expiry) else Lost)
        .(credentials := s.credentials[c.id := c.credential])
    case Give(p) => Settle(s, p, Lost)
    case OnGate(g) => s.(gate := G.Apply(s.gate, g))
  }

  ghost predicate Initial(s: State) {
    s.callers == map[] && s.calls == [] && s.gate == G.Initial()
  }

  /** When the result of a call stops protecting the account from another call. */
  ghost predicate NotBefore(outcome: Outcome, t: int) {
    match outcome
    case Pending => false
    case Persisted(expiry) => expiry - REFRESH_SKEW <= t
    case Failed(until) => until <= t
    case Lost => true
  }

  /** The result of a call still stands in the store or among the remembered failures. */
  ghost predicate Stands(s: State, c: Call) {
    match c.outcome
    case Persisted(expiry) => s.CredentialOf(c.id) == Credential(true, expiry)
    case Failed(until) => c.id in s.failures && s.failures[c.id] == until
    case _ => false
  }

  ghost predicate InFlightFor(s: State, p: Pid, k: nat) {
    p in s.callers && s.callers[p].InFlight() && s.callers[p].call == k
  }

  ghost predicate CallerInv(s: State, p: Pid)
    requires p in s.callers
  {
    var c := s.callers[p];
    && (c.Read? || c.InFlight() ==> HoldsGate(s, p, c.id))
    && (c.Read? && c.epoch == s.Epoch(c.id) ==> c.credential == s.CredentialOf(c.id))
    && (c.Read? ==> c.epoch <= s.Epoch(c.id))
    && (c.Read? ==> forall k | 0 <= k < |s.calls| && s.calls[k].id == c.id :: s.calls[k].epoch <= c.epoch)
    && (c.InFlight() ==> forall k | 0 <= k < |s.calls| && s.calls[k].id == c.id :: k <= c.call)
    && (c.InFlight() ==> c.call < |s.calls| && s.calls[c.call].id == c.id && s.calls[c.call].outcome.Pending?)
  }

  ghost predicate CallInv(s: State, k: nat)
    requires k < |s.calls|
  {
    var c := s.calls[k];
    && c.start <= s.now
    && c.epoch <= s.Epoch(c.id)
    && (c.outcome.Pending? ==> exists p :: InFlightFor(s, p, k))
    && (!c.outcome.Pending? && c.epoch == s.Epoch(c.id) ==> NotBefore(c.outcome, s.now) || Stands(s, c))
  }

  /** The promise: a later call of the same account and epoch waits for the earlier result to lapse. */
  ghost predicate Spaced(calls: seq<Call>) {
    forall i, j | 0 <= i < j < |calls| && calls[i].id == calls[j].id && calls[i].epoch == calls[j].epoch ::
      NotBefore(calls[i].outcome, calls[j].start)
  }

  ghost predicate CallersInv(s: State) {
    forall p <- s.callers :: CallerInv(s, p)
  }

  ghost predicate CallsInv(s: State) {
    forall k | 0 <= k < |s.calls| :: CallInv(s, k)
  }

  ghost predicate EpochsOrdered(calls: seq<Call>) {
    forall i, j | 0 <= i < j < |calls| && calls[i].id == calls[j].id :: calls[i].epoch <= calls[j].epoch
  }

  ghost predicate Inv(s: State) {
    G.Inv(s.gate) && CallersInv(s) && CallsInv(s) && Spaced(s.calls) && EpochsOrdered(s.calls)
  }

  lemma InitialInv(s: State)
    requires Initial(s)
    ensures Inv(s)
  {
    G.InitialInv<nat>();
  }

  // ---- One refresh at a time -----------------------------------------------------

  /** At most one upstream refresh of an account is in flight. */
  lemma OneRefreshInFlight(s: State, p: Pid, q: Pid)
    requires G.Inv(s.gate) && p in s.callers && q in s.callers && CallerInv(s, p) && CallerInv(s, q)
    requires s.callers[p].InFlight() && (s.callers[q].InFlight() || s.callers[q].Read?)
    requires s.callers[p].id == s.callers[q].id
    ensures p == q
  {
    hide G.Inv;
    G.MutualExclusion(s.gate, p, q);
  }

  /** While a refresh runs, every earlier result of the same epoch has lapsed. */
  lemma EarlierResultLapsed(s: State, p: Pid, i: nat)
    requires CallersInv(s) && CallsInv(s) && Spaced(s.calls) && EpochsOrdered(s.calls) && G.Inv(s.gate)
    requires p in s.callers && s.callers[p].InFlight() && i < |s.calls| && i != s.callers[p].call
    requires s.calls[i].id == s.callers[p].id && s.calls[i].epoch == s.Epoch(s.callers[p].id)
    ensures NotBefore(s.calls[i].outcome, s.now)
  {
    hide G.Inv;
    var k := s.callers[p].call;
    assert CallerInv(s, p);
    assert CallInv(s, k) && CallInv(s, i);
    assert i < k && s.calls[i].epoch == s.calls[k].epoch;
    assert NotBefore(s.calls[i].outcome, s.calls[k].start);
  }

  // ---- Steps -----------------------------------------------------------------------

  lemma TickKeepsInv(s: State, seconds: nat)
    requires Inv(s)
    ensures Inv(Apply(s, Tick(seconds)))
  {
    hide G.Inv;
    var t := Apply(s, Tick(seconds));
    forall k | 0 <= k < |t.calls| ensures CallInv(t, k) {
      assert CallInv(s, k);
      forall p | InFlightFor(s, p, k) ensures InFlightFor(t, p, k) {}
    }
    forall p <- t.callers ensures CallerInv(t, p) {
      assert CallerInv(s, p);
    }
  }

  lemma OutsideKeepsInv(s: State, id: Id, c: Credential, forget: bool)
    requires Inv(s)
    ensures Inv(Apply(s, Outside(id, c, forget)))
  {
    hide G.Inv;
    var t := Apply(s, Outside(id, c, forget));
    forall k | 0 <= k < |t.calls| ensures CallInv(t, k) {
      assert CallInv(s, k);
      forall p | InFlightFor(s, p, k) ensures InFlightFor(t, p, k) {}
    }
    forall p <- t.callers ensures CallerInv(t, p) {
      assert CallerInv(s, p);
    }
  }

  /** Steps that only move one caller that is not in flight, before or after. */
  lemma QuietCallerKeepsInv(s: State, p: Pid, c: Caller)
    requires Inv(s) && (p in s.callers ==> !s.callers[p].InFlight()) && !c.InFlight()
    requires CallerInv(s.(callers := s.callers[p := c]), p)
    ensures Inv(s.(callers := s.callers[p := c]))
  {
    hide G.Inv;
    var t := s.(callers := s.callers[p := c]);
    forall k | 0 <= k < |t.calls| ensures CallInv(t, k) {
      assert CallInv(s, k);
      forall q | InFlightFor(s, q, k) ensures InFlightFor(t, q, k) {}
    }
    forall q <- t.callers ensures CallerInv(t, q) {
      assert q == p || CallerInv(s, q);
    }
  }

  lemma ReadKeepsInv(s: State, p: Pid)
    requires Inv(s) && Enabled(s, ReadAccount(p))
    ensures Inv(Apply(s, ReadAccount(p)))
  {
    var t := Apply(s, ReadAccount(p));
    forall k | 0 <= k < |s.calls| && s.calls[k].id == s.callers[p].id
      ensures s.calls[k].epoch <= s.Epoch(s.callers[p].id)
    {
      assert CallInv(s, k);
    }
    hide CallsInv, CallersInv, Spaced, EpochsOrdered, G.Inv;
    assert CallerInv(t, p);
    QuietCallerKeepsInv(s, p, t.callers[p]);
  }

  lemma StartKeepsSpaced(s: State, p: Pid)
    requires Inv(s) && Enabled(s, StartRefresh(p))
    ensures Spaced(Apply(s, StartRefresh(p)).calls) && EpochsOrdered(Apply(s, StartRefresh(p)).calls)
  {
    hide G.Inv;
    var t := Apply(s, StartRefresh(p));
    var id := s.callers[p].id;
    assert CallerInv(s, p);
    forall i | 0 <= i < |s.calls| && s.calls[i].id == id && s.calls[i].epoch == s.Epoch(id)
      ensures NotBefore(s.calls[i].outcome, s.now)
    {
      assert CallInv(s, i);
      if s.calls[i].outcome.Pending? {
        var q :| InFlightFor(s, q, i);
        assert CallerInv(s, q);
        OneRefreshInFlight(s, q, p);
      }
    }
  }

  lemma StartKeepsCalls(s: State, p: Pid)
    requires CallsInv(s) && Enabled(s, StartRefresh(p))
    ensures CallsInv(Apply(s, StartRefresh(p)))
  {
    var t := Apply(s, StartRefresh(p));
    forall k | 0 <= k < |t.calls| ensures CallInv(t, k) {
      if k < |s.calls| {
        assert CallInv(s, k);
        forall q | InFlightFor(s, q, k) ensures InFlightFor(t, q, k) {}
      } else {
        assert InFlightFor(t, p, k);
      }
    }
  }

  lemma StartKeepsCallers(s: State, p: Pid)
    requires CallersInv(s) && G.Inv(s.gate) && Enabled(s, StartRefresh(p))
    ensures CallersInv(Apply(s, StartRefresh(p)))
  {
    hide G.Inv;
    var t := Apply(s, StartRefresh(p));
    assert CallerInv(s, p);
    forall q <- t.callers ensures CallerInv(t, q) {
      if q != p {
        assert CallerInv(s, q);
        if (s.callers[q].InFlight() || s.callers[q].Read?) && s.callers[q].id == s.callers[p].id {
          G.MutualExclusion(s.gate, p, q);
        }
      }
    }
  }

  lemma StartKeepsInv(s: State, p: Pid)
    requires Inv(s) && Enabled(s, StartRefresh(p))
    ensures Inv(Apply(s, StartRefresh(p)))
  {
    hide G.Inv, Spaced, EpochsOrdered, CallersInv, CallsInv;
    StartKeepsSpaced(s, p);
    StartKeepsCalls(s, p);
    StartKeepsCallers(s, p);
  }

  lemma RefreshOkKeepsInv(s: State, p: Pid, hasToken: bool, lifetime: int)
    requires Inv(s) && Enabled(s, RefreshOk(p, hasToken, lifetime))
    ensures Inv(Apply(s, RefreshOk(p, hasToken, lifetime)))
  {
    hide G.Inv, Spaced, EpochsOrdered;
    var t := Apply(s, RefreshOk(p, hasToken, lifetime));
    assert CallerInv(s, p);
    forall k | 0 <= k < |t.calls| ensures CallInv(t, k) {
      assert CallInv(s, k);
      forall q | InFlightFor(s, q, k) ensures InFlightFor(t, q, k) {}
      if s.calls[k].id == s.callers[p].id && s.calls[k].epoch == s.Epoch(s.callers[p].id) && k != s.callers[p].call {
        EarlierResultLapsed(s, p, k);
      }
    }
    forall q <- t.callers ensures CallerInv(t, q) {
      assert CallerInv(s, q);
    }
  }

  /** What a settling step may change outside the callers and the calls: entries of its own account. */
  ghost predicate SettlesOnly(s: State, id: Id, credentials: map<Id, Credential>, failures: map<Id, int>) {
    forall other | other != id ::
      && (other in credentials <==> other in s.credentials)
      && (other in credentials ==> credentials[other] == s.credentials[other])
      && (other in failures <==> other in s.failures) && (other in failures ==> failures[other] == s.failures[other])
  }

  function Settled(s: State, p: Pid, outcome: Outcome, credentials: map<Id, Credential>, failures: map<Id, int>): State
    requires p in s.callers && s.callers[p].InFlight() && s.callers[p].call < |s.calls|
  {
    Settle(s, p, outcome).(credentials := credentials, failures := failures)
  }

  lemma SettleKeepsCalls(s: State, p: Pid, outcome: Outcome, credentials: map<Id, Credential>, failures: map<Id, int>)
    requires Inv(s) && p in s.callers && s.callers[p].InFlight() && s.callers[p].call < |s.calls|
    requires !outcome.Pending? && SettlesOnly(s, s.callers[p].id, credentials, failures)
    requires var t := Settled(s, p, outcome, credentials, failures);
      NotBefore(outcome, s.now) || Stands(t, t.calls[s.callers[p].call])
    ensures CallsInv(Settled(s, p, outcome, credentials, failures))
  {
    hide G.Inv, Spaced, EpochsOrdered, NotBefore;
    var t := Settled(s, p, outcome, credentials, failures);
    assert CallerInv(s, p);
    forall k | 0 <= k < |t.calls| ensures CallInv(t, k) {
      assert CallInv(s, k);
      if k != s.callers[p].call {
        forall q | InFlightFor(s, q, k) ensures InFlightFor(t, q, k) {}
        if s.calls[k].id == s.callers[p].id && s.calls[k].epoch == s.Epoch(s.callers[p].id) {
          EarlierResultLapsed(s, p, k);
        }
      }
    }
  }

  lemma SettleKeepsCallers(s: State, p: Pid, outcome: Outcome, credentials: map<Id, Credential>, failures: map<Id, int>)
    requires Inv(s) && p in s.callers && s.callers[p].InFlight() && s.callers[p].call < |s.calls|
    requires SettlesOnly(s, s.callers[p].id, credentials, failures)
    ensures CallersInv(Settled(s, p, outcome, credentials, failures))
  {
    hide G.Inv, Spaced, EpochsOrdered, CallsInv;
    var t := Settled(s, p, outcome, credentials, failures);
    assert CallerInv(s, p);
    forall q <- t.callers ensures CallerInv(t, q) {
      assert CallerInv(s, q);
      if q != p && (s.callers[q].InFlight() || s.callers[q].Read?) && s.callers[q].id == s.callers[p].id {
        OneRefreshInFlight(s, p, q);
      }
    }
  }

  /** Settling the call in flight: its own result stands, or counts as lapsed; the others have lapsed. */
  lemma SettleKeepsInv(s: State, p: Pid, outcome: Outcome, credentials: map<Id, Credential>, failures: map<Id, int>)
    requires Inv(s) && p in s.callers && s.callers[p].InFlight() && s.callers[p].call < |s.calls|
    requires !outcome.Pending? && SettlesOnly(s, s.callers[p].id, credentials, failures)
    requires var t := Settled(s, p, outcome, credentials, failures);
      NotBefore(outcome, s.now) || Stands(t, t.calls[s.callers[p].call])
    ensures Inv(Settled(s, p, outcome, credentials, failures))
  {
    hide G.Inv, CallInv, SettlesOnly, Stands;
    assert CallerInv(s, p);
    SettleKeepsSpaced(s, p, outcome);
    SettleKeepsCalls(s, p, outcome, credentials, failures);
    SettleKeepsCallers(s, p, outcome, credentials, failures);
    hide Spaced, EpochsOrdered, CallsInv, CallersInv;
  }

  lemma SettleKeepsSpaced(s: State, p: Pid, outcome: Outcome)
    requires Spaced(s.calls) && EpochsOrdered(s.calls)
    requires p in s.callers && s.callers[p].InFlight() && s.callers[p].call < |s.calls| && CallerInv(s, p)
    ensures Spaced(Settle(s, p, outcome).calls) && EpochsOrdered(Settle(s, p, outcome).calls)
  {
  }

  lemma GateStepKeepsInv(s: State, g: G.Step<nat>)
    requires Inv(s) && Enabled(s, OnGate(g))
    ensures Inv(Apply(s, OnGate(g)))
  {
    hide G.Inv, Spaced, EpochsOrdered;
    var t := Apply(s, OnGate(g));
    G.StepKeepsInv(s.gate, g);
    forall k | 0 <= k < |t.calls| ensures CallInv(t, k) {
      assert CallInv(s, k);
      forall q | InFlightFor(s, q, k) ensures InFlightFor(t, q, k) {}
    }
    forall q <- t.callers ensures CallerInv(t, q) {
      assert CallerInv(s, q);
      if s.callers[q].Read? || s.callers[q].InFlight() {
        assert t.gate.procs[q] == s.gate.procs[q];
      }
    }
  }

  lemma CallerIsConsistent(s: State, p: Pid)
    requires Inv(s) && p in s.callers
    ensures CallerInv(s, p)
  {
  }

  lemma SettlingStepKeepsInv(s: State, step: Step)
    requires Inv(s) && Enabled(s, step) && (step.RefreshFails? || step.Persist? || step.Give?)
    ensures Inv(Apply(s, step))
  {
    hide Inv;
    CallerIsConsistent(s, step.p);
    hide HoldsGate;
    match step
    case RefreshFails(p) =>
      var until := s.now + FAILURE_SECONDS;
      SettleKeepsInv(s, p, Failed(until), s.credentials, s.failures[s.callers[p].id := until]);
    case Persist(p) =>
      var c := s.callers[p];
      SettleKeepsInv(s, p, if c.credential.hasToken then Persisted(c.credential.expiry) else Lost,
        s.credentials[c.id := c.credential], s.failures);
    case Give(p) => SettleKeepsInv(s, p, Lost, s.credentials, s.failures);
  }

  lemma StepKeepsInv(s: State, step: Step)
    requires Inv(s) && Enabled(s, step)
    ensures Inv(Apply(s, step))
  {
    hide Inv;
    match step
    case Tick(seconds) => TickKeepsInv(s, seconds);
    case Outside(id, c, forget) => OutsideKeepsInv(s, id, c, forget);
    case Queue(p, id) => QuietCallerKeepsInv(s, p, Queued(id));
    case ReadAccount(p) => ReadKeepsInv(s, p);
    case Skip(p) => QuietCallerKeepsInv(s, p, Finished(s.callers[p].id));
    case StartRefresh(p) => StartKeepsInv(s, p);
    case RefreshOk(p, hasToken, lifetime) => RefreshOkKeepsInv(s, p, hasToken, lifetime);
    case RefreshFails(p) => SettlingStepKeepsInv(s, step);
    case Persist(p) => SettlingStepKeepsInv(s, step);
    case Give(p) => SettlingStepKeepsInv(s, step);
    case OnGate(g) => GateStepKeepsInv(s, g);
  }

  ghost predicate Next(s: State, t: State) {
    exists step :: Enabled(s, step) && t == Apply(s, step)
  }

  ghost predicate IsRun(run: seq<State>) {
    |run| > 0 && Initial(run[0]) && forall i | 0 <= i < |run| - 1 :: Next(run[i], run[i + 1])
  }

  lemma {:induction false} RunKeepsInv(run: seq<State>, n: nat)
    requires IsRun(run) && n < |run|
    ensures Inv(run[n])
  {
    if n == 0 {
      InitialInv(run[0]);
    } else {
      RunKeepsInv(run, n - 1);
      assert Next(run[n - 1], run[n - 1 + 1]);
      hide Inv;
      var step :| Enabled(run[n - 1], step) && run[n] == Apply(run[n - 1], step);
      StepKeepsInv(run[n - 1], step);
    }
  }

  /**
   Single flight: in every reachable state, after a refresh stored a token that expires at
   `expiry`, the next upstream refresh of the account in the same epoch starts no earlier
   than the skew before that expiry. Callers queued behind it do not refresh again.
   */
  lemma StoredTokenIsShared(run: seq<State>, n: nat, i: nat, j: nat)
    requires IsRun(run) && n < |run| && i < j < |run[n].calls|
    requires run[n].calls[i].id == run[n].calls[j].id && run[n].calls[i].epoch == run[n].calls[j].epoch
    ensures match run[n].calls[i].outcome
      case Pending => false
      case Persisted(expiry) => run[n].calls[j].start >= expiry - 900
      case Failed(until) => run[n].calls[j].start >= until
      case Lost => true
  {
    RunKeepsInv(run, n);
    assert Spaced(run[n].calls);
  }

  // ---- When a refresh begins, and how it ends --------------------------------------------

  /**
   In a reachable state a refresh begins only under the account's gate, for a caller that read no token or
   one within 900 seconds of its expiry, while no failure is remembered; what it read is what is stored
   unless something else has written the account since.
   */
  lemma RefreshBeginsWhenNeeded(s: State, step: Step)
    requires Inv(s) && Enabled(s, step)
    ensures |Apply(s, step).calls| == |s.calls| + if step.StartRefresh? then 1 else 0
    ensures step.StartRefresh? ==>
      && step.p in s.callers && s.callers[step.p].Read?
      && var Read(id, epoch, c) := s.callers[step.p];
      && HoldsGate(s, step.p, id)
      && (!c.hasToken || c.expiry - s.now <= 900)
      && (id in s.failures ==> s.failures[id] <= s.now)
      && (epoch == s.Epoch(id) ==> c == s.CredentialOf(id))
      && Apply(s, step).calls == s.calls + [Call(id, s.Epoch(id), s.now, Pending)]
  {
    hide G.Inv, CallsInv, Spaced, EpochsOrdered;
    if step.StartRefresh? {
      assert CallerInv(s, step.p);
    }
  }

  /** The one call of this caller that is in flight. */
  predicate IsCallOf(s: State, p: Pid, k: nat) {
    p in s.callers && s.callers[p].InFlight() && s.callers[p].call == k < |s.calls|
  }

  /**
   A call ends with what the upstream said: a failure is remembered for five seconds, and a token is stored with
   the lifetime it had when it came. Nothing else ends a call, but giving up.
   */
  lemma RefreshEndsAsTold(s: State, step: Step, k: nat)
    requires Inv(s) && Enabled(s, step) && k < |s.calls|
    ensures var t := Apply(s, step);
      && k < |t.calls|
      && (t.calls[k] == s.calls[k] || (
           && (step.RefreshFails? || step.Persist? || step.Give?) && IsCallOf(s, step.p, k)
           && var id, c := s.callers[step.p].id, s.callers[step.p];
           && match t.calls[k].outcome
              case Failed(until) =>
                step.RefreshFails? && until == s.now + 5 && id in t.failures && t.failures[id] == until
              case Persisted(expiry) =>
                step.Persist? && c.Storing? && c.credential == Credential(true, expiry)
                && t.CredentialOf(id) == Credential(true, expiry)
              case Lost => step.Give? || (step.Persist? && c.Storing? && !c.credential.hasToken)
              case Pending => false))
    ensures step.RefreshOk? ==>
      && step.p in Apply(s, step).callers && Apply(s, step).callers[step.p].Storing?
      && Apply(s, step).callers[step.p].credential == Credential(step.hasToken, s.now + step.lifetime)
      && s.callers[step.p].id !in Apply(s, step).failures
  {
    hide G.Inv, CallsInv, Spaced, EpochsOrdered;
  }
}
