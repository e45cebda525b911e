/**
 What the account scheduler decides, on values: model availability, cooldowns, the verdict
 on each account, and the relations between the states before and after each critical
 section. Times are nanoseconds; account expiry and persistent limits are in seconds.
 */
module Scheduling {
  import opened Wrappers
  import opened Text
  import opened Sets

  type Id = string
  type Time = int

  const MAX_SESSIONS: nat := 4096
  const MAX_LIMITS: nat := 8192
  const SECOND: int := 1_000_000_000
  const SESSION_TTL: int := 1800 * SECOND

  datatype ModelQuota = ModelQuota(name: string, percentage: int, reset: Option<Time>)
  datatype Quota = Quota(models: seq<ModelQuota>, rules: map<string, string>, forbidden: bool)
  datatype Account = Account(id: Id, disabled: bool, expiresAt: int, rateLimitedUntil: int, quota: Option<Quota>)

  /** `rewrite` stands for `convert.RewriteToAvailable`. */
  datatype Config = Config(maxConcurrent: int, rewrite: (string, seq<string>, map<string, string>) -> string)
  {
    function Cap(): nat {
      if maxConcurrent <= 0 then 4 else maxConcurrent
    }
  }

  datatype Candidate = Candidate(mapped: string, present: bool, percentage: int, reset: Option<Time>)
  {
    predicate Available(now: Time) {
      present && (percentage != 0 || (reset.Some? && reset.value <= now))
    }
  }

  datatype LimitKey = LimitKey(account: Id, model: string)
  datatype LimitRecord = LimitRecord(until: Time, markedAt: Time)
  datatype Binding = Binding(account: Id, expires: Time)
  datatype Reserved = Reserved(active: int, last: nat)

  /** The mutable fields of the pool, with reservations by value. */
  datatype View = View(
    accounts: seq<Account>,
    version: nat,
    sequence: nat,
    reserved: map<Id, Reserved>,
    sessions: map<string, Binding>,
    limits: map<LimitKey, LimitRecord>)
  {
    /** An account without a reservation object counts as idle and never used. */
    function Of(id: Id): Reserved {
      if id in reserved then reserved[id] else Reserved(0, 0)
    }
  }

  datatype Request = Request(model: string, session: string, excluded: set<Id>, skipExpired: bool)

  // ---- Model availability ------------------------------------------------------------

  function Normalize(model: string): string {
    TrimPrefix(TrimSpace(model), "models/")
  }

  function Names(models: seq<ModelQuota>): seq<string> {
    seq(|models|, i requires 0 <= i < |models| => models[i].name)
  }

  function FindModel(models: seq<ModelQuota>, name: string): Option<ModelQuota> {
    if models == [] then None
    else if models[0].name == name then Some(models[0])
    else FindModel(models[1..], name)
  }

  function CandidateOf(cfg: Config, requested: string, a: Account): Candidate {
    if requested != "" && a.quota.Some? && |a.quota.value.models| > 0 then
      var q := a.quota.value;
      var mapped := cfg.rewrite(requested, Names(q.models), q.rules);
      match FindModel(q.models, mapped)
      case Some(m) => Candidate(mapped, true, m.percentage, m.reset)
      case None => Candidate(mapped, false, -1, None)
    else
      Candidate(requested, true, -1, None)
  }

  /** `modelViewLocked` without its cache: one candidate per account, for a normalized model. */
  function ModelViewOf(cfg: Config, requested: string, accounts: seq<Account>): seq<Candidate> {
    seq(|accounts|, i requires 0 <= i < |accounts| => CandidateOf(cfg, requested, accounts[i]))
  }

  // ---- Cooldowns ---------------------------------------------------------------------

  function Until(limits: map<LimitKey, LimitRecord>, key: LimitKey): Option<Time> {
    if key in limits then Some(limits[key].until) else None
  }

  function Later(a: Option<Time>, b: Option<Time>): Option<Time> {
    match (a, b)
    case (None, _) => b
    case (_, None) => a
    case (Some(x), Some(y)) => if y > x then b else a
  }

  /** `limitedUntilLocked`: the account's own limit or the limit of exactly this model name. */
  function LimitedUntil(limits: map<LimitKey, LimitRecord>, id: Id, model: string): Option<Time> {
    Later(Until(limits, LimitKey(id, "")), Until(limits, LimitKey(id, model)))
  }

  // ---- The verdict on one account ------------------------------------------------------

  datatype Verdict =
    | Ineligible                   // excluded, disabled, expired, forbidden, or the model is absent
    | Waiting(until: Time)         // cooling down, or waiting for its quota to reset
    | Ready

  function ExpiredAt(a: Account, now: Time): bool {
    a.expiresAt <= now / SECOND
  }

  function CoolingUntil(v: View, a: Account, mapped: string): Time {
    Later(LimitedUntil(v.limits, a.id, mapped), Some(a.rateLimitedUntil * SECOND)).value
  }

  function VerdictOn(cfg: Config, v: View, req: Request, now: Time, a: Account): Verdict {
    var candidate := CandidateOf(cfg, Normalize(req.model), a);
    if a.id in req.excluded || a.disabled || (req.skipExpired && ExpiredAt(a, now))
      || (a.quota.Some? && a.quota.value.forbidden) then
      Ineligible
    else if !candidate.Available(now) then
      if candidate.reset.Some? && candidate.reset.value > now then Waiting(candidate.reset.value) else Ineligible
    else
      var until := CoolingUntil(v, a, candidate.mapped);
      if until > now then Waiting(until) else Ready
  }

  /** Comparing a persistent limit in whole seconds or as an instant is the same. */
  lemma SecondsAgree(limit: int, now: Time)
    ensures limit > now / SECOND <==> limit * SECOND > now
  {
  }

  /** The account `id` is there, and the checks on it succeed whatever the caller excludes. */
  predicate ReadyIn(cfg: Config, v: View, id: Id, req: Request, now: Time) {
    exists a <- v.accounts :: a.id == id && VerdictOn(cfg, v, req.(excluded := {}), now, a).Ready?
  }

  predicate Free(cfg: Config, v: View, req: Request, now: Time, a: Account) {
    VerdictOn(cfg, v, req, now, a).Ready? && v.Of(a.id).active < cfg.Cap()
  }

  /** Fewer requests in flight first, then the least recently chosen. */
  predicate Before(a: Reserved, b: Reserved) {
    a.active < b.active || (a.active == b.active && a.last < b.last)
  }

  predicate BoundTo(v: View, req: Request, now: Time, a: Account) {
    req.session in v.sessions && v.sessions[req.session].expires > now && v.sessions[req.session].account == a.id
  }

  /**
   Account `i` is the one to choose: the free account the session is bound to if there is
   one, else the first lexicographic minimum of (active, last) among the free accounts.
   */
  ghost predicate IsChoice(cfg: Config, v: View, req: Request, now: Time, i: nat)
    requires i < |v.accounts|
  {
    && Free(cfg, v, req, now, v.accounts[i])
    && (BoundTo(v, req, now, v.accounts[i])
        || forall j | 0 <= j < |v.accounts| && Free(cfg, v, req, now, v.accounts[j]) ::
             && !BoundTo(v, req, now, v.accounts[j])
             && !Before(v.Of(v.accounts[j].id), v.Of(v.accounts[i].id))
             && (j < i ==> Before(v.Of(v.accounts[i].id), v.Of(v.accounts[j].id))))
  }

  /** The best among the first `n` accounts, none of which is free and bound to the session. */
  ghost predicate BestOf(cfg: Config, v: View, req: Request, now: Time, n: nat, best: Option<nat>)
    requires n <= |v.accounts|
  {
    && (forall j | 0 <= j < n :: !(Free(cfg, v, req, now, v.accounts[j]) && BoundTo(v, req, now, v.accounts[j])))
    && match best
       case None => forall j | 0 <= j < n :: !Free(cfg, v, req, now, v.accounts[j])
       case Some(i) =>
         && i < n && Free(cfg, v, req, now, v.accounts[i])
         && forall j | 0 <= j < n && Free(cfg, v, req, now, v.accounts[j]) ::
              && !Before(v.Of(v.accounts[j].id), v.Of(v.accounts[i].id))
              && (j < i ==> Before(v.Of(v.accounts[i].id), v.Of(v.accounts[j].id)))
  }

  /** One round of the selection loop on an account that does not end it. */
  lemma BestOfNext(cfg: Config, v: View, req: Request, now: Time, n: nat, best: Option<nat>)
    requires n < |v.accounts| && BestOf(cfg, v, req, now, n, best)
    requires !(Free(cfg, v, req, now, v.accounts[n]) && BoundTo(v, req, now, v.accounts[n]))
    ensures
      var replace := Free(cfg, v, req, now, v.accounts[n])
        && (best.None? || Before(v.Of(v.accounts[n].id), v.Of(v.accounts[best.value].id)));
      BestOf(cfg, v, req, now, n + 1, if replace then Some(n) else best)
  {
    hide Free, BoundTo;
  }

  /** The earliest wait among the first `n` accounts. */
  ghost predicate EarliestOf(cfg: Config, v: View, req: Request, now: Time, n: nat, earliest: Option<Time>)
    requires n <= |v.accounts|
  {
    && (earliest.Some? ==> exists j | 0 <= j < n ::
         VerdictOn(cfg, v, req, now, v.accounts[j]) == Waiting(earliest.value))
    && (forall j | 0 <= j < n && VerdictOn(cfg, v, req, now, v.accounts[j]).Waiting? ::
          earliest.Some? && earliest.value <= VerdictOn(cfg, v, req, now, v.accounts[j]).until)
  }

  lemma EarliestOfNext(cfg: Config, v: View, req: Request, now: Time, n: nat, earliest: Option<Time>)
    requires n < |v.accounts| && EarliestOf(cfg, v, req, now, n, earliest)
    ensures
      var verdict := VerdictOn(cfg, v, req, now, v.accounts[n]);
      EarliestOf(cfg, v, req, now, n + 1,
        if verdict.Waiting? && (earliest.None? || verdict.until < earliest.value) then Some(verdict.until)
        else earliest)
  {
    hide VerdictOn;
    var verdict := VerdictOn(cfg, v, req, now, v.accounts[n]);
    if earliest.Some? && !(verdict.Waiting? && verdict.until < earliest.value) {
      var j :| 0 <= j < n && VerdictOn(cfg, v, req, now, v.accounts[j]) == Waiting(earliest.value);
      assert 0 <= j < n + 1;
    }
  }

  /** Some account among the first `n` is ready, but has no free slot. */
  ghost predicate BusyOf(cfg: Config, v: View, req: Request, now: Time, n: nat)
    requires n <= |v.accounts|
  {
    exists j | 0 <= j < n :: VerdictOn(cfg, v, req, now, v.accounts[j]).Ready? && !Free(cfg, v, req, now, v.accounts[j])
  }

  lemma BusyOfNext(cfg: Config, v: View, req: Request, now: Time, n: nat)
    requires n < |v.accounts|
    ensures BusyOf(cfg, v, req, now, n + 1) <==>
      BusyOf(cfg, v, req, now, n)
      || (VerdictOn(cfg, v, req, now, v.accounts[n]).Ready? && !Free(cfg, v, req, now, v.accounts[n]))
  {
    hide VerdictOn, Free;
  }

  lemma ScanStart(cfg: Config, v: View, req: Request, now: Time)
    ensures BestOf(cfg, v, req, now, 0, None) && !BusyOf(cfg, v, req, now, 0) && EarliestOf(cfg, v, req, now, 0, None)
  {
  }

  lemma BoundIsChoice(cfg: Config, v: View, req: Request, now: Time, i: nat)
    requires i < |v.accounts| && Free(cfg, v, req, now, v.accounts[i]) && BoundTo(v, req, now, v.accounts[i])
    ensures IsChoice(cfg, v, req, now, i)
  {
  }

  /** Creating idle reservation objects changes no verdict. */
  lemma SameVerdicts(cfg: Config, v: View, w: View, req: Request, now: Time, a: Account)
    requires v.limits == w.limits && v.Of(a.id) == w.Of(a.id)
    ensures VerdictOn(cfg, v, req, now, a) == VerdictOn(cfg, w, req, now, a)
    ensures Free(cfg, v, req, now, a) == Free(cfg, w, req, now, a)
  {
  }

  lemma BestOfAllIsChoice(cfg: Config, v: View, req: Request, now: Time, best: Option<nat>)
    requires BestOf(cfg, v, req, now, |v.accounts|, best)
    ensures best.Some? ==> IsChoice(cfg, v, req, now, best.value)
    ensures best.None? ==> forall a <- v.accounts :: !Free(cfg, v, req, now, a)
  {
    hide Free, BoundTo;
  }

  // ---- The same decisions, by the fields of an account -----------------------------------

  /** The quota has no say: no model is asked for, or the account lists none. */
  predicate Unlisted(requested: string, a: Account) {
    requested == "" || a.quota.None? || a.quota.value.models == []
  }

  /** The name that the account serves the model under. */
  function MappedName(cfg: Config, requested: string, a: Account): string {
    if Unlisted(requested, a) then requested
    else
      var models := a.quota.value.models;
      cfg.rewrite(requested, seq(|models|, i requires 0 <= i < |models| => models[i].name), a.quota.value.rules)
  }

  /** Entry `k` is the first of its name among the account's models. */
  predicate ListedAt(a: Account, name: string, k: nat) {
    && a.quota.Some? && k < |a.quota.value.models| && a.quota.value.models[k].name == name
    && forall j | 0 <= j < k :: a.quota.value.models[j].name != name
  }

  /** What no account may be that serves a request. */
  predicate Barred(req: Request, now: Time, a: Account) {
    || a.id in req.excluded
    || a.disabled
    || (req.skipExpired && a.expiresAt <= now / SECOND)
    || (a.quota.Some? && a.quota.value.forbidden)
  }

  /** The listed model has quota left, or its quota has been reset. */
  ghost predicate HasQuota(cfg: Config, requested: string, now: Time, a: Account) {
    Unlisted(requested, a)
    || exists k: nat | ListedAt(a, MappedName(cfg, requested, a), k) ::
         var m := a.quota.value.models[k]; m.percentage != 0 || (m.reset.Some? && m.reset.value <= now)
  }

  /** The listed model has no quota left before `until`. */
  ghost predicate ResetsAt(cfg: Config, requested: string, now: Time, a: Account, until: Time) {
    && !Unlisted(requested, a)
    && exists k: nat | ListedAt(a, MappedName(cfg, requested, a), k) ::
         var m := a.quota.value.models[k]; m.percentage == 0 && m.reset == Some(until) && until > now
  }

  /** The limit on the whole account, the one on the name it serves the model under, and the persistent one. */
  predicate LimitedAt(v: View, a: Account, mapped: string, t: Time) {
    || (LimitKey(a.id, "") in v.limits && v.limits[LimitKey(a.id, "")].until == t)
    || (LimitKey(a.id, mapped) in v.limits && v.limits[LimitKey(a.id, mapped)].until == t)
    || a.rateLimitedUntil * SECOND == t
  }

  /** The account may serve the request now. */
  ghost predicate Serves(cfg: Config, v: View, req: Request, now: Time, a: Account) {
    var requested := Normalize(req.model);
    && !Barred(req, now, a)
    && HasQuota(cfg, requested, now, a)
    && forall t: Time | LimitedAt(v, a, MappedName(cfg, requested, a), t) :: t <= now
  }

  /** It may not yet, but could at `until`: its quota is reset then, or the last of its limits ends. */
  ghost predicate ServesFrom(cfg: Config, v: View, req: Request, now: Time, a: Account, until: Time) {
    var requested := Normalize(req.model);
    && !Barred(req, now, a)
    && if HasQuota(cfg, requested, now, a) then
         && LimitedAt(v, a, MappedName(cfg, requested, a), until) && until > now
         && forall t: Time | LimitedAt(v, a, MappedName(cfg, requested, a), t) :: t <= until
       else ResetsAt(cfg, requested, now, a, until)
  }

  lemma {:induction false} FindModelFinds(models: seq<ModelQuota>, name: string)
    ensures FindModel(models, name).Some? <==> exists k | 0 <= k < |models| :: models[k].name == name
    ensures FindModel(models, name).Some? ==> exists k | 0 <= k < |models| ::
      models[k] == FindModel(models, name).value && models[k].name == name && forall j | 0 <= j < k ::
        models[j].name != name
  {
    if models != [] {
      FindModelFinds(models[1..], name);
      if models[0].name == name {
        assert models[0] == FindModel(models, name).value;
      } else if FindModel(models[1..], name).Some? {
        var k :| 0 <= k < |models[1..]| && models[1..][k] == FindModel(models[1..], name).value
          && models[1..][k].name == name && forall j | 0 <= j < k :: models[1..][j].name != name;
        assert models[k + 1] == models[1..][k];
        forall j | 0 <= j < k + 1
          ensures models[j].name != name
        {
          if j > 0 {
            assert models[j] == models[1..][j - 1];
          }
        }
      } else {
        assert forall k | 0 < k < |models| :: models[k] == models[1..][k - 1];
      }
    }
  }

  lemma CandidateByFields(cfg: Config, requested: string, now: Time, a: Account)
    ensures var c := CandidateOf(cfg, requested, a);
      && c.mapped == MappedName(cfg, requested, a)
      && (c.Available(now) <==> HasQuota(cfg, requested, now, a))
      && forall until: Time ::
           ResetsAt(cfg, requested, now, a, until) <==> !c.Available(now) && c.reset == Some(until) && until > now
  {
    if !Unlisted(requested, a) {
      var models, name := a.quota.value.models, MappedName(cfg, requested, a);
      assert Names(models) == seq(|models|, i requires 0 <= i < |models| => models[i].name);
      FindModelFinds(models, name);
      if FindModel(models, name).Some? {
        var k :| 0 <= k < |models| && models[k] == FindModel(models, name).value && models[k].name == name
          && forall j | 0 <= j < k :: models[j].name != name;
        assert ListedAt(a, name, k);
        assert forall j: nat | ListedAt(a, name, j) :: j == k;
      }
    }
  }

  lemma CoolingIsLastLimit(v: View, a: Account, mapped: string)
    ensures LimitedAt(v, a, mapped, CoolingUntil(v, a, mapped))
    ensures forall t: Time | LimitedAt(v, a, mapped, t) :: t <= CoolingUntil(v, a, mapped)
  {
  }

  /** The verdict on an account says exactly what its fields say. */
  lemma VerdictByFields(cfg: Config, v: View, req: Request, now: Time, a: Account)
    ensures VerdictOn(cfg, v, req, now, a).Ready? <==> Serves(cfg, v, req, now, a)
    ensures forall until: Time ::
      VerdictOn(cfg, v, req, now, a) == Waiting(until) <==> ServesFrom(cfg, v, req, now, a, until)
  {
    hide CandidateOf, HasQuota, MappedName, ResetsAt, LimitedAt, CoolingUntil, Normalize;
    CandidateByFields(cfg, Normalize(req.model), now, a);
    CoolingIsLastLimit(v, a, MappedName(cfg, Normalize(req.model), a));
  }

  /** Fewer leases are out than the configured number, or than four. */
  predicate HasSlot(cfg: Config, v: View, a: Account) {
    a.id !in v.reserved || v.reserved[a.id].active < if cfg.maxConcurrent > 0 then cfg.maxConcurrent else 4
  }

  /** The session was bound to the account, and still is. */
  predicate Remembers(v: View, session: string, now: Time, a: Account) {
    session in v.sessions && v.sessions[session].account == a.id && now < v.sessions[session].expires
  }

  /** In flight, then chosen, then listed: what decides between two accounts. */
  predicate NoWorse(v: View, i: nat, j: nat)
    requires i < |v.accounts| && j < |v.accounts|
  {
    var a, b := v.Of(v.accounts[i].id), v.Of(v.accounts[j].id);
    a.active < b.active || (a.active == b.active && (a.last < b.last || (a.last == b.last && i <= j)))
  }

  ghost predicate Takes(cfg: Config, v: View, req: Request, now: Time, i: nat)
    requires i < |v.accounts|
  {
    Serves(cfg, v, req, now, v.accounts[i]) && HasSlot(cfg, v, v.accounts[i])
  }

  /**
   Account `i` may serve and has a free slot. It is the session's account if that can take the request;
   otherwise none that can is better.
   */
  ghost predicate ServesBest(cfg: Config, v: View, req: Request, now: Time, i: nat)
    requires i < |v.accounts|
  {
    && Takes(cfg, v, req, now, i)
    && forall j | 0 <= j < |v.accounts| && Takes(cfg, v, req, now, j) ::
         Remembers(v, req.session, now, v.accounts[i])
         || (!Remembers(v, req.session, now, v.accounts[j]) && NoWorse(v, i, j))
  }

  /** No account may serve, and `earliest` is the first time from which one could. */
  ghost predicate NoneServes(cfg: Config, v: View, req: Request, now: Time, earliest: Option<Time>) {
    && (forall a <- v.accounts :: !Serves(cfg, v, req, now, a))
    && (earliest.Some? ==> exists a <- v.accounts :: ServesFrom(cfg, v, req, now, a, earliest.value))
    && forall a: Account, until: Time | a in v.accounts && ServesFrom(cfg, v, req, now, a, until) ::
         earliest.Some? && earliest.value <= until
  }

  lemma FreeByFields(cfg: Config, v: View, req: Request, now: Time, i: nat)
    requires i < |v.accounts|
    ensures Free(cfg, v, req, now, v.accounts[i]) <==> Takes(cfg, v, req, now, i)
  {
    hide VerdictOn, Serves;
    VerdictByFields(cfg, v, req, now, v.accounts[i]);
  }

  lemma ChoiceByFields(cfg: Config, v: View, req: Request, now: Time, i: nat)
    requires i < |v.accounts| && IsChoice(cfg, v, req, now, i)
    ensures ServesBest(cfg, v, req, now, i)
  {
    hide Free, Takes;
    forall j | 0 <= j < |v.accounts|
      ensures Free(cfg, v, req, now, v.accounts[j]) <==> Takes(cfg, v, req, now, j)
    {
      FreeByFields(cfg, v, req, now, j);
    }
  }

  lemma NoneFreeByFields(cfg: Config, v: View, req: Request, now: Time)
    requires forall a <- v.accounts :: !Free(cfg, v, req, now, a)
    ensures forall i | 0 <= i < |v.accounts| :: !Takes(cfg, v, req, now, i)
  {
    hide Free, Takes;
    forall i | 0 <= i < |v.accounts|
      ensures !Takes(cfg, v, req, now, i)
    {
      FreeByFields(cfg, v, req, now, i);
    }
  }

  lemma BusyByFields(cfg: Config, v: View, req: Request, now: Time)
    ensures BusyOf(cfg, v, req, now, |v.accounts|) ==> exists a <- v.accounts :: Serves(cfg, v, req, now, a)
  {
    hide VerdictOn, Serves, Free;
    if BusyOf(cfg, v, req, now, |v.accounts|) {
      var j :| 0 <= j < |v.accounts| && VerdictOn(cfg, v, req, now, v.accounts[j]).Ready?
        && !Free(cfg, v, req, now, v.accounts[j]);
      VerdictByFields(cfg, v, req, now, v.accounts[j]);
    }
  }

  lemma NoneReadyByFields(cfg: Config, v: View, req: Request, now: Time, earliest: Option<Time>)
    requires forall a <- v.accounts :: !VerdictOn(cfg, v, req, now, a).Ready?
    requires EarliestOf(cfg, v, req, now, |v.accounts|, earliest)
    ensures NoneServes(cfg, v, req, now, earliest)
  {
    hide VerdictOn, Serves, ServesFrom;
    forall a <- v.accounts
      ensures !Serves(cfg, v, req, now, a)
      ensures forall until: Time ::
        VerdictOn(cfg, v, req, now, a) == Waiting(until) <==> ServesFrom(cfg, v, req, now, a, until)
    {
      VerdictByFields(cfg, v, req, now, a);
    }
    forall a: Account, until: Time | a in v.accounts && ServesFrom(cfg, v, req, now, a, until)
      ensures earliest.Some? && earliest.value <= until
    {
      var j :| 0 <= j < |v.accounts| && v.accounts[j] == a;
      assert VerdictOn(cfg, v, req, now, v.accounts[j]) == Waiting(until);
    }
    if earliest.Some? {
      var j :| 0 <= j < |v.accounts| && VerdictOn(cfg, v, req, now, v.accounts[j]) == Waiting(earliest.value);
      assert ServesFrom(cfg, v, req, now, v.accounts[j], earliest.value);
    }
  }

  /** Nothing that is ready is without a slot, and nothing with a slot is ready. */
  lemma NobodyIsReady(cfg: Config, v: View, req: Request, now: Time)
    requires forall a <- v.accounts :: !Free(cfg, v, req, now, a)
    requires !BusyOf(cfg, v, req, now, |v.accounts|)
    ensures forall a <- v.accounts :: !VerdictOn(cfg, v, req, now, a).Ready?
  {
    hide VerdictOn, Free;
  }

  /** The account `id` may serve whatever the caller excludes. */
  ghost predicate MayServe(cfg: Config, v: View, id: Id, req: Request, now: Time) {
    exists a <- v.accounts :: a.id == id && Serves(cfg, v, req.(excluded := {}), now, a)
  }

  /** The account is there, and nothing but a cooldown can keep it from serving. */
  ghost predicate Permits(cfg: Config, v: View, id: Id, req: Request, now: Time) {
    exists a <- v.accounts ::
      a.id == id && !Barred(req.(excluded := {}), now, a) && HasQuota(cfg, Normalize(req.model), now, a)
  }

  lemma ReadyByFields(cfg: Config, v: View, id: Id, req: Request, now: Time)
    ensures ReadyIn(cfg, v, id, req, now) <==> MayServe(cfg, v, id, req, now)
  {
    hide VerdictOn, Serves;
    forall a <- v.accounts
      ensures VerdictOn(cfg, v, req.(excluded := {}), now, a).Ready? <==>
        Serves(cfg, v, req.(excluded := {}), now, a)
    {
      VerdictByFields(cfg, v, req.(excluded := {}), now, a);
    }
  }

  // ---- Making room in a bounded table ------------------------------------------------

  /** The entries of `m` that are still in force. */
  function InForce<K, V>(m: map<K, V>, t: V -> Time, now: Time): map<K, V> {
    map k | k in m && t(m[k]) > now :: m[k]
  }

  /** A full table drops what has lapsed; if that is not enough, one entry that lapses first. */
  ghost predicate MadeRoom<K, V>(m: map<K, V>, r: map<K, V>, t: V -> Time, now: Time, max: nat) {
    var live := InForce(m, t, now);
    if |m| < max then r == m
    else if |live| < max then r == live
    else exists k <- live :: (forall other <- live :: t(live[k]) <= t(live[other])) && r == live - {k}
  }

  /**
   Making room does not drop the entry `key`: the table has room, or the entry is in force and
   either room is left once what has lapsed is gone, or another in force lapses earlier.
   */
  ghost predicate Outlives<K(!new), V>(m: map<K, V>, key: K, t: V -> Time, now: Time, max: nat)
    requires key in m
  {
    || |m| < max
    || (t(m[key]) > now && (|InForce(m, t, now)| < max || exists other <- m :: now < t(m[other]) < t(m[key])))
  }

  lemma RoomKeepsOutliving<K(!new), V>(m: map<K, V>, room: map<K, V>, key: K, t: V -> Time, now: Time, max: nat)
    requires key in m && Outlives(m, key, t, now, max) && MadeRoom(m, room, t, now, max)
    ensures key in room && room[key] == m[key]
  {
    var live := InForce(m, t, now);
    if |m| >= max && |live| >= max {
      var other :| other in m && now < t(m[other]) < t(m[key]);
      assert other in live;
    }
  }

  /** The eviction loops over the sessions and the limits, which visit the entries in any order. */
  method MakeRoom<K(==), V>(m: map<K, V>, t: V -> Time, now: Time, max: nat) returns (r: map<K, V>)
    requires max > 0
    ensures MadeRoom(m, r, t, now, max)
  {
    r := m;
    if |m| < max {
      return;
    }
    var oldest: Option<K> := None;
    var todo := m.Keys;
    while todo != {}
      invariant todo <= m.Keys
      invariant r.Keys == set k | k in m && (k in todo || t(m[k]) > now)
      invariant forall k <- r :: r[k] == m[k]
      invariant oldest.Some? ==> oldest.value in m.Keys - todo && t(m[oldest.value]) > now
      invariant forall k | k in m && k !in todo && t(m[k]) > now :: oldest.Some? && t(m[oldest.value]) <= t(m[k])
    {
      var k :| k in todo;
      todo := todo - {k};
      if t(m[k]) <= now {
        r := r - {k};
      } else if oldest.None? || t(m[k]) < t(m[oldest.value]) {
        oldest := Some(k);
      }
    }
    assert r == InForce(m, t, now);
    if |r| >= max {
      assert r.Keys != {};
      var k :| k in r.Keys;
      r := r - {oldest.value};
    }
  }

  /** After making room there is a free place, and only entries of the table remain. */
  lemma RoomIsFree<K, V>(m: map<K, V>, r: map<K, V>, t: V -> Time, now: Time, max: nat)
    requires |m| <= max && max > 0 && MadeRoom(m, r, t, now, max)
    ensures |r| < max && r.Keys <= m.Keys && forall k <- r :: r[k] == m[k]
  {
    var live := InForce(m, t, now);
    if |m| == max && |live| >= max {
      assert live.Keys <= m.Keys;
      CardinalityMonotone(live.Keys, m.Keys);
      assert |live.Keys| == |live| && |m.Keys| == |m|;
      var k :| k in live && r == live - {k};
      assert r.Keys == live.Keys - {k};
      assert |r.Keys| == |r|;
    }
  }

  /** Making room and then adding an entry keeps the table within its bound. */
  method InsertBounded<K(==), V>(m: map<K, V>, t: V -> Time, now: Time, max: nat, key: K, value: V)
    returns (r: map<K, V>, ghost room: map<K, V>)
    requires |m| <= max && max > 0
    ensures |r| <= max && MadeRoom(m, room, t, now, max) && r == room[key := value]
  {
    hide MadeRoom;
    var left := MakeRoom(m, t, now, max);
    RoomIsFree(m, left, t, now, max);
    room := left;
    r := left[key := value];
    OneMoreEntry(left, key, value);
  }

  lemma OneMoreEntry<K, V>(m: map<K, V>, key: K, value: V)
    ensures |m[key := value]| <= |m| + 1
  {
    var r := m[key := value];
    assert r.Keys == m.Keys + {key};
    assert |r.Keys| == |r| && |m.Keys| == |m|;
  }

  function ExpiryOf(b: Binding): Time { b.expires }

  function UntilOf(l: LimitRecord): Time { l.until }

  ghost predicate SessionRoom(m: map<string, Binding>, r: map<string, Binding>, now: Time) {
    MadeRoom(m, r, ExpiryOf, now, MAX_SESSIONS)
  }

  ghost predicate LimitRoom(m: map<LimitKey, LimitRecord>, r: map<LimitKey, LimitRecord>, now: Time) {
    MadeRoom(m, r, UntilOf, now, MAX_LIMITS)
  }

  // ---- Critical sections as relations --------------------------------------------------

  function WithoutLapsedBinding(sessions: map<string, Binding>, sid: string, now: Time): map<string, Binding> {
    if sid in sessions && sessions[sid].expires <= now then sessions - {sid} else sessions
  }

  ghost predicate Rebound(before: map<string, Binding>, after: map<string, Binding>, sid: string, id: Id, now: Time) {
    if sid == "" then after == before
    else exists room :: SessionRoom(before, room, now) && after == room[sid := Binding(id, now + SESSION_TTL)]
  }

  /** Reservation objects may have been created idle; everything else about them is equal. */
  ghost predicate SameReservations(v: View, w: View) {
    forall id :: v.Of(id) == w.Of(id)
  }

  /** Selection found `accounts[i]` and took one of its slots. */
  ghost predicate Selected(cfg: Config, v: View, w: View, req: Request, now: Time, i: nat) {
    && i < |v.accounts| && IsChoice(cfg, v, req, now, i)
    && var id := v.accounts[i].id;
    && w.accounts == v.accounts && w.version == v.version && w.limits == v.limits
    && w.sequence == v.sequence + 1
    && (forall other | other != id :: w.Of(other) == v.Of(other))
    && w.Of(id) == Reserved(v.Of(id).active + 1, w.sequence)
    && Rebound(WithoutLapsedBinding(v.sessions, req.session, now), w.sessions, req.session, id, now)
  }

  lemma SelectedIsNotExcluded(cfg: Config, v: View, w: View, req: Request, now: Time, i: nat)
    requires Selected(cfg, v, w, req, now, i)
    ensures w.accounts == v.accounts && i < |v.accounts| && v.accounts[i].id !in req.excluded
  {
    hide Rebound;
  }

  /** What scanning the accounts may change: idle reservations, and a binding that has lapsed. */
  ghost predicate Looked(v: View, u: View, req: Request, now: Time) {
    && u == v.(reserved := u.reserved, sessions := WithoutLapsedBinding(v.sessions, req.session, now))
    && SameReservations(v, u)
  }

  /** Scanning and dropping a lapsed binding (`u`), then taking the slot (`w`), make one selection. */
  lemma SelectedInSteps(cfg: Config, v: View, u: View, w: View, req: Request, now: Time, i: nat)
    requires i < |v.accounts| && IsChoice(cfg, v, req, now, i)
    requires Looked(v, u, req, now)
    requires w == u.(reserved := w.reserved, sequence := u.sequence + 1, sessions := w.sessions)
    requires forall other | other != v.accounts[i].id :: w.Of(other) == u.Of(other)
    requires w.Of(v.accounts[i].id) == Reserved(u.Of(v.accounts[i].id).active + 1, w.sequence)
    requires Rebound(u.sessions, w.sessions, req.session, v.accounts[i].id, now)
    ensures Selected(cfg, v, w, req, now, i)
  {
    hide IsChoice, Rebound, WithoutLapsedBinding;
  }

  /** Selection found nothing: no slot is taken, and only a lapsed binding is dropped. */
  ghost predicate NothingSelected(cfg: Config, v: View, w: View, req: Request, now: Time) {
    (forall a <- v.accounts :: !Free(cfg, v, req, now, a)) && Looked(v, w, req, now)
  }

  ghost predicate Released(v: View, w: View, id: Id) {
    && id in v.reserved
    && w == v.(reserved := v.reserved[id := v.reserved[id].(active := v.reserved[id].active - 1)])
  }

  function SessionsWithout(sessions: map<string, Binding>, id: Id): map<string, Binding> {
    map s | s in sessions && sessions[s].account != id :: sessions[s]
  }

  /** `MarkLimited`; a time that is not in the future clears the scope instead. */
  ghost predicate Marked(v: View, w: View, id: Id, model: string, until: Time, now: Time) {
    var key := LimitKey(id, Normalize(model));
    if until <= now then w == v.(limits := v.limits - {key})
    else
      var kept := if key in v.limits && v.limits[key].until > until then v.limits[key].until else until;
      exists room ::
        && LimitRoom(v.limits, room, now)
        && w == v.(limits := room[key := LimitRecord(kept, now)], sessions := SessionsWithout(v.sessions, id))
  }

  function Cleared(v: View, id: Id, model: string): View {
    v.(limits := v.limits - {LimitKey(id, Normalize(model))})
  }

  function ClearedBefore(v: View, id: Id, model: string, started: Time): View {
    var key := LimitKey(id, Normalize(model));
    if key in v.limits && v.limits[key].markedAt <= started then v.(limits := v.limits - {key}) else v
  }

  function LiveIds(accounts: seq<Account>): set<Id> {
    set a | a in accounts :: a.id
  }

  /** The account index of a listing with distinct identifiers. */
  ghost predicate Indexes(accounts: seq<Account>, index: map<Id, nat>) {
    && (forall i | 0 <= i < |accounts| :: accounts[i].id in index && index[accounts[i].id] == i)
    && (forall id <- index :: index[id] < |accounts| && accounts[index[id]].id == id)
  }

  method BuildIndex(accounts: seq<Account>) returns (index: map<Id, nat>)
    requires forall i, j | 0 <= i < j < |accounts| :: accounts[i].id != accounts[j].id
    ensures Indexes(accounts, index)
  {
    index := map[];
    for i := 0 to |accounts|
      invariant forall j | 0 <= j < i :: accounts[j].id in index && index[accounts[j].id] == j
      invariant forall id <- index :: index[id] < i && accounts[index[id]].id == id
    {
      index := index[accounts[i].id := i];
    }
  }

  /** The deletion loops over the limits and the sessions when a listing is installed. */
  method Prune<K(==), V>(m: map<K, V>, account: (K, V) -> Id, live: set<Id>) returns (r: map<K, V>)
    ensures r == map k | k in m && account(k, m[k]) in live :: m[k]
    ensures |r| <= |m|
  {
    r := m;
    var todo := m.Keys;
    while todo != {}
      invariant todo <= m.Keys
      invariant r == map k | k in m && (k in todo || account(k, m[k]) in live) :: m[k]
    {
      var k :| k in todo;
      todo := todo - {k};
      if account(k, m[k]) !in live {
        r := r - {k};
      }
    }
    CardinalityMonotone(r.Keys, m.Keys);
    assert |r.Keys| == |r| && |m.Keys| == |m|;
  }

  /** `loadSnapshot` installs a listing: state of accounts that are gone is dropped, held slots are not. */
  ghost predicate Installed(v: View, w: View, accounts: seq<Account>, version: nat) {
    && w.accounts == accounts && w.version == version && w.sequence == v.sequence
    && w.reserved == (map id | id in v.reserved && (id in LiveIds(accounts) || v.reserved[id].active != 0) ::
         v.reserved[id])
    && w.limits == (map k | k in v.limits && k.account in LiveIds(accounts) :: v.limits[k])
    && w.sessions == (map s | s in v.sessions && v.sessions[s].account in LiveIds(accounts) :: v.sessions[s])
  }
}
