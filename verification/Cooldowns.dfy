/** Cooldown safety over runs of the scheduler's critical sections. */
module Cooldowns {
  import opened Wrappers
  import opened Sets
  import opened Scheduling
  import opened Text

  datatype Op =
    | Select(req: Request, now: Time, pick: Option<nat>)
    | Release(id: Id)
    | Mark(id: Id, model: string, until: Time, now: Time)
    | Clear(id: Id, model: string)
    | ClearBefore(id: Id, model: string, started: Time)
    | Install(listing: seq<Account>, version: nat)

  ghost predicate Next(cfg: Config, v: View, op: Op, w: View) {
    match op
    case Select(req, now, Some(i)) => Selected(cfg, v, w, req, now, i)
    case Select(req, now, None) => NothingSelected(cfg, v, w, req, now)
    case Release(id) => Released(v, w, id)
    case Mark(id, model, until, now) => Marked(v, w, id, model, until, now)
    case Clear(id, model) => w == Cleared(v, id, model)
    case ClearBefore(id, model, started) => w == ClearedBefore(v, id, model, started)
    case Install(listing, version) => Installed(v, w, listing, version)
  }

  ghost predicate IsRun(cfg: Config, run: seq<View>, ops: seq<Op>) {
    |run| == |ops| + 1 && forall k | 0 <= k < |ops| :: Next(cfg, run[k], ops[k], run[k + 1])
  }

  function KeyOf(op: Op): LimitKey
    requires op.Mark? || op.Clear? || op.ClearBefore?
  {
    LimitKey(op.id, Normalize(op.model))
  }

  /** When the scope `key` was last marked by the operations so far, given when it was marked first. */
  function LatestMark(ops: seq<Op>, key: LimitKey, first: Time): Time {
    if ops == [] then first
    else
      var op := ops[|ops| - 1];
      if op.Mark? && KeyOf(op) == key then op.now else LatestMark(ops[..|ops| - 1], key, first)
  }

  /**
   Marking another scope at `now` does not evict the limit on `key`: the table has room, or the
   limit is in force and either room is left once what has lapsed is gone, or another ends first.
   */
  ghost predicate OutlivesMark(limits: map<LimitKey, LimitRecord>, key: LimitKey, now: Time)
    requires key in limits
  {
    Outlives(limits, key, UntilOf, now, MAX_LIMITS)
  }

  /**
   An operation that leaves the limit on `key` alone: it is no explicit clear, no success of
   an attempt that began at or after the latest mark, no deletion of the account, and no
   mark of another scope that evicts it.
   */
  ghost predicate Spares(v: View, op: Op, key: LimitKey, latest: Time) {
    match op
    case Select(_, _, _) => true
    case Release(_) => true
    case Mark(_, _, until, now) =>
      if KeyOf(op) == key then until > now else until <= now || (key in v.limits ==> OutlivesMark(v.limits, key, now))
    case Clear(_, _) => KeyOf(op) != key
    case ClearBefore(_, _, started) => KeyOf(op) != key || started < latest
    case Install(listing, _) => key.account in LiveIds(listing)
  }

  /** The limit on `key` lasts at least until `until` and was last marked at `latest`. */
  predicate Holds(v: View, key: LimitKey, until: Time, latest: Time) {
    key in v.limits && v.limits[key].until >= until && v.limits[key].markedAt == latest
  }

  lemma MarkHolds(v: View, w: View, id: Id, model: string, until: Time, now: Time)
    requires Marked(v, w, id, model, until, now) && until > now
    ensures Holds(w, LimitKey(id, Normalize(model)), until, now)
  {
  }

  lemma RoomKeeps(limits: map<LimitKey, LimitRecord>, room: map<LimitKey, LimitRecord>, key: LimitKey, now: Time)
    requires key in limits && OutlivesMark(limits, key, now) && LimitRoom(limits, room, now)
    ensures key in room && room[key] == limits[key]
  {
    RoomKeepsOutliving(limits, room, key, UntilOf, now, MAX_LIMITS);
  }

  lemma MarkSpares(v: View, w: View, id: Id, model: string, until: Time, now: Time, key: LimitKey)
    requires Marked(v, w, id, model, until, now) && key in v.limits && key != LimitKey(id, Normalize(model))
    requires until <= now || OutlivesMark(v.limits, key, now)
    ensures key in w.limits && w.limits[key] == v.limits[key]
  {
    hide OutlivesMark, LimitRoom, Normalize;
    if until > now {
      var scope := LimitKey(id, Normalize(model));
      var kept := if scope in v.limits && v.limits[scope].until > until then v.limits[scope].until else until;
      var room :| LimitRoom(v.limits, room, now)
        && w == v.(limits := room[scope := LimitRecord(kept, now)], sessions := SessionsWithout(v.sessions, id));
      RoomKeeps(v.limits, room, key, now);
    }
  }

  /** A table from which making room may take the limit on `key`. */
  lemma RoomWithout(limits: map<LimitKey, LimitRecord>, key: LimitKey, now: Time)
    returns (room: map<LimitKey, LimitRecord>)
    requires |limits| <= MAX_LIMITS && key in limits && !OutlivesMark(limits, key, now)
    ensures LimitRoom(limits, room, now) && key !in room
  {
    var live := InForce(limits, UntilOf, now);
    if limits[key].until <= now {
      FewerEntries(live, limits - {key});
      FewerByOne(limits, key);
    }
    room := if |live| < MAX_LIMITS then live else live - {key};
  }

  /** That guard is exact: a mark it does not cover may evict the limit, in some order of visiting the table. */
  lemma OtherMarkSparesIff(v: View, id: Id, model: string, until: Time, now: Time, key: LimitKey)
    requires Bounded(v) && key in v.limits && key != LimitKey(id, Normalize(model)) && until > now
    ensures OutlivesMark(v.limits, key, now) <==> forall w | Marked(v, w, id, model, until, now) :: key in w.limits
  {
    hide Normalize, OutlivesMark, LimitRoom;
    if OutlivesMark(v.limits, key, now) {
      forall w | Marked(v, w, id, model, until, now)
        ensures key in w.limits
      {
        MarkSpares(v, w, id, model, until, now, key);
      }
    } else {
      var scope := LimitKey(id, Normalize(model));
      var kept := if scope in v.limits && v.limits[scope].until > until then v.limits[scope].until else until;
      var room := RoomWithout(v.limits, key, now);
      var w := v.(limits := room[scope := LimitRecord(kept, now)], sessions := SessionsWithout(v.sessions, id));
      assert Marked(v, w, id, model, until, now) && key !in w.limits;
    }
  }

  /** A later mark never shortens a cooldown, and the other operations spare it. */
  lemma StepHolds(cfg: Config, v: View, op: Op, w: View, key: LimitKey, until: Time, latest: Time)
    requires Next(cfg, v, op, w) && Holds(v, key, until, latest) && Spares(v, op, key, latest)
    ensures Holds(w, key, until, LatestMark([op], key, latest))
  {
    hide IsChoice, Rebound, Normalize, OutlivesMark;
    assert [op][..0] == [];
    if op.Mark? && KeyOf(op) != key {
      MarkSpares(v, w, op.id, op.model, op.until, op.now, key);
    }
  }

  /** `ops[i]` marks `key` at `t` until `u`, and everything after it spares that limit. */
  ghost predicate SparedSince(run: seq<View>, ops: seq<Op>, i: nat, key: LimitKey)
    requires i < |ops| && |run| == |ops| + 1 && ops[i].Mark?
  {
    forall k | i < k < |ops| :: Spares(run[k], ops[k], key, LatestMark(ops[i + 1..k], key, ops[i].now))
  }

  lemma StepOfRun(cfg: Config, run: seq<View>, ops: seq<Op>, k: nat)
    requires IsRun(cfg, run, ops) && k < |ops|
    ensures |run| == |ops| + 1 && Next(cfg, run[k], ops[k], run[k + 1])
  {
  }

  lemma SparedAt(run: seq<View>, ops: seq<Op>, i: nat, k: nat, key: LimitKey)
    requires i < k < |ops| && |run| == |ops| + 1 && ops[i].Mark? && SparedSince(run, ops, i, key)
    ensures Spares(run[k], ops[k], key, LatestMark(ops[i + 1..k], key, ops[i].now))
    ensures LatestMark(ops[i + 1..k + 1], key, ops[i].now)
      == LatestMark([ops[k]], key, LatestMark(ops[i + 1..k], key, ops[i].now))
  {
    LatestMarkAppends(ops[i + 1..k], ops[k], key, ops[i].now);
    assert ops[i + 1..k] + [ops[k]] == ops[i + 1..k + 1];
  }

  lemma {:induction false} LimitHolds(cfg: Config, run: seq<View>, ops: seq<Op>, i: nat, n: nat)
    requires IsRun(cfg, run, ops) && i < n < |run|
    requires |run| == |ops| + 1 && ops[i].Mark? && ops[i].until > ops[i].now
    requires SparedSince(run, ops, i, KeyOf(ops[i]))
    ensures Holds(run[n], KeyOf(ops[i]), ops[i].until, LatestMark(ops[i + 1..n], KeyOf(ops[i]), ops[i].now))
    decreases n
  {
    hide IsRun, Holds, Spares, SparedSince, KeyOf, LatestMark, Marked;
    StepOfRun(cfg, run, ops, n - 1);
    if n == i + 1 {
      FirstMarkHolds(cfg, run[i], ops[i], run[i + 1]);
      assert ops[i + 1..n] == [];
    } else {
      hide Next;
      LimitHolds(cfg, run, ops, i, n - 1);
      SparedAt(run, ops, i, n - 1, KeyOf(ops[i]));
      StepHolds(cfg, run[n - 1], ops[n - 1], run[n], KeyOf(ops[i]), ops[i].until,
        LatestMark(ops[i + 1..n - 1], KeyOf(ops[i]), ops[i].now));
    }
  }

  lemma FirstMarkHolds(cfg: Config, v: View, op: Op, w: View)
    requires Next(cfg, v, op, w) && op.Mark? && op.until > op.now
    ensures Holds(w, KeyOf(op), op.until, LatestMark([], KeyOf(op), op.now))
  {
    MarkHolds(v, w, op.id, op.model, op.until, op.now);
  }

  lemma LatestMarkAppends(ops: seq<Op>, op: Op, key: LimitKey, first: Time)
    ensures LatestMark(ops + [op], key, first) == LatestMark([op], key, LatestMark(ops, key, first))
  {
    assert (ops + [op])[..|ops|] == ops;
    assert [op][..0] == [];
  }

  /** A limit in force on one of the two scopes that selection looks up makes the account wait. */
  lemma LimitBlocks(cfg: Config, v: View, req: Request, now: Time, a: Account, key: LimitKey)
    requires key in v.limits && v.limits[key].until > now && key.account == a.id
    requires key.model == "" || key.model == CandidateOf(cfg, Normalize(req.model), a).mapped
    ensures !Free(cfg, v, req, now, a)
  {
  }

  /**
   Cooldown safety: a limit marked until `u` keeps the account from being selected, for
   every model in its scope and at every time before `u`, as long as it is spared.
   */
  lemma CooldownIsRespected(cfg: Config, run: seq<View>, ops: seq<Op>, i: nat, n: nat)
    requires IsRun(cfg, run, ops) && i < n < |ops|
    requires ops[i].Mark? && ops[i].until > ops[i].now
    requires SparedSince(run, ops, i, KeyOf(ops[i]))
    requires ops[n].Select? && ops[n].pick.Some? && ops[n].now < ops[i].until
    ensures ops[n].pick.value < |run[n].accounts|
    ensures var a := run[n].accounts[ops[n].pick.value];
      a.id == ops[i].id ==>
        KeyOf(ops[i]).model != "" && KeyOf(ops[i]).model != CandidateOf(cfg, Normalize(ops[n].req.model), a).mapped
  {
    hide Rebound, VerdictOn, Normalize, CandidateOf;
    LimitHolds(cfg, run, ops, i, n);
    assert Next(cfg, run[n], ops[n], run[n + 1]);
    var a := run[n].accounts[ops[n].pick.value];
    var key := KeyOf(ops[i]);
    if a.id == ops[i].id && (key.model == "" || key.model == CandidateOf(cfg, Normalize(ops[n].req.model), a).mapped) {
      LimitBlocks(cfg, run[n], ops[n].req, ops[n].now, a, key);
    }
  }

  // ---- No limit without a cause --------------------------------------------------------

  /**
   An operation that lifts the limit on `key`: an explicit clear, a success of an attempt that began
   no earlier than the latest mark, a mark with a time that is past, or a listing without the account.
   */
  ghost predicate Lifts(v: View, op: Op, key: LimitKey) {
    match op
    case Select(_, _, _) => false
    case Release(_) => false
    case Mark(_, _, until, now) => KeyOf(op) == key && until <= now
    case Clear(_, _) => KeyOf(op) == key
    case ClearBefore(_, _, started) => KeyOf(op) == key && key in v.limits && v.limits[key].markedAt <= started
    case Install(listing, _) => forall a <- listing :: a.id != key.account
  }

  /** A limit comes from a mark in this step, or was there before with the same end, and this step did not lift it. */
  lemma StepHasCause(cfg: Config, v: View, op: Op, w: View, key: LimitKey)
    requires Next(cfg, v, op, w) && key in w.limits
    ensures !Lifts(v, op, key)
    ensures || (op.Mark? && KeyOf(op) == key && w.limits[key].until == op.until)
            || (key in v.limits && v.limits[key].until == w.limits[key].until)
  {
    hide IsChoice, Rebound, Normalize, LimitRoom, Looked;
    if op.Mark? && op.until > op.now {
      var scope := KeyOf(op);
      var kept := if scope in v.limits && v.limits[scope].until > op.until then v.limits[scope].until else op.until;
      var room :| LimitRoom(v.limits, room, op.now)
        && w == v.(limits := room[scope := LimitRecord(kept, op.now)], sessions := SessionsWithout(v.sessions, op.id));
      RoomKeepsEntries(v.limits, room, op.now);
    }
    assert op.Select? ==> w.limits == v.limits by {
      SelectingLimitsNothing(cfg, v, op, w);
    }
  }

  lemma SelectingLimitsNothing(cfg: Config, v: View, op: Op, w: View)
    requires Next(cfg, v, op, w)
    ensures op.Select? ==> w.limits == v.limits
  {
    hide IsChoice, Rebound, Normalize, LimitRoom, Free;
  }

  lemma RoomKeepsEntries(limits: map<LimitKey, LimitRecord>, room: map<LimitKey, LimitRecord>, now: Time)
    requires LimitRoom(limits, room, now)
    ensures forall key <- room :: key in limits && room[key] == limits[key]
  {
  }

  /** Operation `i` marked the scope until `until`, and nothing after it lifted the limit. */
  ghost predicate CausedBy(run: seq<View>, ops: seq<Op>, i: nat, n: nat, key: LimitKey, until: Time)
    requires n <= |ops| && |run| == |ops| + 1
  {
    && i < n && ops[i].Mark? && KeyOf(ops[i]) == key && ops[i].until == until
    && forall k | i <= k < n :: !Lifts(run[k], ops[k], key)
  }

  /** A limit in a run from an empty table is what a mark of its scope said that nothing has lifted since. */
  lemma {:induction false} CooldownHasCause(cfg: Config, run: seq<View>, ops: seq<Op>, n: nat, key: LimitKey)
    requires IsRun(cfg, run, ops) && n <= |ops| && |run| == |ops| + 1
    requires run[0].limits == map[] && key in run[n].limits
    ensures exists i: nat :: CausedBy(run, ops, i, n, key, run[n].limits[key].until)
    decreases n
  {
    hide IsRun, Next, Lifts, KeyOf;
    if n > 0 {
      var v, op := run[n - 1], ops[n - 1];
      StepOfRun(cfg, run, ops, n - 1);
      StepHasCause(cfg, v, op, run[n], key);
      if key in v.limits && v.limits[key].until == run[n].limits[key].until {
        CooldownHasCause(cfg, run, ops, n - 1, key);
        var i: nat :| CausedBy(run, ops, i, n - 1, key, v.limits[key].until);
        assert CausedBy(run, ops, i, n, key, run[n].limits[key].until);
      } else {
        assert CausedBy(run, ops, n - 1, n, key, run[n].limits[key].until);
      }
    }
  }

  // ---- Which scope a mark reaches ------------------------------------------------------

  /** A model name without blanks around it and without one `models/` in front. */
  lemma NormalizeMeans(lead: string, core: string, trail: string)
    requires IsBlank(lead) && IsTrimmed(core) && IsBlank(trail)
    ensures Normalize(lead + core + trail) == if |core| >= 7 && core[..7] == "models/" then core[7..] else core
    ensures Normalize(lead) == ""
  {
    TrimSpaceFindsCore(lead, core, trail);
    BlankIffTrimsToNothing(lead);
    assert "models/" <= core <==> |core| >= 7 && core[..7] == "models/";
  }

  lemma RoomAddsNothing(limits: map<LimitKey, LimitRecord>, room: map<LimitKey, LimitRecord>, now: Time)
    requires LimitRoom(limits, room, now)
    ensures room.Keys <= limits.Keys
  {
  }

  /** A mark that is in the future is stored under the normalized name, and adds no other scope. */
  lemma MarkStores(v: View, w: View, id: Id, model: string, until: Time, now: Time)
    requires Marked(v, w, id, model, until, now) && until > now && LimitKey(id, Normalize(model)) !in v.limits
    ensures Until(w.limits, LimitKey(id, Normalize(model))) == Some(until)
    ensures w.limits.Keys <= v.limits.Keys + {LimitKey(id, Normalize(model))}
    ensures w == v.(limits := w.limits, sessions := SessionsWithout(v.sessions, id))
  {
    hide Normalize, LimitRoom, SessionsWithout;
    var key := LimitKey(id, Normalize(model));
    var room :| LimitRoom(v.limits, room, now)
      && w == v.(limits := room[key := LimitRecord(until, now)], sessions := SessionsWithout(v.sessions, id));
    RoomAddsNothing(v.limits, room, now);
  }

  /**
   Marks normalize the model name, lookups do not: marking the model an account serves, with no
   limit on it yet, makes that account wait for that model exactly when the name is already
   normal, or normalizes to nothing and so limits the whole account.
   */
  lemma MarkReachesLookup(v: View, w: View, id: Id, mapped: string, until: Time, now: Time)
    requires Marked(v, w, id, mapped, until, now) && until > now
    requires forall model | model in {"", mapped, Normalize(mapped)} :: LimitKey(id, model) !in v.limits
    ensures LimitedUntil(w.limits, id, mapped) == Some(until) <==>
      Normalize(mapped) == mapped || Normalize(mapped) == ""
    ensures LimitedUntil(w.limits, id, mapped) in {None, Some(until)}
  {
    hide Normalize, Marked;
    MarkStores(v, w, id, mapped, until, now);
  }

  /**
   A name with the prefix twice: the only account serves it as "models/x", is marked for ten
   seconds under that name, and is free for the very next selection.
   */
  lemma DoublePrefixEscapes(cfg: Config, w: View)
    requires Marked(View([LONE], 0, 0, map[], map[], map[]), w, LONE.id, "models/x", 10 * SECOND, 0)
    ensures CandidateOf(cfg, Normalize("models/models/x"), LONE).mapped == "models/x"
    ensures Free(cfg, w, Request("models/models/x", "", {}, false), 0, LONE)
  {
    hide Marked;
    assert Normalize("models/models/x") == "models/x" && Normalize("models/x") == "x";
    MarkStores(View([LONE], 0, 0, map[], map[], map[]), w, LONE.id, "models/x", 10 * SECOND, 0);
  }

  /** An account without a quota report, and so one that serves every model under the name asked for. */
  const LONE: Account := Account("a", false, 10, 0, None)

  // ---- Bounds --------------------------------------------------------------------------

  lemma SessionsStayBounded(v: map<string, Binding>, w: map<string, Binding>, sid: string, id: Id, now: Time)
    requires |v| <= MAX_SESSIONS && Rebound(v, w, sid, id, now)
    ensures |w| <= MAX_SESSIONS
  {
    if sid != "" {
      var room :| SessionRoom(v, room, now) && w == room[sid := Binding(id, now + SESSION_TTL)];
      RoomIsFree(v, room, ExpiryOf, now, MAX_SESSIONS);
      assert w.Keys == room.Keys + {sid};
      assert |w.Keys| == |w| && |room.Keys| == |room|;
    }
  }

  lemma LimitsStayBounded(v: View, w: View, id: Id, model: string, until: Time, now: Time)
    requires |v.limits| <= MAX_LIMITS && Marked(v, w, id, model, until, now)
    ensures |w.limits| <= MAX_LIMITS
  {
    var key := LimitKey(id, Normalize(model));
    hide Normalize, LimitRoom, SessionsWithout;
    if until <= now {
      FewerEntries(w.limits, v.limits);
    } else {
      var kept := if key in v.limits && v.limits[key].until > until then v.limits[key].until else until;
      var room :| LimitRoom(v.limits, room, now)
        && w == v.(limits := room[key := LimitRecord(kept, now)], sessions := SessionsWithout(v.sessions, id));
      LimitRoomIsFree(v.limits, room, now);
      OneMoreEntry(room, key, LimitRecord(kept, now));
    }
  }

  lemma LimitRoomIsFree(m: map<LimitKey, LimitRecord>, room: map<LimitKey, LimitRecord>, now: Time)
    requires |m| <= MAX_LIMITS && LimitRoom(m, room, now)
    ensures |room| < MAX_LIMITS
  {
    RoomIsFree(m, room, UntilOf, now, MAX_LIMITS);
  }

  lemma OneMoreEntry<K, V>(m: map<K, V>, k: K, v: V)
    ensures |m[k := v]| <= |m| + 1
  {
    assert m[k := v].Keys == m.Keys + {k};
    assert |m[k := v].Keys| == |m[k := v]| && |m.Keys| == |m|;
  }

  lemma FewerEntries<K, V>(small: map<K, V>, big: map<K, V>)
    requires small.Keys <= big.Keys
    ensures |small| <= |big|
  {
    CardinalityMonotone(small.Keys, big.Keys);
    assert |small.Keys| == |small| && |big.Keys| == |big|;
  }

  lemma FewerByOne<K, V>(m: map<K, V>, k: K)
    requires k in m
    ensures |m - {k}| < |m|
  {
    assert (m - {k}).Keys == m.Keys - {k};
    assert |(m - {k}).Keys| == |m - {k}| && |m.Keys| == |m|;
  }

  predicate Bounded(v: View) {
    |v.limits| <= MAX_LIMITS && |v.sessions| <= MAX_SESSIONS
  }

  lemma MarkingAddsNoSession(v: View, w: View, id: Id, model: string, until: Time, now: Time)
    requires Marked(v, w, id, model, until, now)
    ensures w.sessions.Keys <= v.sessions.Keys
  {
    hide Normalize, LimitRoom;
  }

  lemma SelectingStaysBounded(cfg: Config, v: View, w: View, req: Request, now: Time, i: nat)
    requires Selected(cfg, v, w, req, now, i) && Bounded(v)
    ensures Bounded(w)
  {
    hide IsChoice, Rebound;
    var before := WithoutLapsedBinding(v.sessions, req.session, now);
    FewerEntries(before, v.sessions);
    SessionsStayBounded(before, w.sessions, req.session, v.accounts[i].id, now);
  }

  lemma FewerStaysBounded(v: View, w: View)
    requires Bounded(v) && w.limits.Keys <= v.limits.Keys && w.sessions.Keys <= v.sessions.Keys
    ensures Bounded(w)
  {
    FewerEntries(w.limits, v.limits);
    FewerEntries(w.sessions, v.sessions);
  }

  lemma MarkingStaysBounded(v: View, w: View, id: Id, model: string, until: Time, now: Time)
    requires Marked(v, w, id, model, until, now) && Bounded(v)
    ensures Bounded(w)
  {
    hide Marked;
    LimitsStayBounded(v, w, id, model, until, now);
    MarkingAddsNoSession(v, w, id, model, until, now);
    FewerEntries(w.sessions, v.sessions);
  }

  lemma InstallingOnlyRemoves(v: View, w: View, listing: seq<Account>, version: nat)
    requires Installed(v, w, listing, version)
    ensures w.limits.Keys <= v.limits.Keys && w.sessions.Keys <= v.sessions.Keys
  {
    hide LiveIds;
  }

  /** Neither table ever outgrows its bound. */
  lemma StepStaysBounded(cfg: Config, v: View, op: Op, w: View)
    requires Next(cfg, v, op, w) && Bounded(v)
    ensures Bounded(w)
  {
    hide Bounded, Selected, Marked, Installed, Normalize, Free;
    match op
    case Select(req, now, Some(i)) => SelectingStaysBounded(cfg, v, w, req, now, i);
    case Select(req, now, None) => FewerStaysBounded(v, w);
    case Release(_) => FewerStaysBounded(v, w);
    case Mark(id, model, until, now) => MarkingStaysBounded(v, w, id, model, until, now);
    case Clear(_, _) => FewerStaysBounded(v, w);
    case ClearBefore(_, _, _) => FewerStaysBounded(v, w);
    case Install(listing, version) =>
      InstallingOnlyRemoves(v, w, listing, version);
      FewerStaysBounded(v, w);
  }
}
