/** Sticky sessions over runs of the scheduler's critical sections. */
module Sessions {
  import opened Wrappers
  import opened Scheduling
  import opened Cooldowns

  /** The session is bound to the account, at least until `until`. */
  predicate BoundUntil(v: View, session: string, id: Id, until: Time) {
    session in v.sessions && v.sessions[session].account == id && until <= v.sessions[session].expires
  }

  /** The binding is not the one that a selection for another session evicts from a full table. */
  ghost predicate OutlivesBinding(v: View, req: Request, now: Time, session: string) {
    req.session == "" || session !in WithoutLapsedBinding(v.sessions, req.session, now)
      || Outlives(WithoutLapsedBinding(v.sessions, req.session, now), session, ExpiryOf, now, MAX_SESSIONS)
  }

  /**
   An operation that leaves the session with its account: no other selection for the session, none
   that evicts its binding, no cooldown and no deletion of the account.
   */
  ghost predicate KeepsSession(v: View, op: Op, session: string, id: Id) {
    match op
    case Select(req, now, pick) => req.session != session && (pick.Some? ==> OutlivesBinding(v, req, now, session))
    case Mark(marked, _, until, now) => marked != id || until <= now
    case Install(listing, _) => exists a <- listing :: a.id == id
    case Release(_) => true
    case Clear(_, _) => true
    case ClearBefore(_, _, _) => true
  }

  lemma SelectingBinds(cfg: Config, v: View, w: View, req: Request, now: Time, i: nat)
    requires Selected(cfg, v, w, req, now, i) && req.session != ""
    ensures i < |v.accounts| && BoundUntil(w, req.session, v.accounts[i].id, now + 1800 * SECOND)
  {
    hide IsChoice, SessionRoom, WithoutLapsedBinding;
  }

  lemma OtherSelectionKeeps(cfg: Config, v: View, w: View, req: Request, now: Time, i: nat, session: string, id: Id,
                            until: Time)
    requires Selected(cfg, v, w, req, now, i) && req.session != session && OutlivesBinding(v, req, now, session)
    requires BoundUntil(v, session, id, until)
    ensures BoundUntil(w, session, id, until)
  {
    hide IsChoice, SessionRoom;
    if req.session != "" {
      var before, chosen := WithoutLapsedBinding(v.sessions, req.session, now), v.accounts[i].id;
      var room :| SessionRoom(before, room, now)
        && w.sessions == room[req.session := Binding(chosen, now + SESSION_TTL)];
      BindingStays(before, room, session, now);
    }
  }

  lemma BindingStays(before: map<string, Binding>, room: map<string, Binding>, session: string, now: Time)
    requires session in before && Outlives(before, session, ExpiryOf, now, MAX_SESSIONS)
    requires SessionRoom(before, room, now)
    ensures session in room && room[session] == before[session]
  {
    RoomKeepsOutliving(before, room, session, ExpiryOf, now, MAX_SESSIONS);
  }

  lemma StepKeepsSession(cfg: Config, v: View, op: Op, w: View, session: string, id: Id, until: Time)
    requires Next(cfg, v, op, w) && KeepsSession(v, op, session, id) && BoundUntil(v, session, id, until)
    ensures BoundUntil(w, session, id, until)
  {
    hide Selected, OutlivesBinding, LimitRoom, Normalize, SameReservations;
    if op.Select? && op.pick.Some? {
      OtherSelectionKeeps(cfg, v, w, op.req, op.now, op.pick.value, session, id, until);
    }
  }

  /** The session of selection `i` keeps its account through everything up to operation `n`. */
  ghost predicate KeptSince(run: seq<View>, ops: seq<Op>, i: nat, n: nat, session: string, id: Id)
    requires n <= |ops| && |run| == |ops| + 1
  {
    forall k | i < k < n :: KeepsSession(run[k], ops[k], session, id)
  }

  lemma {:induction false} SessionStaysBound(cfg: Config, run: seq<View>, ops: seq<Op>, i: nat, n: nat, id: Id)
    requires IsRun(cfg, run, ops) && i < n <= |ops| && |run| == |ops| + 1
    requires ops[i].Select? && ops[i].pick.Some? && ops[i].req.session != ""
    requires ops[i].pick.value < |run[i].accounts| && run[i].accounts[ops[i].pick.value].id == id
    requires KeptSince(run, ops, i, n, ops[i].req.session, id)
    ensures BoundUntil(run[n], ops[i].req.session, id, ops[i].now + 1800 * SECOND)
    decreases n
  {
    hide IsRun, BoundUntil, KeepsSession, Selected;
    StepOfRun(cfg, run, ops, n - 1);
    if n == i + 1 {
      SelectingBinds(cfg, run[i], run[n], ops[i].req, ops[i].now, ops[i].pick.value);
    } else {
      hide Next;
      SessionStaysBound(cfg, run, ops, i, n - 1, id);
      StepKeepsSession(cfg, run[n - 1], ops[n - 1], run[n], ops[i].req.session, id, ops[i].now + 1800 * SECOND);
    }
  }

  /**
   Stickiness: a session that was given an account gets the same one again within 30 minutes
   whenever that account may serve and has a free slot, unless its binding was disturbed.
   */
  lemma SessionIsSticky(cfg: Config, run: seq<View>, ops: seq<Op>, i: nat, n: nat, j: nat)
    requires IsRun(cfg, run, ops) && i < n < |ops| && |run| == |ops| + 1
    requires ops[i].Select? && ops[i].pick.Some? && ops[i].pick.value < |run[i].accounts|
    requires ops[n].Select? && ops[n].req.session == ops[i].req.session != ""
    requires ops[n].now < ops[i].now + 1800 * SECOND
    requires KeptSince(run, ops, i, n, ops[i].req.session, run[i].accounts[ops[i].pick.value].id)
    requires j < |run[n].accounts| && run[n].accounts[j].id == run[i].accounts[ops[i].pick.value].id
    requires Takes(cfg, run[n], ops[n].req, ops[n].now, j)
    ensures ops[n].pick.Some? && ops[n].pick.value < |run[n].accounts|
    ensures run[n].accounts[ops[n].pick.value].id == run[n].accounts[j].id
  {
    hide IsRun, KeptSince, Serves, Takes, IsChoice, Rebound, Looked;
    SessionStaysBound(cfg, run, ops, i, n, run[n].accounts[j].id);
    StepOfRun(cfg, run, ops, n);
    if ops[n].pick.Some? {
      ChoiceByFields(cfg, run[n], ops[n].req, ops[n].now, ops[n].pick.value);
    } else {
      NoneFreeByFields(cfg, run[n], ops[n].req, ops[n].now);
    }
  }

  /** A cooldown takes every session away from its account, and deleting the account does. */
  lemma SessionsAreFreed(cfg: Config, v: View, op: Op, w: View, id: Id)
    requires Next(cfg, v, op, w)
    requires (op.Mark? && op.id == id && op.until > op.now) || (op.Install? && forall a <- op.listing :: a.id != id)
    ensures forall session <- w.sessions :: w.sessions[session].account != id
  {
    hide LimitRoom, Normalize;
  }
}
