/** The account pool in place: its fields, its reservation objects and the leases that point to them. */
module Pools {
  import opened Wrappers
  import opened Scheduling
  import opened Sets

  const MAX_VIEWS: nat := 128

  class Reservation {
    var active: int
    var last: nat

    constructor ()
      ensures active == 0 && last == 0
    {
      active, last := 0, 0;
    }
  }

  /** The release function of one acquisition: it remembers its reservation object, and runs once. */
  class Lease {
    const id: Id
    const chosen: Reservation
    const owner: nat
    var done: bool

    constructor (id: Id, chosen: Reservation, owner: nat)
      ensures this.id == id && this.chosen == chosen && this.owner == owner && !done
    {
      this.id, this.chosen, this.owner, done := id, chosen, owner, false;
    }
  }

  datatype Selection =
    | Picked(index: nat, account: Account, lease: Lease)
    | Busy                                    // an account is ready, but all its slots are taken
    | Unavailable(earliest: Option<Time>)

  class Pool {
    const cfg: Config
    var accounts: seq<Account>
    var accountIndex: map<Id, nat>
    var modelViews: map<string, seq<Candidate>>
    var version: nat
    var sequence: nat
    var reservations: map<Id, Reservation>
    var sessions: map<string, Binding>
    var limits: map<LimitKey, LimitRecord>
    ghost var objects: set<Reservation>   // every reservation object created so far
    var leases: set<Lease>                // every lease handed out so far

    /** The leases on `id` that have not been released. */
    ghost function Outstanding(id: Id): set<Lease>
      reads this`leases, leases
    {
      set l | l in leases && !l.done && l.id == id
    }

    ghost predicate ReservationsValid()
      reads this`reservations, this`objects
    {
      && reservations.Values <= objects
      && (forall id, other | id in reservations && other in reservations && reservations[id] == reservations[other] ::
           id == other)
    }

    /** Every outstanding lease points to the reservation object that is in the map now. */
    ghost predicate LeasesLinked()
      reads this`reservations, this`objects, this`leases, leases
    {
      && (forall l <- leases :: l.chosen in objects)
      && (forall l <- leases | !l.done :: l.id in reservations && reservations[l.id] == l.chosen)
    }

    /** Slots in use are exactly the outstanding leases, and never more than the cap. */
    ghost predicate LeasesCounted()
      reads this`reservations, reservations.Values, this`leases, leases
    {
      forall id <- reservations :: reservations[id].active == |Outstanding(id)| <= cfg.Cap()
    }

    /** Reservations and leases, whatever the account table holds. */
    ghost predicate LeasesValid()
      reads this`reservations, this`objects, this`leases, reservations.Values, leases
    {
      ReservationsValid() && LeasesLinked() && LeasesCounted()
    }

    ghost predicate IndexValid()
      reads this`accounts, this`accountIndex
    {
      Indexes(accounts, accountIndex)
    }

    /** Cached model views are what recomputing them from the snapshot would give. */
    ghost predicate ViewsValid()
      reads this`accounts, this`modelViews
    {
      forall m <- modelViews :: modelViews[m] == ModelViewOf(cfg, m, accounts)
    }

    ghost predicate TablesBounded()
      reads this`sessions, this`limits, this`modelViews
    {
      |sessions| <= MAX_SESSIONS && |limits| <= MAX_LIMITS && |modelViews| <= MAX_VIEWS
    }

    ghost predicate Valid()
      reads this, reservations.Values, leases
    {
      LeasesValid() && IndexValid() && ViewsValid() && TablesBounded()
    }

    /** The reservations by value. */
    ghost function Slots(): map<Id, Reserved>
      reads this`reservations, reservations.Values
    {
      map id | id in reservations :: Reserved(reservations[id].active, reservations[id].last)
    }

    ghost function State(): View
      reads this`accounts, this`version, this`sequence, this`reservations, this`sessions, this`limits,
        reservations.Values
    {
      View(accounts, version, sequence, Slots(), sessions, limits)
    }

    constructor (cfg: Config)
      ensures Valid() && this.cfg == cfg && leases == {}
      ensures State() == View([], 0, 0, map[], map[], map[])
    {
      this.cfg := cfg;
      accounts, accountIndex, modelViews, version, sequence := [], map[], map[], 0, 0;
      reservations, sessions, limits, objects, leases := map[], map[], map[], {}, {};
    }

    /** The first release of a lease: its slot is free again, in the reservation object that the lease holds. */
    method FreeSlot(lease: Lease)
      requires LeasesValid() && lease in leases && !lease.done
      modifies lease`done, lease.chosen`active
      ensures LeasesValid() && lease.done && lease.id in reservations
      ensures reservations[lease.id].active == old(reservations[lease.id].active) - 1
      ensures forall id <- reservations | id != lease.id :: reservations[id].active == old(reservations[id].active)
      ensures forall id :: Outstanding(id) == old(Outstanding(id)) - {lease}
    {
      assert lease in Outstanding(lease.id);
      lease.done := true;
      lease.chosen.active := lease.chosen.active - 1;
      assert Outstanding(lease.id) == old(Outstanding(lease.id)) - {lease};
      forall id <- reservations ensures reservations[id].active == |Outstanding(id)| <= cfg.Cap() {
        if id != lease.id {
          assert Outstanding(id) == old(Outstanding(id));
        }
      }
    }

    /** Idempotent: the second release of a lease changes nothing. */
    method Release(lease: Lease)
      requires Valid() && lease in leases
      modifies lease`done, lease.chosen`active
      ensures Valid() && lease.done
      ensures if old(lease.done) then State() == old(State()) else Released(old(State()), State(), lease.id)
      ensures forall id :: Outstanding(id) == old(Outstanding(id)) - {lease}
    {
      hide LeasesValid, IndexValid, ViewsValid, TablesBounded;
      if !lease.done {
        FreeSlot(lease);
      }
    }

    method CreateSlot(id: Id) returns (r: Reservation)
      requires Valid() && id !in reservations
      modifies this`reservations, this`objects
      ensures Valid() && fresh(r) && objects == old(objects) + {r}
      ensures r.active == 0 && r.last == 0 && reservations == old(reservations)[id := r]
    {
      hide IndexValid, ViewsValid, TablesBounded;
      assert Outstanding(id) == {};
      r := new Reservation();
      reservations := reservations[id := r];
      objects := objects + {r};
    }

    /** The reservation object of `id`, created idle when there is none. */
    method Slot(id: Id) returns (r: Reservation)
      requires Valid()
      modifies this`reservations, this`objects
      ensures Valid() && objects >= old(objects) && fresh(objects - old(objects))
      ensures id in reservations && reservations[id] == r
      ensures reservations.Keys == old(reservations.Keys) + {id}
      ensures SameReservations(old(State()), State())
    {
      hide Valid;
      if id in reservations {
        r := reservations[id];
      } else {
        r := CreateSlot(id);
      }
    }

    /** `modelViewLocked`: the cached view, computed once per snapshot and requested model. */
    method ModelView(model: string) returns (view: seq<Candidate>)
      requires Valid()
      modifies this`modelViews
      ensures Valid()
      ensures view == ModelViewOf(cfg, Normalize(model), accounts)
    {
      hide LeasesValid, IndexValid;
      var requested := Normalize(model);
      if requested in modelViews {
        return modelViews[requested];
      }
      view := [];
      for i := 0 to |accounts|
        invariant view == ModelViewOf(cfg, requested, accounts)[..i]
      {
        view := view + [CandidateOf(cfg, requested, accounts[i])];
      }
      if |modelViews| >= MAX_VIEWS {
        modelViews := map[];
      }
      modelViews := modelViews[requested := view];
    }

    /** The checks of the selection loop on one account, in the source's order. */
    method Judge(req: Request, now: Time, a: Account, candidate: Candidate) returns (verdict: Verdict)
      requires candidate == CandidateOf(cfg, Normalize(req.model), a)
      ensures verdict == VerdictOn(cfg, State(), req, now, a)
    {
      if a.id in req.excluded {
        return Ineligible;
      }
      if a.disabled || (req.skipExpired && a.expiresAt <= now / SECOND) || (a.quota.Some? && a.quota.value.forbidden) {
        return Ineligible;
      }
      if !candidate.Available(now) {
        if candidate.reset.Some? && candidate.reset.value > now {
          return Waiting(candidate.reset.value);
        }
        return Ineligible;
      }
      var until := LimitedUntil(limits, a.id, candidate.mapped);
      if until.None? || a.rateLimitedUntil * SECOND > until.value {
        until := Some(a.rateLimitedUntil * SECOND);
      }
      if until.value > now {
        return Waiting(until.value);
      }
      return Ready;
    }

    /** One account in the selection loop: its verdict, and whether it has a free slot. */
    method Consider(req: Request, now: Time, a: Account, candidate: Candidate) returns (verdict: Verdict, free: bool)
      requires Valid() && candidate == CandidateOf(cfg, Normalize(req.model), a)
      modifies this`reservations, this`objects
      ensures Valid() && SameReservations(old(State()), State()) && old(reservations.Keys) <= reservations.Keys
      ensures objects >= old(objects) && fresh(objects - old(objects))
      ensures verdict == VerdictOn(cfg, old(State()), req, now, a)
      ensures free <==> Free(cfg, old(State()), req, now, a)
      ensures free ==> a.id in reservations
    {
      hide Valid, CandidateOf;
      verdict := Judge(req, now, a, candidate);
      free := false;
      if verdict.Ready? {
        var r := Slot(a.id);
        free := r.active < cfg.Cap();
        assert State().Of(a.id) == Reserved(r.active, r.last);
      }
    }

    lemma ReservedIsCreated()
      requires Valid()
      ensures reservations.Values <= objects
    {
    }

    /** One account of the loop: whether it has a free slot, and what is known of busy and waiting ones so far. */
    method Tally(req: Request, now: Time, candidate: Candidate, i: nat, busy: bool, earliest: Option<Time>,
                 ghost v: View)
      returns (free: bool, busy': bool, earliest': Option<Time>)
      requires Valid() && i < |accounts| && candidate == CandidateOf(cfg, Normalize(req.model), accounts[i])
      requires v.limits == limits && v.accounts == accounts && SameReservations(v, State())
      requires (busy <==> BusyOf(cfg, v, req, now, i)) && EarliestOf(cfg, v, req, now, i, earliest)
      modifies this`reservations, this`objects
      ensures Valid() && SameReservations(v, State()) && old(reservations.Keys) <= reservations.Keys
      ensures objects >= old(objects) && fresh(objects - old(objects))
      ensures free <==> Free(cfg, v, req, now, accounts[i])
      ensures free ==> accounts[i].id in reservations
      ensures (busy' <==> BusyOf(cfg, v, req, now, i + 1)) && EarliestOf(cfg, v, req, now, i + 1, earliest')
    {
      hide Valid, CandidateOf, Free, VerdictOn, BusyOf, EarliestOf, Normalize;
      var a, verdict := accounts[i], Ready;
      SameVerdicts(cfg, v, State(), req, now, a);
      verdict, free := Consider(req, now, a, candidate);
      EarliestOfNext(cfg, v, req, now, i, earliest);
      BusyOfNext(cfg, v, req, now, i);
      busy', earliest' := busy, earliest;
      if verdict.Waiting? && (earliest.None? || verdict.until < earliest.value) {
        earliest' := Some(verdict.until);
      }
      if verdict.Ready? && !free {
        busy' := true;
      }
    }

    /** The selection loop: the choice, or whether an account is busy and when one stops waiting. */
    method Scan(req: Request, now: Time, view: seq<Candidate>)
      returns (pick: Option<nat>, busy: bool, earliest: Option<Time>)
      requires Valid() && view == ModelViewOf(cfg, Normalize(req.model), accounts)
      modifies this`reservations, this`objects
      ensures Valid() && SameReservations(old(State()), State())
      ensures objects >= old(objects) && fresh(objects - old(objects))
      ensures pick.Some? ==>
        pick.value < |accounts| && accounts[pick.value].id in reservations
          && reservations[accounts[pick.value].id] in objects
      ensures pick.Some? ==> IsChoice(cfg, old(State()), req, now, pick.value)
      ensures pick.None? ==>
        && (forall a <- accounts :: !Free(cfg, old(State()), req, now, a))
        && (busy <==> BusyOf(cfg, old(State()), req, now, |accounts|))
        && EarliestOf(cfg, old(State()), req, now, |accounts|, earliest)
    {
      hide Valid, CandidateOf, Free, VerdictOn, BestOf, BusyOf, EarliestOf, IsChoice, Normalize, Precedes, Before;
      ghost var v := State();
      var isBound := req.session in sessions && sessions[req.session].expires > now;
      var bound := if isBound then Some(sessions[req.session].account) else None;
      pick, busy, earliest := None, false, None;
      ScanStart(cfg, v, req, now);
      for i := 0 to |accounts|
        invariant Valid() && SameReservations(v, State()) && objects >= old(objects) && fresh(objects - old(objects))
        invariant pick.Some? ==> pick.value < i && accounts[pick.value].id in reservations
        invariant BestOf(cfg, v, req, now, i, pick)
        invariant busy <==> BusyOf(cfg, v, req, now, i)
        invariant EarliestOf(cfg, v, req, now, i, earliest)
      {
        var a, free := accounts[i], false;
        free, busy, earliest := Tally(req, now, view[i], i, busy, earliest, v);
        if free && bound == Some(a.id) {
          BoundIsChoice(cfg, v, req, now, i);
          ReservedIsCreated();
          return Some(i), busy, earliest;
        }
        BestOfNext(cfg, v, req, now, i, pick);
        if free && pick.Some? {
          PrecedesIsBefore(v, a.id, accounts[pick.value].id);
        }
        if free && (pick.None? || Precedes(a.id, accounts[pick.value].id)) {
          pick := Some(i);
        }
      }
      BestOfAllIsChoice(cfg, v, req, now, pick);
      ReservedIsCreated();
    }

    predicate Precedes(id: Id, other: Id)
      requires id in reservations && other in reservations
      reads this`reservations, reservations.Values
    {
      var r, chosen := reservations[id], reservations[other];
      r.active < chosen.active || (r.active == chosen.active && r.last < chosen.last)
    }

    lemma PrecedesIsBefore(v: View, id: Id, other: Id)
      requires id in reservations && other in reservations && SameReservations(v, State())
      ensures Precedes(id, other) <==> Before(v.Of(id), v.Of(other))
    {
      assert v.Of(id) == State().Of(id) && v.Of(other) == State().Of(other);
    }

    /** Every reservation counts its leases, apart from one slot of `id` whose lease does not exist yet. */
    ghost predicate CountedButFor(id: Id)
      reads this`reservations, reservations.Values, this`leases, leases
    {
      forall other <- reservations ::
        reservations[other].active == |Outstanding(other)| + (if other == id then 1 else 0) <= cfg.Cap()
    }

    /** Counts one more slot of a reserved account below its cap, as the most recent choice. */
    method Charge(id: Id)
      requires ReservationsValid() && LeasesCounted() && id in reservations && reservations[id].active < cfg.Cap()
      modifies this`sequence, reservations[id]
      ensures CountedButFor(id) && sequence == old(sequence) + 1
      ensures State().reserved == old(State().reserved)[id := Reserved(old(State()).Of(id).active + 1, sequence)]
    {
      var chosen := reservations[id];
      sequence := sequence + 1;
      chosen.last := sequence;
      chosen.active := chosen.active + 1;
    }

    /** Hands out the lease of a slot that is already counted. */
    method Issue(id: Id, owner: nat) returns (lease: Lease)
      requires ReservationsValid() && LeasesLinked() && CountedButFor(id) && id in reservations
      modifies this`leases
      ensures LeasesLinked() && LeasesCounted()
      ensures fresh(lease) && leases == old(leases) + {lease}
      ensures lease.id == id && lease.owner == owner && !lease.done
    {
      lease := new Lease(id, reservations[id], owner);
      leases := leases + {lease};
      assert Outstanding(id) == old(Outstanding(id)) + {lease};
      forall other <- reservations ensures reservations[other].active == |Outstanding(other)| <= cfg.Cap() {
        if other != id {
          assert Outstanding(other) == old(Outstanding(other));
        }
      }
    }

    /** Selection's last step on the reservations: one more slot, and the lease for it. */
    method Take(id: Id, owner: nat) returns (lease: Lease)
      requires Valid() && id in reservations && reservations[id].active < cfg.Cap()
      modifies this`sequence, this`leases, reservations[id]
      ensures Valid() && fresh(lease) && leases == old(leases) + {lease}
      ensures lease.id == id && lease.owner == owner && !lease.done
      ensures sequence == old(sequence) + 1
      ensures State().reserved == old(State().reserved)[id := Reserved(old(State()).Of(id).active + 1, sequence)]
    {
      hide LeasesCounted, CountedButFor, IndexValid, ViewsValid, TablesBounded, Outstanding;
      Charge(id);
      lease := Issue(id, owner);
    }

    /** Binds the session to the chosen account, making room when the table is full. */
    method Bind(sid: string, id: Id, now: Time)
      requires TablesBounded()
      modifies this`sessions
      ensures TablesBounded() && Rebound(old(sessions), sessions, sid, id, now)
    {
      if sid != "" {
        hide MadeRoom;
        ghost var room;
        sessions, room := InsertBounded(sessions, ExpiryOf, now, MAX_SESSIONS, sid, Binding(id, now + SESSION_TTL));
        assert SessionRoom(old(sessions), room, now);
      }
    }

    method DropLapsed(sid: string, now: Time)
      requires Valid()
      modifies this`sessions
      ensures Valid() && sessions == WithoutLapsedBinding(old(sessions), sid, now)
    {
      hide LeasesValid, IndexValid, ViewsValid;
      if sid in sessions && sessions[sid].expires <= now {
        sessions := sessions - {sid};
        assert |sessions| <= |old(sessions)| by {
          CardinalityMonotone(sessions.Keys, old(sessions).Keys);
          assert |sessions.Keys| == |sessions| && |old(sessions).Keys| == |old(sessions)|;
        }
      }
    }

    /** Takes a slot of the choice and binds the session to it. */
    method Commit(req: Request, now: Time, i: nat, owner: nat) returns (lease: Lease)
      requires Valid() && i < |accounts| && accounts[i].id in reservations
      requires reservations[accounts[i].id].active < cfg.Cap()
      modifies this`sequence, this`leases, this`sessions, reservations[accounts[i].id]
      ensures Valid() && fresh(lease) && leases == old(leases) + {lease}
      ensures lease.id == accounts[i].id && lease.owner == owner && !lease.done
      ensures sequence == old(sequence) + 1
      ensures forall other | other != lease.id :: State().Of(other) == old(State()).Of(other)
      ensures State().Of(lease.id) == Reserved(old(State()).Of(lease.id).active + 1, sequence)
      ensures Rebound(old(sessions), sessions, req.session, lease.id, now)
    {
      hide LeasesValid, IndexValid, ViewsValid, TablesBounded, Rebound;
      var id := accounts[i].id;
      lease := Take(id, owner);
      Bind(req.session, id, now);
    }

    /** The locked part of `selectAccount` up to the point where a choice has been made. */
    method Look(req: Request, now: Time) returns (pick: Option<nat>, busy: bool, earliest: Option<Time>)
      requires Valid()
      modifies this`modelViews, this`reservations, this`objects, this`sessions
      ensures Valid() && objects >= old(objects) && fresh(objects - old(objects))
      ensures Looked(old(State()), State(), req, now)
      ensures pick.Some? ==>
        && pick.value < |accounts| && accounts[pick.value].id in reservations
             && reservations[accounts[pick.value].id] in objects
        && reservations[accounts[pick.value].id].active < cfg.Cap()
      ensures pick.Some? ==> IsChoice(cfg, old(State()), req, now, pick.value)
      ensures pick.None? ==>
        && NothingSelected(cfg, old(State()), State(), req, now)
        && (busy <==> BusyOf(cfg, old(State()), req, now, |accounts|))
        && EarliestOf(cfg, old(State()), req, now, |accounts|, earliest)
    {
      hide Valid, BusyOf, EarliestOf, WithoutLapsedBinding, VerdictOn, CandidateOf, BoundTo;
      ghost var v := State();
      var view := ModelView(req.model);
      pick, busy, earliest := Scan(req, now, view);
      DropLapsed(req.session, now);
      if pick.Some? {
        assert State().Of(accounts[pick.value].id) == v.Of(accounts[pick.value].id);
      }
    }

    lemma NothingByFields(v: View, w: View, req: Request, now: Time, busy: bool, earliest: Option<Time>)
      requires NothingSelected(cfg, v, w, req, now)
      requires (busy <==> BusyOf(cfg, v, req, now, |v.accounts|))
      requires EarliestOf(cfg, v, req, now, |v.accounts|, earliest)
      ensures forall i | 0 <= i < |v.accounts| :: !Takes(cfg, v, req, now, i)
      ensures if busy then exists a <- v.accounts :: Serves(cfg, v, req, now, a)
              else NoneServes(cfg, v, req, now, earliest)
    {
      hide BusyOf, EarliestOf, Looked, Free, Serves, NoneServes, Takes, VerdictOn;
      NoneFreeByFields(cfg, v, req, now);
      BusyByFields(cfg, v, req, now);
      if !busy {
        NobodyIsReady(cfg, v, req, now);
        NoneReadyByFields(cfg, v, req, now, earliest);
      }
    }

    /**
     The locked part of `selectAccount`: the best account that may serve and has a free slot, by the
     fields of the accounts; else whether one that may serve is only busy, and else when one could.
     */
    method Select(req: Request, now: Time, owner: nat) returns (out: Selection)
      requires Valid()
      modifies this, objects
      ensures Valid() && objects >= old(objects) && fresh(objects - old(objects))
      ensures leases == old(leases) + (if out.Picked? then {out.lease} else {})
      ensures out.Picked? ==>
        && Selected(cfg, old(State()), State(), req, now, out.index) && out.account == accounts[out.index]
        && fresh(out.lease) && out.lease.id == out.account.id && out.lease.owner == owner && !out.lease.done
      ensures !out.Picked? ==> NothingSelected(cfg, old(State()), State(), req, now)
      ensures out.Picked? ==> ServesBest(cfg, old(State()), req, now, out.index)
      ensures !out.Picked? ==> forall i | 0 <= i < |accounts| :: !Takes(cfg, old(State()), req, now, i)
      ensures out.Busy? ==> exists a <- accounts :: Serves(cfg, old(State()), req, now, a)
      ensures out.Unavailable? ==> NoneServes(cfg, old(State()), req, now, out.earliest)
      ensures out.Busy? ==> BusyOf(cfg, old(State()), req, now, |accounts|)
      ensures out.Unavailable? ==>
        !BusyOf(cfg, old(State()), req, now, |accounts|)
          && EarliestOf(cfg, old(State()), req, now, |accounts|, out.earliest)
    {
      hide Valid, Rebound, BusyOf, EarliestOf, NothingSelected, Looked, Selected, IsChoice, ServesBest, NoneServes,
        Serves,
        Takes;
      ghost var v := State();
      var pick, busy, earliest := Look(req, now);
      match pick
      case None =>
        NothingByFields(v, State(), req, now, busy, earliest);
        out := if busy then Busy else Unavailable(earliest);
      case Some(i) =>
        ghost var u := State();
        var lease := Commit(req, now, i, owner);
        SelectedInSteps(cfg, v, u, State(), req, now, i);
        ChoiceByFields(cfg, v, req, now, i);
        out := Picked(i, accounts[i], lease);
    }

    /** An empty model limits the whole account; a time that is not in the future lifts the limit. */
    method MarkLimited(id: Id, model: string, until: Time, now: Time)
      requires Valid()
      modifies this`limits, this`sessions
      ensures Valid() && Marked(old(State()), State(), id, model, until, now)
    {
      hide Valid, LimitRoom, SessionsWithout;
      var key := LimitKey(id, Normalize(model));
      if until <= now {
        RemoveLimit(key);
      } else {
        var kept := if key in limits && limits[key].until > until then limits[key].until else until;
        ghost var room := PutLimit(key, LimitRecord(kept, now), now);
        UnbindAccount(id);
      }
    }

    method PutLimit(key: LimitKey, record: LimitRecord, now: Time) returns (ghost room: map<LimitKey, LimitRecord>)
      requires Valid()
      modifies this`limits
      ensures Valid() && LimitRoom(old(limits), room, now) && limits == room[key := record]
    {
      hide LeasesValid, IndexValid, ViewsValid;
      hide MadeRoom;
      limits, room := InsertBounded(limits, UntilOf, now, MAX_LIMITS, key, record);
    }

    method RemoveLimit(key: LimitKey)
      requires Valid()
      modifies this`limits
      ensures Valid() && limits == old(limits) - {key}
    {
      hide LeasesValid, IndexValid, ViewsValid;
      limits := limits - {key};
      CardinalityMonotone(limits.Keys, old(limits).Keys);
      assert |limits.Keys| == |limits| && |old(limits).Keys| == |old(limits)|;
    }

    /** A limited sticky account stops capturing the sessions bound to it. */
    method UnbindAccount(id: Id)
      requires Valid()
      modifies this`sessions
      ensures Valid() && sessions == SessionsWithout(old(sessions), id)
    {
      hide LeasesValid, IndexValid, ViewsValid;
      var todo := sessions.Keys;
      while todo != {}
        invariant todo <= old(sessions).Keys
        invariant sessions == map s | s in old(sessions) && (s in todo || old(sessions)[s].account != id) ::
          old(sessions)[s]
      {
        var s :| s in todo;
        todo := todo - {s};
        if sessions[s].account == id {
          sessions := sessions - {s};
        }
      }
      CardinalityMonotone(sessions.Keys, old(sessions).Keys);
      assert |sessions.Keys| == |sessions| && |old(sessions).Keys| == |old(sessions)|;
    }

    method ClearLimited(id: Id, model: string)
      requires Valid()
      modifies this`limits
      ensures Valid() && State() == Cleared(old(State()), id, model)
    {
      hide Valid;
      RemoveLimit(LimitKey(id, Normalize(model)));
    }

    /** A success clears a limit only if no later attempt has marked it again. */
    method ClearLimitedBefore(id: Id, model: string, started: Time)
      requires Valid()
      modifies this`limits
      ensures Valid() && State() == ClearedBefore(old(State()), id, model, started)
    {
      hide Valid;
      var key := LimitKey(id, Normalize(model));
      if key in limits && limits[key].markedAt <= started {
        RemoveLimit(key);
      }
    }

    method DropIdle(id: Id)
      requires Valid() && id in reservations && reservations[id].active == 0
      modifies this`reservations
      ensures Valid() && reservations == old(reservations) - {id}
    {
      hide IndexValid, ViewsValid, TablesBounded;
      assert |Outstanding(id)| == 0;
      forall l <- leases | !l.done ensures l.id != id {
        assert l !in Outstanding(id);
      }
      reservations := reservations - {id};
    }

    /** An idle reservation of an account that is gone is deleted; one with leases is kept for them. */
    method PruneReservations(live: set<Id>)
      requires Valid()
      modifies this`reservations
      ensures Valid()
      ensures State().reserved == map id |
        id in old(State()).reserved && (id in live || old(State()).reserved[id].active != 0) ::
          old(State()).reserved[id]
    {
      hide Valid;
      var todo := reservations.Keys;
      while todo != {}
        invariant todo <= reservations.Keys
        invariant Valid()
        invariant reservations == map id |
          id in old(reservations) && (id in todo || id in live || old(reservations)[id].active != 0) ::
            old(reservations)[id]
      {
        var id :| id in todo;
        todo := todo - {id};
        if id !in live && reservations[id].active == 0 {
          DropIdle(id);
        }
      }
    }

    method PruneLimits(live: set<Id>)
      requires Valid()
      modifies this`limits
      ensures Valid() && limits == map k | k in old(limits) && k.account in live :: old(limits)[k]
    {
      hide LeasesValid, IndexValid, ViewsValid;
      var kept := Prune(limits, (k: LimitKey, r: LimitRecord) => k.account, live);
      limits := kept;
    }

    method PruneSessions(live: set<Id>)
      requires Valid()
      modifies this`sessions
      ensures Valid() && sessions == map s | s in old(sessions) && old(sessions)[s].account in live :: old(sessions)[s]
    {
      hide LeasesValid, IndexValid, ViewsValid;
      var kept := Prune(sessions, (s: string, b: Binding) => b.account, live);
      sessions := kept;
    }

    /** The new table, its index, and no cached model view. */
    method ReplaceAccounts(listing: seq<Account>, version: nat)
      requires LeasesValid() && |sessions| <= MAX_SESSIONS && |limits| <= MAX_LIMITS
      requires forall i, j | 0 <= i < j < |listing| :: listing[i].id != listing[j].id
      modifies this`accounts, this`version, this`accountIndex, this`modelViews
      ensures Valid() && accounts == listing && this.version == version
    {
      hide LeasesValid, Indexes, ModelViewOf, State, Outstanding;
      var index := BuildIndex(listing);
      accounts, this.version, accountIndex, modelViews := listing, version, index, map[];
      PartsMakeValid();
    }

    lemma PartsMakeValid()
      requires LeasesValid() && IndexValid() && ViewsValid() && TablesBounded()
      ensures Valid()
    {
      hide LeasesValid, IndexValid, ViewsValid, TablesBounded;
    }

    lemma ValidParts()
      requires Valid()
      ensures LeasesValid() && |sessions| <= MAX_SESSIONS && |limits| <= MAX_LIMITS
    {
      hide LeasesValid, IndexValid, ViewsValid;
    }

    /** The bookkeeping of accounts that are not live. */
    method PruneState(live: set<Id>)
      requires Valid()
      modifies this`reservations, this`limits, this`sessions
      ensures Valid()
      ensures State()
        == old(State()).(reserved := State().reserved, limits := State().limits, sessions := State().sessions)
      ensures State().reserved == map id |
        id in old(State()).reserved && (id in live || old(State()).reserved[id].active != 0) ::
          old(State()).reserved[id]
      ensures State().limits == map k | k in old(State()).limits && k.account in live :: old(State()).limits[k]
      ensures State().sessions == map s | s in old(State()).sessions && old(State()).sessions[s].account in live ::
        old(State()).sessions[s]
    {
      hide Valid, Slots;
      PruneReservations(live);
      PruneLimits(live);
      PruneSessions(live);
    }

    /** Installs a listing of the store: bookkeeping of vanished accounts goes, slots in use stay. */
    method Install(listing: seq<Account>, version: nat)
      requires Valid()
      requires forall i, j | 0 <= i < j < |listing| :: listing[i].id != listing[j].id
      modifies this
      ensures Valid() && leases == old(leases) && objects == old(objects)
      ensures Installed(old(State()), State(), listing, version)
    {
      hide Valid, LiveIds, LeasesValid, Slots;
      PruneState(LiveIds(listing));
      ValidParts();
      ReplaceAccounts(listing, version);
    }

    method Check(req: Request, now: Time, a: Account, candidate: Candidate) returns (valid: bool, cooling: bool)
      requires candidate == CandidateOf(cfg, Normalize(req.model), a)
      ensures valid && !cooling <==> VerdictOn(cfg, State(), req.(excluded := {}), now, a).Ready?
      ensures valid <==> !Barred(req.(excluded := {}), now, a) && HasQuota(cfg, Normalize(req.model), now, a)
    {
      hide HasQuota, CandidateOf, Slots, Normalize;
      valid := !a.disabled && !(a.quota.Some? && a.quota.value.forbidden)
        && (!req.skipExpired || a.expiresAt > now / SECOND) && candidate.Available(now);
      var until := LimitedUntil(limits, a.id, candidate.mapped);
      cooling := (until.Some? && until.value > now) || a.rateLimitedUntil > now / SECOND;
      SecondsAgree(a.rateLimitedUntil, now);
      CandidateByFields(cfg, Normalize(req.model), now, a);
    }

    /** The checks repeated under the lock after credentials were refreshed. */
    method Revalidate(id: Id, req: Request, now: Time) returns (valid: bool, cooling: bool)
      requires Valid()
      modifies this`modelViews
      ensures Valid()
      ensures State() == old(State())
      ensures valid && !cooling <==> ReadyIn(cfg, State(), id, req, now)
      ensures valid && !cooling <==> MayServe(cfg, State(), id, req, now)
      ensures valid <==> Permits(cfg, State(), id, req, now)
    {
      hide LeasesValid, TablesBounded, ViewsValid, VerdictOn, HasQuota, Barred, MayServe, CandidateOf;
      valid, cooling := false, false;
      var view := ModelView(req.model);
      if id in accountIndex {
        var i := accountIndex[id];
        var a, candidate := accounts[i], view[i];
        valid, cooling := Check(req, now, a, candidate);
      }
      ReadyByFields(cfg, State(), id, req, now);
    }

    /** The slots of caller `me` that have not been given back. */
    ghost function HeldBy(me: nat): set<Lease>
      reads this`leases, leases
    {
      set l | l in leases && l.owner == me && !l.done
    }

    lemma LeaseIsLinked(lease: Lease)
      requires Valid() && lease in leases
      ensures lease.chosen in objects
    {
    }
  }
}
