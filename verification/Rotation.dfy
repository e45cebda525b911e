/** Fair rotation: accounts that stay selectable are chosen in turn. */
module Rotation {
  import opened Wrappers
  import opened Sets
  import opened Scheduling
  import opened Cooldowns

  /** One selection, from the state before it to the state after it. */
  datatype Round = Round(before: View, after: View, req: Request, now: Time, pick: nat)
  {
    function Id(): Id
      requires pick < |before.accounts|
    {
      before.accounts[pick].id
    }
  }

  /** Every slot of the accounts in `among` is free, they are what is selectable, and no session is bound. */
  ghost predicate IdleAmong(cfg: Config, r: Round, among: set<Id>) {
    && (forall a <- r.before.accounts :: Free(cfg, r.before, r.req, r.now, a) <==> a.id in among)
    && (forall id <- among :: r.before.Of(id).active == 0 && exists a <- r.before.accounts :: a.id == id)
    && (forall a <- r.before.accounts :: !BoundTo(r.before, r.req, r.now, a))
  }

  /** Between two selections nothing is chosen, and no reservation of `among` is forgotten. */
  ghost predicate Quiet(v: View, w: View, among: set<Id>) {
    v.sequence == w.sequence && forall id <- among :: v.Of(id).last == w.Of(id).last
  }

  ghost predicate IsRotation(cfg: Config, rounds: seq<Round>, among: set<Id>) {
    && (forall k | 0 <= k < |rounds| ::
          && Selected(cfg, rounds[k].before, rounds[k].after, rounds[k].req, rounds[k].now, rounds[k].pick)
          && IdleAmong(cfg, rounds[k], among))
    && (forall k | 0 <= k < |rounds| - 1 :: Quiet(rounds[k].after, rounds[k + 1].before, among))
    && (|rounds| > 0 ==> ChosenEarlier(rounds[0].before))
  }

  /** No reservation was chosen later than the counter says. */
  predicate ChosenEarlier(v: View) {
    forall id <- v.reserved :: v.reserved[id].last <= v.sequence
  }

  /** `ChosenEarlier` holds of the initial state and every critical section keeps it. */
  lemma StepKeepsChosenEarlier(cfg: Config, v: View, op: Op, w: View)
    requires Next(cfg, v, op, w) && ChosenEarlier(v)
    ensures ChosenEarlier(w)
  {
    hide IsChoice, Rebound, Looked, Free, WithoutLapsedBinding;
    forall id <- w.reserved ensures w.reserved[id].last <= w.sequence {
      assert w.Of(id) == w.reserved[id];
      if op.Select? {
        SelectKeepsLast(cfg, v, op, w, id);
      }
    }
  }

  lemma SelectKeepsLast(cfg: Config, v: View, op: Op, w: View, id: Id)
    requires Next(cfg, v, op, w) && op.Select? && ChosenEarlier(v)
    ensures w.Of(id).last <= w.sequence
  {
    hide IsChoice, Rebound, Free, WithoutLapsedBinding;
    assert v.Of(id).last <= v.sequence;
    assert op.pick.None? ==> v.Of(id) == w.Of(id);
  }

  /** Releases, marks, clears and snapshots that still list the accounts are quiet. */
  lemma OtherStepsAreQuiet(cfg: Config, v: View, op: Op, w: View, among: set<Id>)
    requires Next(cfg, v, op, w) && !op.Select?
    requires op.Install? ==> among <= LiveIds(op.listing)
    ensures Quiet(v, w, among)
  {
  }

  // ---- One round ----------------------------------------------------------------------

  lemma RoundFacts(cfg: Config, rounds: seq<Round>, among: set<Id>, k: nat)
    requires IsRotation(cfg, rounds, among) && k < |rounds|
    ensures var r := rounds[k];
      && r.pick < |r.before.accounts| && r.Id() in among
      && r.after.sequence == r.before.sequence + 1
      && r.after.Of(r.Id()).last == r.after.sequence
      && (forall id | id != r.Id() :: r.after.Of(id) == r.before.Of(id))
  {
    hide Rebound, BoundTo;
    var r := rounds[k];
    assert Selected(cfg, r.before, r.after, r.req, r.now, r.pick) && IdleAmong(cfg, r, among);
  }

  /** The choice is the least recently chosen account. */
  lemma ChoiceIsLeastRecent(cfg: Config, rounds: seq<Round>, among: set<Id>, k: nat, id: Id)
    requires IsRotation(cfg, rounds, among) && k < |rounds| && id in among
    ensures rounds[k].pick < |rounds[k].before.accounts|
    ensures rounds[k].before.Of(rounds[k].Id()).last <= rounds[k].before.Of(id).last
  {
    hide Rebound, BoundTo, Free, Quiet;
    var r := rounds[k];
    assert Selected(cfg, r.before, r.after, r.req, r.now, r.pick) && IdleAmong(cfg, r, among);
    var a :| a in r.before.accounts && a.id == id;
    var j :| 0 <= j < |r.before.accounts| && r.before.accounts[j] == a;
    assert Free(cfg, r.before, r.req, r.now, r.before.accounts[j]);
    assert !Before(r.before.Of(id), r.before.Of(r.Id()));
    assert r.Id() in among;
  }

  // ---- Over several rounds ---------------------------------------------------------------

  /** The last choice of every account lies in the past of the counter. */
  lemma {:induction false} LastsLieBehind(cfg: Config, rounds: seq<Round>, among: set<Id>, k: nat, id: Id)
    requires IsRotation(cfg, rounds, among) && k < |rounds| && id in among
    ensures rounds[k].before.Of(id).last <= rounds[k].before.sequence
  {
    if k == 0 {
      assert ChosenEarlier(rounds[0].before);
    } else {
      LastsLieBehind(cfg, rounds, among, k - 1, id);
      RoundFacts(cfg, rounds, among, k - 1);
      assert Quiet(rounds[k - 1].after, rounds[k - 1 + 1].before, among);
      hide Selected, IdleAmong;
    }
  }

  lemma QuietAfter(cfg: Config, rounds: seq<Round>, among: set<Id>, k: nat)
    requires IsRotation(cfg, rounds, among) && k + 1 < |rounds|
    ensures Quiet(rounds[k].after, rounds[k + 1].before, among)
  {
  }

  predicate PickedBetween(rounds: seq<Round>, a: nat, b: nat, id: Id) {
    exists c | a < c < b && c < |rounds| :: rounds[c].pick < |rounds[c].before.accounts| && rounds[c].Id() == id
  }

  /** From just after round `a` to round `b`, recency never falls, and is kept by who is not chosen. */
  lemma {:induction false} RecencyBetween(cfg: Config, rounds: seq<Round>, among: set<Id>, a: nat, b: nat, id: Id)
    requires IsRotation(cfg, rounds, among) && a < b < |rounds| && id in among
    ensures rounds[a].after.Of(id).last <= rounds[b].before.Of(id).last
    ensures !PickedBetween(rounds, a, b, id) ==> rounds[b].before.Of(id).last == rounds[a].after.Of(id).last
    decreases b
  {
    hide IsRotation;
    QuietAfter(cfg, rounds, among, b - 1);
    RoundFacts(cfg, rounds, among, b - 1);
    LastsLieBehind(cfg, rounds, among, b - 1, id);
    if a + 1 < b {
      RecencyBetween(cfg, rounds, among, a, b - 1, id);
      assert PickedBetween(rounds, a, b - 1, id) ==> PickedBetween(rounds, a, b, id);
    }
  }

  /** Between two choices of one account, every other account is chosen. */
  lemma OthersComeBetween(cfg: Config, rounds: seq<Round>, among: set<Id>, a: nat, b: nat, other: Id)
    requires IsRotation(cfg, rounds, among) && a < b < |rounds| && other in among
    requires rounds[a].pick < |rounds[a].before.accounts| && rounds[b].pick < |rounds[b].before.accounts|
    requires rounds[a].Id() == rounds[b].Id() && other != rounds[a].Id()
    ensures PickedBetween(rounds, a, b, other)
  {
    var id := rounds[a].Id();
    RoundFacts(cfg, rounds, among, a);
    LastsLieBehind(cfg, rounds, among, a, other);
    RecencyBetween(cfg, rounds, among, a, b, other);
    RecencyBetween(cfg, rounds, among, a, b, id);
    ChoiceIsLeastRecent(cfg, rounds, among, b, other);
  }

  function PicksOf(rounds: seq<Round>): set<Id> {
    set c | 0 <= c < |rounds| && rounds[c].pick < |rounds[c].before.accounts| :: rounds[c].Id()
  }

  lemma {:induction false} FewPicks(rounds: seq<Round>)
    ensures |PicksOf(rounds)| <= |rounds|
  {
    if rounds != [] {
      var init, last := rounds[..|rounds| - 1], rounds[|rounds| - 1];
      FewPicks(init);
      var extra := if last.pick < |last.before.accounts| then {last.Id()} else {};
      assert PicksOf(rounds) <= PicksOf(init) + extra;
      CardinalityMonotone(PicksOf(rounds), PicksOf(init) + extra);
    }
  }

  /** An account is not chosen again until all others have been. */
  lemma RepeatTakesFullTurn(cfg: Config, rounds: seq<Round>, among: set<Id>, a: nat, b: nat)
    requires IsRotation(cfg, rounds, among) && a < b < |rounds|
    requires rounds[a].pick < |rounds[a].before.accounts| && rounds[b].pick < |rounds[b].before.accounts|
    requires rounds[a].Id() == rounds[b].Id()
    ensures b - a >= |among|
  {
    hide IsRotation;
    var id := rounds[a].Id();
    RoundFacts(cfg, rounds, among, a);
    var between := rounds[a + 1..b];
    forall other | other in among - {id} ensures other in PicksOf(between) {
      OthersComeBetween(cfg, rounds, among, a, b, other);
      var c :| a < c < b && c < |rounds| && rounds[c].pick < |rounds[c].before.accounts| && rounds[c].Id() == other;
      assert between[c - a - 1] == rounds[c];
    }
    FewPicks(between);
    CardinalityMonotone(among - {id}, PicksOf(between));
  }

  lemma {:induction false} DistinctPicksCount(rounds: seq<Round>)
    requires forall k | 0 <= k < |rounds| :: rounds[k].pick < |rounds[k].before.accounts|
    requires forall a, b | 0 <= a < b < |rounds| :: rounds[a].Id() != rounds[b].Id()
    ensures |PicksOf(rounds)| == |rounds|
  {
    if rounds != [] {
      hide Round.Id;
      var init, last := rounds[..|rounds| - 1], rounds[|rounds| - 1];
      DistinctPicksCount(init);
      OneMorePick(init, last);
      assert rounds == init + [last];
      forall c | 0 <= c < |init|
        ensures init[c].Id() != last.Id()
      {
        assert rounds[c].Id() != rounds[|init|].Id();
      }
    }
  }

  lemma OneMorePick(rounds: seq<Round>, last: Round)
    requires last.pick < |last.before.accounts|
    ensures PicksOf(rounds + [last]) == PicksOf(rounds) + {last.Id()}
  {
    hide Round.Id;
    var all := rounds + [last];
    forall id | id in PicksOf(rounds) + {last.Id()}
      ensures id in PicksOf(all)
    {
      if id == last.Id() {
        assert all[|rounds|].Id() == id;
      } else {
        var c :| 0 <= c < |rounds| && rounds[c].pick < |rounds[c].before.accounts| && rounds[c].Id() == id;
        assert all[c].Id() == id;
      }
    }
  }

  /**
   Fair rotation: with `n` accounts continuously selectable and idle at every selection, any
   `n` consecutive selections choose each of them exactly once.
   */
  lemma EveryWindowVisitsAll(cfg: Config, rounds: seq<Round>, among: set<Id>, start: nat)
    requires IsRotation(cfg, rounds, among) && start + |among| <= |rounds|
    ensures var window := rounds[start..start + |among|];
      && (forall k | 0 <= k < |window| :: window[k].pick < |window[k].before.accounts|)
      && (forall a, b | 0 <= a < b < |window| :: window[a].Id() != window[b].Id())
      && PicksOf(window) == among
  {
    hide IsRotation;
    var window := rounds[start..start + |among|];
    forall k | 0 <= k < |window| ensures window[k].pick < |window[k].before.accounts| && window[k].Id() in among {
      RoundFacts(cfg, rounds, among, start + k);
    }
    forall a, b | 0 <= a < b < |window| ensures window[a].Id() != window[b].Id() {
      if window[a].Id() == window[b].Id() {
        RepeatTakesFullTurn(cfg, rounds, among, start + a, start + b);
      }
    }
    DistinctPicksCount(window);
    CardinalityMonotone(PicksOf(window), among);
  }

  // ---- Over runs of the scheduler ----------------------------------------------------------

  /** The selections of a run that chose an account, in order. */
  ghost function RoundsOf(run: seq<View>, ops: seq<Op>): seq<Round>
    requires |run| == |ops| + 1
  {
    if ops == [] then []
    else
      var n := |ops| - 1;
      var rounds := RoundsOf(run[..|run| - 1], ops[..n]);
      match ops[n]
      case Select(req, now, Some(i)) => rounds + [Round(run[n], run[n + 1], req, now, i)]
      case _ => rounds
  }

  /** Every choice finds the accounts `among` idle and selectable, and every listing keeps them. */
  ghost predicate KeepsIdle(cfg: Config, v: View, op: Op, w: View, among: set<Id>) {
    match op
    case Select(req, now, Some(i)) => IdleAmong(cfg, Round(v, w, req, now, i), among)
    case Install(listing, _) => among <= LiveIds(listing)
    case _ => true
  }

  ghost predicate IsIdleRun(cfg: Config, run: seq<View>, ops: seq<Op>, among: set<Id>) {
    && IsRun(cfg, run, ops) && ChosenEarlier(run[0])
    && forall k | 0 <= k < |ops| :: KeepsIdle(cfg, run[k], ops[k], run[k + 1], among)
  }

  lemma IdleRunInit(cfg: Config, run: seq<View>, ops: seq<Op>, among: set<Id>)
    requires IsIdleRun(cfg, run, ops, among) && ops != []
    ensures |run| == |ops| + 1 && IsIdleRun(cfg, run[..|run| - 1], ops[..|ops| - 1], among)
  {
    hide Next, KeepsIdle, ChosenEarlier;
  }

  lemma LastStep(cfg: Config, run: seq<View>, ops: seq<Op>, among: set<Id>)
    requires IsIdleRun(cfg, run, ops, among) && ops != []
    ensures |run| == |ops| + 1
    ensures Next(cfg, run[|ops| - 1], ops[|ops| - 1], run[|ops|])
    ensures KeepsIdle(cfg, run[|ops| - 1], ops[|ops| - 1], run[|ops|], among)
  {
    hide Next, KeepsIdle, ChosenEarlier;
    assert run[|ops| - 1 + 1] == run[|ops|];
  }

  lemma {:induction false} StampsLieBehind(cfg: Config, run: seq<View>, ops: seq<Op>, among: set<Id>)
    requires IsIdleRun(cfg, run, ops, among)
    ensures |run| == |ops| + 1 && ChosenEarlier(run[|ops|])
    decreases |ops|
  {
    hide Next, KeepsIdle, ChosenEarlier;
    if ops != [] {
      IdleRunInit(cfg, run, ops, among);
      LastStep(cfg, run, ops, among);
      StampsLieBehind(cfg, run[..|run| - 1], ops[..|ops| - 1], among);
      StepKeepsChosenEarlier(cfg, run[|ops| - 1], ops[|ops| - 1], run[|ops|]);
    }
  }

  lemma StepIsQuiet(cfg: Config, v: View, op: Op, w: View, among: set<Id>)
    requires Next(cfg, v, op, w) && KeepsIdle(cfg, v, op, w, among) && !(op.Select? && op.pick.Some?)
    ensures Quiet(v, w, among)
  {
    if !op.Select? {
      OtherStepsAreQuiet(cfg, v, op, w, among);
    }
  }

  lemma RotationGoesOn(cfg: Config, rounds: seq<Round>, among: set<Id>, r: Round)
    requires IsRotation(cfg, rounds, among) && IdleAmong(cfg, r, among)
    requires Selected(cfg, r.before, r.after, r.req, r.now, r.pick)
    requires if rounds == [] then ChosenEarlier(r.before) else Quiet(rounds[|rounds| - 1].after, r.before, among)
    ensures IsRotation(cfg, rounds + [r], among)
  {
    hide Selected, IdleAmong, Quiet, ChosenEarlier;
  }

  /** The choices of a run that keeps the accounts idle are a rotation, and it has been quiet since the last. */
  lemma {:induction false} RunIsRotation(cfg: Config, run: seq<View>, ops: seq<Op>, among: set<Id>)
    requires IsIdleRun(cfg, run, ops, among)
    ensures |run| == |ops| + 1 && IsRotation(cfg, RoundsOf(run, ops), among)
    ensures var rounds := RoundsOf(run, ops); rounds != [] ==> Quiet(rounds[|rounds| - 1].after, run[|ops|], among)
    decreases |ops|
  {
    hide Selected, IdleAmong, ChosenEarlier, Quiet, IsRotation;
    if ops == [] {
      NoRotation(cfg, among);
    } else {
      var n := |ops| - 1;
      IdleRunInit(cfg, run, ops, among);
      LastStep(cfg, run, ops, among);
      RunIsRotation(cfg, run[..|run| - 1], ops[..n], among);
      StampsLieBehind(cfg, run[..|run| - 1], ops[..n], among);
      var rounds := RoundsOf(run[..|run| - 1], ops[..n]);
      RunGoesOn(cfg, rounds, run[n], ops[n], run[n + 1], among);
    }
  }

  lemma NoRotation(cfg: Config, among: set<Id>)
    ensures IsRotation(cfg, [], among)
  {
  }

  lemma RunGoesOn(cfg: Config, rounds: seq<Round>, v: View, op: Op, w: View, among: set<Id>)
    requires IsRotation(cfg, rounds, among) && ChosenEarlier(v)
    requires rounds != [] ==> Quiet(rounds[|rounds| - 1].after, v, among)
    requires Next(cfg, v, op, w) && KeepsIdle(cfg, v, op, w, among)
    ensures match op
      case Select(req, now, Some(i)) =>
        IsRotation(cfg, rounds + [Round(v, w, req, now, i)], among) && Quiet(w, w, among)
      case _ => rounds != [] ==> Quiet(rounds[|rounds| - 1].after, w, among)
  {
    hide Selected, IdleAmong, ChosenEarlier, IsRotation;
    if op.Select? && op.pick.Some? {
      RotationGoesOn(cfg, rounds, among, Round(v, w, op.req, op.now, op.pick.value));
    } else {
      StepIsQuiet(cfg, v, op, w, among);
    }
  }

  /**
   The same of runs, whatever else happens in them: releases, limits, selections that find
   nothing and listings that keep the accounts do not disturb the turn.
   */
  lemma EveryWindowOfRunVisitsAll(cfg: Config, run: seq<View>, ops: seq<Op>, among: set<Id>, start: nat)
    requires IsIdleRun(cfg, run, ops, among) && |run| == |ops| + 1
    requires start + |among| <= |RoundsOf(run, ops)|
    ensures var window := RoundsOf(run, ops)[start..start + |among|];
      && (forall k | 0 <= k < |window| :: window[k].pick < |window[k].before.accounts|)
      && (forall a, b | 0 <= a < b < |window| :: window[a].Id() != window[b].Id())
      && PicksOf(window) == among
  {
    hide *;
    RunIsRotation(cfg, run, ops, among);
    EveryWindowVisitsAll(cfg, RoundsOf(run, ops), among, start);
  }
}
