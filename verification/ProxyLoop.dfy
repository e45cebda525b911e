/**
 The attempt loop of `Server.proxy`, against any behaviour of its surroundings.

 An `Answer` holds what the context, the pool, the upstream and the retry policy decide in one
 pass through the loop. The pool never hands out an excluded account (`Acquisition.Scheduler.Acquire`), so an
 offer of one counts as no offer. The state also keeps a record of what was done.
 */
module ProxyLoops {
  import opened Wrappers

  datatype Reply =
    | Succeeded
    | Failed(contextDone: bool, penaltyRejected: bool, strippable: bool, unauthorized: bool, refreshed: bool,
             retry: bool, grace: bool, waited: bool)

  /** `countable`: not a countTokens request with a payload of the wrong type. */
  datatype Answer = Answer(contextDone: bool, offer: Option<string>, builds: bool, countable: bool, reply: Reply)

  type Oracle = nat -> Answer

  /** An account kept for another attempt, with its lease. */
  datatype Held = Held(account: string, lease: nat)

  datatype State = State(
    attempts: nat, exclude: set<string>, graceUsed: seq<string>, refreshed: seq<string>, omitPenalties: bool,
    reuse: Option<Held>, over: bool, acquired: seq<string>, calls: seq<string>, open: set<nat>, peak: nat)

  function Start(): State {
    State(0, {}, [], [], false, None, false, [], [], {}, 0)
  }

  predicate Goes(s: State, maxAttempts: int) {
    !s.over && (s.attempts < maxAttempts || s.reuse.Some?)
  }

  /** A release counts once, however often it is called. */
  function Released(s: State, lease: nat): State {
    s.(open := s.open - {lease})
  }

  /** Leaving the loop gives a kept lease back. */
  function Left(s: State): State {
    var freed := if s.reuse.Some? then Released(s, s.reuse.value.lease) else s;
    freed.(reuse := None, over := true)
  }

  function Keep(s: State, h: Held): State {
    s.(reuse := Some(h))
  }

  function Acquired(s: State, account: string): State {
    var open := s.open + {|s.acquired|};
    s.(attempts := s.attempts + 1, acquired := s.acquired + [account], open := open,
       peak := if |open| > s.peak then |open| else s.peak)
  }

  /** After a failed attempt that is neither a penalty rejection nor repaired by a token refresh. */
  function Decided(s: State, h: Held, r: Reply, maxAttempts: int): State
    requires r.Failed?
  {
    if !r.retry then Left(Released(s, h.lease))
    else if r.grace && h.account !in s.graceUsed then
      var graced := s.(graceUsed := s.graceUsed + [h.account]);
      if r.waited then Keep(graced, h) else Left(Released(graced, h.lease))
    else
      var rotated := Released(s.(exclude := s.exclude + {h.account}), h.lease);
      if s.attempts >= maxAttempts || !r.waited then Left(rotated) else rotated
  }

  function Replied(s: State, h: Held, r: Reply, maxAttempts: int): State {
    if r.Succeeded? || r.contextDone then Left(Released(s, h.lease))
    else if !s.omitPenalties && r.penaltyRejected && r.strippable then Keep(s.(omitPenalties := true), h)
    else if r.unauthorized && h.account !in s.refreshed then
      var tried := s.(refreshed := s.refreshed + [h.account]);
      if r.refreshed then Keep(tried, h) else Decided(tried, h, r, maxAttempts)
    else Decided(s, h, r, maxAttempts)
  }

  function Attempted(s: State, h: Held, a: Answer, maxAttempts: int): State {
    if !a.builds || !a.countable then Left(Released(s, h.lease))
    else Replied(s.(calls := s.calls + [h.account]), h, a.reply, maxAttempts)
  }

  function Offered(offer: Option<string>, exclude: set<string>): Option<string> {
    if offer.Some? && offer.value !in exclude then offer else None
  }

  /** One pass through the loop. */
  function Step(s: State, a: Answer, maxAttempts: int): State {
    if a.contextDone then Left(s)
    else
      match s.reuse
      case Some(h) => Attempted(s.(reuse := None), h, a, maxAttempts)
      case None =>
        match Offered(a.offer, s.exclude)
        case None => Left(s)
        case Some(account) => Attempted(Acquired(s, account), Held(account, |s.acquired|), a, maxAttempts)
  }

  /** The state after at most `n` passes. */
  function After(oracle: Oracle, n: nat, maxAttempts: int): State {
    if n == 0 then Start()
    else
      var s := After(oracle, n - 1, maxAttempts);
      if Goes(s, maxAttempts) then Step(s, oracle(n - 1), maxAttempts) else s
  }

  // ---- The loop in place -----------------------------------------------------------------

  class Proxy {
    var attempts: nat
    var exclude: set<string>
    var graceUsed: seq<string>
    var refreshed: seq<string>
    var omitPenalties: bool
    var reuse: Option<Held>
    var over: bool
    var acquired: seq<string>
    var calls: seq<string>
    var open: set<nat>
    var peak: nat

    function Model(): State
      reads this
    {
      State(attempts, exclude, graceUsed, refreshed, omitPenalties, reuse, over, acquired, calls, open, peak)
    }

    constructor ()
      ensures Model() == Start()
    {
      attempts, exclude, graceUsed, refreshed, omitPenalties, reuse, over := 0, {}, [], [], false, None, false;
      acquired, calls, open, peak := [], [], {}, 0;
    }

    method Release(lease: nat)
      modifies this
      ensures Model() == Released(old(Model()), lease)
    {
      open := open - {lease};
    }

    method Acquire(account: string) returns (h: Held)
      modifies this
      ensures Model() == Acquired(old(Model()), account) && h == Held(account, |old(acquired)|)
    {
      h := Held(account, |acquired|);
      open := open + {|acquired|};
      peak := if |open| > peak then |open| else peak;
      acquired := acquired + [account];
      attempts := attempts + 1;
    }

    /** What the body of the loop does with a failed reply; `stop` is a break. */
    method HandleFailure(h: Held, r: Reply, maxAttempts: int) returns (stop: bool)
      requires r.Failed? && reuse.None? && !over
      modifies this
      ensures !over
      ensures Replied(old(Model()), h, r, maxAttempts) == if stop then Left(Model()) else Model()
    {
      hide Decided;
      if r.contextDone {
        Release(h.lease);
        return true;
      }
      if !omitPenalties && r.penaltyRejected && r.strippable {
        omitPenalties := true;
        reuse := Some(h);
        return false;
      }
      if r.unauthorized && h.account !in refreshed {
        refreshed := refreshed + [h.account];
        if r.refreshed {
          reuse := Some(h);
          return false;
        }
      }
      stop := Decide(h, r, maxAttempts);
    }

    method Decide(h: Held, r: Reply, maxAttempts: int) returns (stop: bool)
      requires r.Failed? && reuse.None? && !over
      modifies this
      ensures !over
      ensures Decided(old(Model()), h, r, maxAttempts) == if stop then Left(Model()) else Model()
    {
      if !r.retry {
        Release(h.lease);
        return true;
      }
      if r.grace && h.account !in graceUsed {
        graceUsed := graceUsed + [h.account];
        if !r.waited {
          Release(h.lease);
          return true;
        }
        reuse := Some(h);
        return false;
      }
      exclude := exclude + {h.account};
      Release(h.lease);
      if attempts >= maxAttempts {
        return true;
      }
      return !r.waited;
    }

    /** One pass; `stop` is a break or a return. */
    method Pass(a: Answer, maxAttempts: int) returns (stop: bool)
      requires Goes(Model(), maxAttempts)
      modifies this
      ensures !over
      ensures Step(old(Model()), a, maxAttempts) == if stop then Left(Model()) else Model()
    {
      hide Replied, Left;
      if a.contextDone {
        return true;
      }
      var h: Held;
      if reuse.Some? {
        h := reuse.value;
        reuse := None;
      } else {
        var account := Offered(a.offer, exclude);
        if account.None? {
          return true;
        }
        h := Acquire(account.value);
      }
      if !a.builds || !a.countable {
        Release(h.lease);
        return true;
      }
      calls := calls + [h.account];
      if a.reply.Succeeded? {
        Release(h.lease);
        SuccessLeaves(Model(), h, maxAttempts);
        return true;
      }
      stop := HandleFailure(h, a.reply, maxAttempts);
    }

    /** The whole loop, to its end; `passes` is how often its body ran. */
    method Run(oracle: Oracle, maxAttempts: int) returns (passes: nat)
      requires Model() == Start()
      modifies this
      ensures Model() == After(oracle, passes, maxAttempts) && !Goes(Model(), maxAttempts)
    {
      hide Step;
      passes := 0;
      while !over && (attempts < maxAttempts || reuse.Some?)
        invariant Model() == After(oracle, passes, maxAttempts)
        decreases RoomOf(Model(), maxAttempts), BudgetOf(Model())
      {
        ghost var before := Model();
        var stop := Pass(oracle(passes), maxAttempts);
        passes := passes + 1;
        PassesShrink(before, oracle(passes - 1), maxAttempts);
        if stop {
          if reuse.Some? {
            Release(reuse.value.lease);
          }
          reuse := None;
          over := true;
          return;
        }
      }
    }
  }

  lemma SuccessLeaves(s: State, h: Held, maxAttempts: int)
    requires s.reuse.None?
    ensures forall t: State | s == Released(t, h.lease) :: Replied(t, h, Succeeded, maxAttempts) == Left(s)
  {
  }

  /** The accounts that may still be acquired. */
  function RoomOf(s: State, maxAttempts: int): nat {
    if s.attempts < maxAttempts then maxAttempts - s.attempts else 0
  }

  /** What may still be done with the account that is kept. */
  function BudgetOf(s: State): nat {
    if s.reuse.None? then 0
    else 1 + (if s.omitPenalties then 0 else 1) + (if s.reuse.value.account in s.refreshed then 0 else 1)
         + (if s.reuse.value.account in s.graceUsed then 0 else 1)
  }

  /** Each pass acquires, or spends one of what the kept account may still do. */
  lemma PassesShrink(s: State, a: Answer, maxAttempts: int)
    requires Goes(s, maxAttempts)
    ensures var t := Step(s, a, maxAttempts);
      t.over || (t.attempts == s.attempts + 1 <= maxAttempts) || (t.attempts == s.attempts && BudgetOf(t) < BudgetOf(s))
  {
  }

  // ---- What every run keeps -----------------------------------------------------------------

  predicate Distinct(names: seq<string>) {
    forall i, j | 0 <= i < j < |names| :: names[i] != names[j]
  }

  predicate IsLast(names: seq<string>, name: string) {
    names != [] && names[|names| - 1] == name
  }

  /**
   Accounts served by a once-per-account favour: each at most once, and one less than were acquired if
   the last has not had it.
   */
  ghost predicate OncePerAccount(used: seq<string>, acquired: seq<string>) {
    && Distinct(used)
    && (forall x <- used :: x in acquired)
    && |used| <= |acquired|
    && (acquired != [] && acquired[|acquired| - 1] !in used ==> |used| < |acquired|)
  }

  ghost predicate LeasesKept(s: State) {
    && s.peak <= 1
    && match s.reuse
       case None => s.open == {}
       case Some(h) => s.open == {h.lease} && IsLast(s.acquired, h.account) && h.account !in s.exclude && !s.over
  }

  ghost predicate Rotates(s: State, maxAttempts: int) {
    && s.attempts == |s.acquired| && (s.attempts == 0 || s.attempts <= maxAttempts)
    && Distinct(s.acquired)
    && (forall x <- s.exclude :: x in s.acquired)
    && (!s.over ==>
          forall i | 0 <= i < |s.acquired| ::
            s.acquired[i] in s.exclude || (s.reuse.Some? && i == |s.acquired| - 1))
  }

  /** Every call is an acquisition's first, or was granted by a favour. */
  ghost predicate CallsCounted(s: State) {
    |s.calls| + (if s.reuse.Some? then 1 else 0)
      <= |s.acquired| + |s.graceUsed| + |s.refreshed| + (if s.omitPenalties then 1 else 0)
  }

  ghost predicate Inv(s: State, maxAttempts: int) {
    && LeasesKept(s) && Rotates(s, maxAttempts) && CallsCounted(s)
    && OncePerAccount(s.graceUsed, s.acquired) && OncePerAccount(s.refreshed, s.acquired)
  }

  /** In the body of the loop the one lease is held, and one more call is allowed. */
  ghost predicate Busy(s: State, h: Held, maxAttempts: int) {
    && s.reuse.None? && !s.over && s.peak <= 1 && s.open == {h.lease}
    && IsLast(s.acquired, h.account) && h.account !in s.exclude
    && s.attempts == |s.acquired| <= maxAttempts && Distinct(s.acquired)
    && (forall x <- s.exclude :: x in s.acquired)
    && (forall i | 0 <= i < |s.acquired| - 1 :: s.acquired[i] in s.exclude)
    && |s.calls| <= |s.acquired| + |s.graceUsed| + |s.refreshed| + (if s.omitPenalties then 1 else 0)
    && OncePerAccount(s.graceUsed, s.acquired) && OncePerAccount(s.refreshed, s.acquired)
  }

  lemma FavourOnce(used: seq<string>, acquired: seq<string>, account: string)
    requires OncePerAccount(used, acquired) && IsLast(acquired, account) && account !in used
    ensures OncePerAccount(used + [account], acquired)
  {
  }

  lemma LeavingKeeps(s: State, h: Held, maxAttempts: int)
    requires Busy(s, h, maxAttempts)
    ensures Inv(Left(Released(s, h.lease)), maxAttempts)
  {
    hide OncePerAccount, Distinct;
  }

  lemma KeepingKeeps(s: State, h: Held, maxAttempts: int)
    requires Busy(s, h, maxAttempts)
    requires |s.calls| < |s.acquired| + |s.graceUsed| + |s.refreshed| + (if s.omitPenalties then 1 else 0)
    ensures Inv(Keep(s, h), maxAttempts)
  {
    hide OncePerAccount, Distinct;
  }

  lemma RotatingKeeps(s: State, h: Held, maxAttempts: int)
    requires Busy(s, h, maxAttempts)
    ensures var t := Released(s.(exclude := s.exclude + {h.account}), h.lease);
      Inv(t, maxAttempts) && Inv(Left(t), maxAttempts)
  {
    hide OncePerAccount, Distinct;
    assert s.open - {h.lease} == {};
    assert h.account in s.acquired;
  }

  lemma GrantingStaysBusy(s: State, h: Held, maxAttempts: int)
    requires Busy(s, h, maxAttempts)
    ensures h.account !in s.graceUsed ==> Busy(s.(graceUsed := s.graceUsed + [h.account]), h, maxAttempts)
    ensures h.account !in s.refreshed ==> Busy(s.(refreshed := s.refreshed + [h.account]), h, maxAttempts)
    ensures !s.omitPenalties ==> Busy(s.(omitPenalties := true), h, maxAttempts)
  {
    hide OncePerAccount, Distinct;
    if h.account !in s.graceUsed {
      FavourOnce(s.graceUsed, s.acquired, h.account);
    }
    if h.account !in s.refreshed {
      FavourOnce(s.refreshed, s.acquired, h.account);
    }
  }

  lemma DecidingKeeps(s: State, h: Held, r: Reply, maxAttempts: int)
    requires r.Failed? && Busy(s, h, maxAttempts)
    ensures Inv(Decided(s, h, r, maxAttempts), maxAttempts)
  {
    LeavingKeeps(s, h, maxAttempts);
    RotatingKeeps(s, h, maxAttempts);
    GrantingStaysBusy(s, h, maxAttempts);
    if h.account !in s.graceUsed {
      var graced := s.(graceUsed := s.graceUsed + [h.account]);
      LeavingKeeps(graced, h, maxAttempts);
      MoreAllowed(s, h, maxAttempts);
      KeepingKeeps(graced, h, maxAttempts);
    }
    hide Inv, Busy;
  }

  lemma MoreAllowed(s: State, h: Held, maxAttempts: int)
    requires Busy(s, h, maxAttempts)
    ensures |s.calls| <= |s.acquired| + |s.graceUsed| + |s.refreshed| + (if s.omitPenalties then 1 else 0)
  {
  }

  lemma ReplyingKeeps(s: State, h: Held, r: Reply, maxAttempts: int)
    requires Busy(s, h, maxAttempts)
    ensures Inv(Replied(s, h, r, maxAttempts), maxAttempts)
  {
    hide Inv, Busy, Decided;
    LeavingKeeps(s, h, maxAttempts);
    GrantingStaysBusy(s, h, maxAttempts);
    MoreAllowed(s, h, maxAttempts);
    if r.Failed? {
      DecidingKeeps(s, h, r, maxAttempts);
      if !s.omitPenalties {
        KeepingKeeps(s.(omitPenalties := true), h, maxAttempts);
      }
      if h.account !in s.refreshed {
        var tried := s.(refreshed := s.refreshed + [h.account]);
        KeepingKeeps(tried, h, maxAttempts);
        DecidingKeeps(tried, h, r, maxAttempts);
      }
    }
  }

  lemma AttemptingKeeps(s: State, h: Held, a: Answer, maxAttempts: int)
    requires Busy(s, h, maxAttempts)
    requires |s.calls| < |s.acquired| + |s.graceUsed| + |s.refreshed| + (if s.omitPenalties then 1 else 0)
    ensures Inv(Attempted(s, h, a, maxAttempts), maxAttempts)
  {
    hide Inv, Replied, OncePerAccount, Distinct;
    LeavingKeeps(s, h, maxAttempts);
    ReplyingKeeps(s.(calls := s.calls + [h.account]), h, a.reply, maxAttempts);
  }

  lemma AcquiringOnce(used: seq<string>, acquired: seq<string>, account: string)
    requires OncePerAccount(used, acquired) && account !in acquired
    ensures OncePerAccount(used, acquired + [account])
  {
  }

  lemma AcquiringIsBusy(s: State, account: string, maxAttempts: int)
    requires Inv(s, maxAttempts) && !s.over && s.reuse.None? && s.attempts < maxAttempts && account !in s.exclude
    ensures Busy(Acquired(s, account), Held(account, |s.acquired|), maxAttempts)
    ensures var t := Acquired(s, account);
      |t.calls| < |t.acquired| + |t.graceUsed| + |t.refreshed| + (if t.omitPenalties then 1 else 0)
  {
    hide OncePerAccount;
    assert account !in s.acquired;
    AcquiringOnce(s.graceUsed, s.acquired, account);
    AcquiringOnce(s.refreshed, s.acquired, account);
    assert s.open + {|s.acquired|} == {|s.acquired|};
  }

  lemma ReusingIsBusy(s: State, maxAttempts: int)
    requires Inv(s, maxAttempts) && s.reuse.Some?
    ensures Busy(s.(reuse := None), s.reuse.value, maxAttempts)
    ensures |s.calls| < |s.acquired| + |s.graceUsed| + |s.refreshed| + (if s.omitPenalties then 1 else 0)
  {
    hide OncePerAccount, Distinct;
  }

  lemma LeavingEarlyKeeps(s: State, maxAttempts: int)
    requires Inv(s, maxAttempts)
    ensures Inv(Left(s), maxAttempts)
  {
    hide OncePerAccount, Distinct;
  }

  lemma StepKeepsInv(s: State, a: Answer, maxAttempts: int)
    requires Inv(s, maxAttempts) && Goes(s, maxAttempts)
    ensures Inv(Step(s, a, maxAttempts), maxAttempts)
  {
    hide Inv, Busy, Attempted, Left;
    LeavingEarlyKeeps(s, maxAttempts);
    if s.reuse.Some? {
      ReusingIsBusy(s, maxAttempts);
      AttemptingKeeps(s.(reuse := None), s.reuse.value, a, maxAttempts);
    } else if Offered(a.offer, s.exclude).Some? {
      var account := Offered(a.offer, s.exclude).value;
      AcquiringIsBusy(s, account, maxAttempts);
      AttemptingKeeps(Acquired(s, account), Held(account, |s.acquired|), a, maxAttempts);
    }
  }

  lemma StartIsInv(maxAttempts: int)
    ensures Inv(Start(), maxAttempts)
  {
  }

  lemma {:induction false} RunKeepsInv(oracle: Oracle, n: nat, maxAttempts: int)
    ensures Inv(After(oracle, n, maxAttempts), maxAttempts)
  {
    hide Inv, Step;
    if n == 0 {
      StartIsInv(maxAttempts);
    } else {
      RunKeepsInv(oracle, n - 1, maxAttempts);
      if Goes(After(oracle, n - 1, maxAttempts), maxAttempts) {
        StepKeepsInv(After(oracle, n - 1, maxAttempts), oracle(n - 1), maxAttempts);
      }
    }
  }

  /** Whatever happens, at most 3 × maxAttempts + 1 upstream calls are made. */
  lemma CallsAreBounded(oracle: Oracle, n: nat, maxAttempts: nat)
    ensures |After(oracle, n, maxAttempts).calls| <= 3 * maxAttempts + 1
  {
    hide After;
    RunKeepsInv(oracle, n, maxAttempts);
  }

  /** No account is acquired twice, and none gets two grace retries or two token refreshes. */
  lemma FavoursAreOncePerAccount(oracle: Oracle, n: nat, maxAttempts: int)
    ensures var s := After(oracle, n, maxAttempts);
      Distinct(s.acquired) && Distinct(s.graceUsed) && Distinct(s.refreshed)
  {
    hide After;
    RunKeepsInv(oracle, n, maxAttempts);
  }

  /** No pass holds two leases, and after the last none is held. */
  lemma LeasesAreReturned(oracle: Oracle, n: nat, maxAttempts: int)
    ensures var s := After(oracle, n, maxAttempts);
      s.peak <= 1 && |s.open| <= 1 && (!Goes(s, maxAttempts) ==> s.open == {})
  {
    hide After;
    RunKeepsInv(oracle, n, maxAttempts);
  }

  lemma DecidingAcquiresNothing(s: State, h: Held, r: Reply, maxAttempts: int)
    requires r.Failed?
    ensures var t := Decided(s, h, r, maxAttempts);
      s.exclude <= t.exclude && t.acquired == s.acquired && t.omitPenalties == s.omitPenalties
  {
  }

  lemma AttemptingAcquiresNothing(s: State, h: Held, a: Answer, maxAttempts: int)
    ensures var t := Attempted(s, h, a, maxAttempts);
      s.exclude <= t.exclude && t.acquired == s.acquired && (s.omitPenalties ==> t.omitPenalties)
  {
    hide Decided;
    if a.reply.Failed? {
      var called := s.(calls := s.calls + [h.account]);
      DecidingAcquiresNothing(called, h, a.reply, maxAttempts);
      DecidingAcquiresNothing(called.(refreshed := s.refreshed + [h.account]), h, a.reply, maxAttempts);
    }
  }

  /** A pass never acquires an account that is excluded; exclusions, and the one penalty strip, are for good. */
  lemma ExcludedIsNotAcquired(s: State, a: Answer, maxAttempts: int)
    ensures var t := Step(s, a, maxAttempts);
      s.exclude <= t.exclude && (s.omitPenalties ==> t.omitPenalties)
      && (t.acquired == s.acquired || exists account :: t.acquired == s.acquired + [account] && account !in s.exclude)
  {
    hide Attempted;
    if s.reuse.Some? {
      AttemptingAcquiresNothing(s.(reuse := None), s.reuse.value, a, maxAttempts);
    } else if Offered(a.offer, s.exclude).Some? {
      var account := Offered(a.offer, s.exclude).value;
      AttemptingAcquiresNothing(Acquired(s, account), Held(account, |s.acquired|), a, maxAttempts);
    }
  }

  // ---- The bound is reached -------------------------------------------------------------------

  function Nth(k: nat): string {
    seq(k + 1, _ => 'a')
  }

  function Refusing(account: string, penalty: bool, unauthorized: bool, grace: bool): Answer {
    Answer(false, Some(account), true, true,
      Failed(false, penalty, penalty, unauthorized, unauthorized, true, grace, true))
  }

  /**
   Every account is refused for its token, then asks for a short wait, then fails; the first also
   refuses the penalties.
   */
  function Worst(n: nat): Answer {
    if n == 0 then Refusing(Nth(0), true, false, false)
    else
      var k := (n - 1) / 3;
      if (n - 1) % 3 == 0 then Refusing(Nth(k), false, true, false)
      else if (n - 1) % 3 == 1 then Refusing(Nth(k), false, false, true)
      else Refusing(Nth(k), false, false, false)
  }

  lemma NamesDiffer(j: nat, k: nat)
    requires Nth(j) == Nth(k)
    ensures j == k
  {
    assert |Nth(j)| == j + 1 && |Nth(k)| == k + 1;
  }

  /** After the first k accounts were used up: nothing is kept, and only they are excluded. */
  ghost predicate UsedUp(s: State, k: nat, maxAttempts: nat) {
    && 0 < k <= maxAttempts
    && s.attempts == k && s.omitPenalties && s.reuse.None? && (k < maxAttempts ==> !s.over)
    && |s.calls| == 3 * k + 1
    && (forall x <- s.exclude :: exists j | 0 <= j < k :: x == Nth(j))
    && (forall x <- s.graceUsed :: exists j | 0 <= j < k :: x == Nth(j))
    && (forall x <- s.refreshed :: exists j | 0 <= j < k :: x == Nth(j))
  }

  predicate Unused(s: State, account: string) {
    account !in s.exclude && account !in s.graceUsed && account !in s.refreshed
  }

  lemma NextIsUnused(s: State, k: nat, maxAttempts: nat)
    requires UsedUp(s, k, maxAttempts)
    ensures Unused(s, Nth(k))
  {
    hide Nth;
    forall j | 0 <= j < k
      ensures Nth(j) != Nth(k)
    {
      if Nth(j) == Nth(k) {
        NamesDiffer(j, k);
      }
    }
  }

  /** What three refusals in a row make of an account that was just acquired or kept with one call behind it. */
  function ThreePasses(s: State, account: string, maxAttempts: nat): State {
    var s1 := Step(s, Refusing(account, false, true, false), maxAttempts);
    var s2 := Step(s1, Refusing(account, false, false, true), maxAttempts);
    Step(s2, Refusing(account, false, false, false), maxAttempts)
  }

  lemma ThreePassesOfNext(s: State, account: string, maxAttempts: nat)
    requires s.reuse.None? && !s.over && s.attempts < maxAttempts && Unused(s, account)
    ensures var t := ThreePasses(s, account, maxAttempts);
      var h := Held(account, |s.acquired|);
      var s1 := Keep(Acquired(s, account).(calls := s.calls + [account], refreshed := s.refreshed + [account]), h);
      var s2 := Keep(s1.(calls := s1.calls + [account], graceUsed := s.graceUsed + [account]), h);
      && s1 == Step(s, Refusing(account, false, true, false), maxAttempts)
      && s2 == Step(s1, Refusing(account, false, false, true), maxAttempts)
      && t.attempts == s.attempts + 1 && t.omitPenalties == s.omitPenalties
      && t.reuse.None? && (t.over <==> s.attempts + 1 >= maxAttempts)
      && t.calls == s.calls + [account, account, account]
      && t.exclude == s.exclude + {account}
      && t.graceUsed == s.graceUsed + [account] && t.refreshed == s.refreshed + [account]
  {
    assert s.calls + [account, account, account] == ((s.calls + [account]) + [account]) + [account];
  }

  lemma KeptIsRefreshed(s: State, h: Held, maxAttempts: nat)
    requires s.reuse == Some(h) && !s.over && h.account !in s.refreshed
    ensures Step(s, Refusing(h.account, false, true, false), maxAttempts)
         == s.(calls := s.calls + [h.account], refreshed := s.refreshed + [h.account])
  {
  }

  lemma KeptIsGraced(s: State, h: Held, maxAttempts: nat)
    requires s.reuse == Some(h) && !s.over && h.account !in s.graceUsed
    ensures Step(s, Refusing(h.account, false, false, true), maxAttempts)
         == s.(calls := s.calls + [h.account], graceUsed := s.graceUsed + [h.account])
  {
  }

  lemma KeptIsRotated(s: State, h: Held, maxAttempts: nat)
    requires s.reuse == Some(h) && !s.over
    ensures Step(s, Refusing(h.account, false, false, false), maxAttempts)
         == s.(calls := s.calls + [h.account], exclude := s.exclude + {h.account}, open := s.open - {h.lease},
                reuse := None,
               over := s.attempts >= maxAttempts)
  {
  }

  lemma FirstIsPenalised(account: string, maxAttempts: nat)
    requires maxAttempts > 0
    ensures Step(Start(), Refusing(account, true, false, false), maxAttempts)
         == Keep(Acquired(Start(), account).(calls := [account], omitPenalties := true), Held(account, 0))
  {
  }

  /** The first account: refused for its penalties, then as all others. */
  lemma FirstAccountIsUsedUp(maxAttempts: nat)
    requires maxAttempts > 0
    ensures UsedUp(After(Worst, 4, maxAttempts), 1, maxAttempts)
  {
    hide Nth, Step, Refusing;
    var a := Nth(0);
    var h := Held(a, 0);
    WorstAnswers(0);
    FirstIsPenalised(a, maxAttempts);
    var s1 := After(Worst, 1, maxAttempts);
    assert After(Worst, 0, maxAttempts) == Start();
    assert s1 == Step(Start(), Worst(0), maxAttempts);
    KeptIsRefreshed(s1, h, maxAttempts);
    var s2 := After(Worst, 2, maxAttempts);
    assert s2 == Step(s1, Worst(1), maxAttempts);
    KeptIsGraced(s2, h, maxAttempts);
    var s3 := After(Worst, 3, maxAttempts);
    assert s3 == Step(s2, Worst(2), maxAttempts);
    KeptIsRotated(s3, h, maxAttempts);
    assert After(Worst, 4, maxAttempts) == Step(s3, Worst(3), maxAttempts);
  }

  lemma WorstAnswers(k: nat)
    ensures Worst(3 * k + 1) == Refusing(Nth(k), false, true, false)
    ensures Worst(3 * k + 2) == Refusing(Nth(k), false, false, true)
    ensures Worst(3 * k + 3) == Refusing(Nth(k), false, false, false)
  {
  }

  lemma UsingUpOneMore(s: State, k: nat, maxAttempts: nat)
    requires UsedUp(s, k, maxAttempts) && k < maxAttempts
    ensures UsedUp(ThreePasses(s, Nth(k), maxAttempts), k + 1, maxAttempts)
  {
    hide ThreePasses, Step, Nth;
    NextIsUnused(s, k, maxAttempts);
    ThreePassesOfNext(s, Nth(k), maxAttempts);
  }

  lemma ThreeMore(n: nat, k: nat, maxAttempts: nat)
    requires n == 3 * k + 1 && k < maxAttempts && UsedUp(After(Worst, n, maxAttempts), k, maxAttempts)
    ensures After(Worst, n + 3, maxAttempts) == ThreePasses(After(Worst, n, maxAttempts), Nth(k), maxAttempts)
  {
    hide Step, Worst, Refusing, Nth;
    var s := After(Worst, n, maxAttempts);
    WorstAnswers(k);
    NextIsUnused(s, k, maxAttempts);
    ThreePassesOfNext(s, Nth(k), maxAttempts);
    assert After(Worst, n + 1, maxAttempts) == Step(s, Worst(n), maxAttempts);
    assert After(Worst, n + 2, maxAttempts) == Step(After(Worst, n + 1, maxAttempts), Worst(n + 1), maxAttempts);
    assert After(Worst, n + 3, maxAttempts) == Step(After(Worst, n + 2, maxAttempts), Worst(n + 2), maxAttempts);
  }

  lemma {:induction false} WorstUsesUp(k: nat, maxAttempts: nat)
    requires 0 < k <= maxAttempts
    ensures UsedUp(After(Worst, 3 * k + 1, maxAttempts), k, maxAttempts)
  {
    hide UsedUp, After, ThreePasses;
    if k == 1 {
      FirstAccountIsUsedUp(maxAttempts);
    } else {
      WorstUsesUp(k - 1, maxAttempts);
      ThreeMore(3 * (k - 1) + 1, k - 1, maxAttempts);
      UsingUpOneMore(After(Worst, 3 * (k - 1) + 1, maxAttempts), k - 1, maxAttempts);
    }
  }

  /** The bound on upstream calls is reached for every positive number of attempts. */
  lemma CallBoundIsReached(maxAttempts: nat)
    requires maxAttempts > 0
    ensures |After(Worst, 3 * maxAttempts + 1, maxAttempts).calls| == 3 * maxAttempts + 1
  {
    hide After;
    WorstUsesUp(maxAttempts, maxAttempts);
  }
}
