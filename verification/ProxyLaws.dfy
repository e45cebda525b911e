/** What each reply leads to, over whole runs of the attempt loop. */
module ProxyLaws {
  import opened Wrappers
  import opened ProxyLoops

  /** The account that a pass works on: the kept one, or one the pool offers that is not excluded. */
  function Subject(s: State, a: Answer): Option<string> {
    if a.contextDone then None
    else if s.reuse.Some? then Some(s.reuse.value.account)
    else if a.offer.Some? && a.offer.value !in s.exclude then a.offer
    else None
  }

  /** The account that a pass calls upstream for. */
  function Called(s: State, a: Answer): Option<string> {
    if a.builds && a.countable then Subject(s, a) else None
  }

  /** The reply was read as a failure: no success, and nobody has given up meanwhile. */
  predicate Refuses(r: Reply) {
    r.Failed? && !r.contextDone
  }

  /** The penalty fields were rejected and are left out from now on. */
  predicate Strips(s: State, r: Reply) {
    Refuses(r) && r.penaltyRejected && r.strippable && !s.omitPenalties
  }

  /** The token was rejected for the first time on this account. */
  predicate Renews(s: State, account: string, r: Reply) {
    Refuses(r) && !Strips(s, r) && r.unauthorized && account !in s.refreshed
  }

  /** A token refresh has repaired the account. */
  predicate Repairs(s: State, account: string, r: Reply) {
    Renews(s, account, r) && r.refreshed
  }

  /** Neither: the retry policy decides. */
  predicate Fails(s: State, account: string, r: Reply) {
    Refuses(r) && !Strips(s, r) && !Repairs(s, account, r)
  }

  /** The account gets its one short wait. */
  predicate Graces(s: State, account: string, r: Reply) {
    Fails(s, account, r) && r.retry && r.grace && account !in s.graceUsed
  }

  predicate Rotated(s: State, account: string, r: Reply) {
    Fails(s, account, r) && r.retry && !Graces(s, account, r)
  }

  /** The reply ends the run. */
  predicate Concludes(s: State, account: string, r: Reply, attempts: int, maxAttempts: int) {
    || r.Succeeded?
    || r.contextDone
    || (Fails(s, account, r) && !r.retry)
    || (Graces(s, account, r) && !r.waited)
    || (Rotated(s, account, r) && (attempts >= maxAttempts || !r.waited))
  }

  /** Passes of a run that have begun. */
  predicate Begins(oracle: Oracle, p: nat, maxAttempts: int) {
    Goes(After(oracle, p, maxAttempts), maxAttempts)
  }

  /**
   A pass without a call ends the run: the context is done, no account is to be had, or the request
   cannot be built.
   */
  lemma NoCallConcludes(oracle: Oracle, p: nat, maxAttempts: int)
    requires Begins(oracle, p, maxAttempts) && Called(After(oracle, p, maxAttempts), oracle(p)).None?
    ensures var s, t := After(oracle, p, maxAttempts), After(oracle, p + 1, maxAttempts);
      t.over && t.calls == s.calls && t.exclude == s.exclude
  {
  }

  /** What a reply does, to the run and to its account. */
  ghost predicate Leads(s: State, t: State, account: string, r: Reply, maxAttempts: int) {
    && t.calls == s.calls + [account]
    && (t.over <==> Concludes(s, account, r, t.attempts, maxAttempts))
    && (t.reuse.Some? <==> Strips(s, r) || Repairs(s, account, r) || (Graces(s, account, r) && r.waited))
    && (t.reuse.Some? ==> t.reuse.value.account == account)
    && t.exclude == (if Rotated(s, account, r) then s.exclude + {account} else s.exclude)
    && t.omitPenalties == (s.omitPenalties || Strips(s, r))
    && t.refreshed == (if Renews(s, account, r) then s.refreshed + [account] else s.refreshed)
    && t.graceUsed == (if Graces(s, account, r) then s.graceUsed + [account] else s.graceUsed)
    && t.attempts == (if s.reuse.Some? then s.attempts else s.attempts + 1)
    && t.acquired == (if s.reuse.Some? then s.acquired else s.acquired + [account])
  }

  /**
   Every call leads to what its reply says: it ends the run after a success, when the context is done, or on
   a failure that is not to be retried; it keeps the account after a strip, a repair or a short wait; otherwise it
   excludes the account and goes on while attempts are left and the wait is not cut short.
   */
  lemma CallLeads(oracle: Oracle, p: nat, maxAttempts: int)
    requires Begins(oracle, p, maxAttempts) && Called(After(oracle, p, maxAttempts), oracle(p)).Some?
    ensures var s, t := After(oracle, p, maxAttempts), After(oracle, p + 1, maxAttempts);
      Leads(s, t, Called(s, oracle(p)).value, oracle(p).reply, maxAttempts)
  {
    hide After;
    var s, t := After(oracle, p, maxAttempts), After(oracle, p + 1, maxAttempts);
    OneMorePass(oracle, p, maxAttempts);
    StepLeads(s, oracle(p), maxAttempts);
  }

  lemma OneMorePass(oracle: Oracle, p: nat, maxAttempts: int)
    requires Begins(oracle, p, maxAttempts)
    ensures After(oracle, p + 1, maxAttempts) == Step(After(oracle, p, maxAttempts), oracle(p), maxAttempts)
  {
    hide Step;
  }

  lemma StepLeads(s: State, a: Answer, maxAttempts: int)
    requires Goes(s, maxAttempts) && Called(s, a).Some?
    ensures Leads(s, Step(s, a, maxAttempts), Called(s, a).value, a.reply, maxAttempts)
  {
    hide Replied, Answers;
    if s.reuse.Some? {
      var h := s.reuse.value;
      var b := s.(reuse := None, calls := s.calls + [h.account]);
      ReplyAnswers(b, h, a.reply, maxAttempts);
      AnswersLead(s, b, Step(s, a, maxAttempts), h.account, a.reply, maxAttempts);
    } else {
      var account := a.offer.value;
      var b := Acquired(s, account).(calls := s.calls + [account]);
      ReplyAnswers(b, Held(account, |s.acquired|), a.reply, maxAttempts);
      AnswersLead(s, b, Step(s, a, maxAttempts), account, a.reply, maxAttempts);
    }
  }

  /** What a reply does to the state it comes in. */
  ghost predicate Answers(b: State, t: State, account: string, r: Reply, maxAttempts: int) {
    && t.calls == b.calls && t.attempts == b.attempts && t.acquired == b.acquired
    && (t.over <==> Concludes(b, account, r, b.attempts, maxAttempts))
    && (t.reuse.Some? <==> Strips(b, r) || Repairs(b, account, r) || (Graces(b, account, r) && r.waited))
    && (t.reuse.Some? ==> t.reuse.value.account == account)
    && t.exclude == (if Rotated(b, account, r) then b.exclude + {account} else b.exclude)
    && t.omitPenalties == (b.omitPenalties || Strips(b, r))
    && t.refreshed == (if Renews(b, account, r) then b.refreshed + [account] else b.refreshed)
    && t.graceUsed == (if Graces(b, account, r) then b.graceUsed + [account] else b.graceUsed)
  }

  lemma ReplyAnswers(b: State, h: Held, r: Reply, maxAttempts: int)
    requires b.reuse.None? && !b.over
    ensures Answers(b, Replied(b, h, r, maxAttempts), h.account, r, maxAttempts)
  {
  }

  lemma AnswersLead(s: State, b: State, t: State, account: string, r: Reply, maxAttempts: int)
    requires Answers(b, t, account, r, maxAttempts)
    requires b.exclude == s.exclude && b.refreshed == s.refreshed && b.graceUsed == s.graceUsed
    requires b.omitPenalties == s.omitPenalties && b.calls == s.calls + [account]
    requires b.attempts == (if s.reuse.Some? then s.attempts else s.attempts + 1)
    requires b.acquired == (if s.reuse.Some? then s.acquired else s.acquired + [account])
    ensures Leads(s, t, account, r, maxAttempts)
  {
  }

  /** Once a run is over, nothing happens any more. */
  lemma {:induction false} OverIsOver(oracle: Oracle, m: nat, n: nat, maxAttempts: int)
    requires m <= n && !Begins(oracle, m, maxAttempts)
    ensures After(oracle, n, maxAttempts) == After(oracle, m, maxAttempts)
  {
    hide Step;
    if m < n {
      OverIsOver(oracle, m, n - 1, maxAttempts);
    }
  }

  /** The reply of pass `p` ended the run. */
  ghost predicate ConcludesAt(oracle: Oracle, p: nat, maxAttempts: int) {
    var s, t := After(oracle, p, maxAttempts), After(oracle, p + 1, maxAttempts);
    Called(s, oracle(p)).Some? && Concludes(s, Called(s, oracle(p)).value, oracle(p).reply, t.attempts, maxAttempts)
  }

  /** After a reply that ends the run no later call is made, however long one waits. */
  lemma NoCallAfterTheEnd(oracle: Oracle, p: nat, n: nat, maxAttempts: int)
    requires Begins(oracle, p, maxAttempts) && ConcludesAt(oracle, p, maxAttempts) && p < n
    ensures var s, t := After(oracle, p, maxAttempts), After(oracle, n, maxAttempts);
      t.over && t.calls == s.calls + [Called(s, oracle(p)).value]
  {
    hide After, Concludes;
    CallLeads(oracle, p, maxAttempts);
    OverIsOver(oracle, p + 1, n, maxAttempts);
  }

  /** The favours that keep an account for one more call. */
  ghost predicate Favours(s: State, account: string, r: Reply) {
    Strips(s, r) || Repairs(s, account, r) || Graces(s, account, r)
  }

  /**
   Of two calls in a row the second goes to the same account exactly when the first was followed by a penalty
   strip, a successful refresh or a short wait.
   */
  lemma SameAccountIff(oracle: Oracle, p: nat, maxAttempts: int)
    requires Begins(oracle, p, maxAttempts) && Begins(oracle, p + 1, maxAttempts)
    requires Called(After(oracle, p, maxAttempts), oracle(p)).Some?
    requires Called(After(oracle, p + 1, maxAttempts), oracle(p + 1)).Some?
    ensures var s, t := After(oracle, p, maxAttempts), After(oracle, p + 1, maxAttempts);
      var account := Called(s, oracle(p)).value;
      Called(t, oracle(p + 1)) == Some(account) <==> Favours(s, account, oracle(p).reply)
  {
    hide After;
    CallLeads(oracle, p, maxAttempts);
  }

  /** A run goes on after a call exactly when the account is kept, or excluded with attempts left and the wait over. */
  lemma GoesOnIff(oracle: Oracle, p: nat, maxAttempts: int)
    requires Begins(oracle, p, maxAttempts) && Called(After(oracle, p, maxAttempts), oracle(p)).Some?
    ensures var s, r := After(oracle, p, maxAttempts), oracle(p).reply;
      var account := Called(s, oracle(p)).value;
      Begins(oracle, p + 1, maxAttempts) <==>
        || Strips(s, r) || Repairs(s, account, r) || (Graces(s, account, r) && r.waited)
        || (Rotated(s, account, r) && r.waited && After(oracle, p + 1, maxAttempts).attempts < maxAttempts)
  {
    hide After;
    CallLeads(oracle, p, maxAttempts);
  }
}
