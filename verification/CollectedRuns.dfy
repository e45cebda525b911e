/**
 How the collector joins parts. `Keeping` lists the parts that each candidate keeps, unjoined:
 repeated calls are dropped and accepted ones carry the identifier they were given.
 */
module CollectedRuns {
  import opened Wrappers
  import opened Gemini
  import opened Collectors
  import R = ToolRegistries

  // ---- Joining neighbours ----------------------------------------------------------------

  function JoinAll(parts: seq<Part>): seq<Part> {
    if parts == [] then [] else Joined(JoinAll(parts[..|parts| - 1]), parts[|parts| - 1])
  }

  /** A text with no signature and at most two keys. */
  predicate Plain(p: Part) {
    p.TextPart? && p.text != "" && p.sig == "" && p.keys <= 2
  }

  predicate Alike(p: Part, q: Part) {
    Plain(p) && Plain(q) && p.thought == q.thought
  }

  function Texts(run: seq<Part>): string {
    if run == [] then ""
    else Texts(run[..|run| - 1]) + if run[|run| - 1].TextPart? then run[|run| - 1].text else ""
  }

  /** One part as it came, or the texts of several neighbours that are alike, under the first one's keys. */
  predicate IsRun(joined: Part, run: seq<Part>) {
    || run == [joined]
    || (|run| > 1 && run[0].TextPart? && (forall p <- run :: Alike(run[0], p)) && joined == run[0].(text := Texts(run)))
  }

  /** The joined parts are runs of the parts, one after the other, with nothing left out. */
  ghost predicate AreRuns(joined: seq<Part>, parts: seq<Part>)
    decreases |joined|
  {
    if joined == [] then parts == []
    else exists n | 0 <= n < |parts| ::
      IsRun(joined[|joined| - 1], parts[n..]) && AreRuns(joined[..|joined| - 1], parts[..n])
  }

  /** No two neighbours could be joined. */
  predicate Maximal(joined: seq<Part>) {
    forall k | 0 <= k < |joined| - 1 :: !Alike(joined[k], joined[k + 1])
  }

  lemma RunGrows(joined: Part, run: seq<Part>, part: Part)
    requires IsRun(joined, run) && Alike(joined, part)
    ensures IsRun(joined.(text := joined.text + part.text), run + [part])
  {
    var longer := run + [part];
    assert longer[..|run|] == run;
    if run == [joined] {
      assert run[..0] == [] && "" + joined.text == joined.text;
      assert longer[0] == joined && Texts(run) == joined.text;
    } else {
      assert longer[0] == run[0] && Alike(run[0], run[0]) by {
        assert run[0] in run;
      }
    }
    assert Texts(longer) == Texts(run) + part.text;
    assert forall p <- longer :: Alike(longer[0], p);
  }

  lemma RunsGrow(joined: seq<Part>, parts: seq<Part>, part: Part)
    requires AreRuns(joined, parts)
    ensures AreRuns(Joined(joined, part), parts + [part])
  {
    var m, longer, after := |joined| - 1, parts + [part], Joined(joined, part);
    if |joined| > 0 && Joins(joined[m], part) {
      var n :| 0 <= n < |parts| && IsRun(joined[m], parts[n..]) && AreRuns(joined[..m], parts[..n]);
      RunGrows(joined[m], parts[n..], part);
      assert longer[n..] == parts[n..] + [part] && longer[..n] == parts[..n];
      assert after[..m] == joined[..m] && after[m] == joined[m].(text := joined[m].text + part.text);
      assert IsRun(after[m], longer[n..]);
    } else {
      assert after[..|joined|] == joined && longer[..|parts|] == parts && longer[|parts|..] == [part];
      assert IsRun(after[|joined|], longer[|parts|..]);
    }
  }

  lemma JoiningStaysMaximal(joined: seq<Part>, part: Part)
    requires Maximal(joined)
    ensures Maximal(Joined(joined, part))
  {
    var after := Joined(joined, part);
    forall k | 0 <= k < |after| - 1
      ensures !Alike(after[k], after[k + 1])
    {
      if k + 1 < |joined| {
        assert !Alike(joined[k], joined[k + 1]);
      }
    }
  }

  /** Joining loses, adds and reorders nothing, and joins whatever can be joined. */
  lemma {:induction false} JoinedPartsAreRuns(parts: seq<Part>)
    ensures AreRuns(JoinAll(parts), parts) && Maximal(JoinAll(parts))
  {
    hide AreRuns, Maximal, Joined;
    if parts == [] {
      NothingIsRuns();
    } else {
      var n := |parts| - 1;
      JoinedPartsAreRuns(parts[..n]);
      RunsGrow(JoinAll(parts[..n]), parts[..n], parts[n]);
      JoiningStaysMaximal(JoinAll(parts[..n]), parts[n]);
      assert parts[..n] + [parts[n]] == parts;
    }
  }

  lemma NothingIsRuns()
    ensures AreRuns([], []) && Maximal([])
  {
  }

  // ---- What each candidate keeps ---------------------------------------------------------

  datatype Keeping = Keeping(parts: map<int, seq<Part>>, registry: R.Registry, bytes: nat)
  {
    function At(index: int): seq<Part> {
      if index in parts then parts[index] else []
    }
  }

  function WithId(call: FunctionCall, id: string): FunctionCall {
    FunctionCall(if call.callId == "" then "" else id, id, call.name, call.args)
  }

  function Keep(k: Keeping, a: Action, mint: nat -> string): Visited<Keeping> {
    match a
    case Open(index, _, _) => Visited(k.(parts := k.parts[index := k.At(index)]), false)
    case Deliver(index, CallPart(call, sig)) => (
      var q := R.Request(index, call);
      var next := k.(registry := R.Prepared(k.registry, q, mint));
      match R.OutcomeOf(k.registry, q, mint)
      case Rejected => Visited(k, true)
      case Repeated(_) => Visited(next, false)
      case Accepted(id) =>
        Visited(next.(parts := k.parts[index := k.At(index) + [CallPart(WithId(call, id), sig)]]), false))
    case Deliver(index, part) => Visited(k.(parts := k.parts[index := k.At(index) + [part]]), false)
  }

  function KeepAll(k: Keeping, actions: seq<Action>, mint: nat -> string): Visited<Keeping> {
    if actions == [] then Visited(k, false)
    else
      var before := KeepAll(k, actions[..|actions| - 1], mint);
      if before.failed then before else Keep(before.state, actions[|actions| - 1], mint)
  }

  function KeepFrame(k: Keeping, frame: Frame, mint: nat -> string): Visited<Keeping> {
    var sized := k.(bytes := k.bytes + frame.size);
    if sized.bytes > 128 * 1024 * 1024 then Visited(sized, true) else KeepAll(sized, FrameActions(frame), mint)
  }

  function Keeper(mint: nat -> string): (Keeping, Frame) -> Visited<Keeping> {
    (k: Keeping, frame: Frame) => KeepFrame(k, frame, mint)
  }

  function KeepingOf(source: Source, mint: nat -> string): Keeping {
    Walk(Keeping(map[], R.Empty(), 0), Keeper(mint), source.frames, |source.frames|).state
  }

  ghost predicate Matches(s: State, k: Keeping) {
    && s.registry == k.registry && s.total == k.bytes && s.candidates.Keys == k.parts.Keys
    && forall index <- k.parts :: s.candidates[index].parts == JoinAll(k.parts[index])
  }

  lemma JoinOneMore(parts: seq<Part>, part: Part)
    ensures JoinAll(parts + [part]) == Joined(JoinAll(parts), part)
  {
    assert (parts + [part])[..|parts|] == parts;
  }

  lemma KeepingMatches(s: State, k: Keeping, index: int, part: Part)
    requires Matches(s, k)
    ensures Matches(Kept(s, index, part), k.(parts := k.parts[index := k.At(index) + [part]]))
  {
    hide Joined;
    JoinOneMore(k.At(index), part);
    assert JoinAll([]) == [];
  }

  lemma ActingMatches(s: State, k: Keeping, a: Action, mint: nat -> string)
    requires Matches(s, k)
    ensures Act(s, a, mint).failed == Keep(k, a, mint).failed
    ensures Matches(Act(s, a, mint).state, Keep(k, a, mint).state)
  {
    hide JoinAll, Joined, Kept, R.OutcomeOf, R.Prepared;
    match a
    case Open(index, field, finish) => OpeningMatches(s, k, index, field, finish, mint);
    case Deliver(index, part) =>
      if part.CallPart? {
        var q := R.Request(index, part.call);
        var r, outcome := R.Prepared(s.registry, q, mint), R.OutcomeOf(s.registry, q, mint);
        if outcome.Accepted? {
          KeepingMatches(s.(registry := r), k.(registry := r), index, part.(call := Stabilised(part.call, outcome.id)));
        }
      } else {
        KeepingMatches(s, k, index, part);
      }
  }

  lemma OpeningMatches(s: State, k: Keeping, index: int, field: IndexField, finish: Option<string>, mint: nat -> string)
    requires Matches(s, k)
    ensures Matches(Opened(s, index, field, finish), Keep(k, Open(index, field, finish), mint).state)
  {
    assert JoinAll([]) == [];
  }

  lemma {:induction false} ActionsMatch(s: State, k: Keeping, actions: seq<Action>, mint: nat -> string)
    requires Matches(s, k)
    ensures ActAll(s, actions, mint).failed == KeepAll(k, actions, mint).failed
    ensures Matches(ActAll(s, actions, mint).state, KeepAll(k, actions, mint).state)
  {
    hide Matches, Act, Keep;
    if actions != [] {
      var n := |actions| - 1;
      ActionsMatch(s, k, actions[..n], mint);
      if !ActAll(s, actions[..n], mint).failed {
        ActingMatches(ActAll(s, actions[..n], mint).state, KeepAll(k, actions[..n], mint).state, actions[n], mint);
      }
    }
  }

  lemma VisitingMatches(s: State, k: Keeping, frame: Frame, mint: nat -> string)
    requires Matches(s, k)
    ensures Visit(s, frame, mint).failed == KeepFrame(k, frame, mint).failed
    ensures Matches(Visit(s, frame, mint).state, KeepFrame(k, frame, mint).state)
  {
    hide ActAll, KeepAll, FrameActions, JoinAll;
    var sized := s.(total := s.total + frame.size);
    if sized.total <= MAX_COLLECTED_BYTES {
      ActionsMatch(Noted(sized, frame), k.(bytes := k.bytes + frame.size), FrameActions(frame), mint);
    }
  }

  lemma {:induction false} WalksMatch(frames: seq<Frame>, n: nat, mint: nat -> string)
    requires n <= |frames|
    ensures var u := Walk(Start(), Visitor(mint), frames, n);
      var v := Walk(Keeping(map[], R.Empty(), 0), Keeper(mint), frames, n);
      u.failed == v.failed && u.seen == v.seen && Matches(u.state, v.state)
  {
    hide Visit, KeepFrame, Admitted;
    if n > 0 {
      hide Matches;
      WalksMatch(frames, n - 1, mint);
      VisitingMatches(Walk(Start(), Visitor(mint), frames, n - 1).state,
        Walk(Keeping(map[], R.Empty(), 0), Keeper(mint), frames, n - 1).state, frames[n - 1], mint);
    }
  }

  /** The parts of every collected candidate are the maximal runs of the parts it keeps. */
  lemma CollectedPartsAreRuns(source: Source, index: int, mint: nat -> string)
    ensures var candidates, kept := Collectors.Walked(source, mint).state.candidates, KeepingOf(source, mint).parts;
      && (index in candidates <==> index in kept)
      && (index in kept ==> AreRuns(candidates[index].parts, kept[index]) && Maximal(candidates[index].parts))
  {
    hide Walk, JoinAll, AreRuns, Maximal;
    WalksMatch(source.frames, |source.frames|, mint);
    var kept := KeepingOf(source, mint).parts;
    if index in kept {
      JoinedPartsAreRuns(kept[index]);
    }
  }
}
