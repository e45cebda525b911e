/**
 The streamed and the collected form of a response carry the same messages.

 The stream writer and the collector run the same walk with registries of their own, so the
 identifiers they generate differ; everything else a reader learns is the same.
 */
module Agreement {
  import opened Wrappers
  import opened Text
  import opened Sets
  import opened Gemini
  import opened OpenAIMessages
  import opened OpenAIReaders
  import R = ToolRegistries
  import S = OpenAIStreams
  import C = Collectors

  /** The generated identifiers: the stream's, the collector's, and the spare ones of the conversion. */
  datatype Mints = Mints(stream: nat -> string, collect: nat -> string, spare: nat -> string)

  // ---- Merging neighbouring texts ------------------------------------------------------

  lemma ExtendingTwice(d: Digest, last: Part, part: Part, spare: nat -> string)
    requires C.Joins(last, part)
    ensures Extend(Extend(d, last, spare), part, spare) == Extend(d, last.(text := last.text + part.text), spare)
  {
    assert (d.content + last.text) + part.text == d.content + (last.text + part.text);
    assert (d.reasoning + last.text) + part.text == d.reasoning + (last.text + part.text);
    assert d.content + "" == d.content && d.reasoning + "" == d.reasoning;
  }

  /** Joining a text to its neighbour loses nothing a message shows. */
  lemma JoiningKeepsMessage(parts: seq<Part>, part: Part, spare: nat -> string)
    ensures Summary(C.Joined(parts, part), spare) == Extend(Summary(parts, spare), part, spare)
  {
    hide Extend;
    var n := |parts|;
    if n > 0 && C.Joins(parts[n - 1], part) {
      var last := parts[n - 1];
      SummaryOfOneMore(parts[..n - 1], last.(text := last.text + part.text), spare);
      ExtendingTwice(Summary(parts[..n - 1], spare), last, part, spare);
    } else {
      SummaryOfOneMore(parts, part, spare);
    }
  }

  // ---- The two states side by side -----------------------------------------------------

  ghost predicate ToolsMatch(a: seq<Tool>, b: seq<Tool>, mints: Mints) {
    |a| == |b| && forall k | 0 <= k < |a| ::
      a[k].name == b[k].name && a[k].args == b[k].args && R.SameUpToMint(a[k].id, b[k].id, mints.stream, mints.collect)
  }

  /** Two messages differ at most in generated tool identifiers. */
  ghost predicate DigestsMatch(a: Digest, b: Digest, mints: Mints) {
    && a.content == b.content && a.reasoning == b.reasoning && a.signature == b.signature
    && ToolsMatch(a.tools, b.tools, mints)
  }

  lemma ExtendingMatches(a: Digest, b: Digest, part: Part, mints: Mints)
    requires DigestsMatch(a, b, mints) && !part.CallPart?
    ensures DigestsMatch(Extend(a, part, mints.spare), Extend(b, part, mints.spare), mints)
  {
  }

  /** What the client of choice `index` knows is what the collector has saved for it. */
  ghost predicate ChoiceMatches(s: S.State, c: C.State, index: int, mints: Mints) {
    && InStep(s, index)
    && (index in s.choices <==> index in c.candidates)
    && (index in s.choices ==>
         DigestsMatch(Read(s.events, index).digest, Summary(c.candidates[index].parts, mints.spare), mints))
  }

  ghost predicate StatesMatch(s: S.State, c: C.State, ids: set<string>, mints: Mints) {
    && R.Matches(s.registry, c.registry, ids, mints.stream, mints.collect)
    && forall index: int :: ChoiceMatches(s, c, index, mints)
  }

  lemma OpeningChoiceMatches(s: S.State, c: C.State, i: int, field: IndexField, finish: Option<string>, index: int,
                             mints: Mints)
    requires ChoiceMatches(s, c, index, mints) && ChoiceMatches(s, c, i, mints)
    ensures ChoiceMatches(S.Opened(s, i, finish), C.Opened(c, i, field, finish), index, mints)
  {
    hide Read, InStep;
    OpeningIsHeard(s, i, finish, index);
  }

  lemma KeepingMatches(c: C.State, i: int, part: Part, index: int, spare: nat -> string)
    requires i in c.candidates
    ensures C.Kept(c, i, part).candidates.Keys == c.candidates.Keys
    ensures index in c.candidates ==>
      var was := Summary(c.candidates[index].parts, spare);
      Summary(C.Kept(c, i, part).candidates[index].parts, spare) == if index == i then Extend(was, part, spare) else was
  {
    hide C.Joined, Extend, Summary;
    JoiningKeepsMessage(c.candidates[i].parts, part, spare);
  }

  lemma PartChoiceMatches(s: S.State, c: C.State, i: int, part: Part, index: int, mints: Mints)
    requires ChoiceMatches(s, c, index, mints) && i in s.choices && i in c.candidates && !part.CallPart?
    ensures ChoiceMatches(S.Delivered(s, i, part, mints.stream).state, C.Delivered(c, i, part, mints.collect).state,
      index, mints)
  {
    hide Read, DigestsMatch, Summary, Extend, C.Kept, S.PartChunks;
    PartIsHeard(s, i, part, mints.stream, index, mints.spare);
    KeepingMatches(c, i, part, index, mints.spare);
    if index == i {
      ExtendingMatches(Read(s.events, index).digest, Summary(c.candidates[index].parts, mints.spare), part, mints);
    }
  }

  /** A stabilised call keeps the identifier the registry gave it. */
  lemma StabilisedTool(call: FunctionCall, id: string, generated: string)
    requires TrimSpace(id) != ""
    ensures ToolOf(C.Stabilised(call, id), generated) == Tool(id, call.name, call.args)
  {
  }

  lemma CallDigestsMatch(a: Digest, b: Digest, call: FunctionCall, sig: string, x: string, y: string, mints: Mints)
    requires DigestsMatch(a, b, mints) && TrimSpace(y) != "" && R.SameUpToMint(x, y, mints.stream, mints.collect)
    ensures DigestsMatch(a.(tools := a.tools + [Tool(x, call.name, call.args)]),
                         Extend(b, CallPart(C.Stabilised(call, y), sig), mints.spare), mints)
  {
    hide C.Stabilised, R.SameUpToMint, ToolOf;
    StabilisedTool(call, y, mints.spare(|b.tools|));
  }

  lemma CallChoiceMatches(s: S.State, c: C.State, i: int, part: Part, x: string, y: string, index: int, mints: Mints)
    requires ChoiceMatches(s, c, index, mints) && i in s.choices && i in c.candidates && part.CallPart?
    requires TrimSpace(y) != "" && R.SameUpToMint(x, y, mints.stream, mints.collect)
    ensures ChoiceMatches(S.CallTaken(s, i, part.call, x), C.Kept(c, i, part.(call := C.Stabilised(part.call, y))),
      index, mints)
  {
    hide Read, DigestsMatch, Summary, Extend, C.Kept, C.Stabilised, R.SameUpToMint, TrimSpace;
    CallIsHeard(s, i, part.call, x, index);
    var kept := part.(call := C.Stabilised(part.call, y));
    KeepingMatches(c, i, kept, index, mints.spare);
    if index == i {
      CallDigestsMatch(Read(s.events, index).digest, Summary(c.candidates[index].parts, mints.spare), part.call,
        part.sig, x, y, mints);
    }
    assert S.CallTaken(s, i, part.call, x).choices.Keys == s.choices.Keys;
  }

  // ---- One action --------------------------------------------------------------------

  predicate CallIdIn(a: Action, ids: set<string>) {
    a.Deliver? && a.part.CallPart? ==> a.part.call.UpstreamId() in ids
  }

  ghost predicate Usable(ids: set<string>, mints: Mints) {
    R.MintsFresh(mints.stream, ids) && R.MintsFresh(mints.collect, ids)
  }

  lemma AcceptedIdIsNotBlank(r: R.Registry, q: R.Request, mint: nat -> string)
    requires R.OutcomeOf(r, q, mint).Accepted?
    ensures TrimSpace(R.OutcomeOf(r, q, mint).id) != ""
  {
    var id := R.OutcomeOf(r, q, mint).id;
    if id == R.Minted(mint, r.count) {
      BlankIffTrimsToNothing(id);
      assert id[0] == 'c' && id[0] in id;
    }
  }

  lemma OpeningMatches(s: S.State, c: C.State, i: int, field: IndexField, finish: Option<string>, ids: set<string>,
                       mints: Mints)
    requires StatesMatch(s, c, ids, mints)
    ensures StatesMatch(S.Opened(s, i, finish), C.Opened(c, i, field, finish), ids, mints)
  {
    hide ChoiceMatches, R.Matches;
    forall index: int
      ensures ChoiceMatches(S.Opened(s, i, finish), C.Opened(c, i, field, finish), index, mints)
    {
      OpeningChoiceMatches(s, c, i, field, finish, index, mints);
    }
  }

  lemma PartMatches(s: S.State, c: C.State, i: int, part: Part, ids: set<string>, mints: Mints)
    requires StatesMatch(s, c, ids, mints) && i in s.choices && !part.CallPart?
    ensures StatesMatch(S.Delivered(s, i, part, mints.stream).state, C.Delivered(c, i, part, mints.collect).state, ids,
      mints)
  {
    hide R.Matches, InStep, DigestsMatch, Read, Summary;
    assert ChoiceMatches(s, c, i, mints);
    forall index: int
      ensures ChoiceMatches(S.Delivered(s, i, part, mints.stream).state, C.Delivered(c, i, part, mints.collect).state,
        index, mints)
    {
      PartChoiceMatches(s, c, i, part, index, mints);
    }
  }

  lemma CallMatches(s: S.State, c: C.State, i: int, part: Part, x: string, y: string, ids: set<string>, mints: Mints)
    requires StatesMatch(s, c, ids, mints) && i in s.choices && part.CallPart?
    requires TrimSpace(y) != "" && R.SameUpToMint(x, y, mints.stream, mints.collect)
    ensures StatesMatch(S.CallTaken(s, i, part.call, x), C.Kept(c, i, part.(call := C.Stabilised(part.call, y))), ids,
      mints)
  {
    hide R.Matches, InStep, DigestsMatch, Read, Summary, R.SameUpToMint, TrimSpace;
    assert ChoiceMatches(s, c, i, mints);
    forall index: int
      ensures ChoiceMatches(S.CallTaken(s, i, part.call, x), C.Kept(c, i, part.(call := C.Stabilised(part.call, y))),
        index, mints)
    {
      CallChoiceMatches(s, c, i, part, x, y, index, mints);
    }
  }

  lemma RegistriesMayChange(s: S.State, c: C.State, r: R.Registry, q: R.Registry, ids: set<string>, mints: Mints)
    requires StatesMatch(s, c, ids, mints) && R.Matches(r, q, ids, mints.stream, mints.collect)
    ensures StatesMatch(s.(registry := r), c.(registry := q), ids, mints)
  {
    hide R.Matches, DigestsMatch, Read, Summary;
    forall index: int
      ensures ChoiceMatches(s.(registry := r), c.(registry := q), index, mints)
    {
      assert ChoiceMatches(s, c, index, mints);
    }
  }

  lemma DeliveringMatches(s: S.State, c: C.State, i: int, part: Part, ids: set<string>, mints: Mints)
    requires StatesMatch(s, c, ids, mints) && i in s.choices && CallIdIn(Deliver(i, part), ids) && Usable(ids, mints)
    ensures S.Delivered(s, i, part, mints.stream).failed == C.Delivered(c, i, part, mints.collect).failed
    ensures !S.Delivered(s, i, part, mints.stream).failed ==>
      StatesMatch(S.Delivered(s, i, part, mints.stream).state, C.Delivered(c, i, part, mints.collect).state, ids, mints)
  {
    hide StatesMatch, R.MintsFresh, R.OutcomeOf, R.Prepared, R.SameUpToMint, R.Matches, S.CallTaken, C.Kept,
      C.Stabilised, TrimSpace;
    if part.CallPart? {
      var q := R.Request(i, part.call);
      RegistriesMatch(s, c, ids, mints);
      R.PreparingMatches(s.registry, c.registry, q, ids, mints.stream, mints.collect);
      var s', c' := s.(registry := R.Prepared(s.registry, q, mints.stream)),
        c.(registry := R.Prepared(c.registry, q, mints.collect));
      RegistriesMayChange(s, c, s'.registry, c'.registry, ids, mints);
      var x, y := R.OutcomeOf(s.registry, q, mints.stream), R.OutcomeOf(c.registry, q, mints.collect);
      if x.Accepted? {
        AcceptedIdIsNotBlank(c.registry, q, mints.collect);
        CallMatches(s', c', i, part, x.id, y.id, ids, mints);
      }
    } else {
      PartMatches(s, c, i, part, ids, mints);
    }
  }

  lemma RegistriesMatch(s: S.State, c: C.State, ids: set<string>, mints: Mints)
    requires StatesMatch(s, c, ids, mints)
    ensures R.Matches(s.registry, c.registry, ids, mints.stream, mints.collect)
  {
  }

  // ---- All actions of a frame ----------------------------------------------------------

  lemma {:induction false} OpenedStaysOpen(s: S.State, actions: seq<Action>, index: int, mint: nat -> string)
    requires !S.ActAll(s, actions, mint).failed && OpenedIn(actions, index)
    ensures index in S.ActAll(s, actions, mint).state.choices
  {
    var front, a := actions[..|actions| - 1], actions[|actions| - 1];
    if !(a.Open? && a.index == index) {
      assert OpenedIn(front, index) by {
        var o :| o in actions && o.Open? && o.index == index;
        assert o in front;
      }
      OpenedStaysOpen(s, front, index, mint);
    }
  }

  lemma {:induction false} ActionsMatch(s: S.State, c: C.State, actions: seq<Action>, ids: set<string>, mints: Mints)
    requires StatesMatch(s, c, ids, mints) && Usable(ids, mints)
    requires OpenedBefore(actions) && forall a <- actions :: CallIdIn(a, ids)
    ensures S.ActAll(s, actions, mints.stream).failed == C.ActAll(c, actions, mints.collect).failed
    ensures !S.ActAll(s, actions, mints.stream).failed ==>
      StatesMatch(S.ActAll(s, actions, mints.stream).state, C.ActAll(c, actions, mints.collect).state, ids, mints)
  {
    hide StatesMatch, Usable, CallIdIn, OpenedIn, S.Delivered, C.Delivered, S.Opened, C.Opened;
    if actions != [] {
      var n := |actions| - 1;
      var a := actions[n];
      assert forall k | 0 <= k < n :: actions[..n][..k] == actions[..k];
      ActionsMatch(s, c, actions[..n], ids, mints);
      var s', c' := S.ActAll(s, actions[..n], mints.stream), C.ActAll(c, actions[..n], mints.collect);
      if !s'.failed {
        match a
        case Open(i, field, finish) => OpeningMatches(s'.state, c'.state, i, field, finish, ids, mints);
        case Deliver(i, part) =>
          OpenedStaysOpen(s, actions[..n], i, mints.stream);
          DeliveringMatches(s'.state, c'.state, i, part, ids, mints);
      }
    }
  }

  lemma {:induction false} StreamKeepsLatestFinish(s: S.State, actions: seq<Action>, index: int, mint: nat -> string)
    requires !S.ActAll(s, actions, mint).failed
    ensures S.ActAll(s, actions, mint).state.ChoiceAt(index).finish
      == Latest(s.ChoiceAt(index).finish, actions, index, false)
  {
    if actions != [] {
      StreamKeepsLatestFinish(s, actions[..|actions| - 1], index, mint);
    }
  }

  lemma {:induction false} CollectorKeepsLatestFinish(c: C.State, actions: seq<Action>, index: int, mint: nat -> string)
    requires !C.ActAll(c, actions, mint).failed
    ensures C.ActAll(c, actions, mint).state.SavedAt(index).finish.GetOr("")
         == Latest(c.SavedAt(index).finish.GetOr(""), actions, index, true)
    ensures C.ActAll(c, actions, mint).state.total == c.total && C.ActAll(c, actions, mint).state.response == c.response
  {
    if actions != [] {
      CollectorKeepsLatestFinish(c, actions[..|actions| - 1], index, mint);
    }
  }

  // ---- Whole runs ------------------------------------------------------------------------

  ghost predicate FinishesFollow(s: S.State, c: C.State, frames: seq<Frame>, n: nat)
    requires n <= |frames|
  {
    forall index: int ::
      && s.ChoiceAt(index).finish == LatestIn(frames, n, index, false)
      && c.SavedAt(index).finish.GetOr("") == LatestIn(frames, n, index, true)
  }

  lemma SizedStatesMatch(s: S.State, c: C.State, usage: Option<string>, total: nat, inner: Option<Inner>,
                         ids: set<string>, mints: Mints)
    requires StatesMatch(s, c, ids, mints)
    ensures StatesMatch(s.(usage := usage), c.(total := total, response := inner), ids, mints)
  {
    hide R.Matches, DigestsMatch, Read, Summary;
    forall index: int
      ensures ChoiceMatches(s.(usage := usage), c.(total := total, response := inner), index, mints)
    {
      assert ChoiceMatches(s, c, index, mints);
    }
  }

  lemma FrameMatches(s: S.State, c: C.State, frames: seq<Frame>, n: nat, ids: set<string>, mints: Mints)
    requires n < |frames| && ids == CallIds(frames)
    requires StatesMatch(s, c, ids, mints) && Usable(ids, mints) && FinishesFollow(s, c, frames, n)
    requires c.total <= C.MAX_COLLECTED_BYTES
    ensures var u, v := S.Visit(s, frames[n], mints.stream), C.Visit(c, frames[n], mints.collect);
      && (v.failed <==> u.failed || c.total + frames[n].size > C.MAX_COLLECTED_BYTES)
      && (!v.failed ==> StatesMatch(u.state, v.state, ids, mints) && v.state.total == c.total + frames[n].size)
      && (!v.failed ==> FinishesFollow(u.state, v.state, frames, n + 1))
  {
    hide StatesMatch, Usable, S.ActAll, C.ActAll, FrameActions, OpenedBefore;
    var actions := FrameActions(frames[n]);
    var s', c' := S.WithUsage(s, frames[n]), C.Noted(c.(total := c.total + frames[n].size), frames[n]);
    SizedStatesMatch(s, c, s'.usage, c'.total, c'.response, ids, mints);
    FrameIsOpenedBefore(frames[n]);
    forall a <- actions ensures CallIdIn(a, ids) {
      assert frames[n] in frames;
    }
    ActionsMatch(s', c', actions, ids, mints);
    if !C.Visit(c, frames[n], mints.collect).failed {
      forall index: int
        ensures S.ActAll(s', actions, mints.stream).state.ChoiceAt(index).finish
          == LatestIn(frames, n + 1, index, false)
        ensures C.ActAll(c', actions, mints.collect).state.SavedAt(index).finish.GetOr("")
          == LatestIn(frames, n + 1, index, true)
      {
        StreamKeepsLatestFinish(s', actions, index, mints.stream);
        CollectorKeepsLatestFinish(c', actions, index, mints.collect);
      }
      CollectorKeepsLatestFinish(c', actions, 0, mints.collect);
    }
  }

  lemma FrameIsOpenedBefore(frame: Frame)
    ensures OpenedBefore(FrameActions(frame))
  {
    ActionsAreOpenedBefore(frame.candidates, |frame.candidates|);
  }

  lemma StartsMatch(frames: seq<Frame>, ids: set<string>, mints: Mints)
    ensures StatesMatch(S.Start(), C.Start(), ids, mints) && FinishesFollow(S.Start(), C.Start(), frames, 0)
  {
    R.EmptyMatches(ids, mints.stream, mints.collect);
  }

  function StreamWalk(frames: seq<Frame>, n: nat, mints: Mints): Walked<S.State>
    requires n <= |frames|
  {
    Walk(S.Start(), S.Visitor(mints.stream), frames, n)
  }

  function CollectWalk(frames: seq<Frame>, n: nat, mints: Mints): Walked<C.State>
    requires n <= |frames|
  {
    Walk(C.Start(), C.Visitor(mints.collect), frames, n)
  }

  lemma {:induction false} WalksMatch(frames: seq<Frame>, n: nat, ids: set<string>, mints: Mints)
    requires n <= |frames| && ids == CallIds(frames) && Usable(ids, mints)
    ensures !CollectWalk(frames, n, mints).failed <==>
      !StreamWalk(frames, n, mints).failed && TotalSize(frames, n) <= C.MAX_COLLECTED_BYTES
    ensures !CollectWalk(frames, n, mints).failed ==>
      var u, v := StreamWalk(frames, n, mints), CollectWalk(frames, n, mints);
      u.seen == v.seen && StatesMatch(u.state, v.state, ids, mints) && FinishesFollow(u.state, v.state, frames, n)
      && v.state.total == TotalSize(frames, n)
  {
    hide StatesMatch, Usable, FinishesFollow, S.Visit, C.Visit, Admitted, CallIds;
    if n == 0 {
      StartsMatch(frames, ids, mints);
    } else {
      WalksMatch(frames, n - 1, ids, mints);
      if !CollectWalk(frames, n - 1, mints).failed {
        FrameMatches(StreamWalk(frames, n - 1, mints).state, CollectWalk(frames, n - 1, mints).state, frames, n - 1,
          ids, mints);
      }
    }
  }

  /** Collecting succeeds exactly when streaming does and the response is within the size limit. */
  lemma CollectingSucceedsIffStreamingDoes(source: Source, mints: Mints)
    requires Usable(CallIds(source.frames), mints)
    ensures C.Succeeds(source, mints.collect) <==>
      S.Succeeds(source, mints.stream) && TotalSize(source.frames, |source.frames|) <= C.MAX_COLLECTED_BYTES
  {
    hide Walk, StatesMatch, FinishesFollow, Usable, Complete, CallIds;
    WalksMatch(source.frames, |source.frames|, CallIds(source.frames), mints);
  }

  /** The candidates of the collected response. */
  function Collected(source: Source, mints: Mints): map<int, Saved> {
    C.Walked(source, mints.collect).state.candidates
  }

  /**
   Streaming refines collecting. When both succeed, the chunks of every choice read as the
   message that conversion builds from the collected candidate, up to generated identifiers,
   and a choice is heard of exactly when its candidate was collected.
   */
  lemma StreamReadsAsCollected(source: Source, index: int, mints: Mints)
    requires Usable(CallIds(source.frames), mints)
    requires S.Succeeds(source, mints.stream) && C.Succeeds(source, mints.collect)
    ensures var r := Read(S.Output(source, mints.stream), index);
      if index in Collected(source, mints) then
        var d := Summary(Collected(source, mints)[index].parts, mints.spare);
        && r.Finished? && DigestsMatch(r.digest, d, mints)
        && r.reason == OpenaiFinish(LatestIn(source.frames, |source.frames|, index, false), d.tools != [])
      else r.Waiting?
  {
    hide Walk, Usable, Complete, S.Ending, Summary, Read, OpenaiFinish, R.Matches, CallIds;
    var n := |source.frames|;
    WalksMatch(source.frames, n, CallIds(source.frames), mints);
    var s, c := StreamWalk(source.frames, n, mints).state, CollectWalk(source.frames, n, mints).state;
    assert ChoiceMatches(s, c, index, mints);
    EndingIsHeard(s, index);
  }

  /** The finish reason that conversion gives a collected candidate. */
  function CollectedReason(source: Source, index: int, mints: Mints): string
    requires index in Collected(source, mints)
  {
    var saved := Collected(source, mints)[index];
    OpenaiFinish(saved.finish.GetOr(""), Summary(saved.parts, mints.spare).tools != [])
  }

  // ---- Finish reasons ----------------------------------------------------------------------

  /** The writer and the walker remember the same candidates, with the same finish reasons. */
  ghost predicate Tracks(seen: map<int, Seen>, s: S.State) {
    && seen.Keys == s.choices.Keys
    && forall index <- seen :: seen[index].finish == s.choices[index].finish
  }

  lemma {:induction false} ActAllConcat(s: S.State, a: seq<Action>, b: seq<Action>, mint: nat -> string)
    ensures S.ActAll(s, a + b, mint)
         == var before := S.ActAll(s, a, mint); if before.failed then before else S.ActAll(before.state, b, mint)
  {
    hide S.Act;
    if b == [] {
      assert a + b == a;
    } else {
      var n := |b| - 1;
      ActAllConcat(s, a, b[..n], mint);
      assert a + b == (a + b[..n]) + [b[n]];
      S.ActAllOfOneMore(s, a + b[..n], b[n], mint);
    }
  }

  lemma DeliveryKeepsFinishes(s: S.State, seen: map<int, Seen>, index: int, part: Part, mint: nat -> string)
    requires Tracks(seen, s) && index in s.choices
    ensures Tracks(seen, S.Delivered(s, index, part, mint).state)
  {
    hide S.PartChunks;
  }

  lemma {:induction false} DeliveriesKeepFinishes(s: S.State, seen: map<int, Seen>, index: int, parts: seq<Part>,
                                                  n: nat, mint: nat -> string)
    requires n <= |parts| && Tracks(seen, s) && index in s.choices
    ensures Tracks(seen, S.ActAll(s, Deliveries(index, parts, n), mint).state)
  {
    if n > 0 {
      DeliveriesKeepFinishes(s, seen, index, parts, n - 1, mint);
      S.ActAllOfOneMore(s, Deliveries(index, parts, n - 1), Deliver(index, parts[n - 1]), mint);
      hide Tracks, S.Delivered;
      var before := S.ActAll(s, Deliveries(index, parts, n - 1), mint);
      if !before.failed {
        KnownIndex(seen, s, before.state, index);
        DeliveryKeepsFinishes(before.state, seen, index, parts[n - 1], mint);
      }
    }
  }

  lemma KnownIndex(seen: map<int, Seen>, s: S.State, t: S.State, index: int)
    requires Tracks(seen, s) && Tracks(seen, t) && index in s.choices
    ensures index in t.choices
  {
  }

  lemma {:induction false} CandidatesAreTracked(candidates: seq<Candidate>, n: nat, seen: map<int, Seen>, s: S.State,
                                                mint: nat -> string)
    requires n <= |candidates| && Tracks(seen, s) && Admitted(candidates, n, seen).Some?
    requires !S.ActAll(s, Actions(candidates, n), mint).failed
    ensures Tracks(Admitted(candidates, n, seen).value, S.ActAll(s, Actions(candidates, n), mint).state)
  {
    hide Tracks, S.ActAll, S.Act, S.Opened, OpeningOf, Deliveries, Note, IndexAllowed;
    if n == 0 {
      S.NothingActed(s, mint);
    } else {
      var c := candidates[n - 1];
      var front := Actions(candidates, n - 1);
      var before := S.ActAll(s, front, mint);
      CandidateActsInSteps(s, front, c, n - 1, mint);
      CandidatesAreTracked(candidates, n - 1, seen, s, mint);
      CandidateIsTracked(c, n - 1, Admitted(candidates, n - 1, seen).value, before.state, mint);
    }
  }

  lemma CandidateActsInSteps(s: S.State, front: seq<Action>, c: Candidate, position: nat, mint: nat -> string)
    requires !S.ActAll(s, front + CandidateActions(c, position), mint).failed
    ensures var before := S.ActAll(s, front, mint);
      !before.failed && S.ActAll(s, front + CandidateActions(c, position), mint)
        == S.ActAll(before.state, CandidateActions(c, position), mint)
  {
    hide S.ActAll, CandidateActions;
    ActAllConcat(s, front, CandidateActions(c, position), mint);
  }

  lemma CandidateIsTracked(c: Candidate, position: nat, seen: map<int, Seen>, s: S.State, mint: nat -> string)
    requires Tracks(seen, s) && IndexAllowed(c, position, seen)
    ensures Tracks(Note(c, position, seen), S.ActAll(s, CandidateActions(c, position), mint).state)
  {
    hide Tracks, S.ActAll, S.Opened, Deliveries, Note, IndexAllowed;
    var opening := OpeningOf(c, position);
    NotingTracks(c, position, seen, s);
    S.NothingActed(s, mint);
    S.ActAllOfOneMore(s, [], opening, mint);
    assert [] + [opening] == [opening];
    ActAllConcat(s, [opening], Deliveries(c.Index(position), c.Parts(), |c.Parts()|), mint);
    DeliveriesKeepFinishes(S.Opened(s, opening.index, opening.finish), Note(c, position, seen), c.Index(position),
      c.Parts(), |c.Parts()|, mint);
  }

  lemma NotingTracks(c: Candidate, position: nat, seen: map<int, Seen>, s: S.State)
    requires IndexAllowed(c, position, seen) && Tracks(seen, s)
    ensures OpeningOf(c, position).Open? && OpeningOf(c, position).index == c.Index(position)
    ensures Tracks(Note(c, position, seen), S.Opened(s, c.Index(position), OpeningOf(c, position).finish))
    ensures c.Index(position) in S.Opened(s, c.Index(position), OpeningOf(c, position).finish).choices
  {
  }

  lemma {:induction false} WalkIsTracked(frames: seq<Frame>, n: nat, mints: Mints)
    requires n <= |frames| && !StreamWalk(frames, n, mints).failed
    ensures Tracks(StreamWalk(frames, n, mints).seen, StreamWalk(frames, n, mints).state)
  {
    if n > 0 {
      WalkIsTracked(frames, n - 1, mints);
      var before, frame := StreamWalk(frames, n - 1, mints), frames[n - 1];
      CandidatesAreTracked(frame.candidates, |frame.candidates|, before.seen, S.WithUsage(before.state, frame),
        mints.stream);
    }
  }

  lemma {:induction false} LatestNonEmptyIsLatest(before: string, later: string, actions: seq<Action>, index: int)
    requires later != "" ==> before == later
    requires Latest(later, actions, index, true) != ""
    ensures Latest(before, actions, index, false) == Latest(later, actions, index, true)
  {
    if actions != [] {
      var a := actions[|actions| - 1];
      if !(a.Open? && a.index == index && a.finish.Some?) {
        LatestNonEmptyIsLatest(before, later, actions[..|actions| - 1], index);
      }
    }
  }

  lemma {:induction false} LatestInNonEmptyIsLatest(frames: seq<Frame>, n: nat, index: int)
    requires n <= |frames| && LatestIn(frames, n, index, true) != ""
    ensures LatestIn(frames, n, index, false) == LatestIn(frames, n, index, true)
  {
    if n > 0 {
      if LatestIn(frames, n - 1, index, true) != "" {
        LatestInNonEmptyIsLatest(frames, n - 1, index);
      }
      LatestNonEmptyIsLatest(LatestIn(frames, n - 1, index, false), LatestIn(frames, n - 1, index, true),
        FrameActions(frames[n - 1]), index);
    }
  }

  // ---- Which choices have calls ------------------------------------------------------------

  predicate IsCallTo(a: Action, index: int) {
    a.Deliver? && a.index == index && a.part.CallPart?
  }

  /** Some call is delivered to candidate `index` in the first `n` frames. */
  predicate HasCall(frames: seq<Frame>, n: nat, index: int)
    requires n <= |frames|
  {
    exists k | 0 <= k < n :: HasCallIn(FrameActions(frames[k]), index)
  }

  predicate HasCallIn(actions: seq<Action>, index: int) {
    exists a <- actions :: IsCallTo(a, index)
  }

  lemma HasCallInOneMore(actions: seq<Action>, a: Action, index: int)
    ensures HasCallIn(actions + [a], index) <==> HasCallIn(actions, index) || IsCallTo(a, index)
  {
    if HasCallIn(actions, index) {
      var b :| b in actions && IsCallTo(b, index);
      assert b in actions + [a];
    }
    assert a in actions + [a];
  }

  /** Every recorded call has given its choice a tool. */
  ghost predicate CallsAreTools(s: S.State) {
    forall index: int, id: string :: R.Key(index, id) in s.registry.seen ==> s.ChoiceAt(index).toolIndex > 0
  }

  lemma CallBecomesTool(s: S.State, i: int, part: Part, index: int, mint: nat -> string)
    requires CallsAreTools(s) && part.CallPart? && !S.Delivered(s, i, part, mint).failed
    ensures CallsAreTools(S.Delivered(s, i, part, mint).state)
    ensures S.Delivered(s, i, part, mint).state.ChoiceAt(index).toolIndex > 0 <==>
      s.ChoiceAt(index).toolIndex > 0 || index == i
  {
    hide R.Key, TrimSpace;
    var q, t := R.Request(i, part.call), S.Delivered(s, i, part, mint).state;
    forall j: int, id: string | R.Key(j, id) in t.registry.seen
      ensures t.ChoiceAt(j).toolIndex > 0
    {
      if R.Key(j, id) !in s.registry.seen {
        R.KeyIsInjective(j, id, i, part.call.UpstreamId());
      }
    }
    if R.OutcomeOf(s.registry, q, mint).Repeated? {
      assert R.Key(i, part.call.UpstreamId()) in s.registry.seen;
    }
  }

  lemma ActCountsCalls(s: S.State, a: Action, index: int, mint: nat -> string)
    requires CallsAreTools(s) && !S.Act(s, a, mint).failed
    ensures CallsAreTools(S.Act(s, a, mint).state)
    ensures S.Act(s, a, mint).state.ChoiceAt(index).toolIndex > 0 <==>
      s.ChoiceAt(index).toolIndex > 0 || IsCallTo(a, index)
  {
    hide R.Key, R.OutcomeOf, R.Prepared, S.PartChunks;
    if a.Deliver? && a.part.CallPart? {
      CallBecomesTool(s, a.index, a.part, index, mint);
    }
  }

  lemma {:induction false} ActionsCountCalls(s: S.State, actions: seq<Action>, index: int, mint: nat -> string)
    requires CallsAreTools(s) && !S.ActAll(s, actions, mint).failed
    ensures CallsAreTools(S.ActAll(s, actions, mint).state)
    ensures S.ActAll(s, actions, mint).state.ChoiceAt(index).toolIndex > 0 <==>
      s.ChoiceAt(index).toolIndex > 0 || HasCallIn(actions, index)
  {
    if actions != [] {
      hide CallsAreTools, S.Act, HasCallIn, IsCallTo;
      var n := |actions| - 1;
      ActionsCountCalls(s, actions[..n], index, mint);
      ActCountsCalls(S.ActAll(s, actions[..n], mint).state, actions[n], index, mint);
      HasCallInOneMore(actions[..n], actions[n], index);
      assert actions[..n] + [actions[n]] == actions;
    }
  }

  lemma {:induction false} WalkCountsCalls(frames: seq<Frame>, n: nat, index: int, mints: Mints)
    requires n <= |frames| && !StreamWalk(frames, n, mints).failed
    ensures CallsAreTools(StreamWalk(frames, n, mints).state)
    ensures StreamWalk(frames, n, mints).state.ChoiceAt(index).toolIndex > 0 <==> HasCall(frames, n, index)
  {
    hide S.ActAll, FrameActions, HasCallIn, Admitted;
    if n > 0 {
      WalkCountsCalls(frames, n - 1, index, mints);
      var before, frame := StreamWalk(frames, n - 1, mints).state, frames[n - 1];
      UsageCountsNothing(before, frame, index);
      ActionsCountCalls(S.WithUsage(before, frame), FrameActions(frame), index, mints.stream);
      assert HasCall(frames, n, index) <==> HasCall(frames, n - 1, index) || HasCallIn(FrameActions(frame), index);
    }
  }

  lemma UsageCountsNothing(s: S.State, frame: Frame, index: int)
    requires CallsAreTools(s)
    ensures CallsAreTools(S.WithUsage(s, frame)) && S.WithUsage(s, frame).ChoiceAt(index) == s.ChoiceAt(index)
  {
  }

  /** A choice has tools exactly when some call was delivered to it: a repeated one had its first time. */
  lemma ToolsAreCalls(source: Source, index: int, mints: Mints)
    requires Usable(CallIds(source.frames), mints)
    requires S.Succeeds(source, mints.stream) && C.Succeeds(source, mints.collect) && index in Collected(source, mints)
    ensures var r := Read(S.Output(source, mints.stream), index);
      r.Finished? && (r.digest.tools != [] <==> HasCall(source.frames, |source.frames|, index))
  {
    hide Walk, Usable, Summary, Read, OpenaiFinish, Tracks, LatestIn, CallIds, HasCall, CallsAreTools, S.Ending,
      Complete;
    var n := |source.frames|;
    WalksMatch(source.frames, n, CallIds(source.frames), mints);
    var s := StreamWalk(source.frames, n, mints).state;
    assert ChoiceMatches(s, CollectWalk(source.frames, n, mints).state, index, mints);
    WalkCountsCalls(source.frames, n, index, mints);
    EndingIsHeard(s, index);
  }

  // ---- When the two reasons agree ------------------------------------------------------------

  /** When an empty finish reason reads like a given one. */
  predicate ReadsLikeEmpty(reason: string, hasTools: bool) {
    EqualFold(reason, "STOP") || (hasTools && !EqualFold(reason, "MAX_TOKENS") && !EqualFold(reason, "SAFETY"))
  }

  lemma LowerStopIsUpperStop(s: string)
    requires ToLower(s) == "stop"
    ensures ToUpper(s) == "STOP"
  {
    assert |s| == 4 && forall i | 0 <= i < 4 :: LowerChar(s[i]) == "stop"[i];
    assert forall i | 0 <= i < 4 :: UpperChar(s[i]) == "STOP"[i];
  }

  lemma EmptyReasonReadsLike(reason: string, hasTools: bool)
    requires reason != ""
    ensures OpenaiFinish(reason, hasTools) == OpenaiFinish("", hasTools) <==> ReadsLikeEmpty(reason, hasTools)
  {
    assert ToUpper("STOP") == "STOP" && ToUpper("MAX_TOKENS") == "MAX_TOKENS" && ToUpper("SAFETY") == "SAFETY"
      && ToUpper("") == "";
    if ToLower(reason) == "stop" {
      LowerStopIsUpperStop(reason);
    }
  }

  /**
   The two finish reasons agree exactly when the last finishReason field of the candidate is
   nonempty, or the last nonempty one reads like an empty one, which depends on whether the
   candidate is given any call. In particular they agree on
   every stream whose finishReason fields are nonempty when present.
   */
  lemma FinishReasonsAgreeIff(source: Source, index: int, mints: Mints)
    requires Usable(CallIds(source.frames), mints)
    requires S.Succeeds(source, mints.stream) && C.Succeeds(source, mints.collect) && index in Collected(source, mints)
    ensures var n := |source.frames|;
      var r := Read(S.Output(source, mints.stream), index);
      r.Finished? &&
      (r.reason == CollectedReason(source, index, mints) <==>
        LatestIn(source.frames, n, index, true) != ""
          || ReadsLikeEmpty(LatestIn(source.frames, n, index, false), HasCall(source.frames, n, index)))
  {
    hide Walk, Usable, Summary, Read, OpenaiFinish, ReadsLikeEmpty, Tracks, StatesMatch, LatestIn, CallIds, HasCall;
    var n := |source.frames|;
    StreamReadsAsCollected(source, index, mints);
    ToolsAreCalls(source, index, mints);
    WalksMatch(source.frames, n, CallIds(source.frames), mints);
    StreamFinishIsNotEmpty(source, index, mints);
    if LatestIn(source.frames, n, index, true) != "" {
      LatestInNonEmptyIsLatest(source.frames, n, index);
    } else {
      EmptyReasonReadsLike(LatestIn(source.frames, n, index, false),
        Read(S.Output(source, mints.stream), index).digest.tools != []);
    }
  }

  lemma StreamFinishIsNotEmpty(source: Source, index: int, mints: Mints)
    requires Usable(CallIds(source.frames), mints)
    requires S.Succeeds(source, mints.stream) && C.Succeeds(source, mints.collect) && index in Collected(source, mints)
    ensures LatestIn(source.frames, |source.frames|, index, false) != ""
  {
    hide Walk, Usable, LatestIn, CallIds;
    var n := |source.frames|;
    WalksMatch(source.frames, n, CallIds(source.frames), mints);
    WalkIsTracked(source.frames, n, mints);
    assert ChoiceMatches(StreamWalk(source.frames, n, mints).state, CollectWalk(source.frames, n, mints).state, index,
      mints);
  }

  /** No candidate carries an empty finishReason field. */
  predicate ReasonsAreGiven(actions: seq<Action>) {
    forall k | 0 <= k < |actions| && actions[k].Open? && actions[k].finish.Some? :: actions[k].finish.value != ""
  }

  lemma {:induction false} GivenReasonIsLatest(before: string, actions: seq<Action>, index: int)
    requires ReasonsAreGiven(actions)
    ensures Latest(before, actions, index, true) == Latest(before, actions, index, false)
  {
    if actions != [] {
      GivenReasonIsLatest(before, actions[..|actions| - 1], index);
    }
  }

  lemma {:induction false} GivenReasonIsLatestIn(frames: seq<Frame>, n: nat, index: int)
    requires n <= |frames| && forall k | 0 <= k < n :: ReasonsAreGiven(FrameActions(frames[k]))
    ensures LatestIn(frames, n, index, true) == LatestIn(frames, n, index, false)
  {
    hide ReasonsAreGiven, FrameActions, Latest;
    if n > 0 {
      GivenReasonIsLatestIn(frames, n - 1, index);
      GivenReasonIsLatest(LatestIn(frames, n - 1, index, true), FrameActions(frames[n - 1]), index);
    }
  }

  /** On streams whose finishReason fields are nonempty when present, the finish reasons agree. */
  lemma GivenReasonsAgree(source: Source, index: int, mints: Mints)
    requires Usable(CallIds(source.frames), mints)
    requires forall k | 0 <= k < |source.frames| :: ReasonsAreGiven(FrameActions(source.frames[k]))
    requires S.Succeeds(source, mints.stream) && C.Succeeds(source, mints.collect) && index in Collected(source, mints)
    ensures var r := Read(S.Output(source, mints.stream), index);
      r.Finished? && r.reason == CollectedReason(source, index, mints)
  {
    hide Usable, S.Succeeds, C.Succeeds, Read, ReadsLikeEmpty, LatestIn, CallIds, Collected, CollectedReason,
      ReasonsAreGiven, FrameActions, HasCall;
    StreamFinishIsNotEmpty(source, index, mints);
    GivenReasonIsLatestIn(source.frames, |source.frames|, index);
    FinishReasonsAgreeIff(source, index, mints);
  }

  // ---- The conversion of what was collected --------------------------------------------------

  /** The collected response. */
  function CollectedBody(source: Source, mints: Mints): Body {
    C.BodyOf(C.Walked(source, mints.collect).state)
  }

  lemma {:induction false} CollectorKeepsInner(frames: seq<Frame>, n: nat, mints: Mints)
    requires n <= |frames| && !CollectWalk(frames, n, mints).failed
    ensures CollectWalk(frames, n, mints).state.response == LastInner(frames, n)
  {
    hide C.ActAll, FrameActions, Admitted;
    if n > 0 {
      CollectorKeepsInner(frames, n - 1, mints);
      var c, frame := CollectWalk(frames, n - 1, mints).state, frames[n - 1];
      CollectorKeepsLatestFinish(C.Noted(c.(total := c.total + frame.size), frame), FrameActions(frame), 0,
        mints.collect);
    }
  }

  /**
   The chunks of choice `choice.index` read as the choice, with the same reason when the last one given
   is nonempty.
   */
  ghost predicate ReadsAs(source: Source, choice: Choice, mints: Mints) {
    var r := Read(S.Output(source, mints.stream), choice.index);
    && r.Finished? && DigestsMatch(r.digest, choice.message.Reads(), mints)
    && (LatestIn(source.frames, |source.frames|, choice.index, true) != "" ==> r.reason == choice.finish)
  }

  lemma CollectedReadsAs(source: Source, choice: Choice, k: nat, mints: Mints)
    requires Usable(CallIds(source.frames), mints)
    requires S.Succeeds(source, mints.stream) && C.Succeeds(source, mints.collect)
    requires k < |CollectedBody(source, mints).candidates|
    requires var (index, saved) := CollectedBody(source, mints).candidates[k];
      Presents(choice, index, saved, mints.spare)
    ensures ReadsAs(source, choice, mints)
  {
    hide Usable, S.Succeeds, C.Succeeds, Read, Summary, OpenaiFinish, ReadsLikeEmpty, LatestIn, CallIds, DigestsMatch,
      HasCall;
    ResponseIsCollected(Collected(source, mints), k);
    StreamReadsAsCollected(source, choice.index, mints);
    FinishReasonsAgreeIff(source, choice.index, mints);
  }

  lemma SomethingIsCollected(source: Source, mints: Mints)
    requires Usable(CallIds(source.frames), mints)
    requires S.Succeeds(source, mints.stream) && C.Succeeds(source, mints.collect)
    ensures CollectedBody(source, mints).candidates != []
  {
    hide Walk, Usable, LatestIn, CallIds;
    var n := |source.frames|;
    WalksMatch(source.frames, n, CallIds(source.frames), mints);
    WalkIsTracked(source.frames, n, mints);
    var seen := StreamWalk(source.frames, n, mints).seen;
    assert seen.Keys != {};
    var index := Member(seen.Keys);
    assert ChoiceMatches(StreamWalk(source.frames, n, mints).state, CollectWalk(source.frames, n, mints).state, index,
      mints);
    assert index in Collected(source, mints).Keys;
  }

  lemma {:induction false} ActionsNull(c: C.State, actions: seq<Action>, index: int, mint: nat -> string)
    requires !C.ActAll(c, actions, mint).failed
    ensures C.ActAll(c, actions, mint).state.SavedAt(index).nulled == Nulled(c.SavedAt(index).nulled, actions, index)
  {
    if actions != [] {
      ActionsNull(c, actions[..|actions| - 1], index, mint);
    }
  }

  lemma {:induction false} WalkNulls(frames: seq<Frame>, n: nat, index: int, mints: Mints)
    requires n <= |frames| && !CollectWalk(frames, n, mints).failed
    ensures CollectWalk(frames, n, mints).state.SavedAt(index).nulled == NulledIn(frames, n, index)
  {
    hide C.ActAll, FrameActions, Admitted, Nulled;
    if n > 0 {
      WalkNulls(frames, n - 1, index, mints);
      var c, frame := CollectWalk(frames, n - 1, mints).state, frames[n - 1];
      ActionsNull(C.Noted(c.(total := c.total + frame.size), frame), FrameActions(frame), index, mints.collect);
    }
  }

  /** A candidate is collected exactly for the indices that appear. */
  lemma CollectedIffAppears(source: Source, index: int, mints: Mints)
    requires Usable(CallIds(source.frames), mints)
    requires S.Succeeds(source, mints.stream) && C.Succeeds(source, mints.collect)
    ensures index in Collected(source, mints) <==> Appears(source.frames, |source.frames|, index)
    ensures index in Collected(source, mints) ==>
      index >= 0 && Collected(source, mints)[index].nulled == NulledIn(source.frames, |source.frames|, index)
  {
    hide Walk, Usable, LatestIn, CallIds, Complete, Appears, NulledIn, DigestsMatch, InStep, Read, Summary;
    var n := |source.frames|;
    WalksMatch(source.frames, n, CallIds(source.frames), mints);
    WalkIsTracked(source.frames, n, mints);
    SeenAppears(S.Start(), S.Visitor(mints.stream), source.frames, n, index);
    WalkNulls(source.frames, n, index, mints);
    assert ChoiceMatches(StreamWalk(source.frames, n, mints).state, CollectWalk(source.frames, n, mints).state, index,
      mints);
  }

  /** Where the last `index` member of a candidate is null, all smaller indices appear as well. */
  ghost predicate NullsAreRanked(frames: seq<Frame>) {
    forall index: int, smaller: int
      | Appears(frames, |frames|, index) && NulledIn(frames, |frames|, index) && 0 <= smaller < index
      :: Appears(frames, |frames|, smaller)
  }

  ghost predicate HasChoice(choices: seq<Choice>, index: int) {
    exists k | 0 <= k < |choices| :: choices[k].index == index
  }

  /** Every choice reads as the chunks of its index, and every index that is heard of has a choice. */
  ghost predicate ChoicesAreStreamed(source: Source, choices: seq<Choice>, mints: Mints) {
    && (forall k | 0 <= k < |choices| :: ReadsAs(source, choices[k], mints))
    && (forall index: int | !Read(S.Output(source, mints.stream), index).Waiting? :: HasChoice(choices, index))
  }

  /** The indices of the collected candidates, and those that conversion shows. */
  function Ranked(source: Source, mints: Mints): seq<int> {
    Ascending(Collected(source, mints).Keys)
  }

  function Renumbered(source: Source, mints: Mints): (shown: seq<int>)
    ensures |shown| == |Ranked(source, mints)|
  {
    var candidates := CollectedBody(source, mints).candidates;
    seq(|candidates|, k requires 0 <= k < |candidates| => ShownIndex(candidates, k))
  }

  lemma RankedAppears(source: Source, k: nat, mints: Mints)
    requires Usable(CallIds(source.frames), mints)
    requires S.Succeeds(source, mints.stream) && C.Succeeds(source, mints.collect) && k < |Ranked(source, mints)|
    ensures var r := Ranked(source, mints);
      && r[0] >= 0 && Appears(source.frames, |source.frames|, r[k])
      && Renumbered(source, mints)[k] == if NulledIn(source.frames, |source.frames|, r[k]) then k else r[k]
  {
    hide Usable, S.Succeeds, C.Succeeds, CallIds, Appears, NulledIn, C.Walked;
    CollectedIffAppears(source, Ranked(source, mints)[0], mints);
    CollectedIffAppears(source, Ranked(source, mints)[k], mints);
  }

  /** Conversion keeps every index exactly when the nulls are ranked. */
  lemma RenumberingIsExactIff(source: Source, mints: Mints)
    requires Usable(CallIds(source.frames), mints)
    requires S.Succeeds(source, mints.stream) && C.Succeeds(source, mints.collect)
    ensures Renumbered(source, mints) == Ranked(source, mints) <==> NullsAreRanked(source.frames)
  {
    hide Usable, S.Succeeds, C.Succeeds, CallIds, Appears, NulledIn, C.Walked, Renumbered, Ranked;
    var r, shown := Ranked(source, mints), Renumbered(source, mints);
    RankedIncreases(source, mints);
    forall x: int
      ensures x in r <==> Appears(source.frames, |source.frames|, x)
    {
      RankedIff(source, x, mints);
    }
    forall k | 0 <= k < |r|
      ensures shown[k] == r[k] <==>
        !NulledIn(source.frames, |source.frames|, r[k]) || forall x | 0 <= x < r[k] :: x in r
    {
      RankedAppears(source, k, mints);
      PositionIff(r, k);
    }
    if shown == r {
      forall index: int, smaller: int
        | Appears(source.frames, |source.frames|, index) && NulledIn(source.frames, |source.frames|, index)
          && 0 <= smaller < index
        ensures Appears(source.frames, |source.frames|, smaller)
      {
        var k :| 0 <= k < |r| && r[k] == index;
        assert shown[k] == r[k];
      }
    }
  }

  lemma RankedIncreases(source: Source, mints: Mints)
    ensures Increasing(Ranked(source, mints))
  {
  }

  lemma RankedIff(source: Source, index: int, mints: Mints)
    requires Usable(CallIds(source.frames), mints)
    requires S.Succeeds(source, mints.stream) && C.Succeeds(source, mints.collect)
    ensures index in Ranked(source, mints) <==> Appears(source.frames, |source.frames|, index)
  {
    hide Usable, S.Succeeds, C.Succeeds, CallIds, Appears, NulledIn, C.Walked;
    CollectedIffAppears(source, index, mints);
  }

  /** Choices that cover what was streamed keep every index: none is shown above its own. */
  lemma CoveringKeepsIndices(source: Source, mints: Mints)
    requires Usable(CallIds(source.frames), mints)
    requires S.Succeeds(source, mints.stream) && C.Succeeds(source, mints.collect)
    requires forall x <- Ranked(source, mints) :: x in Renumbered(source, mints)
    ensures Renumbered(source, mints) == Ranked(source, mints)
  {
    hide Usable, S.Succeeds, C.Succeeds, CallIds, Appears, NulledIn, C.Walked, Renumbered, Ranked;
    var r, shown := Ranked(source, mints), Renumbered(source, mints);
    RankedIncreases(source, mints);
    forall k | 0 <= k < |r|
      ensures shown[k] <= r[k]
    {
      RankedAppears(source, k, mints);
      PositionsAreLower(r, k);
    }
    forall k | 0 <= k < |r|
      ensures shown[k] == r[k]
    {
      CoveringIsExact(r, shown, k);
    }
  }

  lemma HeardIffRanked(source: Source, index: int, mints: Mints)
    requires Usable(CallIds(source.frames), mints)
    requires S.Succeeds(source, mints.stream) && C.Succeeds(source, mints.collect)
    ensures !Read(S.Output(source, mints.stream), index).Waiting? <==> index in Ranked(source, mints)
  {
    hide Usable, S.Succeeds, C.Succeeds, CallIds, C.Walked, Read, Summary, OpenaiFinish, LatestIn, DigestsMatch;
    StreamReadsAsCollected(source, index, mints);
  }

  lemma ShownIsRenumbered(source: Source, choices: seq<Choice>, k: nat, mints: Mints)
    requires PresentsAll(Some(choices), CollectedBody(source, mints).candidates, mints.spare) && k < |choices|
    ensures |choices| == |Ranked(source, mints)| && choices[k].index == Renumbered(source, mints)[k]
  {
    hide C.Walked;
  }

  lemma RankedReadsAs(source: Source, choices: seq<Choice>, k: nat, mints: Mints)
    requires Usable(CallIds(source.frames), mints)
    requires S.Succeeds(source, mints.stream) && C.Succeeds(source, mints.collect)
    requires PresentsAll(Some(choices), CollectedBody(source, mints).candidates, mints.spare)
    requires Renumbered(source, mints) == Ranked(source, mints) && k < |choices|
    ensures ReadsAs(source, choices[k], mints)
  {
    hide Usable, S.Succeeds, C.Succeeds, CallIds, C.Walked, ReadsAs, Presents;
    ShownIsRenumbered(source, choices, k, mints);
    assert ShownIndex(CollectedBody(source, mints).candidates, k) == CollectedBody(source, mints).candidates[k].0;
    CollectedReadsAs(source, choices[k], k, mints);
  }

  /**
   The same for the choices that `GeminiToOpenAI` builds from the collected response, unless
   the last `response` member of a payload is an object: conversion succeeds, and its choices
   are what was streamed if and only if the nulls among the indices are ranked. Indices that are
   absent or numbers never matter.
   */
  lemma StreamReadsAsConverted(source: Source, choices: Option<seq<Choice>>, mints: Mints)
    requires Usable(CallIds(source.frames), mints)
    requires S.Succeeds(source, mints.stream) && C.Succeeds(source, mints.collect)
    requires PresentsAll(choices, CollectedBody(source, mints).Shown(), mints.spare)
    requires !(LastInner(source.frames, |source.frames|).Some?
      && LastInner(source.frames, |source.frames|).value.Nested?)
    ensures choices.Some? && (ChoicesAreStreamed(source, choices.value, mints) <==> NullsAreRanked(source.frames))
  {
    hide Usable, S.Succeeds, C.Succeeds, CallIds, ReadsAs, Presents, C.Response, Ranked, Renumbered, NullsAreRanked,
      Read;
    InnerIsCollected(source, mints);
    SomethingIsCollected(source, mints);
    ConvertedIsStreamedIff(source, choices.value, mints);
    RenumberingIsExactIff(source, mints);
  }

  lemma ConvertedIsStreamedIff(source: Source, choices: seq<Choice>, mints: Mints)
    requires Usable(CallIds(source.frames), mints)
    requires S.Succeeds(source, mints.stream) && C.Succeeds(source, mints.collect)
    requires choices != [] && PresentsAll(Some(choices), CollectedBody(source, mints).candidates, mints.spare)
    ensures ChoicesAreStreamed(source, choices, mints) <==> Renumbered(source, mints) == Ranked(source, mints)
  {
    hide Usable, S.Succeeds, C.Succeeds, CallIds, ReadsAs, PresentsAll, CollectedBody, Ranked, Renumbered, Read;
    var r, shown := Ranked(source, mints), Renumbered(source, mints);
    ShownIsRenumbered(source, choices, 0, mints);
    forall k | 0 <= k < |choices|
      ensures choices[k].index == shown[k]
    {
      ShownIsRenumbered(source, choices, k, mints);
    }
    forall index: int
      ensures !Read(S.Output(source, mints.stream), index).Waiting? <==> index in r
      ensures HasChoice(choices, index) <==> index in shown
    {
      HeardIffRanked(source, index, mints);
      HasChoiceIff(choices, shown, index);
    }
    if ChoicesAreStreamed(source, choices, mints) {
      CoveringKeepsIndices(source, mints);
    } else if shown == r {
      forall k | 0 <= k < |choices|
        ensures ReadsAs(source, choices[k], mints)
      {
        RankedReadsAs(source, choices, k, mints);
      }
    }
  }

  lemma HasChoiceIff(choices: seq<Choice>, shown: seq<int>, index: int)
    requires |choices| == |shown| && forall k | 0 <= k < |choices| :: choices[k].index == shown[k]
    ensures HasChoice(choices, index) <==> index in shown
  {
    if index in shown {
      var k :| 0 <= k < |shown| && shown[k] == index;
      assert choices[k].index == index;
    }
  }

  lemma InnerIsCollected(source: Source, mints: Mints)
    requires C.Succeeds(source, mints.collect)
    ensures CollectedBody(source, mints).response == LastInner(source.frames, |source.frames|)
  {
    hide Walk, Complete;
    CollectorKeepsInner(source.frames, |source.frames|, mints);
  }

  /**
   If it is an object, conversion shows its candidates, whatever was streamed, and fails if it has none
   or is an error.
   */
  lemma NestedIsConverted(source: Source, choices: Option<seq<Choice>>, mints: Mints)
    requires C.Succeeds(source, mints.collect)
    requires PresentsAll(choices, CollectedBody(source, mints).Shown(), mints.spare)
    requires LastInner(source.frames, |source.frames|).Some? && LastInner(source.frames, |source.frames|).value.Nested?
    ensures var inner := LastInner(source.frames, |source.frames|).value;
      PresentsAll(choices, if inner.fails then [] else inner.candidates, mints.spare)
  {
    hide C.Succeeds, Presents, C.Response;
    InnerIsCollected(source, mints);
  }

  lemma ResponseIsCollected(candidates: map<int, Saved>, k: nat)
    requires k < |C.Response(candidates)|
    ensures var (index, saved) := C.Response(candidates)[k]; index in candidates && candidates[index] == saved
  {
  }

  const CUT: Frame := Frame([Candidate(IndexIs(0), Some("MAX_TOKENS"), [TextPart("a", false, "", 1)])], None, None, 1)
  const EMPTY_LAST: Frame := Frame([Candidate(IndexIs(0), Some(""), [])], None, None, 1)

  /** An answer cut off by its token limit, followed by a frame with an empty finish reason. */
  function CutOff(): Source {
    Source([CUT, EMPTY_LAST], true)
  }

  lemma CutOffActions()
    ensures FrameActions(CUT) == [Open(0, IndexIs(0), Some("MAX_TOKENS")), Deliver(0, TextPart("a", false, "", 1))]
    ensures FrameActions(EMPTY_LAST) == [Open(0, IndexIs(0), Some(""))]
    ensures LatestIn(CutOff().frames, 2, 0, false) == "MAX_TOKENS" && LatestIn(CutOff().frames, 2, 0, true) == ""
    ensures CallIds(CutOff().frames) == {}
  {
    var parts := [TextPart("a", false, "", 1)];
    assert Deliveries(0, parts, 1) == [Deliver(0, parts[0])];
    var first, last := FrameActions(CUT), FrameActions(EMPTY_LAST);
    assert Actions(CUT.candidates, 1) == CandidateActions(CUT.candidates[0], 0);
    assert Actions(EMPTY_LAST.candidates, 1) == CandidateActions(EMPTY_LAST.candidates[0], 0);
    assert first == [Open(0, IndexIs(0), Some("MAX_TOKENS")), Deliver(0, parts[0])]
      && last == [Open(0, IndexIs(0), Some(""))];
    forall before: string
      ensures Latest(before, first, 0, false) == "MAX_TOKENS" && Latest(before, last, 0, false) == before
      ensures Latest(before, last, 0, true) == ""
    {
      assert first[..1] == [Open(0, IndexIs(0), Some("MAX_TOKENS"))] && last[..0] == [];
    }
  }

  lemma CutOffIsAdmitted()
    ensures Admitted(CUT.candidates, 1, map[]) == Some(map[0 := Seen("MAX_TOKENS", true)])
    ensures Admitted(EMPTY_LAST.candidates, 1, map[0 := Seen("MAX_TOKENS", true)])
      == Some(map[0 := Seen("MAX_TOKENS", true)])
  {
    var seen := map[0 := Seen("MAX_TOKENS", true)];
    assert CUT.candidates[0].parts[0].HasOutput();
    assert Admitted(CUT.candidates, 0, map[]) == Some(map[]);
    assert Note(CUT.candidates[0], 0, map[]) == seen;
    assert Admitted(EMPTY_LAST.candidates, 0, seen) == Some(seen);
    assert Note(EMPTY_LAST.candidates[0], 0, seen) == seen;
  }

  lemma CutOffIsComplete()
    ensures Complete(map[0 := Seen("MAX_TOKENS", true)])
  {
    assert 0 in map[0 := Seen("MAX_TOKENS", true)];
    assert ToUpper("MAX_TOKENS")[0] != ToUpper("STOP")[0];
  }

  lemma CutOffStreams(mints: Mints)
    ensures S.Succeeds(CutOff(), mints.stream) && 0 in StreamWalk(CutOff().frames, 2, mints).state.choices
  {
    hide Admitted, S.Opened, S.PartChunks, FrameActions;
    CutOffActions();
    CutOffIsAdmitted();
    var seen := map[0 := Seen("MAX_TOKENS", true)];
    var s0 := S.Start();
    var a, b := Open(0, IndexIs(0), Some("MAX_TOKENS")), Deliver(0, TextPart("a", false, "", 1));
    S.ActAllOfOneMore(s0, [a], b, mints.stream);
    assert [a] + [b] == [a, b] && [a][..0] == [];
    var s1 := S.ActAll(s0, [a, b], mints.stream);
    assert !s1.failed;
    assert StreamWalk(CutOff().frames, 0, mints) == Walked(s0, map[], false);
    assert StreamWalk(CutOff().frames, 1, mints) == Walked(s1.state, seen, false);
    S.ActAllOfOneMore(s1.state, [], Open(0, IndexIs(0), Some("")), mints.stream);
    assert [] + [Open(0, IndexIs(0), Some(""))] == [Open(0, IndexIs(0), Some(""))];
    assert !S.Visit(s1.state, EMPTY_LAST, mints.stream).failed;
    var w2 := StreamWalk(CutOff().frames, 2, mints);
    assert !w2.failed && w2.seen == seen;
    WalkIsTracked(CutOff().frames, 2, mints);
    CutOffIsComplete();
  }

  /** On it the stream says "length" where the collected response says "stop". */
  lemma CutOffDisagrees(mints: Mints)
    requires Usable({}, mints)
    ensures C.Succeeds(CutOff(), mints.collect) && 0 in Collected(CutOff(), mints)
    ensures Read(S.Output(CutOff(), mints.stream), 0).Finished?
    ensures Read(S.Output(CutOff(), mints.stream), 0).reason == "length" != CollectedReason(CutOff(), 0, mints)
  {
    hide Usable, Walk, Read, Summary, Admitted, FrameActions, OpenaiFinish, ReadsLikeEmpty, LatestIn, CallIds, Complete,
      HasCall;
    CutOffActions();
    CutOffStreams(mints);
    CutOffIsSmall();
    CollectingSucceedsIffStreamingDoes(CutOff(), mints);
    WalksMatch(CutOff().frames, 2, {}, mints);
    assert ChoiceMatches(StreamWalk(CutOff().frames, 2, mints).state, CollectWalk(CutOff().frames, 2, mints).state, 0,
      mints);
    StreamReadsAsCollected(CutOff(), 0, mints);
    FinishReasonsAgreeIff(CutOff(), 0, mints);
    MaxTokensReadsOtherwise(Summary(Collected(CutOff(), mints)[0].parts, mints.spare).tools != []);
    MaxTokensReadsOtherwise(HasCall(CutOff().frames, 2, 0));
  }

  lemma CutOffIsSmall()
    ensures TotalSize(CutOff().frames, 2) <= C.MAX_COLLECTED_BYTES
  {
    assert TotalSize(CutOff().frames, 1) == 1;
  }

  lemma MaxTokensReadsOtherwise(hasTools: bool)
    ensures OpenaiFinish("MAX_TOKENS", hasTools) == "length" && !ReadsLikeEmpty("MAX_TOKENS", hasTools)
  {
    assert ToUpper("MAX_TOKENS") == "MAX_TOKENS" && ToUpper("STOP") == "STOP";
    assert "MAX_TOKENS"[0] != "STOP"[0];
  }

  // ---- An answer with an answer inside -------------------------------------------------------

  /** The streamed answer is "a", and the payload's own `response` member holds another, "b". */
  function Doubled(): Source {
    Source([CUT.(response := Some(Nested([(0, Saved(false, Some("STOP"), [TextPart("b", false, "", 1)]))], false)))],
      true)
  }

  lemma DoubledActs(mints: Mints)
    ensures var actions := [Open(0, IndexIs(0), Some("MAX_TOKENS")), Deliver(0, TextPart("a", false, "", 1))];
      var v := S.ActAll(S.Start(), actions, mints.stream);
      && !v.failed && v.state.events == [S.Chunk(0, S.RoleDelta), S.Chunk(0, S.ContentDelta("a"))]
      && v.state.choices == map[0 := S.ChoiceState(0, "MAX_TOKENS")]
  {
    hide S.ActAll, R.Empty;
    var s0, a, b := S.Start(), Open(0, IndexIs(0), Some("MAX_TOKENS")), Deliver(0, TextPart("a", false, "", 1));
    S.NothingActed(s0, mints.stream);
    S.ActAllOfOneMore(s0, [], a, mints.stream);
    S.ActAllOfOneMore(s0, [a], b, mints.stream);
    assert [a] + [b] == [a, b] && [] + [a] == [a];
    var s1 := S.Opened(s0, 0, Some("MAX_TOKENS"));
    assert s1.events == [S.Chunk(0, S.RoleDelta)];
    assert S.PartChunks(0, b.part) == [S.Chunk(0, S.ContentDelta("a"))];
  }

  lemma DoubledActions()
    ensures FrameActions(Doubled().frames[0])
      == [Open(0, IndexIs(0), Some("MAX_TOKENS")), Deliver(0, TextPart("a", false, "", 1))]
    ensures CallIds(Doubled().frames) == {}
  {
    hide FrameActions;
    CutOffActions();
    SameCandidatesActAlike(Doubled().frames[0], CUT);
  }

  lemma DoubledStreams(mints: Mints)
    ensures S.Succeeds(Doubled(), mints.stream)
    ensures S.Walked(Doubled(), mints.stream).state.events == [S.Chunk(0, S.RoleDelta), S.Chunk(0, S.ContentDelta("a"))]
    ensures S.Walked(Doubled(), mints.stream).state.choices == map[0 := S.ChoiceState(0, "MAX_TOKENS")]
  {
    hide Admitted, Complete, FrameActions, S.ActAll;
    DoubledActions();
    DoubledActs(mints);
    CutOffIsAdmitted();
    CutOffIsComplete();
    assert Walk(S.Start(), S.Visitor(mints.stream), Doubled().frames, 0) == Walked(S.Start(), map[], false);
  }

  lemma SameCandidatesActAlike(f: Frame, g: Frame)
    requires f.candidates == g.candidates
    ensures FrameActions(f) == FrameActions(g)
  {
  }

  lemma DoubledIsRead(mints: Mints)
    ensures Read(S.Output(Doubled(), mints.stream), 0).Finished?
    ensures Read(S.Output(Doubled(), mints.stream), 0).digest.content == "a"
  {
    hide S.Walked, OpenaiFinish, S.Ending, S.Succeeds;
    DoubledStreams(mints);
    var s := S.Walked(Doubled(), mints.stream).state;
    var e0, e1 := S.Chunk(0, S.RoleDelta), S.Chunk(0, S.ContentDelta("a"));
    ReadOneMore([], e0, 0);
    ReadOneMore([e0], e1, 0);
    assert [] + [e0] == [e0] && [e0] + [e1] == [e0, e1];
    assert Read(s.events, 0) == Reading(Digest("" + "a", "", "", []));
    EndingIsHeard(s, 0);
  }

  /** On it both forms succeed, and conversion shows the inner answer. */
  lemma DoubledDisagrees(choices: Option<seq<Choice>>, mints: Mints)
    requires Usable({}, mints)
    requires PresentsAll(choices, CollectedBody(Doubled(), mints).Shown(), mints.spare)
    ensures C.Succeeds(Doubled(), mints.collect) && choices.Some? && |choices.value| == 1
    ensures choices.value[0].message.Reads().content == "b" && !ReadsAs(Doubled(), choices.value[0], mints)
  {
    hide Usable, Walk, Read, CallIds, Complete, C.Response, S.Succeeds, C.Succeeds, FrameActions;
    DoubledActions();
    DoubledStreams(mints);
    assert TotalSize(Doubled().frames, 1) == TotalSize(Doubled().frames, 0) + 1;
    CollectingSucceedsIffStreamingDoes(Doubled(), mints);
    NestedIsConverted(Doubled(), choices, mints);
    DoubledIsRead(mints);
    var parts := [TextPart("b", false, "", 1)];
    assert parts[..0] == [] && "" + "b" == "b";
    assert Summary(parts, mints.spare).content == "b";
  }

  // ---- An index that is null -----------------------------------------------------------------

  const NULL_INDEXED: seq<Candidate> := [
    Candidate(IndexIs(5), Some("STOP"), [TextPart("a", false, "", 1)]),
    Candidate(NullIndex, Some("STOP"), [TextPart("b", false, "", 1)])]

  /** One frame: candidate 5, and at position 1 a candidate whose `index` member is null. */
  function NullIndexed(): Source {
    Source([Frame(NULL_INDEXED, None, None, 1)], true)
  }

  lemma {:induction false} ActingWithoutCallsSucceeds(s: S.State, actions: seq<Action>, mint: nat -> string)
    requires forall a <- actions :: a.Deliver? ==> !a.part.CallPart?
    ensures !S.ActAll(s, actions, mint).failed
  {
    hide S.PartChunks, S.Opened;
    if actions != [] {
      ActingWithoutCallsSucceeds(s, actions[..|actions| - 1], mint);
    }
  }

  lemma NullIndexedActions()
    ensures FrameActions(NullIndexed().frames[0]) == [
      Open(5, IndexIs(5), Some("STOP")), Deliver(5, TextPart("a", false, "", 1)),
      Open(1, NullIndex, Some("STOP")), Deliver(1, TextPart("b", false, "", 1))]
    ensures CallIds(NullIndexed().frames) == {}
  {
    var c, d := NULL_INDEXED[0], NULL_INDEXED[1];
    assert Deliveries(5, c.parts, 1) == [Deliver(5, c.parts[0])];
    assert Deliveries(1, d.parts, 1) == [Deliver(1, d.parts[0])];
    assert Actions(NULL_INDEXED, 1) == CandidateActions(c, 0);
    assert Actions(NULL_INDEXED, 2) == Actions(NULL_INDEXED, 1) + CandidateActions(d, 1);
  }

  lemma NullIndexedIsAdmitted()
    ensures Admitted(NULL_INDEXED, 2, map[]) == Some(map[5 := Seen("STOP", true), 1 := Seen("STOP", true)])
    ensures Complete(map[5 := Seen("STOP", true), 1 := Seen("STOP", true)])
  {
    var first := map[5 := Seen("STOP", true)];
    assert NULL_INDEXED[0].parts[0].HasOutput() && NULL_INDEXED[1].parts[0].HasOutput();
    assert Admitted(NULL_INDEXED, 0, map[]) == Some(map[]);
    assert Note(NULL_INDEXED[0], 0, map[]) == first;
    assert Admitted(NULL_INDEXED, 1, map[]) == Some(first);
    assert Note(NULL_INDEXED[1], 1, first) == map[5 := Seen("STOP", true), 1 := Seen("STOP", true)];
    assert 5 in map[5 := Seen("STOP", true), 1 := Seen("STOP", true)];
  }

  lemma NullIndexedStreams(mints: Mints)
    ensures S.Succeeds(NullIndexed(), mints.stream)
    ensures TotalSize(NullIndexed().frames, 1) <= C.MAX_COLLECTED_BYTES
  {
    hide Admitted, Complete, FrameActions, S.ActAll;
    NullIndexedActions();
    NullIndexedIsAdmitted();
    var frames := NullIndexed().frames;
    assert StreamWalk(frames, 0, mints) == Walked(S.Start(), map[], false);
    ActingWithoutCallsSucceeds(S.Start(), FrameActions(frames[0]), mints.stream);
    assert TotalSize(frames, 1) == TotalSize(frames, 0) + 1;
  }

  lemma NullIndexedAppears(index: int)
    ensures Appears(NullIndexed().frames, 1, index) <==> index == 1 || index == 5
    ensures NulledIn(NullIndexed().frames, 1, 1) && !NulledIn(NullIndexed().frames, 1, 5)
  {
    hide FrameActions;
    NullIndexedActions();
    assert NULL_INDEXED[0].Index(0) == 5 && NULL_INDEXED[1].Index(1) == 1;
    var frames, all := NullIndexed().frames, FrameActions(NullIndexed().frames[0]);
    assert AppearsAmong(NULL_INDEXED, 2, index) <==> index == 1 || index == 5;
    assert Appears(frames, 1, index) <==> AppearsAmong(frames[0].candidates, 2, index);
    NullIndexedNulls(all, 1);
    NullIndexedNulls(all, 5);
  }

  lemma NullIndexedNulls(all: seq<Action>, index: int)
    requires |all| == 4 && all[0] == Open(5, IndexIs(5), Some("STOP")) && all[1].Deliver?
    requires all[2] == Open(1, NullIndex, Some("STOP")) && all[3].Deliver?
    ensures Nulled(false, all, index) <==> index == 1
  {
    assert all[..3][..2] == all[..2] && all[..2][..1] == all[..1] && all[..1][..0] == [];
    assert !Nulled(false, all[..1], index);
    assert !Nulled(false, all[..2], index);
    assert Nulled(false, all[..3], index) <==> index == 1;
  }

  lemma NullIndexedIsRanked(mints: Mints)
    requires Usable({}, mints)
    ensures S.Succeeds(NullIndexed(), mints.stream) && C.Succeeds(NullIndexed(), mints.collect)
    ensures CallIds(NullIndexed().frames) == {}
    ensures Ranked(NullIndexed(), mints) == [1, 5] && Renumbered(NullIndexed(), mints) == [0, 5]
  {
    hide Usable, CallIds, Appears, NulledIn, Walk, FrameActions, S.Succeeds, C.Succeeds, Ranked, Renumbered, C.Walked;
    var source := NullIndexed();
    NullIndexedActions();
    NullIndexedStreams(mints);
    CollectingSucceedsIffStreamingDoes(source, mints);
    RankedIncreases(source, mints);
    var r := Ranked(source, mints);
    forall x: int
      ensures x in r <==> x == 1 || x == 5
    {
      RankedIff(source, x, mints);
      NullIndexedAppears(x);
    }
    OneAndFive(r);
    RankedAppears(source, 0, mints);
    RankedAppears(source, 1, mints);
    NullIndexedAppears(1);
  }

  lemma OneAndFive(r: seq<int>)
    requires Increasing(r) && forall x :: x in r <==> x == 1 || x == 5
    ensures r == [1, 5]
  {
    assert 1 in r && 5 in r;
    var i :| 0 <= i < |r| && r[i] == 1;
    var j :| 0 <= j < |r| && r[j] == 5;
    forall k | 0 <= k < |r|
      ensures (r[k] == 1 && k == i) || (r[k] == 5 && k == j)
    {
      assert r[k] in r;
    }
    assert r[0] == 1 && r[|r| - 1] == 5;
    assert r[1] == 5;
  }

  /** On it both forms succeed; conversion shows a choice 0 that was never streamed, and none for index 1. */
  lemma NullIndexDisagrees(choices: Option<seq<Choice>>, mints: Mints)
    requires Usable({}, mints)
    requires PresentsAll(choices, CollectedBody(NullIndexed(), mints).Shown(), mints.spare)
    ensures S.Succeeds(NullIndexed(), mints.stream) && C.Succeeds(NullIndexed(), mints.collect)
    ensures choices.Some? && |choices.value| == 2 && choices.value[0].index == 0 && choices.value[1].index == 5
    ensures !Read(S.Output(NullIndexed(), mints.stream), 1).Waiting?
    ensures Read(S.Output(NullIndexed(), mints.stream), 0).Waiting?
  {
    hide Usable, S.Succeeds, C.Succeeds, CallIds, Read, Presents, C.Response, Ranked, Renumbered, C.Walked, Walk;
    var source := NullIndexed();
    NullIndexedIsRanked(mints);
    InnerIsCollected(source, mints);
    SomethingIsCollected(source, mints);
    ShownIsRenumbered(source, choices.value, 0, mints);
    ShownIsRenumbered(source, choices.value, 1, mints);
    HeardIffRanked(source, 0, mints);
    HeardIffRanked(source, 1, mints);
  }
}
