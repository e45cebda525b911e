/** `CollectGeminiJSON`: a Gemini stream gathered into one complete response. */
module Collectors {
  import opened Wrappers
  import opened Sets
  import opened Gemini
  import opened OpenAIMessages
  import R = ToolRegistries

  const MAX_COLLECTED_BYTES: nat := 0x800_0000

  datatype State = State(candidates: map<int, Saved>, registry: R.Registry, total: nat, response: Option<Inner>)
  {
    function SavedAt(index: int): Saved {
      if index in candidates then candidates[index] else Saved(false, None, [])
    }
  }

  function Start(): State {
    State(map[], R.Empty(), 0, None)
  }

  /** A text part that may be joined with its neighbour: at most two keys and no signature. */
  predicate Joinable(part: Part) {
    part.TextPart? && part.text != "" && part.keys <= 2 && part.sig == ""
  }

  predicate Joins(last: Part, part: Part) {
    Joinable(part) && Joinable(last) && last.thought == part.thought
  }

  function Joined(parts: seq<Part>, part: Part): seq<Part> {
    var n := |parts|;
    if n > 0 && Joins(parts[n - 1], part) then parts[..n - 1] + [parts[n - 1].(text := parts[n - 1].text + part.text)]
    else parts + [part]
  }

  /** The call with its identifier made stable before conversion. */
  function Stabilised(call: FunctionCall, id: string): FunctionCall {
    call.(id := id, callId := if call.callId != "" then id else "")
  }

  /** Every member of the candidate but its content is copied, null ones included. */
  function Opened(s: State, index: int, field: IndexField, finish: Option<string>): State {
    var before := s.SavedAt(index);
    var numbered := if field.NoIndex? then before else before.(nulled := field.NullIndex?);
    s.(candidates := s.candidates[index := if finish.Some? then numbered.(finish := finish) else numbered])
  }

  function Kept(s: State, index: int, part: Part): State {
    var before := s.SavedAt(index);
    s.(candidates := s.candidates[index := before.(parts := Joined(before.parts, part))])
  }

  function Delivered(s: State, index: int, part: Part, mint: nat -> string): Visited<State> {
    if part.CallPart? then
      var q := R.Request(index, part.call);
      var next := s.(registry := R.Prepared(s.registry, q, mint));
      match R.OutcomeOf(s.registry, q, mint)
      case Rejected => Visited(s, true)
      case Repeated(_) => Visited(next, false)
      case Accepted(id) => Visited(Kept(next, index, part.(call := Stabilised(part.call, id))), false)
    else Visited(Kept(s, index, part), false)
  }

  function Act(s: State, a: Action, mint: nat -> string): Visited<State> {
    match a
    case Open(index, field, finish) => Visited(Opened(s, index, field, finish), false)
    case Deliver(index, part) => Delivered(s, index, part, mint)
  }

  function ActAll(s: State, actions: seq<Action>, mint: nat -> string): Visited<State> {
    if actions == [] then Visited(s, false)
    else
      var before := ActAll(s, actions[..|actions| - 1], mint);
      if before.failed then before else Act(before.state, actions[|actions| - 1], mint)
  }

  /** A payload's own members are copied, each over the one before. */
  function Noted(s: State, frame: Frame): State {
    if frame.response.Some? then s.(response := frame.response) else s
  }

  function Visit(s: State, frame: Frame, mint: nat -> string): Visited<State> {
    var sized := s.(total := s.total + frame.size);
    if sized.total > MAX_COLLECTED_BYTES then Visited(sized, true)
    else ActAll(Noted(sized, frame), FrameActions(frame), mint)
  }

  function Visitor(mint: nat -> string): (State, Frame) -> Visited<State> {
    (s: State, frame: Frame) => Visit(s, frame, mint)
  }

  function Walked(source: Source, mint: nat -> string): Gemini.Walked<State> {
    Walk(Start(), Visitor(mint), source.frames, |source.frames|)
  }

  predicate Succeeds(source: Source, mint: nat -> string) {
    WalkSucceeds(Walked(source, mint), source)
  }

  /** The candidates of the collected response, by increasing index. */
  function Listed(candidates: map<int, Saved>, indices: seq<int>): (r: seq<(int, Saved)>)
    requires forall k | 0 <= k < |indices| :: indices[k] in candidates
    ensures |r| == |indices| && forall k | 0 <= k < |r| :: r[k] == (indices[k], candidates[indices[k]])
  {
    seq(|indices|, k requires 0 <= k < |indices| => (indices[k], candidates[indices[k]]))
  }

  function Response(candidates: map<int, Saved>): seq<(int, Saved)> {
    Listed(candidates, Ascending(candidates.Keys))
  }

  /** The body that the collector returns. */
  function BodyOf(s: State): Body {
    Body(Response(s.candidates), s.response)
  }

  // ---- The collector in place ------------------------------------------------------

  lemma NothingActed(s: State, mint: nat -> string)
    ensures ActAll(s, [], mint) == Visited(s, false)
  {
  }

  lemma ActAllOfOneMore(s: State, actions: seq<Action>, a: Action, mint: nat -> string)
    ensures ActAll(s, actions + [a], mint)
         == var before := ActAll(s, actions, mint); if before.failed then before else Act(before.state, a, mint)
  {
    assert (actions + [a])[..|actions|] == actions;
  }

  lemma {:induction false} ActAllStops(s: State, actions: seq<Action>, more: seq<Action>, mint: nat -> string)
    requires ActAll(s, actions, mint).failed
    ensures ActAll(s, actions + more, mint) == ActAll(s, actions, mint)
  {
    if more == [] {
      assert actions + more == actions;
    } else {
      var front := more[..|more| - 1];
      ActAllStops(s, actions, front, mint);
      assert actions + more == (actions + front) + [more[|more| - 1]];
      ActAllOfOneMore(s, actions + front, more[|more| - 1], mint);
    }
  }

  class Collector {
    var candidates: map<int, Saved>
    var total: nat
    var response: Option<Inner>
    const registry: R.ToolRegistry

    function Model(): State
      reads this, registry
    {
      State(candidates, registry.Model(), total, response)
    }

    constructor ()
      ensures Model() == Start() && fresh(registry)
    {
      registry := new R.ToolRegistry();
      candidates, total, response := map[], 0, None;
    }

    method Begin(index: int, field: IndexField, finish: Option<string>)
      modifies this
      ensures Model() == Opened(old(Model()), index, field, finish)
    {
      if index !in candidates {
        candidates := candidates[index := Saved(false, None, [])];
      }
      if !field.NoIndex? {
        candidates := candidates[index := candidates[index].(nulled := field.NullIndex?)];
      }
      if finish.Some? {
        candidates := candidates[index := candidates[index].(finish := finish)];
      }
    }

    method Keep(index: int, part: Part)
      modifies this
      ensures Model() == Kept(old(Model()), index, part)
    {
      var saved := if index in candidates then candidates[index] else Saved(false, None, []);
      var parts := saved.parts;
      if part.TextPart? && part.text != "" && |parts| > 0 && part.keys <= 2 && part.sig == "" {
        var last := parts[|parts| - 1];
        if last.TextPart? && last.text != "" && last.keys <= 2 && last.sig == "" && last.thought == part.thought {
          parts := parts[..|parts| - 1] + [last.(text := last.text + part.text)];
          candidates := candidates[index := saved.(parts := parts)];
          return;
        }
      }
      parts := parts + [part];
      candidates := candidates[index := saved.(parts := parts)];
    }

    method Take(index: int, part: Part, mint: nat -> string) returns (ok: bool)
      modifies this, registry
      ensures var v := Delivered(old(Model()), index, part, mint); ok == !v.failed && Model() == v.state
    {
      hide Kept;
      var kept := part;
      if part.CallPart? {
        var outcome := registry.Prepare(index, part.call, mint);
        if outcome.Rejected? {
          return false;
        }
        if outcome.Repeated? {
          return true;
        }
        kept := part.(call := Stabilised(part.call, outcome.id));
      }
      Keep(index, kept);
      return true;
    }

    method TakeParts(index: int, parts: seq<Part>, mint: nat -> string, ghost start: State, ghost done: seq<Action>)
      returns (ok: bool)
      requires ActAll(start, done, mint) == Visited(Model(), false)
      modifies this, registry
      ensures ActAll(start, done + Deliveries(index, parts, |parts|), mint) == Visited(Model(), !ok)
    {
      hide Delivered, FrameActions, Actions, CandidateActions, ActAll;
      assert done + Deliveries(index, parts, 0) == done;
      for j := 0 to |parts|
        invariant ActAll(start, done + Deliveries(index, parts, j), mint) == Visited(Model(), false)
      {
        ok := Take(index, parts[j], mint);
        ghost var upTo := done + Deliveries(index, parts, j);
        ActAllOfOneMore(start, upTo, Deliver(index, parts[j]), mint);
        assert done + Deliveries(index, parts, j + 1) == upTo + [Deliver(index, parts[j])];
        if !ok {
          ghost var rest := DeliveriesSplit(index, parts, j + 1, |parts|);
          ActAllStops(start, upTo + [Deliver(index, parts[j])], rest, mint);
          assert done + Deliveries(index, parts, |parts|) == (upTo + [Deliver(index, parts[j])]) + rest;
          return false;
        }
      }
      return true;
    }

    method TakeCandidate(c: Candidate, i: nat, mint: nat -> string, ghost start: State, ghost done: seq<Action>)
      returns (ok: bool)
      requires ActAll(start, done, mint) == Visited(Model(), false)
      modifies this, registry
      ensures ActAll(start, (done + [OpeningOf(c, i)]) + Deliveries(c.Index(i), c.Parts(), |c.Parts()|), mint)
        == Visited(Model(), !ok)
    {
      hide Opened, Delivered, Deliveries;
      Begin(c.Index(i), OpeningOf(c, i).field, OpeningOf(c, i).finish);
      ActAllOfOneMore(start, done, OpeningOf(c, i), mint);
      ok := TakeParts(c.Index(i), c.Parts(), mint, start, done + [OpeningOf(c, i)]);
    }

    method VisitFrame(frame: Frame, mint: nat -> string) returns (ok: bool)
      modifies this, registry
      ensures Visit(old(Model()), frame, mint) == Visited(Model(), !ok)
    {
      hide Opened, Delivered, CandidateActions, ActAll, OpeningOf, Deliveries;
      total := total + frame.size;
      if total > MAX_COLLECTED_BYTES {
        return false;
      }
      if frame.response.Some? {
        response := frame.response;
      }
      ghost var start := Model();
      NothingActed(start, mint);
      for i := 0 to |frame.candidates|
        invariant ActAll(start, Actions(frame.candidates, i), mint) == Visited(Model(), false)
      {
        ok := TakeCandidate(frame.candidates[i], i, mint, start, Actions(frame.candidates, i));
        OneMoreCandidate(frame.candidates, i);
        if !ok {
          ghost var rest := ActionsSplit(frame.candidates, i + 1, |frame.candidates|);
          ActAllStops(start, Actions(frame.candidates, i + 1), rest, mint);
          return false;
        }
      }
      return true;
    }
  }

  /** The whole call; None is a failure. */
  method Collect(source: Source, mint: nat -> string) returns (body: Option<Body>)
    ensures body.Some? <==> Succeeds(source, mint)
    ensures body.Some? ==> body.value == BodyOf(Walked(source, mint).state)
  {
    hide Visit, Complete, Admitted, Response;
    var walker := new Walker();
    var collector := new Collector();
    ghost var visit := Visitor(mint);
    for n := 0 to |source.frames|
      invariant fresh(walker) && fresh(collector) && fresh(collector.registry)
      invariant Walk(Start(), visit, source.frames, n) == Gemini.Walked(collector.Model(), walker.seen, false)
    {
      var ok := walker.Admit(source.frames[n]);
      if ok {
        ok := collector.VisitFrame(source.frames[n], mint);
      }
      if !ok {
        FailureIsFinal(Start(), visit, source.frames, n + 1, |source.frames|);
        return None;
      }
    }
    if !source.ok || !Complete(walker.seen) {
      return None;
    }
    return Some(Body(Response(collector.candidates), collector.response));
  }
}
