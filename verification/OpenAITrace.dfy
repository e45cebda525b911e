/**
 What each choice of an OpenAI stream says, and how the stream ends.

 `Telling` folds the parts of every candidate into one message each, without any chunks.
 */
module OpenAITraces {
  import opened Wrappers
  import opened Text
  import opened Sets
  import opened Gemini
  import opened OpenAIMessages
  import opened OpenAIStreams
  import opened OpenAIReaders
  import R = ToolRegistries
  import W = WalkLaws

  datatype Telling = Telling(digests: map<int, Digest>, registry: R.Registry)
  {
    function At(index: int): Digest {
      if index in digests then digests[index] else Nothing()
    }
  }

  function Silence(): Telling {
    Telling(map[], R.Empty())
  }

  function WithSignature(d: Digest, sig: string): Digest {
    if sig != "" then d.(signature := sig) else d
  }

  function Told(t: Telling, index: int, part: Part, mint: nat -> string): Visited<Telling> {
    var d := t.At(index);
    match part
    case TextPart(text, thought, sig, _) =>
      var said := if thought then d.(reasoning := d.reasoning + text) else d.(content := d.content + text);
      Visited(t.(digests := t.digests[index := WithSignature(said, sig)]), false)
    case MediaPart(markdown, _, sig) =>
      Visited(t.(digests := t.digests[index := WithSignature(d.(content := d.content + markdown), sig)]), false)
    case CallPart(call, _) =>
      var q := R.Request(index, call);
      var next := t.(registry := R.Prepared(t.registry, q, mint));
      match R.OutcomeOf(t.registry, q, mint)
      case Rejected => Visited(t, true)
      case Repeated(_) => Visited(next, false)
      case Accepted(id) =>
        Visited(next.(digests := t.digests[index := d.(tools := d.tools + [Tool(id, call.name, call.args)])]), false)
  }

  function Tell(t: Telling, a: Action, mint: nat -> string): Visited<Telling> {
    match a
    case Open(index, _, _) => Visited(t.(digests := t.digests[index := t.At(index)]), false)
    case Deliver(index, part) => Told(t, index, part, mint)
  }

  function TellAll(t: Telling, actions: seq<Action>, mint: nat -> string): Visited<Telling> {
    if actions == [] then Visited(t, false)
    else
      var before := TellAll(t, actions[..|actions| - 1], mint);
      if before.failed then before else Tell(before.state, actions[|actions| - 1], mint)
  }

  function Teller(mint: nat -> string): (Telling, Frame) -> Visited<Telling> {
    (t: Telling, frame: Frame) => TellAll(t, FrameActions(frame), mint)
  }

  /** The messages of a source up to its end or its first failure. */
  function TellingOf(source: Source, mint: nat -> string): Telling {
    Walk(Silence(), Teller(mint), source.frames, |source.frames|).state
  }

  // ---- The writer in step with the messages ----------------------------------------------

  ghost predicate Hears(s: State, t: Telling, index: int) {
    && InStep(s, index) && (index in s.choices <==> index in t.digests)
    && (index in t.digests ==> Read(s.events, index) == Reading(t.digests[index]))
  }

  ghost predicate AllHear(s: State, t: Telling) {
    s.registry == t.registry && forall index: int :: Hears(s, t, index)
  }

  lemma OpeningHears(s: State, t: Telling, i: int, field: IndexField, finish: Option<string>, mint: nat -> string)
    requires AllHear(s, t)
    ensures AllHear(Opened(s, i, finish), Tell(t, Open(i, field, finish), mint).state)
  {
    hide Read;
    forall index: int
      ensures Hears(Opened(s, i, finish), Tell(t, Open(i, field, finish), mint).state, index)
    {
      assert Hears(s, t, index) && Hears(s, t, i);
      OpeningIsHeard(s, i, finish, index);
    }
  }

  lemma PartExtends(t: Telling, i: int, part: Part, mint: nat -> string)
    requires !part.CallPart?
    ensures Told(t, i, part, mint)
      == Visited(t.(digests := t.digests[i := Extend(t.At(i), part, mint)]), false)
  {
    var d := t.At(i);
    assert d.content + "" == d.content && d.reasoning + "" == d.reasoning;
  }

  lemma PartHears(s: State, t: Telling, i: int, part: Part, mint: nat -> string)
    requires AllHear(s, t) && i in s.choices && !part.CallPart?
    ensures AllHear(OpenAIStreams.Delivered(s, i, part, mint).state, Told(t, i, part, mint).state)
  {
    hide Read, Extend, Told, PartChunks, InStep;
    PartExtends(t, i, part, mint);
    forall index: int
      ensures Hears(OpenAIStreams.Delivered(s, i, part, mint).state, Told(t, i, part, mint).state, index)
    {
      assert Hears(s, t, index) && Hears(s, t, i);
      PartIsHeard(s, i, part, mint, index, mint);
    }
  }

  lemma CallHears(s: State, t: Telling, i: int, call: FunctionCall, id: string)
    requires AllHear(s, t) && i in s.choices
    ensures var d := t.At(i);
      AllHear(CallTaken(s, i, call, id),
        t.(digests := t.digests[i := d.(tools := d.tools + [Tool(id, call.name, call.args)])]))
  {
    hide Read, InStep;
    var d := t.At(i);
    var u := t.(digests := t.digests[i := d.(tools := d.tools + [Tool(id, call.name, call.args)])]);
    forall index: int
      ensures Hears(CallTaken(s, i, call, id), u, index)
    {
      assert Hears(s, t, index) && Hears(s, t, i);
      CallIsHeard(s, i, call, id, index);
    }
  }

  lemma RegistryHears(s: State, t: Telling, r: R.Registry, usage: Option<string>)
    requires AllHear(s, t)
    ensures AllHear(s.(registry := r), t.(registry := r)) && AllHear(s.(usage := usage), t)
  {
    hide Read;
    forall index: int
      ensures Hears(s.(registry := r), t.(registry := r), index) && Hears(s.(usage := usage), t, index)
    {
      assert Hears(s, t, index);
    }
  }

  lemma SameRegistries(s: State, t: Telling)
    requires AllHear(s, t)
    ensures s.registry == t.registry
  {
  }

  lemma DeliveringHears(s: State, t: Telling, i: int, part: Part, mint: nat -> string)
    requires AllHear(s, t) && i in s.choices
    ensures OpenAIStreams.Delivered(s, i, part, mint).failed == Told(t, i, part, mint).failed
    ensures AllHear(OpenAIStreams.Delivered(s, i, part, mint).state, Told(t, i, part, mint).state)
  {
    SameRegistries(s, t);
    hide AllHear, R.OutcomeOf, R.Prepared, CallTaken, Telling.At;
    match part
    case CallPart(call, _) =>
      var q := R.Request(i, call);
      var r, outcome := R.Prepared(s.registry, q, mint), R.OutcomeOf(s.registry, q, mint);
      RegistryHears(s, t, r, None);
      if outcome.Accepted? {
        CallHears(s.(registry := r), t.(registry := r), i, call, outcome.id);
        AtIgnoresRegistry(t, r, i);
      }
    case _ => PartHears(s, t, i, part, mint);
  }

  lemma AtIgnoresRegistry(t: Telling, r: R.Registry, i: int)
    ensures t.(registry := r).At(i) == t.At(i)
  {
  }

  lemma {:induction false} OpenedIsChosen(s: State, actions: seq<Action>, index: int, mint: nat -> string)
    requires !ActAll(s, actions, mint).failed && OpenedIn(actions, index)
    ensures index in ActAll(s, actions, mint).state.choices
  {
    var front, a := actions[..|actions| - 1], actions[|actions| - 1];
    if !(a.Open? && a.index == index) {
      assert OpenedIn(front, index) by {
        var o :| o in actions && o.Open? && o.index == index;
        assert o in front;
      }
      OpenedIsChosen(s, front, index, mint);
    }
  }

  lemma {:induction false} ActingHears(s: State, t: Telling, actions: seq<Action>, mint: nat -> string)
    requires AllHear(s, t) && OpenedBefore(actions)
    ensures ActAll(s, actions, mint).failed == TellAll(t, actions, mint).failed
    ensures AllHear(ActAll(s, actions, mint).state, TellAll(t, actions, mint).state)
  {
    hide AllHear, OpenedIn, OpenAIStreams.Delivered, Opened, Told, Telling.At;
    if actions != [] {
      var n := |actions| - 1;
      assert forall k | 0 <= k < n :: actions[..n][..k] == actions[..k];
      ActingHears(s, t, actions[..n], mint);
      var s', t' := ActAll(s, actions[..n], mint), TellAll(t, actions[..n], mint);
      if !s'.failed {
        match actions[n]
        case Open(i, field, finish) => OpeningHears(s'.state, t'.state, i, field, finish, mint);
        case Deliver(i, part) =>
          OpenedIsChosen(s, actions[..n], i, mint);
          DeliveringHears(s'.state, t'.state, i, part, mint);
      }
    }
  }

  lemma VisitingHears(s: State, t: Telling, frame: Frame, mint: nat -> string)
    requires AllHear(s, t)
    ensures Visit(s, frame, mint).failed == TellAll(t, FrameActions(frame), mint).failed
    ensures AllHear(Visit(s, frame, mint).state, TellAll(t, FrameActions(frame), mint).state)
  {
    hide AllHear, FrameActions, OpenedBefore, ActAll, TellAll;
    RegistryHears(s, t, s.registry, frame.usage);
    FrameOpensFirst(frame);
    ActingHears(WithUsage(s, frame), t, FrameActions(frame), mint);
  }

  lemma FrameOpensFirst(frame: Frame)
    ensures OpenedBefore(FrameActions(frame))
  {
    ActionsAreOpenedBefore(frame.candidates, |frame.candidates|);
  }

  lemma {:induction false} WalksHear(frames: seq<Frame>, n: nat, mint: nat -> string)
    requires n <= |frames|
    ensures var u, v := Walk(Start(), Visitor(mint), frames, n), Walk(Silence(), Teller(mint), frames, n);
      u.failed == v.failed && u.seen == v.seen && AllHear(u.state, v.state)
  {
    hide AllHear, Visit, TellAll, Admitted, FrameActions;
    if n == 0 {
      StartHears();
    } else {
      WalksHear(frames, n - 1, mint);
      VisitingHears(Walk(Start(), Visitor(mint), frames, n - 1).state,
        Walk(Silence(), Teller(mint), frames, n - 1).state, frames[n - 1], mint);
    }
  }

  lemma StartHears()
    ensures AllHear(Start(), Silence())
  {
  }

  // ---- Finish reasons ----------------------------------------------------------------------

  lemma DeliveryKeepsFinish(s: State, index: int, part: Part, at: int, mint: nat -> string)
    ensures OpenAIStreams.Delivered(s, index, part, mint).state.ChoiceAt(at).finish == s.ChoiceAt(at).finish
  {
    hide PartChunks, R.OutcomeOf, R.Prepared;
  }

  lemma {:induction false} DeliveringKeepsFinish(s: State, index: int, parts: seq<Part>, n: nat, at: int,
                                                 mint: nat -> string)
    requires n <= |parts|
    ensures ActAll(s, Deliveries(index, parts, n), mint).state.ChoiceAt(at).finish == s.ChoiceAt(at).finish
  {
    hide OpenAIStreams.Delivered, ActAll, State.ChoiceAt;
    if n == 0 {
      NothingActed(s, mint);
    } else {
      DeliveringKeepsFinish(s, index, parts, n - 1, at, mint);
      ActAllOfOneMore(s, Deliveries(index, parts, n - 1), Deliver(index, parts[n - 1]), mint);
      DeliveryKeepsFinish(ActAll(s, Deliveries(index, parts, n - 1), mint).state, index, parts[n - 1], at, mint);
    }
  }

  lemma {:induction false} CandidatesFinish(s: State, candidates: seq<Candidate>, n: nat, index: int,
                                            mint: nat -> string)
    requires n <= |candidates| && !ActAll(s, Actions(candidates, n), mint).failed
    ensures ActAll(s, Actions(candidates, n), mint).state.ChoiceAt(index).finish
      == W.FinishAmong(s.ChoiceAt(index).finish, candidates, n, index)
  {
    hide ActAll, Deliveries;
    if n == 0 {
      NothingActed(s, mint);
    } else {
      var c, front := candidates[n - 1], Actions(candidates, n - 1);
      CandidateActs(s, front, c, n - 1, mint);
      CandidatesFinish(s, candidates, n - 1, index, mint);
      var begun := Act(ActAll(s, front, mint).state, OpeningOf(c, n - 1), mint).state;
      DeliveringKeepsFinish(begun, c.Index(n - 1), c.Parts(), |c.Parts()|, index, mint);
    }
  }

  lemma {:induction false} ActAllConcat(s: State, a: seq<Action>, b: seq<Action>, mint: nat -> string)
    ensures ActAll(s, a + b, mint)
         == var before := ActAll(s, a, mint); if before.failed then before else ActAll(before.state, b, mint)
  {
    hide Act;
    if b == [] {
      assert a + b == a;
    } else {
      var n := |b| - 1;
      ActAllConcat(s, a, b[..n], mint);
      assert a + b == (a + b[..n]) + [b[n]];
      ActAllOfOneMore(s, a + b[..n], b[n], mint);
    }
  }

  lemma CandidateActs(s: State, front: seq<Action>, c: Candidate, position: nat, mint: nat -> string)
    requires !ActAll(s, front + CandidateActions(c, position), mint).failed
    ensures var before := ActAll(s, front, mint);
      && !before.failed
      && ActAll(s, front + CandidateActions(c, position), mint)
         == ActAll(Act(before.state, OpeningOf(c, position), mint).state,
              Deliveries(c.Index(position), c.Parts(), |c.Parts()|), mint)
  {
    hide ActAll, Opened;
    var opening, rest := OpeningOf(c, position), Deliveries(c.Index(position), c.Parts(), |c.Parts()|);
    ActAllConcat(s, front, CandidateActions(c, position), mint);
    ActAllConcat(ActAll(s, front, mint).state, [opening], rest, mint);
    ActAllOfOneMore(ActAll(s, front, mint).state, [], opening, mint);
    NothingActed(ActAll(s, front, mint).state, mint);
    assert [] + [opening] == [opening];
  }

  lemma {:induction false} WalkFinishes(frames: seq<Frame>, n: nat, index: int, mint: nat -> string)
    requires n <= |frames| && !Walk(Start(), Visitor(mint), frames, n).failed
    ensures var s := Walk(Start(), Visitor(mint), frames, n).state;
      s.ChoiceAt(index).finish == W.FinishIn(frames, n, index) && s.usage == LastUsage(frames, n)
  {
    hide ActAll, Actions, Admitted, W.FinishAmong;
    if n > 0 {
      WalkFinishes(frames, n - 1, index, mint);
      var s, frame := Walk(Start(), Visitor(mint), frames, n - 1).state, frames[n - 1];
      CandidatesFinish(WithUsage(s, frame), frame.candidates, |frame.candidates|, index, mint);
      ActingKeepsUsage(WithUsage(s, frame), FrameActions(frame), mint);
    }
  }

  lemma {:induction false} ActingKeepsUsage(s: State, actions: seq<Action>, mint: nat -> string)
    ensures ActAll(s, actions, mint).state.usage == s.usage
  {
    hide PartChunks, R.OutcomeOf, R.Prepared;
    if actions != [] {
      ActingKeepsUsage(s, actions[..|actions| - 1], mint);
    }
  }

  /**
   Every run, failed or not: the client of each choice knows exactly the message that the parts
   of its candidate form. After a success the choice is finished, for the reason that its last
   nonempty finish reason and its tools give; after a failure it is still open. A choice is heard of exactly
   when the candidate appeared.
   */
  lemma OpenAITrace(source: Source, index: int, mint: nat -> string)
    ensures var t, r := TellingOf(source, mint), Read(Output(source, mint), index);
      if index !in t.digests then r.Waiting?
      else if !Succeeds(source, mint) then r == Reading(t.digests[index])
      else
        && r.Finished? && r.digest == t.digests[index]
        && IsReason(r.reason, W.FinishIn(source.frames, |source.frames|, index), r.digest.tools != [])
    ensures Succeeds(source, mint) ==>
      (index in TellingOf(source, mint).digests <==> Appears(source.frames, |source.frames|, index))
  {
    hide Walk, Read, OpenaiFinish, IsReason, Ending, Complete, Appears, W.FinishIn;
    var n := |source.frames|;
    WalksHear(source.frames, n, mint);
    var w := Walk(Start(), Visitor(mint), source.frames, n);
    assert Hears(w.state, TellingOf(source, mint), index);
    if Succeeds(source, mint) {
      EndingIsHeard(w.state, index);
      WalkFinishes(source.frames, n, index, mint);
      ReasonByTools(w.state.ChoiceAt(index).finish, w.state.ChoiceAt(index).toolIndex > 0);
      SeenAppears(Start(), Visitor(mint), source.frames, n, index);
      ChosenAreSeen(source.frames, n, index, mint);
    } else {
      ReadOneMore(w.state.events, Error, index);
    }
  }

  lemma ActChooses(s: State, a: Action, index: int, mint: nat -> string)
    requires a.Deliver? ==> a.index in s.choices
    ensures index in Act(s, a, mint).state.choices <==> index in s.choices || (a.Open? && a.index == index)
  {
    hide R.OutcomeOf, R.Prepared, PartChunks;
  }

  lemma OpenedInOneMore(actions: seq<Action>, a: Action, index: int)
    ensures OpenedIn(actions + [a], index) <==> OpenedIn(actions, index) || (a.Open? && a.index == index)
  {
    assert a in actions + [a];
    forall o <- actions
      ensures o in actions + [a]
    {
    }
  }

  lemma {:induction false} OpenersAreChosen(s: State, actions: seq<Action>, index: int, mint: nat -> string)
    requires !ActAll(s, actions, mint).failed && OpenedBefore(actions)
    ensures index in ActAll(s, actions, mint).state.choices <==> index in s.choices || OpenedIn(actions, index)
  {
    if actions == [] {
    } else {
      hide OpenedIn, Act;
      var n := |actions| - 1;
      assert forall k | 0 <= k < n :: actions[..n][..k] == actions[..k];
      OpenersAreChosen(s, actions[..n], index, mint);
      OpenedInOneMore(actions[..n], actions[n], index);
      assert actions[..n] + [actions[n]] == actions;
      if actions[n].Deliver? {
        OpenedIsChosen(s, actions[..n], actions[n].index, mint);
      }
      ActChooses(ActAll(s, actions[..n], mint).state, actions[n], index, mint);
    }
  }

  lemma {:induction false} ActionsOpen(candidates: seq<Candidate>, n: nat, index: int)
    requires n <= |candidates|
    ensures OpenedIn(Actions(candidates, n), index) <==> AppearsAmong(candidates, n, index)
  {
    if n > 0 {
      var c, front := candidates[n - 1], Actions(candidates, n - 1);
      var rest := CandidateActions(c, n - 1);
      ActionsOpen(candidates, n - 1, index);
      forall a <- rest | a.Open?
        ensures a == OpeningOf(c, n - 1)
      {
        var k :| 0 <= k < |rest| && rest[k] == a;
        if k > 0 {
          DeliveriesAreDelivered(c.Index(n - 1), c.Parts(), |c.Parts()|, k - 1);
        }
      }
      assert rest[0] == OpeningOf(c, n - 1) && rest[0] in front + rest;
      assert OpeningOf(c, n - 1).index == c.Index(n - 1);
      if OpenedIn(front, index) {
        var o :| o in front && o.Open? && o.index == index;
        assert o in front + rest;
      }
    }
  }

  lemma {:induction false} ChosenAreSeen(frames: seq<Frame>, n: nat, index: int, mint: nat -> string)
    requires n <= |frames| && !Walk(Start(), Visitor(mint), frames, n).failed
    ensures var w := Walk(Start(), Visitor(mint), frames, n); index in w.state.choices <==> index in w.seen
  {
    hide ActAll, Actions, AppearsAmong, OpenedBefore, OpenedIn;
    if n > 0 {
      ChosenAreSeen(frames, n - 1, index, mint);
      var w, frame := Walk(Start(), Visitor(mint), frames, n - 1), frames[n - 1];
      FrameOpensFirst(frame);
      OpenersAreChosen(WithUsage(w.state, frame), FrameActions(frame), index, mint);
      ActionsOpen(frame.candidates, |frame.candidates|, index);
      hide Admitted;
      AdmittedIndices(frame.candidates, |frame.candidates|, w.seen, index);
    }
  }

  // ---- The end of the stream -----------------------------------------------------------------

  ghost predicate AllChunks(events: seq<Event>) {
    forall e <- events :: e.Chunk?
  }

  lemma {:induction false} ActingEmitsChunks(s: State, actions: seq<Action>, mint: nat -> string)
    requires AllChunks(s.events)
    ensures AllChunks(ActAll(s, actions, mint).state.events)
  {
    hide R.OutcomeOf, R.Prepared;
    if actions != [] {
      ActingEmitsChunks(s, actions[..|actions| - 1], mint);
    }
  }

  lemma {:induction false} WalkEmitsChunks(frames: seq<Frame>, n: nat, mint: nat -> string)
    requires n <= |frames|
    ensures AllChunks(Walk(Start(), Visitor(mint), frames, n).state.events)
  {
    hide ActAll, FrameActions, Admitted;
    if n > 0 {
      WalkEmitsChunks(frames, n - 1, mint);
      var s, frame := Walk(Start(), Visitor(mint), frames, n - 1).state, frames[n - 1];
      ActingEmitsChunks(WithUsage(s, frame), FrameActions(frame), mint);
    }
  }

  lemma {:induction false} ClosingsInOrder(choices: map<int, ChoiceState>, indices: seq<int>)
    ensures |Closings(choices, indices)| == |indices|
    ensures forall k | 0 <= k < |indices| ::
      Closings(choices, indices)[k].Closing? && Closings(choices, indices)[k].index == indices[k]
  {
    hide OpenaiFinish;
    if indices != [] {
      ClosingsInOrder(choices, indices[..|indices| - 1]);
    }
  }

  /**
   A successful stream is chunks, then one closing per choice by increasing index, then the last usage of any
   frame if there is one, then the end mark; a failed one is chunks and one error.
   */
  ghost predicate EndsProperly(events: seq<Event>, succeeds: bool, usage: Option<string>) {
    exists chunks: seq<Event>, closings: seq<Event> ::
      && AllChunks(chunks)
      && (forall k | 0 <= k < |closings| :: closings[k].Closing?)
      && (forall j, k | 0 <= j < k < |closings| :: closings[j].index < closings[k].index)
      && events == if !succeeds then chunks + [Error]
                   else if usage.Some? then chunks + closings + [Usage(usage.value), Done]
                   else chunks + closings + [Done]
  }

  lemma ProperEnd(chunks: seq<Event>, closings: seq<Event>, succeeds: bool, usage: Option<string>, events: seq<Event>)
    requires AllChunks(chunks) && forall k | 0 <= k < |closings| :: closings[k].Closing?
    requires forall j, k | 0 <= j < k < |closings| :: closings[j].index < closings[k].index
    requires events == if !succeeds then chunks + [Error]
                       else if usage.Some? then chunks + closings + [Usage(usage.value), Done]
                       else chunks + closings + [Done]
    ensures EndsProperly(events, succeeds, usage)
  {
    hide AllChunks;
  }

  lemma EndingInParts(s: State)
    ensures var closings := Closings(s.choices, Ascending(s.choices.Keys));
      s.events + Ending(s) == if s.usage.Some? then s.events + closings + [Usage(s.usage.value), Done]
                              else s.events + closings + [Done]
  {
    hide Closings;
  }

  lemma StreamEndsProperly(source: Source, mint: nat -> string)
    ensures EndsProperly(Output(source, mint), Succeeds(source, mint), LastUsage(source.frames, |source.frames|))
  {
    hide Walk, Closings, AllChunks, Complete, EndsProperly, Ending, LastUsage;
    var n := |source.frames|;
    WalkEmitsChunks(source.frames, n, mint);
    var s := Walk(Start(), Visitor(mint), source.frames, n).state;
    var closings := Closings(s.choices, Ascending(s.choices.Keys));
    ClosingsInOrder(s.choices, Ascending(s.choices.Keys));
    EndingInParts(s);
    if Succeeds(source, mint) {
      WalkFinishes(source.frames, n, 0, mint);
    }
    ProperEnd(s.events, closings, Succeeds(source, mint), LastUsage(source.frames, n), Output(source, mint));
  }
}
