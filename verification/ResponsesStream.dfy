/**
 `WriteResponsesSSEWithTools`: a Gemini stream rewritten as the events of an OpenAI response. The
 writer never fails.
 */
module ResponsesStreams {
  import opened Wrappers
  import opened Text
  import opened Gemini
  import R = ToolRegistries

  const MAX_COLLECTED_BYTES: nat := 0x800_0000

  datatype Kind = MessageKind | ReasoningKind | CallKind(custom: bool, callId: string, name: string)

  datatype Status = InProgress | Completed | Incomplete

  /** `body` is the text of a closed message or reasoning item, or the arguments of a call. */
  datatype Item = Item(id: string, kind: Kind, body: string, sig: string, status: Status)

  datatype Event =
    | Created
    | Started
    | ItemAdded(index: nat, item: Item)
    | PartAdded(index: nat, id: string, kind: Kind)
    | Delta(index: nat, id: string, kind: Kind, text: string)
    | TextDone(index: nat, id: string, kind: Kind, text: string)
    | PartDone(index: nat, id: string, kind: Kind, text: string)
    | ItemDone(index: nat, item: Item)
    | Terminal(status: Status, reason: string, failed: bool, output: seq<Item>, usage: Option<string>)

  datatype Numbered = Numbered(number: nat, event: Event)

  /**
   The random identifiers, the tools that take free text, and how their input is taken out of
   the arguments (`customToolInput`).
   */
  datatype Config = Config(mint: nat -> string, draw: nat -> string, customTools: set<string>,
                           customInput: string -> string)

  datatype State = State(next: nat, outputs: seq<Item>, active: Option<nat>, candidate: int, text: string,
                         usage: Option<string>, finish: string, actionable: bool, registry: R.Registry, bytes: nat,
                         events: seq<Numbered>)
  {
    predicate Consistent() {
      active.Some? ==> active.value < |outputs|
    }
  }

  function Emit(s: State, e: Event): State {
    s.(events := s.events + [Numbered(s.next, e)], next := s.next + 1)
  }

  function Start(): State {
    Emit(Emit(State(0, [], None, -1, "", None, "", false, R.Empty(), 0, []), Created), Started)
  }

  function CloseItem(s: State, incomplete: bool): State
    requires s.Consistent()
  {
    if s.active.None? then s
    else
      var i := s.active.value;
      var item := s.outputs[i].(body := s.text, status := if incomplete then Incomplete else Completed);
      var done := Emit(Emit(s, TextDone(i, item.id, item.kind, s.text)), PartDone(i, item.id, item.kind, s.text));
      Emit(done, ItemDone(i, item)).(outputs := s.outputs[i := item], active := None, text := "")
  }

  /** Whether the open item takes another chunk of this kind from this candidate. */
  predicate Continues(s: State, kind: Kind, candidate: int)
    requires s.Consistent()
  {
    s.active.Some? && s.outputs[s.active.value].kind == kind && s.candidate == candidate
  }

  function Prefix(kind: Kind): string {
    match kind
    case MessageKind => "msg_"
    case ReasoningKind => "rs_"
    case CallKind(_, _, _) => "fc_"
  }

  function StartText(s: State, kind: Kind, candidate: int, cfg: Config): State
    requires s.Consistent()
  {
    if Continues(s, kind, candidate) then s
    else
      var closed := CloseItem(s, false);
      var i := |closed.outputs|;
      var item := Item(Prefix(kind) + cfg.draw(i), kind, "", "", InProgress);
      var added := Emit(closed.(outputs := closed.outputs + [item], active := Some(i), candidate := candidate),
        ItemAdded(i, item));
      Emit(added, PartAdded(i, item.id, kind))
  }

  function TakeCall(s: State, call: FunctionCall, id: string, sig: string, cfg: Config): State
    requires s.Consistent()
  {
    var closed := CloseItem(s, false);
    var i := |closed.outputs|;
    var custom := call.name in cfg.customTools;
    var kind := CallKind(custom, id, call.name);
    var body := if custom then cfg.customInput(call.args) else call.args;
    var item := Item("fc_" + cfg.draw(i), kind, "", sig, InProgress);
    var done := item.(body := body, status := Completed);
    var added := Emit(closed, ItemAdded(i, item));
    var said := Emit(Emit(added, Delta(i, item.id, kind, body)), TextDone(i, item.id, kind, body));
    Emit(said, ItemDone(i, done)).(outputs := closed.outputs + [done], actionable := true)
  }

  function TakeChunk(s: State, kind: Kind, chunk: string, sig: string, candidate: int, cfg: Config): State
    requires s.Consistent()
  {
    if chunk == "" then
      if sig != "" && s.active.Some? then
        s.(outputs := s.outputs[s.active.value := s.outputs[s.active.value].(sig := sig)])
      else s
    else
      var open := StartText(s, kind, candidate, cfg);
      var i := open.active.value;
      var signed := if sig != "" then open.outputs[i := open.outputs[i].(sig := sig)] else open.outputs;
      Emit(open, Delta(i, open.outputs[i].id, kind, chunk))
        .(text := open.text + chunk, outputs := signed, actionable := s.actionable || kind.MessageKind?)
  }

  function KindOf(part: Part): Kind {
    if part.IsThought() then ReasoningKind else MessageKind
  }

  function ChunkOf(part: Part): string {
    if part.IsThought() then part.Thinking() else part.Content()
  }

  function Delivered(s: State, candidate: int, part: Part, cfg: Config): Visited<State>
    requires s.Consistent()
  {
    if part.CallPart? then
      var q := R.Request(candidate, part.call);
      var next := s.(registry := R.Prepared(s.registry, q, cfg.mint));
      match R.OutcomeOf(s.registry, q, cfg.mint)
      case Rejected => Visited(s, true)
      case Repeated(_) => Visited(next, false)
      case Accepted(id) => Visited(TakeCall(next, part.call, id, part.sig, cfg), false)
    else Visited(TakeChunk(s, KindOf(part), ChunkOf(part), part.sig, candidate, cfg), false)
  }

  /** The first finish reason other than STOP is kept. */
  function Finished(before: string, finish: string): string {
    if finish != "" && (before == "" || before == "STOP") then finish else before
  }

  function Act(s: State, a: Action, cfg: Config): (v: Visited<State>)
    requires s.Consistent()
    ensures v.state.Consistent()
  {
    match a
    case Open(_, _, finish) => Visited(s.(finish := Finished(s.finish, finish.GetOr(""))), false)
    case Deliver(candidate, part) => Delivered(s, candidate, part, cfg)
  }

  function ActAll(s: State, actions: seq<Action>, cfg: Config): (v: Visited<State>)
    requires s.Consistent()
    ensures v.state.Consistent()
  {
    if actions == [] then Visited(s, false)
    else
      var before := ActAll(s, actions[..|actions| - 1], cfg);
      if before.failed then before else Act(before.state, actions[|actions| - 1], cfg)
  }

  function Visit(s: State, frame: Frame, cfg: Config): (v: Visited<State>)
    requires s.Consistent()
    ensures v.state.Consistent()
  {
    var sized := s.(bytes := s.bytes + frame.size);
    if sized.bytes > MAX_COLLECTED_BYTES then Visited(sized, true)
    else ActAll(if frame.usage.Some? then sized.(usage := frame.usage) else sized, FrameActions(frame), cfg)
  }

  function Visitor(cfg: Config): (State, Frame) -> Visited<State> {
    (s: State, frame: Frame) => if s.Consistent() then Visit(s, frame, cfg) else Visited(s, true)
  }

  predicate LimitsLength(finish: string) {
    ToUpper(finish) == "MAX_TOKENS"
  }

  predicate Filtered(finish: string) {
    ToUpper(finish) in {"SAFETY", "RECITATION", "BLOCKLIST", "PROHIBITED_CONTENT", "SPII", "IMAGE_SAFETY",
      "IMAGE_PROHIBITED_CONTENT"}
  }

  /** Status, reason, and whether the call reports an error. */
  datatype Outcome = Outcome(status: Status, reason: string, failed: bool)

  function OutcomeFor(finish: string, actionable: bool, streamFailed: bool): Outcome {
    if streamFailed then Outcome(Incomplete, "interrupted", true)
    else if LimitsLength(finish) then Outcome(Incomplete, "max_output_tokens", false)
    else if Filtered(finish) then Outcome(Incomplete, "content_filter", false)
    else if !actionable then Outcome(Incomplete, "interrupted", true)
    else Outcome(Completed, "", false)
  }

  function Ended(s: State, streamFailed: bool): State
    requires s.Consistent()
  {
    var o := OutcomeFor(s.finish, s.actionable, streamFailed);
    var closed := CloseItem(s, o.status != Completed);
    Emit(closed, Terminal(o.status, o.reason, o.failed, closed.outputs, s.usage))
  }

  function Walked(source: Source, cfg: Config): Gemini.Walked<State> {
    Walk(Start(), Visitor(cfg), source.frames, |source.frames|)
  }

  predicate StreamSucceeds(source: Source, cfg: Config) {
    WalkSucceeds(Walked(source, cfg), source)
  }

  lemma {:induction false} WalkIsConsistent(frames: seq<Frame>, n: nat, cfg: Config)
    requires n <= |frames|
    ensures Walk(Start(), Visitor(cfg), frames, n).state.Consistent()
  {
    hide Visit, Admitted;
    if n > 0 {
      WalkIsConsistent(frames, n - 1, cfg);
    }
  }

  /** Everything written for a source. */
  function Output(source: Source, cfg: Config): seq<Numbered> {
    WalkIsConsistent(source.frames, |source.frames|, cfg);
    Ended(Walked(source, cfg).state, !StreamSucceeds(source, cfg)).events
  }

  // ---- The writer in place ---------------------------------------------------------

  lemma ActAllOfOneMore(s: State, actions: seq<Action>, a: Action, cfg: Config)
    requires s.Consistent()
    ensures ActAll(s, actions + [a], cfg)
         == var before := ActAll(s, actions, cfg); if before.failed then before else Act(before.state, a, cfg)
  {
    assert (actions + [a])[..|actions|] == actions;
  }

  lemma {:induction false} ActAllStops(s: State, actions: seq<Action>, more: seq<Action>, cfg: Config)
    requires s.Consistent() && ActAll(s, actions, cfg).failed
    ensures ActAll(s, actions + more, cfg) == ActAll(s, actions, cfg)
  {
    if more == [] {
      assert actions + more == actions;
    } else {
      var front := more[..|more| - 1];
      ActAllStops(s, actions, front, cfg);
      assert actions + more == (actions + front) + [more[|more| - 1]];
      ActAllOfOneMore(s, actions + front, more[|more| - 1], cfg);
    }
  }

  class Writer {
    var next: nat
    var outputs: seq<Item>
    var active: Option<nat>
    var candidate: int
    var text: string
    var usage: Option<string>
    var finish: string
    var actionable: bool
    var bytes: nat
    var events: seq<Numbered>
    const registry: R.ToolRegistry

    function Model(): State
      reads this, registry
    {
      State(next, outputs, active, candidate, text, usage, finish, actionable, registry.Model(), bytes, events)
    }

    predicate Valid()
      reads this, registry
    {
      Model().Consistent()
    }

    constructor ()
      ensures Valid() && Model() == Start() && fresh(registry)
    {
      registry := new R.ToolRegistry();
      next, outputs, active, candidate, text, usage := 0, [], None, -1, "", None;
      finish, actionable, bytes, events := "", false, 0, [];
      new;
      EmitEvent(Created);
      EmitEvent(Started);
    }

    method EmitEvent(e: Event)
      modifies this`events, this`next
      ensures Model() == Emit(old(Model()), e)
    {
      events := events + [Numbered(next, e)];
      next := next + 1;
    }

    method Close(incomplete: bool)
      requires Valid()
      modifies this
      ensures Valid() && Model() == CloseItem(old(Model()), incomplete)
    {
      if active.None? {
        return;
      }
      var i := active.value;
      var item := outputs[i];
      EmitEvent(TextDone(i, item.id, item.kind, text));
      EmitEvent(PartDone(i, item.id, item.kind, text));
      item := item.(body := text, status := if incomplete then Incomplete else Completed);
      outputs := outputs[i := item];
      EmitEvent(ItemDone(i, item));
      active := None;
      text := "";
    }

    method StartTextItem(kind: Kind, cand: int, cfg: Config)
      requires Valid()
      modifies this
      ensures Valid() && Model() == StartText(old(Model()), kind, cand, cfg)
    {
      hide CloseItem;
      if active.Some? && outputs[active.value].kind == kind && candidate == cand {
        return;
      }
      Close(false);
      var i := |outputs|;
      var item := Item(Prefix(kind) + cfg.draw(i), kind, "", "", InProgress);
      outputs := outputs + [item];
      active := Some(i);
      candidate := cand;
      EmitEvent(ItemAdded(i, item));
      EmitEvent(PartAdded(i, item.id, kind));
    }

    method TakeFunctionCall(call: FunctionCall, id: string, sig: string, cfg: Config)
      requires Valid()
      modifies this
      ensures Valid() && Model() == TakeCall(old(Model()), call, id, sig, cfg)
    {
      hide CloseItem;
      Close(false);
      var i := |outputs|;
      var custom := call.name in cfg.customTools;
      var arguments := call.args;
      if custom {
        arguments := cfg.customInput(arguments);
      }
      var item := Item("fc_" + cfg.draw(i), CallKind(custom, id, call.name), "", sig, InProgress);
      EmitEvent(ItemAdded(i, item));
      EmitEvent(Delta(i, item.id, item.kind, arguments));
      EmitEvent(TextDone(i, item.id, item.kind, arguments));
      item := item.(body := arguments, status := Completed);
      outputs := outputs + [item];
      EmitEvent(ItemDone(i, item));
      actionable := true;
    }

    method TakeTextChunk(kind: Kind, chunk: string, sig: string, cand: int, cfg: Config)
      requires Valid()
      modifies this
      ensures Valid() && Model() == TakeChunk(old(Model()), kind, chunk, sig, cand, cfg)
    {
      hide StartText;
      if chunk == "" {
        if sig != "" && active.Some? {
          outputs := outputs[active.value := outputs[active.value].(sig := sig)];
        }
        return;
      }
      ChunksGoToTheOpenItem(Model(), kind, cand, cfg);
      StartTextItem(kind, cand, cfg);
      text := text + chunk;
      var i := active.value;
      var id := outputs[i].id;
      if sig != "" {
        outputs := outputs[i := outputs[i].(sig := sig)];
      }
      if kind.MessageKind? {
        actionable := true;
      }
      EmitEvent(Delta(i, id, kind, chunk));
    }

    method TakePart(cand: int, part: Part, cfg: Config) returns (ok: bool)
      requires Valid()
      modifies this, registry
      ensures Valid()
      ensures var v := Delivered(old(Model()), cand, part, cfg); ok == !v.failed && Model() == v.state
    {
      hide TakeCall, TakeChunk;
      if part.CallPart? {
        var outcome := registry.Prepare(cand, part.call, cfg.mint);
        match outcome {
          case Rejected => return false;
          case Repeated(_) => return true;
          case Accepted(id) =>
            TakeFunctionCall(part.call, id, part.sig, cfg);
            return true;
        }
      }
      if part.IsThought() {
        TakeTextChunk(ReasoningKind, part.Thinking(), part.sig, cand, cfg);
      } else {
        TakeTextChunk(MessageKind, part.Content(), part.sig, cand, cfg);
      }
      return true;
    }

    method TakeParts(cand: int, parts: seq<Part>, cfg: Config, ghost start: State, ghost done: seq<Action>)
      returns (ok: bool)
      requires Valid() && start.Consistent()
      requires ActAll(start, done, cfg) == Visited(Model(), false)
      modifies this, registry
      ensures Valid() && ActAll(start, done + Deliveries(cand, parts, |parts|), cfg) == Visited(Model(), !ok)
    {
      hide Delivered, FrameActions, Actions, CandidateActions, ActAll, State.Consistent;
      assert done + Deliveries(cand, parts, 0) == done;
      for j := 0 to |parts|
        invariant Valid() && ActAll(start, done + Deliveries(cand, parts, j), cfg) == Visited(Model(), false)
      {
        ok := TakePart(cand, parts[j], cfg);
        ghost var upTo := done + Deliveries(cand, parts, j);
        ActAllOfOneMore(start, upTo, Deliver(cand, parts[j]), cfg);
        assert done + Deliveries(cand, parts, j + 1) == upTo + [Deliver(cand, parts[j])];
        if !ok {
          ghost var rest := DeliveriesSplit(cand, parts, j + 1, |parts|);
          ActAllStops(start, upTo + [Deliver(cand, parts[j])], rest, cfg);
          assert done + Deliveries(cand, parts, |parts|) == (upTo + [Deliver(cand, parts[j])]) + rest;
          return false;
        }
      }
      return true;
    }

    method TakeCandidate(c: Candidate, i: nat, cfg: Config, ghost start: State, ghost done: seq<Action>)
      returns (ok: bool)
      requires Valid() && start.Consistent() && ActAll(start, done, cfg) == Visited(Model(), false)
      modifies this, registry
      ensures Valid()
      ensures ActAll(start, (done + [OpeningOf(c, i)]) + Deliveries(c.Index(i), c.Parts(), |c.Parts()|), cfg)
        == Visited(Model(), !ok)
    {
      hide Delivered, Deliveries, State.Consistent;
      if c.Finish() != "" && (finish == "" || finish == "STOP") {
        finish := c.Finish();
      }
      ActAllOfOneMore(start, done, OpeningOf(c, i), cfg);
      ok := TakeParts(c.Index(i), c.Parts(), cfg, start, done + [OpeningOf(c, i)]);
    }

    method VisitFrame(frame: Frame, cfg: Config) returns (ok: bool)
      requires Valid()
      modifies this, registry
      ensures Valid() && Visit(old(Model()), frame, cfg) == Visited(Model(), !ok)
    {
      hide Delivered, CandidateActions, ActAll, OpeningOf, Deliveries;
      bytes := bytes + frame.size;
      if bytes > MAX_COLLECTED_BYTES {
        return false;
      }
      if frame.usage.Some? {
        usage := frame.usage;
      }
      ghost var start := Model();
      NothingActed(start, cfg);
      for i := 0 to |frame.candidates|
        invariant Valid() && ActAll(start, Actions(frame.candidates, i), cfg) == Visited(Model(), false)
      {
        ok := TakeCandidate(frame.candidates[i], i, cfg, start, Actions(frame.candidates, i));
        OneMoreCandidate(frame.candidates, i);
        if !ok {
          ghost var rest := ActionsSplit(frame.candidates, i + 1, |frame.candidates|);
          ActAllStops(start, Actions(frame.candidates, i + 1), rest, cfg);
          return false;
        }
      }
      return true;
    }

    /** Returns whether the call reports no error. */
    method End(streamFailed: bool) returns (ok: bool)
      requires Valid()
      modifies this
      ensures Model() == Ended(old(Model()), streamFailed)
      ensures ok == !OutcomeFor(old(finish), old(actionable), streamFailed).failed
    {
      hide CloseItem;
      var status, reason := Completed, "";
      if LimitsLength(finish) {
        status, reason := Incomplete, "max_output_tokens";
      } else if Filtered(finish) {
        status, reason := Incomplete, "content_filter";
      }
      var failed := streamFailed;
      if failed {
        status, reason := Incomplete, "interrupted";
      }
      if !actionable && reason == "" {
        status, reason := Incomplete, "interrupted";
        failed := true;
      }
      ghost var o := OutcomeFor(finish, actionable, streamFailed);
      assert o == Outcome(status, reason, failed);
      var last := usage;
      Close(status != Completed);
      EmitEvent(Terminal(status, reason, failed, outputs, last));
      ok := !failed;
    }
  }

  lemma NothingActed(s: State, cfg: Config)
    requires s.Consistent()
    ensures ActAll(s, [], cfg) == Visited(s, false)
  {
  }

  lemma ChunksGoToTheOpenItem(s: State, kind: Kind, candidate: int, cfg: Config)
    requires s.Consistent()
    ensures var open := StartText(s, kind, candidate, cfg);
      open.Consistent() && open.active.Some? && open.outputs[open.active.value].kind == kind
        && open.actionable == s.actionable
  {
  }

  lemma EndedIsTerminal(s: State, streamFailed: bool)
    requires s.Consistent()
    ensures var events := Ended(s, streamFailed).events;
      && events != [] && events[|events| - 1].event.Terminal?
      && events[|events| - 1].event.failed == OutcomeFor(s.finish, s.actionable, streamFailed).failed
  {
    hide CloseItem, OutcomeFor;
  }

  /** The whole call: a fresh walker and a fresh writer over one source. */
  method Write(source: Source, cfg: Config) returns (events: seq<Numbered>, ok: bool)
    ensures events == Output(source, cfg)
    ensures var s := Walked(source, cfg).state;
      ok == !OutcomeFor(s.finish, s.actionable, !StreamSucceeds(source, cfg)).failed
    ensures events != [] && events[|events| - 1].event.Terminal? && ok == !events[|events| - 1].event.failed
  {
    hide OutcomeFor, Visit, Ended, Complete, Admitted, State.Consistent;
    var walker := new Walker();
    var writer := new Writer();
    ghost var visit := Visitor(cfg);
    var failed := false;
    var n := 0;
    while n < |source.frames| && !failed
      invariant n <= |source.frames| && fresh(walker) && fresh(writer) && fresh(writer.registry) && writer.Valid()
      invariant var w := Walk(Start(), visit, source.frames, n);
        w.state == writer.Model() && w.failed == failed && (!failed ==> w.seen == walker.seen)
    {
      ok := walker.Admit(source.frames[n]);
      if ok {
        ok := writer.VisitFrame(source.frames[n], cfg);
      }
      failed := !ok;
      n := n + 1;
    }
    if failed {
      FailureIsFinal(Start(), visit, source.frames, n, |source.frames|);
    }
    ghost var last := writer.Model();
    ok := writer.End(failed || !source.ok || !Complete(walker.seen));
    events := writer.events;
    EndedIsTerminal(last, failed || !source.ok || !Complete(walker.seen));
  }
}
