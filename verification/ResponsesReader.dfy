/**
 What a client reads from a response's events, against what the parts say.

 `Speech` collects the words and the accepted calls of all parts without any events.
 */
module ResponsesReaders {
  import opened Wrappers
  import opened Text
  import opened Gemini
  import opened ResponsesStreams
  import R = ToolRegistries
  import W = WalkLaws

  /** How far the open item is: its content part opens, fills, has its text done, has its part done. */
  datatype Phase = Opening | Filling | TextClosed | PartClosed

  datatype Reader =
    | Fresh
    | Announced
    | Between(items: seq<Item>)
    | Inside(items: seq<Item>, current: Item, phase: Phase)
    | Over(items: seq<Item>, status: Status, reason: string, failed: bool, usage: Option<string>)
    | Broken

  predicate Concerns(r: Reader, index: nat, id: string, kind: Kind) {
    r.Inside? && index == |r.items| && r.current.id == id && r.current.kind == kind
  }

  /** The final item repeats what was streamed; only a text item's signature arrives with it. */
  predicate Closes(current: Item, item: Item) {
    && item.id == current.id && item.kind == current.kind && item.body == current.body
    && item.status != InProgress && (item.kind.CallKind? ==> item.sig == current.sig)
  }

  function Hear(r: Reader, e: Event): Reader {
    match e
    case Created => if r.Fresh? then Announced else Broken
    case Started => if r.Announced? then Between([]) else Broken
    case ItemAdded(i, item) =>
      if r.Between? && i == |r.items| && item.body == "" && item.status == InProgress then
        Inside(r.items, item, if item.kind.CallKind? then Filling else Opening)
      else Broken
    case PartAdded(i, id, kind) =>
      if Concerns(r, i, id, kind) && r.phase == Opening then r.(phase := Filling) else Broken
    case Delta(i, id, kind, text) =>
      if Concerns(r, i, id, kind) && r.phase == Filling then
        Inside(r.items, r.current.(body := r.current.body + text), Filling)
      else Broken
    case TextDone(i, id, kind, text) =>
      if Concerns(r, i, id, kind) && r.phase == Filling && text == r.current.body then
        r.(phase := if kind.CallKind? then PartClosed else TextClosed)
      else Broken
    case PartDone(i, id, kind, text) =>
      if Concerns(r, i, id, kind) && r.phase == TextClosed && text == r.current.body then r.(phase := PartClosed)
      else Broken
    case ItemDone(i, item) =>
      if r.Inside? && i == |r.items| && r.phase == PartClosed && Closes(r.current, item) then Between(r.items + [item])
      else Broken
    case Terminal(status, reason, failed, output, usage) =>
      if r.Between? && output == r.items then Over(r.items, status, reason, failed, usage) else Broken
  }

  /** Also checks that the sequence numbers are 0, 1, 2, … */
  function Read(events: seq<Numbered>): Reader {
    if events == [] then Fresh
    else
      var n := |events| - 1;
      if events[n].number == n then Hear(Read(events[..n]), events[n].event) else Broken
  }

  lemma ReadOneMore(s: State, e: Event)
    requires s.next == |s.events|
    ensures Read(Emit(s, e).events) == Hear(Read(s.events), e) && Emit(s, e).next == |Emit(s, e).events|
  {
    assert Emit(s, e).events[..|s.events|] == s.events;
  }

  lemma {:induction false} NumbersCountUp(events: seq<Numbered>, k: nat)
    requires !Read(events).Broken? && k < |events|
    ensures events[k].number == k
  {
    if k < |events| - 1 {
      NumbersCountUp(events[..|events| - 1], k);
    }
  }

  // ---- Words ---------------------------------------------------------------------------

  datatype Unit = Say(c: char) | Think(c: char) | Call(id: string, name: string, body: string)

  function Says(text: string): seq<Unit> {
    seq(|text|, i requires 0 <= i < |text| => Say(text[i]))
  }

  function Thinks(text: string): seq<Unit> {
    seq(|text|, i requires 0 <= i < |text| => Think(text[i]))
  }

  function UnitsOf(kind: Kind, body: string): seq<Unit> {
    match kind
    case MessageKind => Says(body)
    case ReasoningKind => Thinks(body)
    case CallKind(_, id, name) => [Call(id, name, body)]
  }

  function Units(items: seq<Item>): seq<Unit> {
    if items == [] then []
    else Units(items[..|items| - 1]) + UnitsOf(items[|items| - 1].kind, items[|items| - 1].body)
  }

  lemma UnitsOfOneMore(items: seq<Item>, item: Item)
    ensures Units(items + [item]) == Units(items) + UnitsOf(item.kind, item.body)
  {
    assert (items + [item])[..|items|] == items;
  }

  datatype Speech = Speech(registry: R.Registry, said: seq<Unit>, finish: string, bytes: nat)

  function Silence(): Speech {
    Speech(R.Empty(), [], "", 0)
  }

  function SpokenCall(call: FunctionCall, id: string, cfg: Config): Unit {
    Call(id, call.name, if call.name in cfg.customTools then cfg.customInput(call.args) else call.args)
  }

  function Spoken(p: Speech, candidate: int, part: Part, cfg: Config): Visited<Speech> {
    if part.CallPart? then
      var q := R.Request(candidate, part.call);
      var next := p.(registry := R.Prepared(p.registry, q, cfg.mint));
      match R.OutcomeOf(p.registry, q, cfg.mint)
      case Rejected => Visited(p, true)
      case Repeated(_) => Visited(next, false)
      case Accepted(id) => Visited(next.(said := p.said + [SpokenCall(part.call, id, cfg)]), false)
    else Visited(p.(said := p.said + UnitsOf(KindOf(part), ChunkOf(part))), false)
  }

  function Speak(p: Speech, a: Action, cfg: Config): Visited<Speech> {
    match a
    case Open(_, _, finish) => Visited(p.(finish := Finished(p.finish, finish.GetOr(""))), false)
    case Deliver(candidate, part) => Spoken(p, candidate, part, cfg)
  }

  function SpeakAll(p: Speech, actions: seq<Action>, cfg: Config): Visited<Speech> {
    if actions == [] then Visited(p, false)
    else
      var before := SpeakAll(p, actions[..|actions| - 1], cfg);
      if before.failed then before else Speak(before.state, actions[|actions| - 1], cfg)
  }

  function SpeakFrame(p: Speech, frame: Frame, cfg: Config): Visited<Speech> {
    var sized := p.(bytes := p.bytes + frame.size);
    if sized.bytes > MAX_COLLECTED_BYTES then Visited(sized, true) else SpeakAll(sized, FrameActions(frame), cfg)
  }

  function Speaker(cfg: Config): (Speech, Frame) -> Visited<Speech> {
    (p: Speech, frame: Frame) => SpeakFrame(p, frame, cfg)
  }

  /** Everything said before the end of the source, or before its first failure. */
  function SpeechOf(source: Source, cfg: Config): Speech {
    Walk(Silence(), Speaker(cfg), source.frames, |source.frames|).state
  }

  /** Something other than reasoning was said. */
  predicate Actionable(said: seq<Unit>) {
    exists u <- said :: !u.Think?
  }

  lemma ActionableConcat(a: seq<Unit>, b: seq<Unit>)
    ensures Actionable(a + b) <==> Actionable(a) || Actionable(b)
  {
    if Actionable(a) {
      var u :| u in a && !u.Think?;
      assert u in a + b;
    }
    if Actionable(b) {
      var u :| u in b && !u.Think?;
      assert u in a + b;
    }
  }

  // ---- The writer in step with the words -------------------------------------------------

  /** The items as the client knows them: the open one with the text streamed so far. */
  function Told(s: State): seq<Item>
    requires s.Consistent()
  {
    if s.active.Some? then s.outputs[s.active.value := s.outputs[s.active.value].(body := s.text)] else s.outputs
  }

  ghost predicate Shows(s: State) {
    && s.Consistent() && s.next == |s.events|
    && match s.active
       case None => s.text == "" && Read(s.events) == Between(s.outputs)
       case Some(i) =>
         var item := s.outputs[i];
         && i == |s.outputs| - 1 && !item.kind.CallKind? && item.body == "" && item.status == InProgress
         && Read(s.events) == Inside(s.outputs[..i], item.(body := s.text, sig := ""), Filling)
  }

  ghost predicate Reads(s: State, r: Reader) {
    s.next == |s.events| && Read(s.events) == r
  }

  lemma EmittingReads(s: State, e: Event, r: Reader)
    requires Reads(s, r)
    ensures Reads(Emit(s, e), Hear(r, e))
  {
    hide Hear;
    ReadOneMore(s, e);
  }

  lemma HearingTheClose(items: seq<Item>, current: Item, done: Item)
    requires !current.kind.CallKind? && Closes(current, done)
    ensures var i := |items|;
      var r1 := Hear(Inside(items, current, Filling), TextDone(i, done.id, done.kind, done.body));
      var r2 := Hear(r1, PartDone(i, done.id, done.kind, done.body));
      Hear(r2, ItemDone(i, done)) == Between(items + [done])
  {
  }

  lemma ClosingReads(s: State, incomplete: bool)
    requires Shows(s) && s.active.Some?
    ensures Reads(CloseItem(s, incomplete), Between(CloseItem(s, incomplete).outputs))
  {
    hide Hear, Reads;
    var i := s.active.value;
    var done := s.outputs[i].(body := s.text, status := if incomplete then Incomplete else Completed);
    var current := s.outputs[i].(body := s.text, sig := "");
    var r0 := Inside(s.outputs[..i], current, Filling);
    assert Reads(s, r0) by {
      ShowsReads(s);
    }
    var e1, e2 := TextDone(i, done.id, done.kind, s.text), PartDone(i, done.id, done.kind, s.text);
    EmittingReads(s, e1, r0);
    EmittingReads(Emit(s, e1), e2, Hear(r0, e1));
    EmittingReads(Emit(Emit(s, e1), e2), ItemDone(i, done), Hear(Hear(r0, e1), e2));
    HearingTheClose(s.outputs[..i], current, done);
    assert s.outputs[i := done] == s.outputs[..i] + [done];
    OutputsAreNotHeard(Emit(Emit(Emit(s, e1), e2), ItemDone(i, done)), CloseItem(s, incomplete),
      Between(s.outputs[..i] + [done]));
  }

  lemma ShowsReads(s: State)
    requires Shows(s) && s.active.Some?
    ensures var i := s.active.value;
      && i == |s.outputs| - 1
      && Reads(s, Inside(s.outputs[..i], s.outputs[i].(body := s.text, sig := ""), Filling))
  {
  }

  lemma OutputsAreNotHeard(s: State, t: State, r: Reader)
    requires Reads(s, r) && s.events == t.events && s.next == t.next
    ensures Reads(t, r)
  {
  }

  /** Changing the open item's signature or status says nothing. */
  lemma ToldUnits(s: State)
    requires Shows(s) && s.active.Some?
    ensures var i := s.active.value;
      i == |s.outputs| - 1 && Units(Told(s)) == Units(s.outputs[..i]) + UnitsOf(s.outputs[i].kind, s.text)
  {
    var i := s.active.value;
    assert Told(s) == s.outputs[..i] + [s.outputs[i].(body := s.text)];
    UnitsOfOneMore(s.outputs[..i], s.outputs[i].(body := s.text));
  }

  lemma ClosingShows(s: State, incomplete: bool)
    requires Shows(s)
    ensures var t := CloseItem(s, incomplete); Shows(t) && t.active.None? && Units(t.outputs) == Units(Told(s))
  {
    hide Units, Read;
    if s.active.Some? {
      var i := s.active.value;
      var item := s.outputs[i].(body := s.text, status := if incomplete then Incomplete else Completed);
      ClosingReads(s, incomplete);
      ToldUnits(s);
      assert s.outputs[i := item] == s.outputs[..i] + [item];
      UnitsOfOneMore(s.outputs[..i], item);
    }
  }

  lemma OpeningShows(s: State, kind: Kind, candidate: int, cfg: Config)
    requires Shows(s) && s.active.None? && !kind.CallKind?
    ensures var t := StartText(s, kind, candidate, cfg);
      Shows(t) && t.active.Some? && t.outputs[t.active.value].kind == kind && Units(Told(t)) == Units(s.outputs)
  {
    hide Units, Read;
    var i := |s.outputs|;
    var item := Item(Prefix(kind) + cfg.draw(i), kind, "", "", InProgress);
    var s1 := s.(outputs := s.outputs + [item], active := Some(i), candidate := candidate);
    ReadOneMore(s1, ItemAdded(i, item));
    var s2 := Emit(s1, ItemAdded(i, item));
    ReadOneMore(s2, PartAdded(i, item.id, kind));
    assert s1.outputs[..i] == s.outputs;
    var t := Emit(s2, PartAdded(i, item.id, kind));
    assert Told(t) == s.outputs + [item];
    UnitsOfOneMore(s.outputs, item);
    assert UnitsOf(kind, "") == [];
  }

  lemma StartingShows(s: State, kind: Kind, candidate: int, cfg: Config)
    requires Shows(s) && !kind.CallKind?
    ensures var t := StartText(s, kind, candidate, cfg);
      Shows(t) && t.active.Some? && t.outputs[t.active.value].kind == kind && Units(Told(t)) == Units(Told(s))
  {
    ShowsIsConsistent(s);
    hide Shows, Units, Told;
    if !Continues(s, kind, candidate) {
      ClosingShows(s, false);
      OpeningShows(CloseItem(s, false), kind, candidate, cfg);
      StartingTwice(s, kind, candidate, cfg);
    }
  }

  lemma ShowsIsConsistent(s: State)
    requires Shows(s)
    ensures s.Consistent()
  {
  }

  lemma StartingTwice(s: State, kind: Kind, candidate: int, cfg: Config)
    requires s.Consistent() && !Continues(s, kind, candidate)
    ensures CloseItem(s, false).Consistent()
    ensures StartText(CloseItem(s, false), kind, candidate, cfg) == StartText(s, kind, candidate, cfg)
  {
  }

  /** The state after a chunk has gone to the open item. */
  function Chunked(s: State, kind: Kind, chunk: string, sig: string): State
    requires s.Consistent() && s.active.Some?
  {
    var i := s.active.value;
    var signed := if sig != "" then s.outputs[i := s.outputs[i].(sig := sig)] else s.outputs;
    Emit(s, Delta(i, s.outputs[i].id, kind, chunk)).(text := s.text + chunk, outputs := signed)
  }

  lemma DeltaIsHeard(s: State, kind: Kind, chunk: string, sig: string)
    requires Shows(s) && s.active.Some? && s.outputs[s.active.value].kind == kind
    ensures Shows(Chunked(s, kind, chunk, sig))
  {
    hide Read, Units, Told;
    var i := s.active.value;
    ReadOneMore(s, Delta(i, s.outputs[i].id, kind, chunk));
    assert Chunked(s, kind, chunk, sig).outputs[..i] == s.outputs[..i];
  }

  lemma DeltaShows(s: State, kind: Kind, chunk: string, sig: string)
    requires Shows(s) && s.active.Some? && s.outputs[s.active.value].kind == kind
    ensures var t := Chunked(s, kind, chunk, sig); Shows(t) && Units(Told(t)) == Units(Told(s)) + UnitsOf(kind, chunk)
  {
    hide Units, UnitsOf, Read, Shows, Told;
    ShowsIsConsistent(s);
    var i := s.active.value;
    var t := Chunked(s, kind, chunk, sig);
    DeltaIsHeard(s, kind, chunk, sig);
    ToldUnits(s);
    ToldUnits(t);
    OpenIsText(s);
    assert t.outputs[..i] == s.outputs[..i];
    UnitsOfLonger(kind, s.text, chunk);
    assert t.outputs[i].kind == kind;
  }

  lemma OpenIsText(s: State)
    requires Shows(s) && s.active.Some?
    ensures s.Consistent() && !s.outputs[s.active.value].kind.CallKind?
  {
  }

  lemma UnitsOfLonger(kind: Kind, a: string, b: string)
    requires !kind.CallKind?
    ensures UnitsOf(kind, a + b) == UnitsOf(kind, a) + UnitsOf(kind, b)
  {
  }

  lemma SigningShows(s: State, sig: string)
    requires Shows(s) && s.active.Some?
    ensures var t := s.(outputs := s.outputs[s.active.value := s.outputs[s.active.value].(sig := sig)]);
      Shows(t) && Units(Told(t)) == Units(Told(s))
  {
    hide Units, Read;
    var i := s.active.value;
    var t := s.(outputs := s.outputs[i := s.outputs[i].(sig := sig)]);
    assert t.outputs[..i] == s.outputs[..i];
    assert Shows(t);
    ToldUnits(s);
    ToldUnits(t);
  }

  lemma ChunkShows(s: State, kind: Kind, chunk: string, sig: string, candidate: int, cfg: Config)
    requires Shows(s) && !kind.CallKind?
    ensures var t := TakeChunk(s, kind, chunk, sig, candidate, cfg);
      Shows(t) && Units(Told(t)) == Units(Told(s)) + UnitsOf(kind, chunk)
  {
    hide Units, StartText;
    if chunk == "" {
      assert UnitsOf(kind, chunk) == [];
      assert Units(Told(s)) + [] == Units(Told(s));
      if sig != "" && s.active.Some? {
        SigningShows(s, sig);
      }
    } else {
      StartingShows(s, kind, candidate, cfg);
      DeltaShows(StartText(s, kind, candidate, cfg), kind, chunk, sig);
    }
  }

  lemma HearingACall(items: seq<Item>, item: Item, done: Item)
    requires item.kind.CallKind? && item.body == "" && item.status == InProgress
    requires done == item.(body := done.body, status := Completed)
    ensures var i := |items|;
      var r1 := Hear(Between(items), ItemAdded(i, item));
      var r2 := Hear(r1, Delta(i, item.id, item.kind, done.body));
      var r3 := Hear(r2, TextDone(i, item.id, item.kind, done.body));
      Hear(r3, ItemDone(i, done)) == Between(items + [done])
  {
    assert "" + done.body == done.body;
  }

  lemma CallReads(closed: State, item: Item, done: Item)
    requires Reads(closed, Between(closed.outputs))
    requires item.kind.CallKind? && item.body == "" && item.status == InProgress
    requires done == item.(body := done.body, status := Completed)
    ensures var i := |closed.outputs|;
      var said := Emit(Emit(Emit(closed, ItemAdded(i, item)), Delta(i, item.id, item.kind, done.body)),
        TextDone(i, item.id, item.kind, done.body));
      Reads(Emit(said, ItemDone(i, done)), Between(closed.outputs + [done]))
  {
    hide Hear, Reads, Emit;
    var i := |closed.outputs|;
    var e1, e2, e3 := ItemAdded(i, item), Delta(i, item.id, item.kind, done.body),
      TextDone(i, item.id, item.kind, done.body);
    var r := Between(closed.outputs);
    EmittingReads(closed, e1, r);
    EmittingReads(Emit(closed, e1), e2, Hear(r, e1));
    EmittingReads(Emit(Emit(closed, e1), e2), e3, Hear(Hear(r, e1), e2));
    EmittingReads(Emit(Emit(Emit(closed, e1), e2), e3), ItemDone(i, done), Hear(Hear(Hear(r, e1), e2), e3));
    HearingACall(closed.outputs, item, done);
  }

  lemma CallShows(s: State, call: FunctionCall, id: string, sig: string, cfg: Config)
    requires Shows(s)
    ensures var t := TakeCall(s, call, id, sig, cfg);
      Shows(t) && Units(Told(t)) == Units(Told(s)) + [SpokenCall(call, id, cfg)]
  {
    hide Units, CloseItem, Read;
    ClosingShows(s, false);
    var closed := CloseItem(s, false);
    var kind := CallKind(call.name in cfg.customTools, id, call.name);
    var body := if call.name in cfg.customTools then cfg.customInput(call.args) else call.args;
    var item := Item("fc_" + cfg.draw(|closed.outputs|), kind, "", sig, InProgress);
    var done := item.(body := body, status := Completed);
    CallReads(closed, item, done);
    UnitsOfOneMore(closed.outputs, done);
  }

  // ---- Whole runs --------------------------------------------------------------------------

  /** The writer has told the client exactly what was said so far. */
  ghost predicate InStep(s: State, p: Speech) {
    && Shows(s) && Units(Told(s)) == p.said && s.actionable == Actionable(p.said)
    && s.registry == p.registry && s.finish == p.finish && s.bytes == p.bytes
  }

  lemma CallBookkeeping(s: State, call: FunctionCall, id: string, sig: string, cfg: Config)
    requires s.Consistent()
    ensures var t := TakeCall(s, call, id, sig, cfg);
      t.actionable && t.registry == s.registry && t.finish == s.finish && t.bytes == s.bytes
  {
  }

  lemma ChunkBookkeeping(s: State, kind: Kind, chunk: string, sig: string, candidate: int, cfg: Config)
    requires s.Consistent()
    ensures var t := TakeChunk(s, kind, chunk, sig, candidate, cfg);
      t.registry == s.registry && t.finish == s.finish && t.bytes == s.bytes
      && t.actionable == (s.actionable || (chunk != "" && kind.MessageKind?))
  {
  }

  lemma ChunkIsActionable(kind: Kind, chunk: string)
    requires !kind.CallKind?
    ensures Actionable(UnitsOf(kind, chunk)) <==> chunk != "" && kind.MessageKind?
  {
    if chunk != "" && kind.MessageKind? {
      assert Says(chunk)[0] == Say(chunk[0]);
      assert Say(chunk[0]) in UnitsOf(kind, chunk);
    }
  }

  lemma RegistryIsNotHeard(s: State, r: R.Registry)
    requires Shows(s)
    ensures Shows(s.(registry := r)) && Told(s.(registry := r)) == Told(s)
  {
  }

  lemma DeliveringStaysInStep(s: State, p: Speech, candidate: int, part: Part, cfg: Config)
    requires InStep(s, p)
    ensures Delivered(s, candidate, part, cfg).failed == Spoken(p, candidate, part, cfg).failed
    ensures InStep(Delivered(s, candidate, part, cfg).state, Spoken(p, candidate, part, cfg).state)
  {
    ShowsIsConsistent(s);
    hide Shows, Actionable, TakeCall, TakeChunk, Units, Told, UnitsOf, R.OutcomeOf, R.Prepared;
    if part.CallPart? {
      var q := R.Request(candidate, part.call);
      var next := s.(registry := R.Prepared(s.registry, q, cfg.mint));
      RegistryIsNotHeard(s, next.registry);
      var outcome := R.OutcomeOf(s.registry, q, cfg.mint);
      if outcome.Accepted? {
        CallShows(next, part.call, outcome.id, part.sig, cfg);
        CallBookkeeping(next, part.call, outcome.id, part.sig, cfg);
        CallIsActionable(p.said, SpokenCall(part.call, outcome.id, cfg));
      }
    } else {
      var kind, chunk := KindOf(part), ChunkOf(part);
      ChunkShows(s, kind, chunk, part.sig, candidate, cfg);
      ChunkBookkeeping(s, kind, chunk, part.sig, candidate, cfg);
      ChunkIsActionable(kind, chunk);
      ActionableConcat(p.said, UnitsOf(kind, chunk));
    }
  }

  lemma CallIsActionable(said: seq<Unit>, call: Unit)
    requires call.Call?
    ensures Actionable(said + [call])
  {
    assert (said + [call])[|said|] == call;
    assert call in said + [call];
  }

  lemma OpeningStaysInStep(s: State, p: Speech, finish: string, bytes: nat, usage: Option<string>)
    requires InStep(s, p)
    ensures InStep(s.(finish := finish), p.(finish := finish))
    ensures InStep(s.(bytes := bytes), p.(bytes := bytes))
    ensures InStep(s.(bytes := bytes, usage := usage), p.(bytes := bytes))
  {
    hide Units, Actionable;
  }

  lemma {:induction false} ActionsStayInStep(s: State, p: Speech, actions: seq<Action>, cfg: Config)
    requires InStep(s, p)
    ensures s.Consistent() && ActAll(s, actions, cfg).failed == SpeakAll(p, actions, cfg).failed
    ensures InStep(ActAll(s, actions, cfg).state, SpeakAll(p, actions, cfg).state)
  {
    ShowsIsConsistent(s);
    hide InStep, Delivered, Spoken;
    if actions != [] {
      var n := |actions| - 1;
      ActionsStayInStep(s, p, actions[..n], cfg);
      var s', p' := ActAll(s, actions[..n], cfg), SpeakAll(p, actions[..n], cfg);
      if !s'.failed {
        match actions[n]
        case Open(_, _, finish) =>
          OpeningStaysInStep(s'.state, p'.state, Finished(s'.state.finish, finish.GetOr("")), 0, None);
          SameFinish(s'.state, p'.state);
        case Deliver(candidate, part) => DeliveringStaysInStep(s'.state, p'.state, candidate, part, cfg);
      }
    }
  }

  lemma SameFinish(s: State, p: Speech)
    requires InStep(s, p)
    ensures s.finish == p.finish && s.bytes == p.bytes && s.Consistent() && s.actionable == Actionable(p.said)
  {
  }

  lemma SizedIsConsistent(s: State, t: State)
    requires s.Consistent() && s.active == t.active && s.outputs == t.outputs
    ensures t.Consistent()
  {
  }

  lemma VisitingStaysInStep(s: State, p: Speech, frame: Frame, cfg: Config)
    requires InStep(s, p)
    ensures s.Consistent() && Visit(s, frame, cfg).failed == SpeakFrame(p, frame, cfg).failed
    ensures InStep(Visit(s, frame, cfg).state, SpeakFrame(p, frame, cfg).state)
  {
    hide InStep, ActAll, SpeakAll, FrameActions, State.Consistent;
    SameFinish(s, p);
    var bytes := s.bytes + frame.size;
    OpeningStaysInStep(s, p, "", bytes, frame.usage);
    var sized := if frame.usage.Some? then s.(bytes := bytes, usage := frame.usage) else s.(bytes := bytes);
    SizedIsConsistent(s, sized);
    ActionsStayInStep(sized, p.(bytes := bytes), FrameActions(frame), cfg);
  }

  lemma StartsInStep()
    ensures InStep(Start(), Silence())
  {
    var blank := State(0, [], None, -1, "", None, "", false, R.Empty(), 0, []);
    ReadOneMore(blank, Created);
    ReadOneMore(Emit(blank, Created), Started);
  }

  lemma {:induction false} WalksStayInStep(frames: seq<Frame>, n: nat, cfg: Config)
    requires n <= |frames|
    ensures var u, v := Walk(Start(), Visitor(cfg), frames, n), Walk(Silence(), Speaker(cfg), frames, n);
      u.failed == v.failed && u.seen == v.seen && InStep(u.state, v.state)
  {
    hide InStep, Visit, SpeakFrame, Admitted;
    if n == 0 {
      StartsInStep();
    } else {
      WalksStayInStep(frames, n - 1, cfg);
      var u, v := Walk(Start(), Visitor(cfg), frames, n - 1), Walk(Silence(), Speaker(cfg), frames, n - 1);
      VisitingStaysInStep(u.state, v.state, frames[n - 1], cfg);
    }
  }

  lemma EndingShows(s: State, streamFailed: bool)
    requires Shows(s)
    ensures var o := OutcomeFor(s.finish, s.actionable, streamFailed);
      var r := Read(Ended(s, streamFailed).events);
      && r == Over(CloseItem(s, o.status != Completed).outputs, o.status, o.reason, o.failed, s.usage)
      && Units(r.items) == Units(Told(s))
  {
    hide Units, CloseItem, OutcomeFor, Read;
    var o := OutcomeFor(s.finish, s.actionable, streamFailed);
    ClosingShows(s, o.status != Completed);
    var closed := CloseItem(s, o.status != Completed);
    ReadOneMore(closed, Terminal(o.status, o.reason, o.failed, closed.outputs, s.usage));
    NothingElseIsClosed(s, o.status != Completed);
  }

  lemma NothingElseIsClosed(s: State, incomplete: bool)
    requires s.Consistent()
    ensures CloseItem(s, incomplete).usage == s.usage
  {
  }

  /**
   Every run, failed or not, is one whole response: created, in progress, items in index order
   that open and close once each, and one terminal event whose output is the items that were
   streamed. The items say exactly what the parts said before the end or the failure.
   */
  lemma ResponsesTrace(source: Source, cfg: Config)
    ensures var p := SpeechOf(source, cfg);
      var o := OutcomeFor(p.finish, Actionable(p.said), !StreamSucceeds(source, cfg));
      var r := Read(Output(source, cfg));
      && r.Over? && r.status == o.status && r.reason == o.reason && r.failed == o.failed
      && Units(r.items) == p.said && r.usage == ResponsesStreams.Walked(source, cfg).state.usage
  {
    hide Walk, Units, Read, OutcomeFor, Ended, Shows, Actionable;
    WalksStayInStep(source.frames, |source.frames|, cfg);
    WalkIsConsistent(source.frames, |source.frames|, cfg);
    EndingShows(ResponsesStreams.Walked(source, cfg).state, !StreamSucceeds(source, cfg));
  }

  // ---- Which finish reason counts ------------------------------------------------------------

  predicate Limiting(reason: string) {
    LimitsLength(reason) || Filtered(reason)
  }

  /** The nonempty finish reasons that some actions give, in order, whichever candidate they are for. */
  function ReasonsOf(actions: seq<Action>): seq<string> {
    if actions == [] then []
    else
      var a := actions[|actions| - 1];
      ReasonsOf(actions[..|actions| - 1]) + if a.Open? && a.finish.GetOr("") != "" then [a.finish.value] else []
  }

  function Reasons(frames: seq<Frame>, n: nat): seq<string>
    requires n <= |frames|
  {
    if n == 0 then [] else Reasons(frames, n - 1) + ReasonsOf(FrameActions(frames[n - 1]))
  }

  /** The first reason that is not exactly "STOP". */
  function FirstOther(reasons: seq<string>): Option<string>
    decreases reasons
  {
    if reasons == [] then None else if reasons[0] != "STOP" then Some(reasons[0]) else FirstOther(reasons[1..])
  }

  /** The reason that counts: the first that is not "STOP", else "STOP" if there is any. */
  function Counting(reasons: seq<string>): string {
    FirstOther(reasons).GetOr(if reasons == [] then "" else "STOP")
  }

  lemma {:induction false} FirstOtherAppends(reasons: seq<string>, more: string)
    ensures FirstOther(reasons + [more])
      == if FirstOther(reasons).Some? then FirstOther(reasons) else if more != "STOP" then Some(more) else None
    decreases reasons
  {
    if reasons == [] {
      assert reasons + [more] == [more] && [more][1..] == [];
    } else {
      assert (reasons + [more])[1..] == reasons[1..] + [more];
      FirstOtherAppends(reasons[1..], more);
    }
  }

  lemma {:induction false} FirstOtherIsOther(reasons: seq<string>)
    ensures FirstOther(reasons).Some? ==> FirstOther(reasons).value in reasons && FirstOther(reasons).value != "STOP"
    ensures FirstOther(reasons).None? ==> forall reason <- reasons :: reason == "STOP"
    decreases reasons
  {
    if reasons != [] {
      FirstOtherIsOther(reasons[1..]);
      assert reasons == [reasons[0]] + reasons[1..];
    }
  }

  /** The writer's one variable keeps the reason that counts. */
  lemma CountingAppends(reasons: seq<string>, more: string)
    requires more != "" && "" !in reasons
    ensures Finished(Counting(reasons), more) == Counting(reasons + [more])
  {
    FirstOtherAppends(reasons, more);
    FirstOtherIsOther(reasons);
  }

  lemma {:induction false} ActionsKeepCounting(p: Speech, actions: seq<Action>, reasons: seq<string>, cfg: Config)
    requires !SpeakAll(p, actions, cfg).failed && p.finish == Counting(reasons) && "" !in reasons
    ensures SpeakAll(p, actions, cfg).state.finish == Counting(reasons + ReasonsOf(actions))
    ensures "" !in ReasonsOf(actions)
  {
    hide Counting, Finished, R.OutcomeOf, R.Prepared;
    if actions == [] {
      assert reasons + [] == reasons;
    } else {
      var n := |actions| - 1;
      var a, before := actions[n], ReasonsOf(actions[..n]);
      ActionsKeepCounting(p, actions[..n], reasons, cfg);
      if a.Open? {
        if a.finish.GetOr("") != "" {
          CountingAppends(reasons + before, a.finish.value);
          assert (reasons + before) + [a.finish.value] == reasons + (before + [a.finish.value]);
        } else {
          EmptyReasonIsSkipped(Counting(reasons + before));
          assert before + [] == before;
        }
      } else {
        assert before + [] == before;
      }
    }
  }

  lemma EmptyReasonIsSkipped(before: string)
    ensures Finished(before, "") == before
  {
  }

  lemma {:induction false} WalkKeepsCounting(frames: seq<Frame>, n: nat, cfg: Config)
    requires n <= |frames| && !Walk(Silence(), Speaker(cfg), frames, n).failed
    ensures Walk(Silence(), Speaker(cfg), frames, n).state.finish == Counting(Reasons(frames, n))
    ensures "" !in Reasons(frames, n)
  {
    hide Counting, SpeakAll, ReasonsOf, FrameActions, Admitted;
    if n == 0 {
      NothingCounts();
    } else {
      WalkKeepsCounting(frames, n - 1, cfg);
      var before, frame := Walk(Silence(), Speaker(cfg), frames, n - 1).state, frames[n - 1];
      ActionsKeepCounting(before.(bytes := before.bytes + frame.size), FrameActions(frame), Reasons(frames, n - 1),
        cfg);
    }
  }

  lemma NothingCounts()
    ensures Counting([]) == ""
  {
  }

  /** Nothing failed, and there is an answer or a call. */
  predicate Delivers(source: Source, cfg: Config) {
    StreamSucceeds(source, cfg) && Actionable(SpeechOf(source, cfg).said)
  }

  /**
   `completed` exactly when the stream did not fail, an answer or a call was said, and the one
   finish reason that counts, the first of any candidate that is not "STOP", does not limit it.
   */
  lemma CompletedIff(source: Source, cfg: Config)
    ensures var r := Read(Output(source, cfg));
      r.Over? && (r.status == Completed <==>
        Delivers(source, cfg) && !Limiting(Counting(Reasons(source.frames, |source.frames|))))
  {
    hide Walk, Units, Read, Actionable, LimitsLength, Filtered, Counting, Complete;
    ResponsesTrace(source, cfg);
    if StreamSucceeds(source, cfg) {
      WalksStayInStep(source.frames, |source.frames|, cfg);
      WalkKeepsCounting(source.frames, |source.frames|, cfg);
    }
  }

  /** A reason limits the answer, but the first that is not "STOP" does not. */
  predicate LimitIsHidden(reasons: seq<string>) {
    (exists reason <- reasons :: Limiting(reason)) && FirstOther(reasons).Some? && !Limiting(FirstOther(reasons).value)
  }

  lemma StopDoesNotLimit()
    ensures !Limiting("STOP") && !Limiting("")
  {
    assert ToUpper("STOP") == "STOP" && ToUpper("") == "";
    assert "STOP"[0] != "MAX_TOKENS"[0] && "STOP"[1] != "SAFETY"[1] && "STOP"[1] != "SPII"[1];
    assert "STOP"[0] != "RECITATION"[0] && "STOP"[0] != "BLOCKLIST"[0] && "STOP"[0] != "PROHIBITED_CONTENT"[0];
    assert "STOP"[0] != "IMAGE_SAFETY"[0] && "STOP"[0] != "IMAGE_PROHIBITED_CONTENT"[0];
  }

  lemma CountingLimitsIff(reasons: seq<string>)
    ensures !Limiting(Counting(reasons)) <==>
      (forall reason <- reasons :: !Limiting(reason)) || LimitIsHidden(reasons)
  {
    hide Limiting, FirstOther;
    StopDoesNotLimit();
    FirstOtherIsOther(reasons);
  }

  /**
   The promise is that `completed` means no failure, an answer or a call, and no finish reason
   that limits or filters it. It is kept exactly when no limiting reason is hidden: an answer
   is never called incomplete without one, but is called completed in spite of one that comes
   after another reason than "STOP".
   */
  lemma CompletedAsPromisedIff(source: Source, cfg: Config)
    ensures var r, reasons := Read(Output(source, cfg)), Reasons(source.frames, |source.frames|);
      var promised := Delivers(source, cfg) && forall reason <- reasons :: !Limiting(reason);
      && r.Over? && (promised ==> r.status == Completed)
      && ((r.status == Completed <==> promised) <==> !(Delivers(source, cfg) && LimitIsHidden(reasons)))
  {
    hide Read, Limiting, Counting, Reasons, LimitIsHidden, Delivers;
    CompletedIff(source, cfg);
    CountingLimitsIff(Reasons(source.frames, |source.frames|));
    HiddenLimits(Reasons(source.frames, |source.frames|));
  }

  lemma HiddenLimits(reasons: seq<string>)
    ensures LimitIsHidden(reasons) ==> !forall reason <- reasons :: !Limiting(reason)
  {
    hide Limiting, FirstOther;
  }

  // ---- How a response ends ---------------------------------------------------------------------

  /** Some item is a call, or a message with text. */
  predicate Answered(items: seq<Item>) {
    exists item <- items :: item.kind.CallKind? || (item.kind.MessageKind? && item.body != "")
  }

  predicate IsFiltered(reason: string) {
    reason in {"SAFETY", "RECITATION", "BLOCKLIST", "PROHIBITED_CONTENT", "SPII", "IMAGE_SAFETY",
      "IMAGE_PROHIBITED_CONTENT"}
  }

  /**
   How a response ends: with which of four reasons, given whether the stream succeeded and what it ended
   with. It reports an error exactly for an interruption.
   */
  predicate EndsAs(status: Status, why: string, failed: bool, succeeds: bool, answered: bool, reason: string) {
    && (why == "max_output_tokens" <==> succeeds && reason == "MAX_TOKENS")
    && (why == "content_filter" <==> succeeds && IsFiltered(reason))
    && (why == "interrupted" <==> !succeeds || (!answered && reason != "MAX_TOKENS" && !IsFiltered(reason)))
    && (why == "" <==> succeeds && answered && reason != "MAX_TOKENS" && !IsFiltered(reason))
    && (status == Completed <==> why == "") && (status == Incomplete <==> why != "")
    && (failed <==> why == "interrupted")
  }

  /** The terminal event says how the stream ended, by the finish reasons of its frames. */
  lemma TerminalByReasons(source: Source, cfg: Config)
    ensures var r, reason := Read(Output(source, cfg)), ToUpper(Counting(Reasons(source.frames, |source.frames|)));
      r.Over? && EndsAs(r.status, r.reason, r.failed, StreamSucceeds(source, cfg), Answered(r.items), reason)
  {
    hide Walk, Units, Read, Actionable, Counting, Complete, OutcomeFor, Output, Reasons, EndsAs, Answered;
    ResponsesTrace(source, cfg);
    var p, r := SpeechOf(source, cfg), Read(Output(source, cfg));
    AnsweredIff(r.items);
    if StreamSucceeds(source, cfg) {
      WalksStayInStep(source.frames, |source.frames|, cfg);
      WalkKeepsCounting(source.frames, |source.frames|, cfg);
      OutcomeByReason(p.finish, Actionable(p.said), true);
    } else {
      FailureByReason(p.finish, Actionable(p.said), ToUpper(Counting(Reasons(source.frames, |source.frames|))));
    }
  }

  /** Something actionable was said exactly when some item is a call or a message with text. */
  lemma {:induction false} AnsweredIff(items: seq<Item>)
    ensures Actionable(Units(items)) <==> Answered(items)
  {
    hide Actionable;
    if items == [] {
      NothingIsActionable();
    } else {
      var n := |items| - 1;
      AnsweredIff(items[..n]);
      ActionableConcat(Units(items[..n]), UnitsOf(items[n].kind, items[n].body));
      BodyIsActionable(items[n].kind, items[n].body);
      assert items == items[..n] + [items[n]];
    }
  }

  lemma NothingIsActionable()
    ensures !Actionable([])
  {
  }

  lemma BodyIsActionable(kind: Kind, body: string)
    ensures Actionable(UnitsOf(kind, body)) <==> kind.CallKind? || (kind.MessageKind? && body != "")
  {
    if kind.CallKind? {
      assert UnitsOf(kind, body)[0] in UnitsOf(kind, body);
    } else {
      ChunkIsActionable(kind, body);
    }
  }

  lemma OutcomeByReason(finish: string, actionable: bool, succeeds: bool)
    ensures var o := OutcomeFor(finish, actionable, !succeeds);
      EndsAs(o.status, o.reason, o.failed, succeeds, actionable, ToUpper(finish))
  {
    hide ToUpper;
    assert "max_output_tokens"[0] == 'm' && "content_filter"[0] == 'c' && "interrupted"[0] == 'i';
    assert "MAX_TOKENS"[0] != "SAFETY"[0] && "MAX_TOKENS"[0] != "RECITATION"[0];
    assert "MAX_TOKENS"[0] != "BLOCKLIST"[0] && "MAX_TOKENS"[0] != "PROHIBITED_CONTENT"[0];
    assert "MAX_TOKENS"[0] != "SPII"[0] && "MAX_TOKENS"[0] != "IMAGE_SAFETY"[0];
    assert "MAX_TOKENS"[0] != "IMAGE_PROHIBITED_CONTENT"[0];
  }

  lemma FailureByReason(finish: string, actionable: bool, reason: string)
    ensures var o := OutcomeFor(finish, actionable, true);
      EndsAs(o.status, o.reason, o.failed, false, actionable, reason)
  {
    hide ToUpper;
    assert "max_output_tokens"[0] == 'm' && "content_filter"[0] == 'c' && "interrupted"[0] == 'i';
  }

  lemma {:induction false} ActingKeepsUsage(s: State, actions: seq<Action>, cfg: Config)
    requires s.Consistent()
    ensures ActAll(s, actions, cfg).state.usage == s.usage
  {
    hide R.OutcomeOf, R.Prepared, State.Consistent;
    if actions != [] {
      ActingKeepsUsage(s, actions[..|actions| - 1], cfg);
      var before := ActAll(s, actions[..|actions| - 1], cfg);
      if !before.failed {
        ActKeepsUsage(before.state, actions[|actions| - 1], cfg);
      }
    }
  }

  lemma ActKeepsUsage(s: State, a: Action, cfg: Config)
    requires s.Consistent()
    ensures Act(s, a, cfg).state.usage == s.usage
  {
    hide R.OutcomeOf, R.Prepared;
  }

  lemma VisitKeepsUsage(s: State, frame: Frame, cfg: Config)
    requires s.Consistent()
    ensures Visit(s, frame, cfg).state.usage
      == if s.bytes + frame.size <= MAX_COLLECTED_BYTES && frame.usage.Some? then frame.usage else s.usage
  {
    hide ActAll, FrameActions, State.Consistent;
    var sized := s.(bytes := s.bytes + frame.size);
    var used := if frame.usage.Some? then sized.(usage := frame.usage) else sized;
    SizedIsConsistent(s, used);
    ActingKeepsUsage(used, FrameActions(frame), cfg);
  }

  lemma {:induction false} WalkKeepsUsage(frames: seq<Frame>, n: nat, cfg: Config)
    requires n <= |frames|
    ensures var w := Walk(Start(), Visitor(cfg), frames, n);
      w.state.Consistent() && (!w.failed ==> w.state.usage == LastUsage(frames, n))
  {
    hide Visit, Admitted, State.Consistent;
    WalkIsConsistent(frames, n, cfg);
    if n > 0 {
      WalkKeepsUsage(frames, n - 1, cfg);
      VisitKeepsUsage(Walk(Start(), Visitor(cfg), frames, n - 1).state, frames[n - 1], cfg);
      VisitStaysWithin(Walk(Start(), Visitor(cfg), frames, n - 1).state, frames[n - 1], cfg);
    }
  }

  lemma VisitStaysWithin(s: State, frame: Frame, cfg: Config)
    requires s.Consistent()
    ensures !Visit(s, frame, cfg).failed ==> s.bytes + frame.size <= MAX_COLLECTED_BYTES
  {
    hide ActAll;
  }

  lemma {:induction false} ActingKeepsBytes(s: State, actions: seq<Action>, cfg: Config)
    requires s.Consistent()
    ensures ActAll(s, actions, cfg).state.bytes == s.bytes
  {
    hide R.OutcomeOf, R.Prepared, State.Consistent;
    if actions != [] {
      ActingKeepsBytes(s, actions[..|actions| - 1], cfg);
      var before := ActAll(s, actions[..|actions| - 1], cfg);
      if !before.failed {
        ActKeepsBytes(before.state, actions[|actions| - 1], cfg);
      }
    }
  }

  lemma ActKeepsBytes(s: State, a: Action, cfg: Config)
    requires s.Consistent()
    ensures Act(s, a, cfg).state.bytes == s.bytes
  {
    hide R.OutcomeOf, R.Prepared;
  }

  lemma {:induction false} WalkCountsBytes(frames: seq<Frame>, n: nat, cfg: Config)
    requires n <= |frames| && !Walk(Start(), Visitor(cfg), frames, n).failed
    ensures Walk(Start(), Visitor(cfg), frames, n).state.bytes == TotalSize(frames, n)
  {
    hide ActAll, FrameActions, Admitted, State.Consistent;
    WalkIsConsistent(frames, n, cfg);
    if n > 0 {
      WalkCountsBytes(frames, n - 1, cfg);
      WalkIsConsistent(frames, n - 1, cfg);
      var s, frame := Walk(Start(), Visitor(cfg), frames, n - 1).state, frames[n - 1];
      var sized := s.(bytes := s.bytes + frame.size);
      var used := if frame.usage.Some? then sized.(usage := frame.usage) else sized;
      SizedIsConsistent(s, used);
      ActingKeepsBytes(used, FrameActions(frame), cfg);
    }
  }

  /** Frame `m` is well formed, and all up to it together are no longer than 128 MiB. */
  predicate Enters(frames: seq<Frame>, m: nat)
    requires m < |frames|
  {
    W.Indexed(frames[m].candidates, |frames[m].candidates|) && TotalSize(frames, m + 1) <= 128 * 1024 * 1024
  }

  lemma EntersIff(frames: seq<Frame>, m: nat, cfg: Config)
    requires m < |frames| && !Walk(Start(), Visitor(cfg), frames, m).failed
    ensures var w := Walk(Start(), Visitor(cfg), frames, m);
      Enters(frames, m) <==>
        && Admitted(frames[m].candidates, |frames[m].candidates|, w.seen).Some?
        && w.state.bytes + frames[m].size <= MAX_COLLECTED_BYTES
  {
    hide Walk, Admitted, W.Indexed;
    WalkCountsBytes(frames, m, cfg);
    W.WalksIff(Start(), Visitor(cfg), frames, m);
    W.AdmittedIff(frames[m].candidates, |frames[m].candidates|, Walk(Start(), Visitor(cfg), frames, m).seen);
  }

  /** The usage is the last one that a frame before the failure gave, or the failing frame itself if it was visited. */
  lemma FailureKeepsUsage(frames: seq<Frame>, m: nat, n: nat, cfg: Config)
    requires m < n <= |frames|
    requires !Walk(Start(), Visitor(cfg), frames, m).failed && Walk(Start(), Visitor(cfg), frames, m + 1).failed
    ensures Walk(Start(), Visitor(cfg), frames, n).state.usage
      == LastUsage(frames, if Enters(frames, m) then m + 1 else m)
  {
    hide Visit, Admitted, Enters, State.Consistent;
    WalkKeepsUsage(frames, m, cfg);
    EntersIff(frames, m, cfg);
    FailureIsFinal(Start(), Visitor(cfg), frames, m + 1, n);
    VisitKeepsUsage(Walk(Start(), Visitor(cfg), frames, m).state, frames[m], cfg);
  }

  /** The terminal event reports the last usage of the frames, up to where a failing stream was visited. */
  lemma TerminalUsage(source: Source, cfg: Config, m: nat)
    requires var n := |source.frames|;
      if Walk(Start(), Visitor(cfg), source.frames, n).failed then
        && m < n && !Walk(Start(), Visitor(cfg), source.frames, m).failed
        && Walk(Start(), Visitor(cfg), source.frames, m + 1).failed
      else m == n
    ensures var r := Read(Output(source, cfg));
      r.Over? && r.usage
        == LastUsage(source.frames, if m < |source.frames| && Enters(source.frames, m) then m + 1 else m)
  {
    hide Walk, Read, Output, Units, OutcomeFor, Actionable, Enters;
    ResponsesTrace(source, cfg);
    if m < |source.frames| {
      FailureKeepsUsage(source.frames, m, |source.frames|, cfg);
    } else {
      WalkKeepsUsage(source.frames, m, cfg);
    }
  }

  // ---- A limit that is hidden ------------------------------------------------------------------

  const OTHER_FIRST: Frame :=
    Frame([Candidate(IndexIs(0), Some("OTHER"), [TextPart("a", false, "", 1)])], None, None, 1)
  const LIMIT_LAST: Frame := Frame([Candidate(IndexIs(0), Some("MAX_TOKENS"), [])], None, None, 1)

  /** A text with reason "OTHER", and then the reason "MAX_TOKENS". */
  function CutOffLate(): Source {
    Source([OTHER_FIRST, LIMIT_LAST], true)
  }

  lemma CutOffLateActions()
    ensures FrameActions(OTHER_FIRST)
      == [Open(0, IndexIs(0), Some("OTHER")), Deliver(0, TextPart("a", false, "", 1))]
    ensures FrameActions(LIMIT_LAST) == [Open(0, IndexIs(0), Some("MAX_TOKENS"))]
  {
    var parts := [TextPart("a", false, "", 1)];
    assert Deliveries(0, parts, 1) == [Deliver(0, parts[0])];
    assert Actions(OTHER_FIRST.candidates, 1) == CandidateActions(OTHER_FIRST.candidates[0], 0);
    assert Actions(LIMIT_LAST.candidates, 1) == CandidateActions(LIMIT_LAST.candidates[0], 0);
  }

  lemma CutOffLateReasons()
    ensures Reasons(CutOffLate().frames, 2) == ["OTHER", "MAX_TOKENS"]
  {
    hide FrameActions;
    CutOffLateActions();
    var first, last := FrameActions(OTHER_FIRST), FrameActions(LIMIT_LAST);
    assert first[..1] == [first[0]] && first[..1][..0] == [] && last[..0] == [];
    assert ReasonsOf(first[..1]) == ["OTHER"];
    assert ReasonsOf(first) == ["OTHER"] && ReasonsOf(last) == ["MAX_TOKENS"];
    assert Reasons(CutOffLate().frames, 1) == ["OTHER"];
  }

  lemma OtherCounts()
    ensures Counting(["OTHER", "MAX_TOKENS"]) == "OTHER"
  {
  }

  lemma OtherDoesNotLimit()
    ensures !Limiting("OTHER") && Limiting("MAX_TOKENS")
  {
    assert ToUpper("OTHER") == "OTHER" && ToUpper("MAX_TOKENS") == "MAX_TOKENS";
    assert |"OTHER"| == 5;
  }

  lemma CutOffLateIsAdmitted()
    ensures Admitted(OTHER_FIRST.candidates, 1, map[]) == Some(map[0 := Seen("OTHER", true)])
    ensures Admitted(LIMIT_LAST.candidates, 1, map[0 := Seen("OTHER", true)])
      == Some(map[0 := Seen("MAX_TOKENS", true)])
    ensures Complete(map[0 := Seen("MAX_TOKENS", true)])
  {
    var seen := map[0 := Seen("OTHER", true)];
    assert OTHER_FIRST.candidates[0].parts[0].HasOutput();
    assert Admitted(OTHER_FIRST.candidates, 0, map[]) == Some(map[]);
    assert Note(OTHER_FIRST.candidates[0], 0, map[]) == seen;
    assert Admitted(LIMIT_LAST.candidates, 0, seen) == Some(seen);
    assert Note(LIMIT_LAST.candidates[0], 0, seen) == map[0 := Seen("MAX_TOKENS", true)];
    assert 0 in map[0 := Seen("MAX_TOKENS", true)];
  }

  lemma CutOffLateSpeaks(p: Speech, cfg: Config)
    requires p.said == []
    ensures var v := SpeakAll(p, FrameActions(OTHER_FIRST), cfg); !v.failed && v.state.said == [Say('a')]
  {
    hide FrameActions, Finished;
    CutOffLateActions();
    var actions := FrameActions(OTHER_FIRST);
    assert actions[..1] == [actions[0]] && actions[..1][..0] == [];
    assert !SpeakAll(p, actions[..1], cfg).failed && SpeakAll(p, actions[..1], cfg).state.said == [];
    assert "" + "a" == "a" && [] + Says("a") == [Say('a')];
  }

  lemma CutOffLateOpens(p: Speech, cfg: Config)
    ensures var v := SpeakAll(p, FrameActions(LIMIT_LAST), cfg); !v.failed && v.state.said == p.said
  {
    hide FrameActions, Finished;
    CutOffLateActions();
    assert FrameActions(LIMIT_LAST)[..0] == [];
  }

  lemma CutOffLateDelivers(cfg: Config)
    ensures Delivers(CutOffLate(), cfg)
  {
    hide Admitted, Complete, FrameActions, SpeakAll, InStep;
    var frames := CutOffLate().frames;
    CutOffLateIsAdmitted();
    assert Walk(Silence(), Speaker(cfg), frames, 0) == Gemini.Walked(Silence(), map[], false);
    CutOffLateSpeaks(Silence().(bytes := 1), cfg);
    var w := Walk(Silence(), Speaker(cfg), frames, 1);
    assert !w.failed && w.state.said == [Say('a')] && w.seen == map[0 := Seen("OTHER", true)];
    assert w.state.bytes == 1 by {
      SpeakingKeepsBytes(Silence().(bytes := 1), FrameActions(OTHER_FIRST), cfg);
    }
    CutOffLateOpens(w.state.(bytes := 2), cfg);
    WalksStayInStep(frames, 2, cfg);
    assert SpeechOf(CutOffLate(), cfg).said == [Say('a')];
    assert Say('a') in [Say('a')];
  }

  lemma {:induction false} SpeakingKeepsBytes(p: Speech, actions: seq<Action>, cfg: Config)
    ensures SpeakAll(p, actions, cfg).state.bytes == p.bytes
  {
    if actions != [] {
      SpeakingKeepsBytes(p, actions[..|actions| - 1], cfg);
    }
  }

  /** On it the answer is called completed, although its last finish reason is the token limit. */
  lemma CutOffLateCompletes(cfg: Config)
    ensures Reasons(CutOffLate().frames, 2) == ["OTHER", "MAX_TOKENS"] && Limiting("MAX_TOKENS")
    ensures var r := Read(Output(CutOffLate(), cfg)); r.Over? && r.status == Completed
  {
    hide Delivers, Read, Limiting, Reasons, Counting, Output;
    CutOffLateReasons();
    OtherCounts();
    CutOffLateDelivers(cfg);
    OtherDoesNotLimit();
    CompletedIff(CutOffLate(), cfg);
  }

  /** The sequence numbers of every run are 0, 1, …, n - 1. */
  lemma SequenceNumbersCountUp(source: Source, cfg: Config, k: nat)
    requires k < |Output(source, cfg)|
    ensures Output(source, cfg)[k].number == k
  {
    hide Output, Read, OutcomeFor;
    ResponsesTrace(source, cfg);
    NumbersCountUp(Output(source, cfg), k);
  }

  /** A terminal event is the last event of a run, and there is only one. */
  lemma {:induction false} TerminalIsLast(events: seq<Numbered>, k: nat)
    requires Read(events).Over? && k < |events|
    ensures events[k].event.Terminal? <==> k == |events| - 1
  {
    var n := |events| - 1;
    if k < n {
      NotOverBefore(events[..n], k);
    }
  }

  lemma {:induction false} NotOverBefore(events: seq<Numbered>, k: nat)
    requires !Read(events).Over? && !Read(events).Broken? && k < |events|
    ensures !events[k].event.Terminal?
  {
    if k < |events| - 1 {
      NotOverBefore(events[..|events| - 1], k);
    }
  }
}
