/**
 What a client reads from a Claude message stream, against the blocks that the parts form.

 `Group` collects the parts of the first candidates without any events: text joins an open
 text block, thinking an open thinking block, and an accepted call is a block of its own.
 */
module ClaudeReaders {
  import opened Wrappers
  import opened Gemini
  import opened ClaudeStreams
  import R = ToolRegistries

  datatype Block =
    | TextSaid(text: string)
    | Thought(text: string, sig: string)
    | ToolUse(id: string, name: string, sig: string, args: string)

  /**
   `sealed`: the block takes no more deltas. Failed: an error came, after some blocks and in the
   middle of another if one was open. Broken: the events are no message stream.
   */
  datatype Reader =
    | Idle
    | Between(blocks: seq<Block>)
    | Inside(blocks: seq<Block>, current: Block, sealed: bool)
    | Closing(blocks: seq<Block>, stop: string)
    | Finished(blocks: seq<Block>, stop: string)
    | Failed(blocks: seq<Block>, open: Option<Block>)
    | Broken

  function Blank(kind: Kind): Block {
    match kind
    case TextKind => TextSaid("")
    case ThinkingKind => Thought("", "")
    case ToolKind(id, name, sig) => ToolUse(id, name, sig, "")
  }

  /** A delta must fit its block; a signature or the arguments come last, once. */
  function HearDelta(r: Reader, delta: Delta): Reader
    requires r.Inside?
  {
    match (r.current, delta)
    case (TextSaid(text), TextDelta(more)) =>
      if r.sealed then Broken else Inside(r.blocks, TextSaid(text + more), false)
    case (Thought(text, sig), ThinkingDelta(more)) =>
      if r.sealed then Broken else Inside(r.blocks, Thought(text + more, sig), false)
    case (Thought(text, _), SignatureDelta(sig)) =>
      if r.sealed then Broken else Inside(r.blocks, Thought(text, sig), true)
    case (ToolUse(id, name, sig, _), JsonDelta(args)) =>
      if r.sealed then Broken else Inside(r.blocks, ToolUse(id, name, sig, args), true)
    case _ => Broken
  }

  function Hear(r: Reader, e: Event): Reader {
    match e
    case MessageStart(_) => if r.Idle? then Between([]) else Broken
    case BlockStart(i, kind) => if r.Between? && i == |r.blocks| then Inside(r.blocks, Blank(kind), false) else Broken
    case BlockDelta(i, delta) => if r.Inside? && i == |r.blocks| then HearDelta(r, delta) else Broken
    case BlockStop(i) => if r.Inside? && i == |r.blocks| then Between(r.blocks + [r.current]) else Broken
    case MessageDelta(stop, _) => if r.Between? then Closing(r.blocks, stop) else Broken
    case MessageStop => if r.Closing? then Finished(r.blocks, r.stop) else Broken
    case Error =>
      match r {
        case Idle => Failed([], None)
        case Between(blocks) => Failed(blocks, None)
        case Inside(blocks, current, _) => Failed(blocks, Some(current))
        case _ => Broken
      }
  }

  function Read(events: seq<Event>): Reader {
    if events == [] then Idle else Hear(Read(events[..|events| - 1]), events[|events| - 1])
  }

  lemma ReadOneMore(events: seq<Event>, e: Event)
    ensures Read(events + [e]) == Hear(Read(events), e)
  {
    assert (events + [e])[..|events|] == events;
  }

  // ---- The blocks that the parts form ------------------------------------------------

  datatype Group = Group(blocks: seq<Block>, finish: string, registry: R.Registry)

  function Nothing(): Group {
    Group([], "", R.Empty())
  }

  function AddText(blocks: seq<Block>, text: string): seq<Block> {
    var n := |blocks|;
    if text == "" then blocks
    else if n > 0 && blocks[n - 1].TextSaid? then blocks[..n - 1] + [TextSaid(blocks[n - 1].text + text)]
    else blocks + [TextSaid(text)]
  }

  function AddThought(blocks: seq<Block>, text: string, sig: string): seq<Block> {
    var n := |blocks|;
    if text == "" && sig == "" then blocks
    else if n > 0 && blocks[n - 1].Thought? then
      blocks[..n - 1] + [Thought(blocks[n - 1].text + text, if sig != "" then sig else blocks[n - 1].sig)]
    else blocks + [Thought(text, sig)]
  }

  /** A bare signature belongs to the thinking block before it, if that is the last block. */
  function AddSignature(blocks: seq<Block>, sig: string): seq<Block> {
    var n := |blocks|;
    if sig != "" && n > 0 && blocks[n - 1].Thought? then blocks[..n - 1] + [Thought(blocks[n - 1].text, sig)]
    else blocks
  }

  function AddPart(blocks: seq<Block>, part: Part): seq<Block>
    requires !part.CallPart?
  {
    if part.IsThought() then AddThought(blocks, part.Thinking(), part.sig)
    else if part.Content() != "" then AddText(blocks, part.Content())
    else AddSignature(blocks, part.sig)
  }

  function Grouped(g: Group, part: Part, mint: nat -> string): Visited<Group> {
    if part.CallPart? then
      var q := R.Request(0, part.call);
      var next := g.(registry := R.Prepared(g.registry, q, mint));
      match R.OutcomeOf(g.registry, q, mint)
      case Rejected => Visited(g, true)
      case Repeated(_) => Visited(next, false)
      case Accepted(id) =>
        Visited(next.(blocks := g.blocks + [ToolUse(id, part.call.name, part.sig, part.call.args)]), false)
    else Visited(g.(blocks := AddPart(g.blocks, part)), false)
  }

  function GroupAll(g: Group, parts: seq<Part>, mint: nat -> string): Visited<Group> {
    if parts == [] then Visited(g, false)
    else
      var before := GroupAll(g, parts[..|parts| - 1], mint);
      if before.failed then before else Grouped(before.state, parts[|parts| - 1], mint)
  }

  function GroupFrame(g: Group, frame: Frame, mint: nat -> string): Visited<Group> {
    if frame.candidates == [] then Visited(g, false)
    else
      var c := frame.candidates[0];
      GroupAll(if c.Finish() != "" then g.(finish := c.Finish()) else g, c.Parts(), mint)
  }

  function Grouper(mint: nat -> string): (Group, Frame) -> Visited<Group> {
    (g: Group, frame: Frame) => GroupFrame(g, frame, mint)
  }

  /** The blocks and the finish reason of the first candidates of a source. */
  function GroupOf(source: Source, mint: nat -> string): Group {
    Walk(Nothing(), Grouper(mint), source.frames, |source.frames|).state
  }

  predicate HasTool(blocks: seq<Block>) {
    exists b <- blocks :: b.ToolUse?
  }

  // ---- Order and content -------------------------------------------------------------

  /** What is said, character by character, in order. */
  datatype Unit = Say(c: char) | Think(c: char) | Call(id: string, name: string, args: string)

  function Says(text: string): seq<Unit> {
    seq(|text|, i requires 0 <= i < |text| => Say(text[i]))
  }

  function Thinks(text: string): seq<Unit> {
    seq(|text|, i requires 0 <= i < |text| => Think(text[i]))
  }

  function UnitsOf(b: Block): seq<Unit> {
    match b
    case TextSaid(text) => Says(text)
    case Thought(text, _) => Thinks(text)
    case ToolUse(id, name, _, args) => [Call(id, name, args)]
  }

  function Units(blocks: seq<Block>): seq<Unit> {
    if blocks == [] then [] else Units(blocks[..|blocks| - 1]) + UnitsOf(blocks[|blocks| - 1])
  }

  lemma UnitsOfOneMore(blocks: seq<Block>, b: Block)
    ensures Units(blocks + [b]) == Units(blocks) + UnitsOf(b)
  {
    assert (blocks + [b])[..|blocks|] == blocks;
  }

  /** What a part that is no call says: thinking, or text and media outside a thought. */
  function Spoken(part: Part): seq<Unit>
    requires !part.CallPart?
  {
    if part.IsThought() then Thinks(part.Thinking()) else Says(part.Content())
  }

  lemma LongerLastBlock(blocks: seq<Block>, b: Block)
    requires |blocks| > 0
    ensures Units(blocks[..|blocks| - 1] + [b]) == Units(blocks[..|blocks| - 1]) + UnitsOf(b)
    ensures Units(blocks) == Units(blocks[..|blocks| - 1]) + UnitsOf(blocks[|blocks| - 1])
  {
    UnitsOfOneMore(blocks[..|blocks| - 1], b);
  }

  lemma AddedTextIsSaid(blocks: seq<Block>, text: string)
    ensures Units(AddText(blocks, text)) == Units(blocks) + Says(text)
  {
    hide Units;
    var n := |blocks|;
    if text != "" && n > 0 && blocks[n - 1].TextSaid? {
      LongerLastBlock(blocks, TextSaid(blocks[n - 1].text + text));
      assert Says(blocks[n - 1].text + text) == Says(blocks[n - 1].text) + Says(text);
    } else {
      UnitsOfOneMore(blocks, TextSaid(text));
    }
  }

  lemma AddedThoughtIsSaid(blocks: seq<Block>, text: string, sig: string)
    ensures Units(AddThought(blocks, text, sig)) == Units(blocks) + Thinks(text)
  {
    hide Units;
    var n := |blocks|;
    if (text != "" || sig != "") && n > 0 && blocks[n - 1].Thought? {
      LongerLastBlock(blocks, Thought(blocks[n - 1].text + text, if sig != "" then sig else blocks[n - 1].sig));
      assert Thinks(blocks[n - 1].text + text) == Thinks(blocks[n - 1].text) + Thinks(text);
    } else {
      UnitsOfOneMore(blocks, Thought(text, sig));
    }
  }

  lemma AddedSignatureSaysNothing(blocks: seq<Block>, sig: string)
    ensures Units(AddSignature(blocks, sig)) == Units(blocks)
  {
    hide Units;
    var n := |blocks|;
    if n > 0 && blocks[n - 1].Thought? {
      LongerLastBlock(blocks, Thought(blocks[n - 1].text, sig));
    }
  }

  /** Grouping a part appends what it says, and nothing else. */
  lemma PartsAreSaidInOrder(blocks: seq<Block>, part: Part)
    requires !part.CallPart?
    ensures Units(AddPart(blocks, part)) == Units(blocks) + Spoken(part)
  {
    hide Units, AddText, AddThought, AddSignature;
    AddedTextIsSaid(blocks, part.Content());
    AddedThoughtIsSaid(blocks, part.Thinking(), part.sig);
    AddedSignatureSaysNothing(blocks, part.sig);
  }

  /** The calls accepted and the words said so far, in order, without any blocks. */
  datatype Speech = Speech(registry: R.Registry, said: seq<Unit>)

  function SpeakPart(p: Speech, part: Part, mint: nat -> string): Visited<Speech> {
    if part.CallPart? then
      var q := R.Request(0, part.call);
      var next := p.(registry := R.Prepared(p.registry, q, mint));
      match R.OutcomeOf(p.registry, q, mint)
      case Rejected => Visited(p, true)
      case Repeated(_) => Visited(next, false)
      case Accepted(id) => Visited(next.(said := p.said + [Call(id, part.call.name, part.call.args)]), false)
    else Visited(p.(said := p.said + Spoken(part)), false)
  }

  function SpeakAll(p: Speech, parts: seq<Part>, mint: nat -> string): Visited<Speech> {
    if parts == [] then Visited(p, false)
    else
      var before := SpeakAll(p, parts[..|parts| - 1], mint);
      if before.failed then before else SpeakPart(before.state, parts[|parts| - 1], mint)
  }

  function SpeakFrame(p: Speech, frame: Frame, mint: nat -> string): Visited<Speech> {
    SpeakAll(p, if frame.candidates == [] then [] else frame.candidates[0].Parts(), mint)
  }

  function Speaker(mint: nat -> string): (Speech, Frame) -> Visited<Speech> {
    (p: Speech, frame: Frame) => SpeakFrame(p, frame, mint)
  }

  /** What the first candidates of a source say up to its end or its first failure. */
  function SpeechOf(source: Source, mint: nat -> string): seq<Unit> {
    Walk(Speech(R.Empty(), []), Speaker(mint), source.frames, |source.frames|).state.said
  }

  /** The blocks grouped so far say what was said so far. */
  ghost predicate Voices(g: Group, p: Speech) {
    g.registry == p.registry && Units(g.blocks) == p.said
  }

  lemma PartIsVoiced(g: Group, p: Speech, part: Part, mint: nat -> string)
    requires Voices(g, p)
    ensures Grouped(g, part, mint).failed == SpeakPart(p, part, mint).failed
    ensures Voices(Grouped(g, part, mint).state, SpeakPart(p, part, mint).state)
  {
    hide Units, AddPart, Spoken;
    if part.CallPart? {
      var outcome := R.OutcomeOf(g.registry, R.Request(0, part.call), mint);
      if outcome.Accepted? {
        UnitsOfOneMore(g.blocks, ToolUse(outcome.id, part.call.name, part.sig, part.call.args));
      }
    } else {
      PartsAreSaidInOrder(g.blocks, part);
    }
  }

  /** Grouping some parts keeps to what they say, in the order of the parts, failures included. */
  lemma {:induction false} BlocksSayTheParts(g: Group, p: Speech, parts: seq<Part>, mint: nat -> string)
    requires Voices(g, p)
    ensures GroupAll(g, parts, mint).failed == SpeakAll(p, parts, mint).failed
    ensures Voices(GroupAll(g, parts, mint).state, SpeakAll(p, parts, mint).state)
  {
    hide Voices, Grouped, SpeakPart;
    if parts != [] {
      var n := |parts| - 1;
      BlocksSayTheParts(g, p, parts[..n], mint);
      if !GroupAll(g, parts[..n], mint).failed {
        PartIsVoiced(GroupAll(g, parts[..n], mint).state, SpeakAll(p, parts[..n], mint).state, parts[n], mint);
      }
    }
  }

  // ---- The writer in step with the blocks ----------------------------------------------

  /** What the client has heard of the blocks so far; a thinking block's signature is still to come. */
  ghost predicate Shows(s: State, blocks: seq<Block>) {
    var n := |blocks|;
    && s.started
    && match s.block
       case NoBlock => Read(s.events) == Between(blocks) && s.index == n && s.pendingSig == ""
       case TextBlock =>
         n > 0 && blocks[n - 1].TextSaid? && s.index == n - 1 && s.pendingSig == ""
         && Read(s.events) == Inside(blocks[..n - 1], blocks[n - 1], false)
       case ThinkingBlock =>
         n > 0 && blocks[n - 1].Thought? && s.index == n - 1 && s.pendingSig == blocks[n - 1].sig
         && Read(s.events) == Inside(blocks[..n - 1], Thought(blocks[n - 1].text, ""), false)
       case ToolBlock => false
  }

  lemma ClosingShows(s: State, blocks: seq<Block>)
    requires Shows(s, blocks)
    ensures Shows(CloseBlock(s), blocks) && CloseBlock(s).block.NoBlock?
  {
    hide Read;
    if !s.block.NoBlock? {
      var n := |blocks| - 1;
      assert blocks == blocks[..n] + [blocks[n]];
      var signed :=
        if s.block.ThinkingBlock? && s.pendingSig != "" then s.events + [BlockDelta(n, SignatureDelta(s.pendingSig))]
        else s.events;
      ReadOneMore(s.events, BlockDelta(n, SignatureDelta(s.pendingSig)));
      ReadOneMore(signed, BlockStop(n));
    }
  }

  lemma StartingIsHeard(s: State, blocks: seq<Block>, kind: Kind)
    requires Shows(s, blocks)
    ensures var t := StartBlock(s, kind);
      t.started && t.index == |blocks| && t.pendingSig == "" && t.block == OpenOf(kind)
        && Read(t.events) == Inside(blocks, Blank(kind), false)
  {
    hide CloseBlock;
    ClosingShows(s, blocks);
    ReadOneMore(CloseBlock(s).events, BlockStart(|blocks|, kind));
  }

  lemma CallShows(s: State, blocks: seq<Block>, call: FunctionCall, id: string, sig: string)
    requires Shows(s, blocks)
    ensures Shows(TakeCall(s, call, id, sig), blocks + [ToolUse(id, call.name, sig, call.args)])
    ensures TakeCall(s, call, id, sig).block.NoBlock?
  {
    hide StartBlock;
    StartingIsHeard(s, blocks, ToolKind(id, call.name, sig));
    var t := StartBlock(s, ToolKind(id, call.name, sig));
    ReadOneMore(t.events, BlockDelta(|blocks|, JsonDelta(call.args)));
    ReadOneMore(t.events + [BlockDelta(|blocks|, JsonDelta(call.args))], BlockStop(|blocks|));
  }

  /** Between parts no block is open exactly when nothing was said yet or a call came last. */
  predicate Rests(blocks: seq<Block>) {
    blocks == [] || blocks[|blocks| - 1].ToolUse?
  }

  ghost predicate Settled(s: State, blocks: seq<Block>) {
    Shows(s, blocks) && (s.block.NoBlock? <==> Rests(blocks))
  }

  lemma TextShows(s: State, blocks: seq<Block>, text: string)
    requires Settled(s, blocks) && text != ""
    ensures Settled(TakeText(s, text, ""), AddText(blocks, text))
  {
    hide StartBlock, Read;
    if s.block.TextBlock? {
      ReadOneMore(s.events, BlockDelta(s.index, TextDelta(text)));
    } else {
      StartingIsHeard(s, blocks, TextKind);
      var t := StartBlock(s, TextKind);
      ReadOneMore(t.events, BlockDelta(t.index, TextDelta(text)));
      assert "" + text == text;
      assert (blocks + [TextSaid(text)])[..|blocks|] == blocks;
    }
  }

  /** The blocks once a thinking block is open. */
  function Known(blocks: seq<Block>): (r: seq<Block>)
    ensures |r| > 0 && r[|r| - 1].Thought?
  {
    if |blocks| > 0 && blocks[|blocks| - 1].Thought? then blocks else blocks + [Thought("", "")]
  }

  function Longer(blocks: seq<Block>, text: string): seq<Block>
    requires |blocks| > 0 && blocks[|blocks| - 1].Thought?
  {
    var m := |blocks| - 1;
    blocks[..m] + [Thought(blocks[m].text + text, blocks[m].sig)]
  }

  function Resigned(blocks: seq<Block>, sig: string): seq<Block>
    requires |blocks| > 0 && blocks[|blocks| - 1].Thought?
  {
    blocks[..|blocks| - 1] + [Thought(blocks[|blocks| - 1].text, sig)]
  }

  lemma ThinkingBlockShows(s: State, blocks: seq<Block>)
    requires Settled(s, blocks)
    ensures Settled(Within(s, ThinkingKind), Known(blocks)) && Within(s, ThinkingKind).block.ThinkingBlock?
  {
    hide StartBlock;
    if !s.block.ThinkingBlock? {
      StartingIsHeard(s, blocks, ThinkingKind);
      assert (blocks + [Thought("", "")])[..|blocks|] == blocks;
    }
  }

  lemma ThinkingDeltaShows(s: State, blocks: seq<Block>, text: string)
    requires Settled(s, blocks) && s.block.ThinkingBlock?
    requires |blocks| > 0 && blocks[|blocks| - 1].Thought?
    ensures Settled(EmitDelta(s, ThinkingDelta(text)), Longer(blocks, text))
  {
    ReadOneMore(s.events, BlockDelta(s.index, ThinkingDelta(text)));
  }

  lemma SignatureShows(s: State, blocks: seq<Block>, sig: string)
    requires Settled(s, blocks) && s.block.ThinkingBlock?
    requires |blocks| > 0 && blocks[|blocks| - 1].Thought?
    ensures Settled(s.(pendingSig := sig), Resigned(blocks, sig))
  {
  }

  lemma ThoughtInSteps(blocks: seq<Block>, thinking: string, sig: string)
    requires thinking != "" || sig != ""
    ensures var said := if thinking != "" then Longer(Known(blocks), thinking) else Known(blocks);
      AddThought(blocks, thinking, sig) == if sig != "" then Resigned(said, sig) else said
  {
    var known := Known(blocks);
    var m := |known| - 1;
    assert known[m].text + "" == known[m].text && "" + thinking == thinking;
    if known != blocks {
      assert known[..m] == blocks;
    }
    assert Longer(known, thinking)[..m] == known[..m];
    if sig == "" && thinking != "" {
      assert AddThought(blocks, thinking, sig) == Longer(known, thinking);
    } else {
      assert AddThought(blocks, thinking, sig)
        == Resigned(if thinking != "" then Longer(known, thinking) else known, sig);
    }
  }

  lemma ThoughtShows(s: State, blocks: seq<Block>, thinking: string, sig: string)
    requires Settled(s, blocks)
    ensures Settled(TakeThought(s, thinking, sig), AddThought(blocks, thinking, sig))
  {
    if thinking != "" || sig != "" {
      hide Settled, Within, EmitDelta, AddThought;
      ThinkingBlockShows(s, blocks);
      ThoughtInSteps(blocks, thinking, sig);
      var inside := Within(s, ThinkingKind);
      EmittingKeepsBlock(inside, ThinkingDelta(thinking));
      if thinking != "" {
        ThinkingDeltaShows(inside, Known(blocks), thinking);
        if sig != "" {
          SignatureShows(EmitDelta(inside, ThinkingDelta(thinking)), Longer(Known(blocks), thinking), sig);
        }
      } else {
        SignatureShows(inside, Known(blocks), sig);
      }
    }
  }

  lemma EmittingKeepsBlock(s: State, delta: Delta)
    ensures EmitDelta(s, delta).block == s.block
  {
  }

  /** The writer has told the client of exactly the blocks grouped so far. */
  ghost predicate InStep(s: State, g: Group) {
    && s.registry == g.registry && s.finish == g.finish && s.usedTool == HasTool(g.blocks)
    && if s.started then Settled(s, g.blocks)
       else g.blocks == [] && s.events == [] && s.block.NoBlock? && s.index == 0 && s.pendingSig == ""
  }

  lemma OneMoreTool(blocks: seq<Block>, b: Block)
    ensures HasTool(blocks + [b]) <==> HasTool(blocks) || b.ToolUse?
  {
    assert (blocks + [b])[|blocks|] == b;
    if HasTool(blocks) {
      var t :| t in blocks && t.ToolUse?;
      assert t in blocks + [b];
    }
  }

  lemma LongerLastTool(blocks: seq<Block>, b: Block)
    requires |blocks| > 0 && !b.ToolUse? && !blocks[|blocks| - 1].ToolUse?
    ensures HasTool(blocks[..|blocks| - 1] + [b]) <==> HasTool(blocks)
  {
    var front := blocks[..|blocks| - 1];
    OneMoreTool(front, b);
    OneMoreTool(front, blocks[|blocks| - 1]);
    assert front + [blocks[|blocks| - 1]] == blocks;
  }

  lemma AddedPartIsNoTool(blocks: seq<Block>, part: Part)
    requires !part.CallPart?
    ensures HasTool(AddPart(blocks, part)) <==> HasTool(blocks)
  {
    hide HasTool;
    var after := AddPart(blocks, part);
    if after != blocks {
      if |after| == |blocks| {
        LongerLastTool(blocks, after[|blocks| - 1]);
      } else {
        OneMoreTool(blocks, after[|blocks|]);
      }
    }
  }

  lemma TakingStaysInStep(s: State, g: Group, part: Part, mint: nat -> string)
    requires InStep(s, g) && s.started
    ensures Take(s, part, mint).failed == Grouped(g, part, mint).failed
    ensures InStep(Take(s, part, mint).state, Grouped(g, part, mint).state) && Take(s, part, mint).state.started
  {
    hide Shows, HasTool, TakeCall, TakeThought, R.OutcomeOf, R.Prepared, AddThought, AddText;
    if part.CallPart? {
      var q := R.Request(0, part.call);
      var next := s.(registry := R.Prepared(s.registry, q, mint));
      assert Settled(next, g.blocks) by {
        RegistryIsNotHeard(s, next.registry, g.blocks);
      }
      var outcome := R.OutcomeOf(s.registry, q, mint);
      if outcome.Accepted? {
        CallShows(next, g.blocks, part.call, outcome.id, part.sig);
        CallBookkeeping(next, part.call, outcome.id, part.sig);
        OneMoreTool(g.blocks, ToolUse(outcome.id, part.call.name, part.sig, part.call.args));
      }
    } else {
      AddedPartIsNoTool(g.blocks, part);
      PartBookkeeping(s, part, mint);
      if part.IsThought() {
        ThoughtShows(s, g.blocks, part.Thinking(), part.sig);
      } else if part.Content() != "" {
        TextShows(s, g.blocks, part.Content());
      } else {
        BareSignatureShows(s, g.blocks, part.sig);
      }
    }
  }

  lemma RegistryIsNotHeard(s: State, r: R.Registry, blocks: seq<Block>)
    requires Settled(s, blocks)
    ensures Settled(s.(registry := r), blocks)
  {
  }

  lemma CallBookkeeping(s: State, call: FunctionCall, id: string, sig: string)
    ensures var t := TakeCall(s, call, id, sig);
      t.registry == s.registry && t.finish == s.finish && t.usedTool && t.started == s.started
  {
  }

  lemma PartBookkeeping(s: State, part: Part, mint: nat -> string)
    requires !part.CallPart?
    ensures var t := Take(s, part, mint).state;
      t.registry == s.registry && t.finish == s.finish && t.usedTool == s.usedTool && t.started == s.started
  {
    hide StartBlock;
    StartingKeepsBooks(s, TextKind);
    StartingKeepsBooks(s, ThinkingKind);
  }

  lemma StartingKeepsBooks(s: State, kind: Kind)
    ensures var t := StartBlock(s, kind);
      t.registry == s.registry && t.finish == s.finish && t.usedTool == s.usedTool && t.started == s.started
  {
  }

  lemma BareSignatureShows(s: State, blocks: seq<Block>, sig: string)
    requires Settled(s, blocks)
    ensures Settled(TakeText(s, "", sig), AddSignature(blocks, sig))
  {
    if sig != "" && s.block.ThinkingBlock? {
      SignatureShows(s, blocks, sig);
    }
  }

  lemma {:induction false} PartsStayInStep(s: State, g: Group, parts: seq<Part>, mint: nat -> string)
    requires InStep(s, g) && s.started
    ensures TakeAll(s, parts, mint).failed == GroupAll(g, parts, mint).failed
    ensures InStep(TakeAll(s, parts, mint).state, GroupAll(g, parts, mint).state)
    ensures TakeAll(s, parts, mint).state.started
  {
    hide InStep, Take, Grouped;
    if parts != [] {
      var n := |parts| - 1;
      PartsStayInStep(s, g, parts[..n], mint);
      if !TakeAll(s, parts[..n], mint).failed {
        TakingStaysInStep(TakeAll(s, parts[..n], mint).state, GroupAll(g, parts[..n], mint).state, parts[n], mint);
      }
    }
  }

  lemma BeginningStaysInStep(s: State, g: Group, finish: string)
    requires InStep(s, g)
    ensures InStep(Begin(s, finish), if finish != "" then g.(finish := finish) else g) && Begin(s, finish).started
  {
    ReadOneMore(s.events, MessageStart(s.usage));
    assert Read([]) == Idle;
  }

  lemma UsageIsNotHeard(s: State, g: Group, usage: Option<string>)
    requires InStep(s, g)
    ensures InStep(s.(usage := usage), g)
  {
  }

  lemma VisitingStaysInStep(s: State, g: Group, frame: Frame, mint: nat -> string)
    requires InStep(s, g)
    ensures Visit(s, frame, mint).failed == GroupFrame(g, frame, mint).failed
    ensures InStep(Visit(s, frame, mint).state, GroupFrame(g, frame, mint).state)
    ensures frame.candidates != [] || s.started ==> Visit(s, frame, mint).state.started
  {
    hide InStep, TakeAll, GroupAll, Begin;
    var used := if frame.usage.Some? then s.(usage := frame.usage) else s;
    UsageIsNotHeard(s, g, used.usage);
    if frame.candidates != [] {
      var c := frame.candidates[0];
      BeginningStaysInStep(used, g, c.Finish());
      var begun := if c.Finish() != "" then g.(finish := c.Finish()) else g;
      PartsStayInStep(Begin(used, c.Finish()), begun, c.Parts(), mint);
    }
  }

  lemma {:induction false} WalksStayInStep(frames: seq<Frame>, n: nat, mint: nat -> string)
    requires n <= |frames|
    ensures var u, v := Walk(Start(), Visitor(mint), frames, n), Walk(Nothing(), Grouper(mint), frames, n);
      u.failed == v.failed && u.seen == v.seen && InStep(u.state, v.state)
        && (u.seen != map[] && !u.failed ==> u.state.started)
  {
    hide InStep, Visit, GroupFrame, Admitted;
    if n == 0 {
      assert InStep(Start(), Nothing()) by {
        StartsInStep();
      }
    } else {
      WalksStayInStep(frames, n - 1, mint);
      var u, v := Walk(Start(), Visitor(mint), frames, n - 1), Walk(Nothing(), Grouper(mint), frames, n - 1);
      VisitingStaysInStep(u.state, v.state, frames[n - 1], mint);
      var frame := frames[n - 1];
      if frame.candidates == [] {
        NoCandidatesAdmitNothing(u.seen);
      }
    }
  }

  lemma NoCandidatesAdmitNothing(seen: map<int, Seen>)
    ensures Admitted([], 0, seen) == Some(seen)
  {
  }

  lemma StartsInStep()
    ensures InStep(Start(), Nothing())
  {
  }

  /** What an error leaves of the blocks: the last one open, with its signature still to come, unless it is a call. */
  function Interrupted(blocks: seq<Block>): Reader {
    if Rests(blocks) then Failed(blocks, None)
    else
      var n := |blocks| - 1;
      Failed(blocks[..n], Some(if blocks[n].Thought? then Thought(blocks[n].text, "") else blocks[n]))
  }

  lemma ErrorIsHeard(s: State, g: Group)
    requires InStep(s, g)
    ensures Read(s.events + [Error]) == Interrupted(g.blocks)
  {
    ReadOneMore(s.events, Error);
    assert Read([]) == Idle;
  }

  lemma EndingIsHeard(s: State, g: Group)
    requires InStep(s, g) && s.started
    ensures Read(Ending(s)) == Finished(g.blocks, StopReason(HasTool(g.blocks), g.finish))
  {
    hide StopReason, HasTool, CloseBlock, Read;
    ClosingShows(s, g.blocks);
    var closed, last := CloseBlock(s), MessageDelta(StopReason(s.usedTool, s.finish), s.usage);
    ReadOneMore(closed.events, last);
    ReadOneMore(closed.events + [last], MessageStop);
    assert Ending(s) == (closed.events + [last]) + [MessageStop];
  }

  /**
   Every run writes one whole message, or a prefix of one followed by an error. A finished
   message consists of the blocks that the first candidates' parts form, and ends for the
   reason their calls and finish reason give. An interrupted one consists of the blocks that
   the parts before the failure form, the last of them open unless it is a call.
   */
  lemma ClaudeTrace(source: Source, mint: nat -> string)
    ensures var g := GroupOf(source, mint);
      Read(Output(source, mint))
        == if Succeeds(source, mint) then Finished(g.blocks, StopReason(HasTool(g.blocks), g.finish))
           else Interrupted(g.blocks)
  {
    hide Walk, StopReason, HasTool, Ending, InStep, Interrupted, Read;
    WalksStayInStep(source.frames, |source.frames|, mint);
    var s, g := ClaudeStreams.Walked(source, mint).state, GroupOf(source, mint);
    if Succeeds(source, mint) {
      EndingIsHeard(s, g);
    } else {
      ErrorIsHeard(s, g);
    }
  }

  // ---- What a message says -----------------------------------------------------------------

  lemma FrameIsVoiced(g: Group, p: Speech, frame: Frame, mint: nat -> string)
    requires Voices(g, p)
    ensures GroupFrame(g, frame, mint).failed == SpeakFrame(p, frame, mint).failed
    ensures Voices(GroupFrame(g, frame, mint).state, SpeakFrame(p, frame, mint).state)
  {
    hide Units;
    if frame.candidates != [] {
      var c := frame.candidates[0];
      BlocksSayTheParts(if c.Finish() != "" then g.(finish := c.Finish()) else g, p, c.Parts(), mint);
    }
  }

  lemma {:induction false} FramesAreVoiced(frames: seq<Frame>, n: nat, mint: nat -> string)
    requires n <= |frames|
    ensures var u := Walk(Nothing(), Grouper(mint), frames, n);
      var v := Walk(Speech(R.Empty(), []), Speaker(mint), frames, n);
      u.failed == v.failed && u.seen == v.seen && Voices(u.state, v.state)
  {
    hide GroupFrame, SpeakFrame, Admitted;
    if n > 0 {
      hide Voices;
      FramesAreVoiced(frames, n - 1, mint);
      FrameIsVoiced(Walk(Nothing(), Grouper(mint), frames, n - 1).state,
        Walk(Speech(R.Empty(), []), Speaker(mint), frames, n - 1).state, frames[n - 1], mint);
    }
  }

  /** All that a client has heard: the finished blocks, and the open one of an interrupted message. */
  function Heard(r: Reader): seq<Block>
    requires r.Finished? || r.Failed?
  {
    r.blocks + if r.Failed? && r.open.Some? then [r.open.value] else []
  }

  lemma InterruptedSaysTheSame(blocks: seq<Block>)
    ensures Units(Heard(Interrupted(blocks))) == Units(blocks)
  {
    hide Units;
    if Rests(blocks) {
      assert blocks + [] == blocks;
    } else {
      var n := |blocks| - 1;
      LongerLastBlock(blocks, if blocks[n].Thought? then Thought(blocks[n].text, "") else blocks[n]);
    }
  }

  /**
   What a client has heard, at the end of a message or at the error, says in order what the
   first candidates say up to there: no more and no less.
   */
  lemma ClaudeSaysTheParts(source: Source, mint: nat -> string)
    ensures var r := Read(Output(source, mint));
      (r.Finished? || r.Failed?) && Units(Heard(r)) == SpeechOf(source, mint)
  {
    hide Walk, Units, Read, Interrupted;
    ClaudeTrace(source, mint);
    FramesAreVoiced(source.frames, |source.frames|, mint);
    var blocks := GroupOf(source, mint).blocks;
    InterruptedSaysTheSame(blocks);
    InterruptedFails(blocks);
    assert blocks + [] == blocks;
  }

  lemma InterruptedFails(blocks: seq<Block>)
    ensures Interrupted(blocks).Failed?
  {
  }

  predicate IsEmpty(b: Block) {
    b == TextSaid("") || b == Thought("", "")
  }

  /** No block is empty, and neighbours never continue one another. */
  ghost predicate Neat(blocks: seq<Block>) {
    && (forall i | 0 <= i < |blocks| :: !IsEmpty(blocks[i]))
    && (forall i | 0 < i < |blocks| ::
          !(blocks[i].TextSaid? && blocks[i - 1].TextSaid?) && !(blocks[i].Thought? && blocks[i - 1].Thought?))
  }

  lemma AddingPartStaysNeat(blocks: seq<Block>, part: Part)
    requires Neat(blocks) && !part.CallPart?
    ensures Neat(AddPart(blocks, part))
  {
    var n, after := |blocks|, AddPart(blocks, part);
    assert forall i | 0 <= i < n - 1 :: after[i] == blocks[i];
    if n > 0 {
      assert !IsEmpty(blocks[n - 1]) && !IsEmpty(after[n - 1]);
    }
  }

  lemma AddingToolStaysNeat(blocks: seq<Block>, b: Block)
    requires Neat(blocks) && b.ToolUse?
    ensures Neat(blocks + [b])
  {
  }

  lemma {:induction false} PartsStayNeat(g: Group, parts: seq<Part>, mint: nat -> string)
    requires Neat(g.blocks)
    ensures Neat(GroupAll(g, parts, mint).state.blocks)
  {
    hide Neat, AddPart, R.OutcomeOf, R.Prepared;
    if parts != [] {
      var n := |parts| - 1;
      PartsStayNeat(g, parts[..n], mint);
      var before := GroupAll(g, parts[..n], mint).state;
      var part := parts[n];
      if part.CallPart? {
        var outcome := R.OutcomeOf(before.registry, R.Request(0, part.call), mint);
        if outcome.Accepted? {
          AddingToolStaysNeat(before.blocks, ToolUse(outcome.id, part.call.name, part.sig, part.call.args));
        }
      } else {
        AddingPartStaysNeat(before.blocks, part);
      }
    }
  }

  lemma {:induction false} BlocksAreNeat(frames: seq<Frame>, n: nat, mint: nat -> string)
    requires n <= |frames|
    ensures Neat(Walk(Nothing(), Grouper(mint), frames, n).state.blocks)
  {
    hide Neat, GroupAll, Admitted;
    if n == 0 {
      NothingIsNeat();
    } else {
      BlocksAreNeat(frames, n - 1, mint);
      var g, frame := Walk(Nothing(), Grouper(mint), frames, n - 1).state, frames[n - 1];
      if frame.candidates != [] {
        var c := frame.candidates[0];
        PartsStayNeat(if c.Finish() != "" then g.(finish := c.Finish()) else g, c.Parts(), mint);
      }
    }
  }

  lemma NothingIsNeat()
    ensures Neat([])
  {
  }
}
