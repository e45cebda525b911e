/**
 The items of a response, against the pieces that the parts form.

 `Gathering` collects the parts of all candidates without any events: a text or a thought joins
 the open piece of its kind and candidate, an accepted call is a piece of its own.
 */
module ResponsesItems {
  import opened Wrappers
  import opened Gemini
  import opened ResponsesStreams
  import opened ResponsesReaders
  import R = ToolRegistries

  datatype Piece = Piece(kind: Kind, candidate: int, body: string, sig: string)

  /** `open`: the last piece is a text or a thought that goes on growing. */
  datatype Gathering = Gathering(pieces: seq<Piece>, open: bool, registry: R.Registry, bytes: nat)

  function Nothing(): Gathering {
    Gathering([], false, R.Empty(), 0)
  }

  function Signed(sig: string, before: string): string {
    if sig != "" then sig else before
  }

  /** A text or a thought of a candidate; a bare signature goes to the open piece. */
  function Joined(g: Gathering, kind: Kind, candidate: int, text: string, sig: string): Gathering {
    var n := |g.pieces|;
    if g.open && n > 0 && (text == "" || (g.pieces[n - 1].kind == kind && g.pieces[n - 1].candidate == candidate)) then
      var last := g.pieces[n - 1];
      g.(pieces := g.pieces[..n - 1] + [Piece(last.kind, last.candidate, last.body + text, Signed(sig, last.sig))])
    else if text == "" then g
    else g.(pieces := g.pieces + [Piece(kind, candidate, text, sig)], open := true)
  }

  function Gathered(g: Gathering, candidate: int, part: Part, cfg: Config): Visited<Gathering> {
    match part
    case TextPart(text, thought, sig, _) =>
      Visited(Joined(g, if thought then ReasoningKind else MessageKind, candidate, text, sig), false)
    case MediaPart(markdown, thought, sig) =>
      Visited(if thought then Joined(g, ReasoningKind, candidate, "", sig)
              else Joined(g, MessageKind, candidate, markdown, sig), false)
    case CallPart(call, sig) =>
      var q := R.Request(candidate, call);
      var next := g.(registry := R.Prepared(g.registry, q, cfg.mint));
      match R.OutcomeOf(g.registry, q, cfg.mint)
      case Rejected => Visited(g, true)
      case Repeated(_) => Visited(next, false)
      case Accepted(id) =>
        var custom := call.name in cfg.customTools;
        var body := if custom then cfg.customInput(call.args) else call.args;
        Visited(next.(pieces := g.pieces + [Piece(CallKind(custom, id, call.name), candidate, body, sig)],
          open := false), false)
  }

  function Gather(g: Gathering, a: Action, cfg: Config): Visited<Gathering> {
    match a
    case Open(_, _, _) => Visited(g, false)
    case Deliver(candidate, part) => Gathered(g, candidate, part, cfg)
  }

  function GatherAll(g: Gathering, actions: seq<Action>, cfg: Config): Visited<Gathering> {
    if actions == [] then Visited(g, false)
    else
      var before := GatherAll(g, actions[..|actions| - 1], cfg);
      if before.failed then before else Gather(before.state, actions[|actions| - 1], cfg)
  }

  function GatherFrame(g: Gathering, frame: Frame, cfg: Config): Visited<Gathering> {
    var sized := g.(bytes := g.bytes + frame.size);
    if sized.bytes > 128 * 1024 * 1024 then Visited(sized, true) else GatherAll(sized, FrameActions(frame), cfg)
  }

  function Gatherer(cfg: Config): (Gathering, Frame) -> Visited<Gathering> {
    (g: Gathering, frame: Frame) => GatherFrame(g, frame, cfg)
  }

  /** The pieces of a source up to its end or its first failure. */
  function GatheringOf(source: Source, cfg: Config): Gathering {
    Walk(Nothing(), Gatherer(cfg), source.frames, |source.frames|).state
  }

  // ---- The writer in step with the pieces ----------------------------------------------

  /** The identifier of item `k`. */
  function IdOf(kind: Kind, k: nat, cfg: Config): string {
    match kind
    case MessageKind => "msg_" + cfg.draw(k)
    case ReasoningKind => "rs_" + cfg.draw(k)
    case CallKind(_, _, _) => "fc_" + cfg.draw(k)
  }

  /** Item `k` is the piece, with this status. */
  predicate IsPiece(item: Item, piece: Piece, k: nat, status: Status, cfg: Config) {
    item == Item(IdOf(piece.kind, k, cfg), piece.kind, piece.body, piece.sig, status)
  }

  /** The items are the pieces; all but an open one are completed. */
  ghost predicate Matches(s: State, g: Gathering, cfg: Config) {
    var n := |s.outputs|;
    && n == |g.pieces| && g.open == s.active.Some? && s.registry == g.registry && s.bytes == g.bytes
    && (forall k | 0 <= k < n :: !g.open || k < n - 1 ==> IsPiece(s.outputs[k], g.pieces[k], k, Completed, cfg))
    && (if g.open then
          && s.active == Some(n - 1) && n > 0 && s.candidate == g.pieces[n - 1].candidate
          && IsPiece(s.outputs[n - 1].(body := s.text), g.pieces[n - 1], n - 1, InProgress, cfg)
          && !g.pieces[n - 1].kind.CallKind?
        else s.text == "")
  }

  /** The items with the open one closed. */
  lemma ClosingMatches(s: State, g: Gathering, incomplete: bool, cfg: Config)
    requires Matches(s, g, cfg)
    ensures s.Consistent()
    ensures var t := CloseItem(s, incomplete);
      && |t.outputs| == |g.pieces| && t.active.None? && t.text == "" && t.registry == s.registry && t.bytes == s.bytes
      && forall k | 0 <= k < |t.outputs| ::
           IsPiece(t.outputs[k], g.pieces[k], k,
             if g.open && incomplete && k == |t.outputs| - 1 then Incomplete else Completed, cfg)
  {
  }

  lemma ClosedMatches(s: State, g: Gathering, cfg: Config)
    requires Matches(s, g, cfg)
    ensures s.Consistent() && Matches(CloseItem(s, false), g.(open := false), cfg)
  {
    ClosingMatches(s, g, false, cfg);
  }

  lemma StartingMatches(s: State, g: Gathering, kind: Kind, candidate: int, text: string, sig: string, cfg: Config)
    requires Matches(s, g, cfg) && !g.open && !kind.CallKind? && text != ""
    ensures s.Consistent() && Matches(TakeChunk(s, kind, text, sig, candidate, cfg),
      Joined(g, kind, candidate, text, sig), cfg)
  {
    assert "" + text == text;
  }

  lemma GrowingMatches(s: State, g: Gathering, kind: Kind, candidate: int, text: string, sig: string, cfg: Config)
    requires Matches(s, g, cfg) && g.open && !kind.CallKind?
    requires text == "" || (g.pieces[|g.pieces| - 1].kind == kind && g.pieces[|g.pieces| - 1].candidate == candidate)
    ensures s.Consistent() && Matches(TakeChunk(s, kind, text, sig, candidate, cfg),
      Joined(g, kind, candidate, text, sig), cfg)
  {
    if text == "" {
      assert s.text + text == s.text;
    }
  }

  lemma ReopeningMatches(s: State, kind: Kind, candidate: int, text: string, sig: string, cfg: Config)
    requires s.Consistent() && !Continues(s, kind, candidate) && text != ""
    ensures CloseItem(s, false).Consistent()
    ensures TakeChunk(CloseItem(s, false), kind, text, sig, candidate, cfg)
      == TakeChunk(s, kind, text, sig, candidate, cfg)
  {
    hide CloseItem;
    StartingTwice(s, kind, candidate, cfg);
    ClosingIsActionless(s);
  }

  lemma ClosingIsActionless(s: State)
    requires s.Consistent()
    ensures CloseItem(s, false).active.None? && CloseItem(s, false).actionable == s.actionable
  {
  }

  lemma ContinuesIffOpen(s: State, g: Gathering, kind: Kind, candidate: int, cfg: Config)
    requires Matches(s, g, cfg)
    ensures s.Consistent()
    ensures Continues(s, kind, candidate) <==>
      g.open && |g.pieces| > 0 && g.pieces[|g.pieces| - 1].kind == kind
      && g.pieces[|g.pieces| - 1].candidate == candidate
  {
  }

  lemma ChunkMatches(s: State, g: Gathering, kind: Kind, candidate: int, text: string, sig: string, cfg: Config)
    requires Matches(s, g, cfg) && !kind.CallKind?
    ensures s.Consistent() && Matches(TakeChunk(s, kind, text, sig, candidate, cfg),
      Joined(g, kind, candidate, text, sig), cfg)
  {
    ContinuesIffOpen(s, g, kind, candidate, cfg);
    if text == "" || Continues(s, kind, candidate) {
      if g.open {
        hide TakeChunk, Joined;
        PiecesAreThere(s, g, cfg);
        GrowingMatches(s, g, kind, candidate, text, sig, cfg);
      }
    } else {
      hide TakeChunk, Continues, CloseItem;
      ClosedMatches(s, g, cfg);
      StartingMatches(CloseItem(s, false), g.(open := false), kind, candidate, text, sig, cfg);
      ReopeningMatches(s, kind, candidate, text, sig, cfg);
      hide Matches;
      JoinedAnew(g, kind, candidate, text, sig);
    }
  }

  lemma PiecesAreThere(s: State, g: Gathering, cfg: Config)
    requires Matches(s, g, cfg) && g.open
    ensures |g.pieces| > 0
  {
  }

  lemma JoinedAnew(g: Gathering, kind: Kind, candidate: int, text: string, sig: string)
    requires text != ""
    requires !(g.open && |g.pieces| > 0 && g.pieces[|g.pieces| - 1].kind == kind
      && g.pieces[|g.pieces| - 1].candidate == candidate)
    ensures Joined(g.(open := false), kind, candidate, text, sig) == Joined(g, kind, candidate, text, sig)
  {
  }

  lemma CallMatches(s: State, g: Gathering, candidate: int, call: FunctionCall, id: string, sig: string, cfg: Config)
    requires Matches(s, g, cfg)
    ensures var custom := call.name in cfg.customTools;
      var body := if custom then cfg.customInput(call.args) else call.args;
      s.Consistent() && Matches(TakeCall(s, call, id, sig, cfg),
        g.(pieces := g.pieces + [Piece(CallKind(custom, id, call.name), candidate, body, sig)], open := false), cfg)
  {
    hide CloseItem;
    ClosingMatches(s, g, false, cfg);
  }

  lemma RegistryMatches(s: State, g: Gathering, r: R.Registry, bytes: nat, cfg: Config)
    requires Matches(s, g, cfg)
    ensures Matches(s.(registry := r), g.(registry := r), cfg)
    ensures Matches(s.(bytes := bytes), g.(bytes := bytes), cfg)
  {
  }

  lemma UnseenMatches(s: State, t: State, g: Gathering, cfg: Config)
    requires Matches(s, g, cfg) && t == s.(finish := t.finish, usage := t.usage)
    ensures Matches(t, g, cfg)
  {
  }

  lemma MatchesIsConsistent(s: State, g: Gathering, cfg: Config)
    requires Matches(s, g, cfg)
    ensures s.Consistent() && s.registry == g.registry && s.bytes == g.bytes
  {
  }

  lemma DeliveringMatches(s: State, g: Gathering, candidate: int, part: Part, cfg: Config)
    requires Matches(s, g, cfg)
    ensures s.Consistent() && Delivered(s, candidate, part, cfg).failed == Gathered(g, candidate, part, cfg).failed
    ensures Matches(Delivered(s, candidate, part, cfg).state, Gathered(g, candidate, part, cfg).state, cfg)
  {
    MatchesIsConsistent(s, g, cfg);
    hide Matches, TakeCall, TakeChunk, Joined, R.OutcomeOf, R.Prepared;
    match part
    case TextPart(text, thought, sig, _) =>
      ChunkMatches(s, g, if thought then ReasoningKind else MessageKind, candidate, text, sig, cfg);
    case MediaPart(markdown, thought, sig) =>
      ChunkMatches(s, g, if thought then ReasoningKind else MessageKind, candidate, if thought then "" else markdown,
        sig, cfg);
    case CallPart(call, sig) =>
      var q := R.Request(candidate, call);
      var outcome := R.OutcomeOf(s.registry, q, cfg.mint);
      var r := R.Prepared(s.registry, q, cfg.mint);
      RegistryMatches(s, g, r, 0, cfg);
      if outcome.Accepted? {
        CallMatches(s.(registry := r), g.(registry := r), candidate, call, outcome.id, sig, cfg);
      }
  }

  lemma {:induction false} ActingMatches(s: State, g: Gathering, actions: seq<Action>, cfg: Config)
    requires Matches(s, g, cfg)
    ensures s.Consistent() && ActAll(s, actions, cfg).failed == GatherAll(g, actions, cfg).failed
    ensures Matches(ActAll(s, actions, cfg).state, GatherAll(g, actions, cfg).state, cfg)
  {
    MatchesIsConsistent(s, g, cfg);
    hide Matches, Delivered, Gathered, Finished;
    if actions != [] {
      var n := |actions| - 1;
      ActingMatches(s, g, actions[..n], cfg);
      var s', g' := ActAll(s, actions[..n], cfg), GatherAll(g, actions[..n], cfg);
      if !s'.failed {
        match actions[n]
        case Open(_, _, finish) =>
          UnseenMatches(s'.state, s'.state.(finish := Finished(s'.state.finish, finish.GetOr(""))), g'.state, cfg);
        case Deliver(candidate, part) => DeliveringMatches(s'.state, g'.state, candidate, part, cfg);
      }
    }
  }

  lemma VisitingMatches(s: State, g: Gathering, frame: Frame, cfg: Config)
    requires Matches(s, g, cfg)
    ensures s.Consistent() && Visit(s, frame, cfg).failed == GatherFrame(g, frame, cfg).failed
    ensures Matches(Visit(s, frame, cfg).state, GatherFrame(g, frame, cfg).state, cfg)
  {
    MatchesIsConsistent(s, g, cfg);
    hide Matches, ActAll, GatherAll, FrameActions;
    var bytes := s.bytes + frame.size;
    RegistryMatches(s, g, s.registry, bytes, cfg);
    var sized := s.(bytes := bytes);
    var used := if frame.usage.Some? then sized.(usage := frame.usage) else sized;
    UnseenMatches(sized, used, g.(bytes := bytes), cfg);
    if bytes <= MAX_COLLECTED_BYTES {
      ActingMatches(used, g.(bytes := bytes), FrameActions(frame), cfg);
    }
  }

  lemma {:induction false} WalksMatch(frames: seq<Frame>, n: nat, cfg: Config)
    requires n <= |frames|
    ensures var u, v := Walk(Start(), Visitor(cfg), frames, n), Walk(Nothing(), Gatherer(cfg), frames, n);
      u.failed == v.failed && u.seen == v.seen && Matches(u.state, v.state, cfg)
  {
    hide Visit, GatherFrame, Admitted;
    if n > 0 {
      hide Matches;
      WalksMatch(frames, n - 1, cfg);
      var u, v := Walk(Start(), Visitor(cfg), frames, n - 1), Walk(Nothing(), Gatherer(cfg), frames, n - 1);
      MatchesIsConsistent(u.state, v.state, cfg);
      VisitingMatches(u.state, v.state, frames[n - 1], cfg);
    }
  }

  /**
   The items that a client has at the end are the pieces that the parts form, in order, each with its
   identifier, its whole text or arguments and its signature. All are completed, but the last is
   incomplete if it was still open and the response is.
   */
  lemma ItemsAreThePieces(source: Source, cfg: Config)
    ensures var r, g := Read(Output(source, cfg)), GatheringOf(source, cfg);
      && r.Over? && |r.items| == |g.pieces|
      && forall k | 0 <= k < |r.items| ::
           IsPiece(r.items[k], g.pieces[k], k,
             if g.open && r.status == Incomplete && k == |r.items| - 1 then Incomplete else Completed, cfg)
  {
    hide Walk, Read, Ended, Shows, InStep, Matches, CloseItem, Units, Told, OutcomeFor, IsPiece;
    var n := |source.frames|;
    WalksStayInStep(source.frames, n, cfg);
    WalksMatch(source.frames, n, cfg);
    WalkIsConsistent(source.frames, n, cfg);
    var s := ResponsesStreams.Walked(source, cfg).state;
    StepShows(s, Walk(Silence(), Speaker(cfg), source.frames, n).state);
    EndingShows(s, !StreamSucceeds(source, cfg));
    var o := OutcomeFor(s.finish, s.actionable, !StreamSucceeds(source, cfg));
    OutcomeIsOver(s.finish, s.actionable, !StreamSucceeds(source, cfg));
    ClosingMatches(s, GatheringOf(source, cfg), o.status != Completed, cfg);
  }

  lemma StepShows(s: State, p: Speech)
    requires InStep(s, p)
    ensures ResponsesReaders.Shows(s)
  {
  }

  lemma OutcomeIsOver(finish: string, actionable: bool, streamFailed: bool)
    ensures OutcomeFor(finish, actionable, streamFailed).status != InProgress
  {
  }

  // ---- What the pieces are like ----------------------------------------------------------

  /** No text is empty, and neighbouring texts or thoughts of one candidate are one piece. */
  ghost predicate Neat(g: Gathering) {
    var n := |g.pieces|;
    && (g.open ==> n > 0 && !g.pieces[n - 1].kind.CallKind?)
    && (!g.open && n > 0 ==> g.pieces[n - 1].kind.CallKind?)
    && (forall k | 0 <= k < n :: g.pieces[k].kind.CallKind? || g.pieces[k].body != "")
    && forall k | 0 <= k < n - 1 ::
         g.pieces[k].kind.CallKind? || g.pieces[k].kind != g.pieces[k + 1].kind
         || g.pieces[k].candidate != g.pieces[k + 1].candidate
  }

  lemma JoiningIsNeat(g: Gathering, kind: Kind, candidate: int, text: string, sig: string)
    requires Neat(g) && !kind.CallKind?
    ensures Neat(Joined(g, kind, candidate, text, sig))
  {
  }

  lemma GatheringIsNeat(g: Gathering, candidate: int, part: Part, cfg: Config)
    requires Neat(g)
    ensures Neat(Gathered(g, candidate, part, cfg).state)
  {
    hide Joined, R.OutcomeOf, R.Prepared;
    match part
    case TextPart(text, thought, sig, _) =>
      JoiningIsNeat(g, if thought then ReasoningKind else MessageKind, candidate, text, sig);
    case MediaPart(markdown, thought, sig) =>
      JoiningIsNeat(g, if thought then ReasoningKind else MessageKind, candidate, if thought then ""
        else markdown, sig);
    case CallPart(_, _) =>
  }

  lemma {:induction false} ActionsAreNeat(g: Gathering, actions: seq<Action>, cfg: Config)
    requires Neat(g)
    ensures Neat(GatherAll(g, actions, cfg).state)
  {
    hide Neat, Gathered;
    if actions != [] {
      var n := |actions| - 1;
      ActionsAreNeat(g, actions[..n], cfg);
      if !GatherAll(g, actions[..n], cfg).failed && actions[n].Deliver? {
        GatheringIsNeat(GatherAll(g, actions[..n], cfg).state, actions[n].index, actions[n].part, cfg);
      }
    }
  }

  lemma {:induction false} WalkIsNeat(frames: seq<Frame>, n: nat, cfg: Config)
    requires n <= |frames|
    ensures Neat(Walk(Nothing(), Gatherer(cfg), frames, n).state)
  {
    hide GatherAll, FrameActions, Admitted;
    if n > 0 {
      WalkIsNeat(frames, n - 1, cfg);
      var g, frame := Walk(Nothing(), Gatherer(cfg), frames, n - 1).state, frames[n - 1];
      ActionsAreNeat(g.(bytes := g.bytes + frame.size), FrameActions(frame), cfg);
    }
  }

  /** The items of a response are neat, whatever the order and the size of the parts. */
  lemma ItemsAreNeat(source: Source, cfg: Config)
    ensures Neat(GatheringOf(source, cfg))
  {
    WalkIsNeat(source.frames, |source.frames|, cfg);
  }
}
