/** Why a Claude message stops, and what usage it reports, by the frames of its stream. */
module ClaudeEndings {
  import opened Wrappers
  import opened Text
  import opened Gemini
  import opened ClaudeStreams
  import opened ClaudeReaders
  import R = ToolRegistries

  /** The last nonempty finish reason that the first candidates of the first `n` frames give. */
  function FirstFinish(frames: seq<Frame>, n: nat): string
    requires n <= |frames|
  {
    if n == 0 then ""
    else
      var candidates := frames[n - 1].candidates;
      if candidates != [] && candidates[0].Candidate? && candidates[0].finish.Some? && candidates[0].finish.value != ""
      then candidates[0].finish.value
      else FirstFinish(frames, n - 1)
  }

  lemma {:induction false} GroupingKeepsFinish(g: Group, parts: seq<Part>, mint: nat -> string)
    ensures GroupAll(g, parts, mint).state.finish == g.finish
  {
    hide AddPart, R.OutcomeOf, R.Prepared;
    if parts != [] {
      GroupingKeepsFinish(g, parts[..|parts| - 1], mint);
    }
  }

  lemma {:induction false} GroupsFinish(frames: seq<Frame>, n: nat, mint: nat -> string)
    requires n <= |frames| && !Walk(ClaudeReaders.Nothing(), Grouper(mint), frames, n).failed
    ensures Walk(ClaudeReaders.Nothing(), Grouper(mint), frames, n).state.finish == FirstFinish(frames, n)
  {
    hide GroupAll, Admitted;
    if n > 0 {
      GroupsFinish(frames, n - 1, mint);
      var g, frame := Walk(ClaudeReaders.Nothing(), Grouper(mint), frames, n - 1).state, frames[n - 1];
      if frame.candidates != [] {
        var c := frame.candidates[0];
        GroupingKeepsFinish(if c.Finish() != "" then g.(finish := c.Finish()) else g, c.Parts(), mint);
      }
    }
  }

  /**
   A whole message says that it stops for a tool exactly when one of its blocks is a tool use, for its length
   exactly when none is and the last finish reason of the first candidates is the token limit, and
   that its turn is over otherwise.
   */
  lemma StopsAsTold(source: Source, mint: nat -> string)
    requires Succeeds(source, mint)
    ensures var r := Read(Output(source, mint));
      var limit := ToUpper(FirstFinish(source.frames, |source.frames|)) == "MAX_TOKENS";
      && r.Finished?
      && (r.stop == "tool_use" <==> exists b <- r.blocks :: b.ToolUse?)
      && (r.stop == "max_tokens" <==> limit && forall b <- r.blocks :: !b.ToolUse?)
      && (r.stop == "end_turn" <==> !limit && forall b <- r.blocks :: !b.ToolUse?)
  {
    hide Walk, Read, Output, ToUpper;
    ClaudeTrace(source, mint);
    WalksStayInStep(source.frames, |source.frames|, mint);
    GroupsFinish(source.frames, |source.frames|, mint);
    MaxTokensIsUpper();
    assert "tool_use"[0] == 't' && "max_tokens"[0] == 'm' && "end_turn"[0] == 'e';
  }

  lemma MaxTokensIsUpper()
    ensures ToUpper("MAX_TOKENS") == "MAX_TOKENS"
  {
  }

  // ---- Usage -----------------------------------------------------------------------------

  /** The first of the first `n` frames that has candidates. */
  function FirstSaying(frames: seq<Frame>, n: nat): Option<nat>
    requires n <= |frames|
  {
    if n == 0 then None
    else if FirstSaying(frames, n - 1).Some? then FirstSaying(frames, n - 1)
    else if frames[n - 1].candidates != [] then Some(n - 1) else None
  }

  lemma {:induction false} FirstSayingIsEarlier(frames: seq<Frame>, n: nat)
    requires n <= |frames|
    ensures FirstSaying(frames, n).Some? ==> FirstSaying(frames, n).value < n
  {
    if n > 0 {
      FirstSayingIsEarlier(frames, n - 1);
    }
  }

  /** The message starts with the usage known by then. */
  ghost predicate StartsWith(s: State, usage: Option<string>) {
    s.started && s.events != [] && s.events[0] == MessageStart(usage)
  }

  lemma TakingKeepsStart(s: State, part: Part, mint: nat -> string)
    ensures var t := Take(s, part, mint).state;
      && t.usage == s.usage && t.started == s.started && |t.events| >= |s.events|
      && (s.events != [] ==> t.events[0] == s.events[0])
  {
    hide R.OutcomeOf, R.Prepared, StartBlock;
    StartingKeepsStart(s, TextKind);
    StartingKeepsStart(s, ThinkingKind);
    if part.CallPart? {
      var q := R.Request(0, part.call);
      var next, outcome := s.(registry := R.Prepared(s.registry, q, mint)), R.OutcomeOf(s.registry, q, mint);
      if outcome.Accepted? {
        StartingKeepsStart(next, ToolKind(outcome.id, part.call.name, part.sig));
      }
    }
  }

  lemma StartingKeepsStart(s: State, kind: Kind)
    ensures var t := StartBlock(s, kind);
      && t.usage == s.usage && t.started == s.started && |t.events| >= |s.events|
      && (s.events != [] ==> t.events[0] == s.events[0])
  {
  }

  lemma {:induction false} TakingAllKeepsStart(s: State, parts: seq<Part>, mint: nat -> string)
    ensures var t := TakeAll(s, parts, mint).state;
      && t.usage == s.usage && t.started == s.started && |t.events| >= |s.events|
      && (s.events != [] ==> t.events[0] == s.events[0])
  {
    hide Take;
    if parts != [] {
      TakingAllKeepsStart(s, parts[..|parts| - 1], mint);
      TakingKeepsStart(TakeAll(s, parts[..|parts| - 1], mint).state, parts[|parts| - 1], mint);
    }
  }

  lemma {:induction false} WalkReportsUsage(frames: seq<Frame>, n: nat, mint: nat -> string)
    requires n <= |frames| && !Walk(Start(), Visitor(mint), frames, n).failed
    ensures var s, first := Walk(Start(), Visitor(mint), frames, n).state, FirstSaying(frames, n);
      && s.usage == LastUsage(frames, n)
      && match first
         case Some(k) => k < n && StartsWith(s, LastUsage(frames, k + 1))
         case None => !s.started && s.events == []
  {
    hide TakeAll, Admitted;
    if n > 0 {
      WalkReportsUsage(frames, n - 1, mint);
      FirstSayingIsEarlier(frames, n);
      var s, frame := Walk(Start(), Visitor(mint), frames, n - 1).state, frames[n - 1];
      var used := if frame.usage.Some? then s.(usage := frame.usage) else s;
      if frame.candidates != [] {
        TakingAllKeepsStart(Begin(used, frame.candidates[0].Finish()), frame.candidates[0].Parts(), mint);
      }
    }
  }

  lemma ClosingKeepsStart(s: State)
    requires s.events != []
    ensures |CloseBlock(s).events| >= |s.events| && CloseBlock(s).events[0] == s.events[0]
  {
  }

  /**
   A whole message starts with the usage known at the first frame that has candidates, and ends
   with the last usage of any frame.
   */
  lemma MessageReportsUsage(source: Source, mint: nat -> string)
    requires Succeeds(source, mint)
    ensures var n, events := |source.frames|, Output(source, mint);
      && |events| >= 3 && FirstSaying(source.frames, n).Some? && FirstSaying(source.frames, n).value < n
      && events[0] == MessageStart(LastUsage(source.frames, FirstSaying(source.frames, n).value + 1))
      && events[|events| - 2].MessageDelta? && events[|events| - 2].usage == LastUsage(source.frames, n)
      && events[|events| - 1] == MessageStop
  {
    hide Walk, CloseBlock, LastUsage, StopReason;
    var n := |source.frames|;
    WalkReportsUsage(source.frames, n, mint);
    WalksStayInStep(source.frames, n, mint);
    ClosingKeepsStart(Walk(Start(), Visitor(mint), source.frames, n).state);
  }
}
