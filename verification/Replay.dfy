/**
 `PrepareGeminiStream`: the first frames are consumed to see whether the stream is any good,
 and are written back in front of the unread input.
 */
module Replay {
  import opened Wrappers
  import opened Text
  import opened Decoders
  import Gemini
  import W = WalkLaws

  /** A payload type with the candidates the check looks at. */
  datatype Reading<!P> = Reading(codec: Codec<P>, candidates: P -> seq<Gemini.Candidate>)

  datatype Verdict = Undecided | Ready | Empty

  /** Whether the candidates decide that the stream is good, or that it ends without output. */
  function Judge(candidates: seq<Gemini.Candidate>): Verdict
    decreases candidates
  {
    if candidates == [] then Undecided
    else
      var c := candidates[0];
      if !c.HasOutput() && EqualFold(c.Finish(), "STOP") then Empty
      else if c.HasOutput() || c.Finish() != "" then Ready
      else Judge(candidates[1..])
  }

  datatype Prepared<P> = Prepared(consumed: seq<P>, after: Decoder) | Rejected

  function Printed<P>(c: Codec<P>, p: P): seq<string> {
    ["data: " + c.render(p), ""]
  }

  function PrintedAll<P>(c: Codec<P>, ps: seq<P>): seq<string>
    decreases ps
  {
    if ps == [] then [] else Printed(c, ps[0]) + PrintedAll(c, ps[1..])
  }

  /** `size` is the number of bytes already written back. */
  function PrepareFrom<P>(d: Decoder, size: nat, r: Reading<P>): Prepared<P>
    decreases d.Size()
  {
    match Next(d, r.codec)
    case Over => Rejected
    case Failed(_) => Rejected
    case Payload(p, after) =>
      var length := |r.codec.render(p)| + 8;
      if size + length > MAX_EVENT_BYTES then Rejected
      else
        match Judge(r.candidates(p))
        case Empty => Rejected
        case Ready => Prepared([p], after)
        case Undecided =>
          match PrepareFrom(after, size + length, r)
          case Rejected => Rejected
          case Prepared(ps, last) => Prepared([p] + ps, last)
  }

  function Prepare<P>(input: Input, r: Reading<P>): Prepared<P> {
    PrepareFrom(Begin(input), 0, r)
  }

  /** The bytes a decoder has not read. */
  function Unread(d: Decoder): Input {
    if d.eof then Input([], Clean("")) else d.rest
  }

  /** The reader that `PrepareGeminiStream` returns. */
  function Replayed<P>(consumed: seq<P>, after: Decoder, c: Codec<P>): Input {
    Unread(after).(lines := PrintedAll(c, consumed) + Unread(after).lines)
  }

  lemma {:induction false} PrintedOneMore<P>(c: Codec<P>, ps: seq<P>, p: P)
    ensures PrintedAll(c, ps + [p]) == PrintedAll(c, ps) + Printed(c, p)
    decreases ps
  {
    if ps == [] {
      assert ps + [p] == [p];
    } else {
      assert (ps + [p])[1..] == ps[1..] + [p];
      PrintedOneMore(c, ps[1..], p);
    }
  }

  method JudgeCandidates(candidates: seq<Gemini.Candidate>) returns (verdict: Verdict)
    ensures verdict == Judge(candidates)
  {
    for i := 0 to |candidates|
      invariant Judge(candidates) == Judge(candidates[i..])
    {
      var c := candidates[i];
      assert candidates[i..][0] == c && candidates[i..][1..] == candidates[i + 1..];
      if !c.HasOutput() && EqualFold(c.Finish(), "STOP") {
        return Empty;
      }
      if c.HasOutput() || c.Finish() != "" {
        return Ready;
      }
    }
    return Undecided;
  }

  /** Reads one more payload; `verdict` says what it decides, Empty also standing for a failure. */
  method Consume<P>(d: GeminiDecoder<P>, size: nat, r: Reading<P>) returns (payload: Option<P>, verdict: Verdict)
    requires d.codec == r.codec
    modifies d
    ensures verdict.Empty? <==> payload.None?
    ensures match payload
      case None => PrepareFrom(old(d.Model()), size, r) == Rejected
      case Some(p) =>
        && d.Model().Size() < old(d.Model()).Size()
        && PrepareFrom(old(d.Model()), size, r)
           == if verdict.Ready? then Prepared([p], d.Model())
              else Continued([p], PrepareFrom(d.Model(), size + |r.codec.render(p)| + 8, r))
  {
    hide Next, Judge;
    var error;
    payload, error := d.NextPayload();
    if payload.None? {
      return None, Empty;
    }
    if size + |r.codec.render(payload.value)| + 8 > MAX_EVENT_BYTES {
      return None, Empty;
    }
    verdict := JudgeCandidates(r.candidates(payload.value));
    if verdict.Empty? {
      payload := None;
    }
  }

  /** The call; None is a failure. */
  method PrepareStream<P>(input: Input, r: Reading<P>) returns (replayed: Option<Input>)
    ensures match Prepare(input, r)
      case Rejected => replayed == None
      case Prepared(ps, after) => replayed == Some(Replayed(ps, after, r.codec))
  {
    hide Next, Judge, PrintedAll, Replayed, PrepareFrom;
    var d := new GeminiDecoder(input, r.codec);
    var prefix: seq<string>, size: nat := [], 0;
    ghost var consumed: seq<P> := [];
    NothingPrinted(r.codec);
    while true
      invariant fresh(d) && d.codec == r.codec
      invariant prefix == PrintedAll(r.codec, consumed)
      invariant Prepare(input, r) == Continued(consumed, PrepareFrom(d.Model(), size, r))
      decreases d.Model().Size()
    {
      var payload, verdict := Consume(d, size, r);
      if payload.None? {
        return None;
      }
      var p := payload.value;
      var text := r.codec.render(p);
      PrintedOneMore(r.codec, consumed, p);
      prefix, size := prefix + ["data: " + text, ""], size + |text| + 8;
      ContinuedByOne(consumed, p, PrepareFrom(d.Model(), size, r));
      consumed := consumed + [p];
      if verdict.Ready? {
        WrittenBackIsReplayed(consumed, d.Model(), r.codec);
        return Some(WrittenBack(prefix, d.eof, d.rest));
      }
    }
  }

  function Continued<P>(consumed: seq<P>, rest: Prepared<P>): Prepared<P> {
    match rest
    case Rejected => Rejected
    case Prepared(ps, after) => Prepared(consumed + ps, after)
  }

  lemma ContinuedByOne<P>(consumed: seq<P>, p: P, rest: Prepared<P>)
    ensures Continued(consumed, Continued([p], rest)) == Continued(consumed + [p], rest)
  {
    if rest.Prepared? {
      assert consumed + ([p] + rest.consumed) == (consumed + [p]) + rest.consumed;
    }
  }

  lemma NothingPrinted<P>(c: Codec<P>)
    ensures PrintedAll(c, []) == []
  {
  }

  function WrittenBack(prefix: seq<string>, eof: bool, rest: Input): Input {
    var unread := if eof then Input([], Clean("")) else rest;
    unread.(lines := prefix + unread.lines)
  }

  lemma WrittenBackIsReplayed<P>(consumed: seq<P>, after: Decoder, c: Codec<P>)
    ensures WrittenBack(PrintedAll(c, consumed), after.eof, after.rest) == Replayed(consumed, after, c)
  {
  }

  // ---- Which streams are accepted ------------------------------------------------------

  /** A candidate that shows something or gives a finish reason. */
  predicate Decides(c: Gemini.Candidate) {
    W.ShowsPart(c) || (c.Candidate? && c.finish.Some? && c.finish.value != "")
  }

  /** Candidate `i` is the first that decides. */
  predicate DecidesFirst(candidates: seq<Gemini.Candidate>, i: nat) {
    i < |candidates| && Decides(candidates[i]) && forall j | 0 <= j < i :: !Decides(candidates[j])
  }

  /** It shows something, or finishes for another reason than a normal stop. */
  predicate IsGood(c: Gemini.Candidate) {
    W.ShowsPart(c) || (c.Candidate? && c.finish.Some? && ToUpper(c.finish.value) != "STOP")
  }

  ghost predicate Passes(candidates: seq<Gemini.Candidate>) {
    exists i: nat :: DecidesFirst(candidates, i) && IsGood(candidates[i])
  }

  ghost predicate Undecides(candidates: seq<Gemini.Candidate>) {
    forall c <- candidates :: !Decides(c)
  }

  lemma {:induction false} JudgedByFirst(candidates: seq<Gemini.Candidate>)
    ensures Judge(candidates) == Ready <==> Passes(candidates)
    ensures Judge(candidates) == Undecided <==> Undecides(candidates)
    decreases candidates
  {
    if candidates != [] {
      var c, rest := candidates[0], candidates[1..];
      assert ToUpper("STOP") == "STOP";
      W.OutputIsShown(c);
      hide W.ShowsPart, ToUpper, Gemini.Candidate.HasOutput;
      JudgedByFirst(rest);
      if Decides(c) {
        assert forall i: nat :: DecidesFirst(candidates, i) ==> i == 0;
        assert DecidesFirst(candidates, 0);
        assert c in candidates;
      } else {
        FirstIsLater(candidates);
        assert candidates == [c] + rest;
      }
    }
  }

  lemma FirstIsLater(candidates: seq<Gemini.Candidate>)
    requires candidates != [] && !Decides(candidates[0])
    ensures Passes(candidates) <==> Passes(candidates[1..])
  {
    hide Decides, IsGood;
    var rest := candidates[1..];
    forall i: nat
      ensures DecidesFirst(rest, i) <==> DecidesFirst(candidates, i + 1)
    {
    }
    if Passes(candidates) {
      var i: nat :| DecidesFirst(candidates, i) && IsGood(candidates[i]);
      assert DecidesFirst(rest, i - 1) && IsGood(rest[i - 1]);
    }
    if Passes(rest) {
      var i: nat :| DecidesFirst(rest, i) && IsGood(rest[i]);
      assert DecidesFirst(candidates, i + 1) && IsGood(candidates[i + 1]);
    }
  }

  /** The bytes written back for some payloads: each on a data line, with a blank line after it. */
  function PreludeSize<P>(r: Reading<P>, ps: seq<P>): nat
    decreases ps
  {
    if ps == [] then 0 else |"data: " + r.codec.render(ps[0]) + "\n\n"| + PreludeSize(r, ps[1..])
  }

  /** Payload `m` is the first to decide, for the better, and all up to it fit into 32 MiB. */
  ghost predicate AcceptsAt<P>(r: Reading<P>, ps: seq<P>, m: nat, size: nat) {
    && m < |ps| && Passes(r.candidates(ps[m])) && (forall k | 0 <= k < m :: Undecides(r.candidates(ps[k])))
    && size + PreludeSize(r, ps[..m + 1]) <= 32 * 1024 * 1024
  }

  lemma AcceptsFirst<P>(r: Reading<P>, p: P, rest: seq<P>, size: nat)
    ensures AcceptsAt(r, [p] + rest, 0, size) <==>
      Passes(r.candidates(p)) && size + |r.codec.render(p)| + 8 <= 32 * 1024 * 1024
  {
    assert ([p] + rest)[..1] == [p] && [p][1..] == [];
    assert PreludeSize(r, []) == 0 && PreludeSize(r, [p]) == |r.codec.render(p)| + 8;
  }

  lemma AcceptsLater<P>(r: Reading<P>, p: P, rest: seq<P>, m: nat, size: nat)
    ensures AcceptsAt(r, [p] + rest, m + 1, size) <==>
      Undecides(r.candidates(p)) && AcceptsAt(r, rest, m, size + |r.codec.render(p)| + 8)
  {
    hide Passes, Undecides;
    var all := [p] + rest;
    if m < |rest| {
      assert all[..m + 2][1..] == rest[..m + 1] && all[..m + 2][0] == p;
      assert all[m + 1] == rest[m];
      assert (forall k | 0 <= k < m + 1 :: Undecides(r.candidates(all[k]))) <==>
        Undecides(r.candidates(p)) && forall k | 0 <= k < m :: Undecides(r.candidates(rest[k])) by {
        assert all[0] == p;
        assert forall k | 0 <= k < m :: all[k + 1] == rest[k];
        assert forall k | 1 <= k < m + 1 :: all[k] == rest[k - 1];
      }
    }
  }

  /** Acceptance, by the payloads that the decoder yields. */
  lemma {:induction false} PreparesIff<P(!new)>(d: Decoder, size: nat, r: Reading<P>)
    ensures var q, ps := PrepareFrom(d, size, r), All(d, r.codec).payloads;
      q.Prepared? ==> q.consumed != [] && q.consumed <= ps && AcceptsAt(r, ps, |q.consumed| - 1, size)
    ensures forall m: nat | AcceptsAt(r, All(d, r.codec).payloads, m, size) ::
      PrepareFrom(d, size, r).Prepared? && m == |PrepareFrom(d, size, r).consumed| - 1
    decreases d.Size()
  {
    hide Next, Judge, Passes, Undecides, AcceptsAt;
    match Next(d, r.codec)
    case Over => NothingIsAccepted(r, size);
    case Failed(_) => NothingIsAccepted(r, size);
    case Payload(p, after) =>
      var rest, q, more := All(after, r.codec).payloads, PrepareFrom(d, size, r), size + |r.codec.render(p)| + 8;
      JudgedByFirst(r.candidates(p));
      PassingDecides(r.candidates(p));
      AcceptsFirst(r, p, rest, size);
      forall m: nat
        ensures AcceptsAt(r, [p] + rest, m + 1, size) <==>
          Undecides(r.candidates(p)) && AcceptsAt(r, rest, m, more)
        ensures AcceptsAt(r, rest, m, more) ==> more <= 32 * 1024 * 1024
      {
        AcceptsLater(r, p, rest, m, size);
        AcceptedFits(r, rest, m, more);
      }
      forall m: nat | AcceptsAt(r, [p] + rest, m, size) && m > 0
        ensures Undecides(r.candidates(p)) && AcceptsAt(r, rest, m - 1, more)
      {
        AcceptsLater(r, p, rest, m - 1, size);
      }
      if Judge(r.candidates(p)) == Undecided && more <= MAX_EVENT_BYTES {
        PreparesIff(after, more, r);
        assert q.Prepared? ==> [p] + PrepareFrom(after, more, r).consumed == q.consumed;
      }
  }

  lemma NothingIsAccepted<P>(r: Reading<P>, size: nat)
    ensures forall m: nat :: !AcceptsAt(r, [], m, size)
  {
  }

  lemma AcceptedFits<P>(r: Reading<P>, ps: seq<P>, m: nat, size: nat)
    ensures AcceptsAt(r, ps, m, size) ==> size <= 32 * 1024 * 1024
  {
    hide Passes, Undecides;
  }

  lemma PassingDecides(candidates: seq<Gemini.Candidate>)
    ensures !(Passes(candidates) && Undecides(candidates))
  {
    hide Decides, IsGood;
    if i: nat :| DecidesFirst(candidates, i) && IsGood(candidates[i]) {
      assert candidates[i] in candidates;
    }
  }

  /**
   A stream is accepted exactly when, among the payloads that the decoder yields from it, the first
   candidate that shows something or gives a finish reason shows something or gives another reason than a
   normal stop, and the payloads up to it, written back, are no longer than 32 MiB. Those payloads
   are then the ones consumed.
   */
  lemma StreamIsAcceptedIff<P(!new)>(input: Input, r: Reading<P>)
    ensures var q, ps := Prepare(input, r), All(Begin(input), r.codec).payloads;
      && (q.Prepared? <==> exists m: nat :: AcceptsAt(r, ps, m, 0))
      && (forall m: nat | AcceptsAt(r, ps, m, 0) :: m < |ps| && q == Prepared(ps[..m + 1], q.after))
  {
    hide AcceptsAt, Next, Judge;
    PreparesIff(Begin(input), 0, r);
    var q, ps := Prepare(input, r), All(Begin(input), r.codec).payloads;
    assert q == PrepareFrom(Begin(input), 0, r);
    forall m: nat | AcceptsAt(r, ps, m, 0)
      ensures m < |ps| && q == Prepared(ps[..m + 1], q.after)
    {
      AcceptedIsThere(r, ps, m, 0);
    }
  }

  lemma AcceptedIsThere<P>(r: Reading<P>, ps: seq<P>, m: nat, size: nat)
    requires AcceptsAt(r, ps, m, size)
    ensures m < |ps|
  {
  }

  // ---- Decoding what was consumed ----------------------------------------------------

  /** The decoder is right after a payload: nothing is pending. */
  predicate IsClean(d: Decoder) {
    d.state == Fresh()
  }

  lemma {:induction false} CleanAfterPayload<P>(d: Decoder, c: Codec<P>)
    requires Next(d, c).Payload?
    ensures IsClean(Next(d, c).after)
    decreases |d.rest.lines|
  {
    if !d.eof && d.rest.lines != [] {
      var step := TakeLine(d.state, d.rest.lines[0], c);
      if step.More? {
        CleanAfterPayload(Decoder(step.state, d.rest.(lines := d.rest.lines[1..]), false), c);
      }
    }
  }

  /** A payload that a decoder yields is no error envelope. */
  lemma {:induction false} PayloadsDoNotFail<P>(d: Decoder, c: Codec<P>)
    requires Next(d, c).Payload?
    ensures !c.fails(Next(d, c).payload)
    decreases |d.rest.lines|
  {
    if !d.eof && d.rest.lines != [] {
      var step := TakeLine(d.state, d.rest.lines[0], c);
      if step.More? {
        PayloadsDoNotFail(Decoder(step.state, d.rest.(lines := d.rest.lines[1..]), false), c);
      }
    }
  }

  ghost predicate Consumable<P(!new)>(p: P, c: Codec<P>) {
    !c.fails(p) && |c.render(p)| + 8 <= MAX_EVENT_BYTES
  }

  /** All the decoder yields starts with what was consumed, and goes on from where it stopped. */
  lemma {:induction false} ConsumedComesFirst<P(!new)>(d: Decoder, size: nat, r: Reading<P>)
    requires PrepareFrom(d, size, r).Prepared?
    ensures var q := PrepareFrom(d, size, r);
      && All(d, r.codec) == Outcome(q.consumed + All(q.after, r.codec).payloads, All(q.after, r.codec).error)
      && IsClean(q.after) && forall p <- q.consumed :: Consumable(p, r.codec)
    decreases d.Size()
  {
    hide Next, Judge;
    CleanAfterPayload(d, r.codec);
    PayloadsDoNotFail(d, r.codec);
    var p, after := Next(d, r.codec).payload, Next(d, r.codec).after;
    var length := |r.codec.render(p)| + 8;
    assert All(d, r.codec) == All(after, r.codec).After(p);
    if Judge(r.candidates(p)).Undecided? {
      ConsumedComesFirst(after, size + length, r);
      var q := PrepareFrom(after, size + length, r);
      assert [p] + (q.consumed + All(q.after, r.codec).payloads) == ([p] + q.consumed) + All(q.after, r.codec).payloads;
    }
  }

  lemma PrintedIsTaken<P(!new)>(p: P, c: Codec<P>)
    requires Lawful(c) && Consumable(p, c)
    ensures var line := "data: " + c.render(p);
      |line| + 1 <= MAX_EVENT_BYTES
      && TakeLine(Fresh(), line, c) == (if c.inner(p).None? then Yield(p, Fresh())
                                        else if c.fails(c.inner(p).value) then Stop(Upstream)
                                        else Yield(c.inner(p).value, Fresh()))
  {
    hide Absorb, Lawful, TrimSpace, TrimSuffix;
    var text := c.render(p);
    PrintedText(p, c);
    PrintedIsAbsorbed(text, c);
    TrimmedStays(text);
  }

  lemma BlankLineIsIgnored<P>(c: Codec<P>)
    ensures TakeLine(Fresh(), "", c) == More(Fresh())
  {
  }

  /** Decoding one printed payload from a clean state. */
  lemma PrintedIsDecoded<P(!new)>(p: P, rest: Input, c: Codec<P>)
    requires Lawful(c) && Consumable(p, c)
    ensures var d := Begin(rest.(lines := Printed(c, p) + rest.lines));
      All(d, c) == (if c.inner(p).None? then All(Begin(rest), c).After(p)
                    else if c.fails(c.inner(p).value) then Outcome([], Some(Upstream))
                    else All(Begin(rest), c).After(c.inner(p).value))
  {
    hide TakeLine, Lawful, Consumable;
    PrintedIsTaken(p, c);
    BlankLineIsIgnored(c);
    var all := Printed(c, p) + rest.lines;
    assert all[1..] == [""] + rest.lines && all[1..][1..] == rest.lines;
    var d := Begin(rest.(lines := all));
    var blank := Decoder(Fresh(), rest.(lines := all[1..]), false);
    assert Next(blank, c) == Next(Begin(rest), c);
    assert All(blank, c) == All(Begin(rest), c);
  }

  /** Whether decoding the printed payloads again gives them back. */
  ghost predicate Unwrapped<P(!new)>(ps: seq<P>, c: Codec<P>) {
    forall p <- ps :: c.inner(p).None?
  }

  lemma {:induction false} PrintedAllIsDecoded<P(!new)>(ps: seq<P>, rest: Input, c: Codec<P>)
    requires Lawful(c) && forall p <- ps :: Consumable(p, c)
    ensures var out := All(Begin(rest.(lines := PrintedAll(c, ps) + rest.lines)), c);
      var tail := All(Begin(rest), c);
      if Unwrapped(ps, c) then out == Outcome(ps + tail.payloads, tail.error) else !(ps <= out.payloads)
    decreases ps
  {
    hide Lawful, Consumable, Begin, All;
    var tail := All(Begin(rest), c);
    if ps == [] {
      assert PrintedAll(c, ps) + rest.lines == rest.lines;
      assert ps + tail.payloads == tail.payloads;
    } else {
      var p, others := ps[0], ps[1..];
      assert p in ps;
      var next := rest.(lines := PrintedAll(c, others) + rest.lines);
      assert PrintedAll(c, ps) + rest.lines == Printed(c, p) + next.lines;
      PrintedIsDecoded(p, next, c);
      PrintedAllIsDecoded(others, rest, c);
      var inside := All(Begin(next), c);
      assert ps == [p] + others;
      if c.inner(p).None? {
        assert Unwrapped(ps, c) <==> Unwrapped(others, c);
        if Unwrapped(others, c) {
          assert [p] + (others + tail.payloads) == ps + tail.payloads;
        } else {
          SameHeadPrefix(p, others, inside.payloads);
        }
      } else {
        assert !Unwrapped(ps, c);
        InnerDiffers(p, c);
      }
    }
  }

  lemma SameHeadPrefix<T>(x: T, a: seq<T>, b: seq<T>)
    ensures [x] + a <= [x] + b <==> a <= b
  {
    assert ([x] + a)[1..] == a && ([x] + b)[1..] == b;
  }

  lemma InnerDiffers<P(!new)>(p: P, c: Codec<P>)
    requires Lawful(c)
    ensures c.inner(p) != Some(p)
  {
  }

  /** Decoding from a clean decoder is decoding its unread bytes. */
  lemma UnreadIsTheRest<P(!new)>(d: Decoder, c: Codec<P>)
    requires IsClean(d)
    ensures All(d, c) == All(Begin(Unread(d)), c)
  {
    if d.eof {
      BlankLineIsIgnored(c);
    }
  }

  /**
   Replay round trip. Decoding the prepared reader gives what decoding the whole source with
   one decoder gives, payloads and end, exactly when no consumed payload itself holds an
   object-valued `response`.
   */
  lemma ReplayRoundTrip<P(!new)>(input: Input, r: Reading<P>)
    requires Lawful(r.codec) && Prepare(input, r).Prepared?
    ensures var q := Prepare(input, r);
      All(Begin(Replayed(q.consumed, q.after, r.codec)), r.codec) == All(Begin(input), r.codec) <==>
        Unwrapped(q.consumed, r.codec)
  {
    hide Lawful, All, Next, Begin, PrepareFrom;
    var q := Prepare(input, r);
    ConsumedComesFirst(Begin(input), 0, r);
    UnreadIsTheRest(q.after, r.codec);
    PrintedAllIsDecoded(q.consumed, Unread(q.after), r.codec);
    assert q.consumed <= q.consumed + All(q.after, r.codec).payloads;
  }

  // ---- The laws can be met -------------------------------------------------------------

  /** A codec for {}, {x}, {xx}, …, where {xx} stands for an object whose `response` is {x}. */
  function Tally(): Codec<nat> {
    Codec(IsTally, ParseTally, PrintTally, (_: nat) => false, InnerTally)
  }

  function InnerTally(n: nat): Option<nat> {
    if n == 0 then None else Some(n - 1)
  }

  predicate TallyText(t: string) {
    |t| >= 2 && t[0] == '{' && t[|t| - 1] == '}' && forall i | 0 < i < |t| - 1 :: t[i] == 'x'
  }

  predicate IsTally(t: string) {
    TallyText(TrimSpace(t))
  }

  function ParseTally(t: string): Option<nat> {
    if IsTally(t) then Some(|TrimSpace(t)| - 2) else None
  }

  function PrintTally(n: nat): string {
    "{" + seq(n, _ => 'x') + "}"
  }

  lemma TallyPrints(n: nat)
    ensures ParseTally(PrintTally(n)) == Some(n) && OnOneLine(PrintTally(n))
  {
    var t := PrintTally(n);
    assert t[0] == '{' && t[|t| - 1] == '}' && forall i | 0 < i < |t| - 1 :: t[i] == 'x';
    TrimmedStays(t);
  }

  lemma TallyPrefixIsNoTally(t: string, k: nat)
    requires IsTally(t) && IsTrimmed(t) && 0 < k < |t|
    ensures !IsTally(t[..k]) && !IsTally(TrimSpace(t[..k])) && t[0] == '{'
  {
    TrimmedStays(t);
    TrimmedStays(t[..k]);
  }

  lemma TallyTrims(t: string)
    requires IsTally(t)
    ensures IsTally(TrimSpace(t)) && (IsTrimmed(t) ==> t[0] == '{')
  {
    hide TrimSpace;
    var lead, trail := TrimSpaceSplits(t);
    TrimmedStays(TrimSpace(t));
    if IsTrimmed(t) {
      TrimmedStays(t);
    }
  }

  lemma DonePrefixIsNoTally(k: nat)
    requires 0 < k < |DONE|
    ensures !IsTally(DONE[..k])
  {
    TrimmedStays(DONE[..k]);
  }

  lemma TallyIsLawful()
    ensures Lawful(Tally())
  {
    hide IsTally, ParseTally, PrintTally, OnOneLine, TrimSpace;
    var c := Tally();
    forall p: nat
      ensures c.parse(c.render(p)) == Some(p) && OnOneLine(c.render(p))
    {
      TallyPrints(p);
    }
    forall t: string
      ensures c.parse(t).Some? ==> c.valid(t)
      ensures c.valid(t) ==> c.valid(TrimSpace(t)) && (IsTrimmed(t) ==> t != "" && t[0] == '{')
    {
      ParsedIsTally(t);
      if IsTally(t) {
        TallyTrims(t);
      }
    }
    forall t: string, k: nat | c.parse(t).Some? && IsTrimmed(t) && 0 < k < |t|
      ensures !c.valid(TrimSpace(t[..k]))
    {
      ParsedIsTally(t);
      TallyPrefixIsNoTally(t, k);
    }
    forall k: nat | 0 < k < |DONE|
      ensures !c.valid(DONE[..k])
    {
      DonePrefixIsNoTally(k);
    }
  }

  lemma ParsedIsTally(t: string)
    ensures ParseTally(t).Some? <==> IsTally(t)
  {
  }

  function Decisive(p: nat): seq<Gemini.Candidate> {
    [Gemini.Candidate(Gemini.NoIndex, Some("MAX_TOKENS"), [])]
  }

  /** A stream of one event whose `response` holds a `response` again: {xx}, whose payload is {x}. */
  function NestedStream(): Input {
    Input(["data: " + PrintTally(2), ""], Clean(""))
  }

  lemma NestedIsPrepared()
    ensures Prepare(NestedStream(), Reading(Tally(), Decisive))
      == Prepared([1], Decoder(Fresh(), Input([""], Clean("")), false))
  {
    hide TakeLine, Lawful, Tally;
    var c := Tally();
    TallyIsLawful();
    TallyCodec();
    PrintedIsTaken(2, c);
    var d := Begin(NestedStream());
    assert d.rest.lines[1..] == [""];
    assert Next(d, c) == Payload(1, Decoder(Fresh(), Input([""], Clean("")), false));
    assert Judge(Decisive(1)) == Ready by {
      assert ToUpper("MAX_TOKENS")[0] != ToUpper("STOP")[0];
    }
  }

  lemma TallyCodec()
    ensures var c := Tally();
      c.render(1) == "{x}" && c.render(2) == "{xx}" && c.inner(2) == Some(1) && c.inner(1) == Some(0)
    ensures var c := Tally(); !c.fails(1) && !c.fails(2) && c.render(2) == PrintTally(2)
  {
    assert seq(1, _ => 'x') == "x" && seq(2, _ => 'x') == "xx";
  }

  /** On it the replayed stream decodes to something else. */
  lemma NestedResponseIsLost()
    ensures var c := Tally();
      var q := Prepare(NestedStream(), Reading(c, Decisive));
      q.Prepared? && All(Begin(Replayed(q.consumed, q.after, c)), c) != All(Begin(NestedStream()), c)
  {
    hide All, Begin, Lawful, Replayed;
    TallyIsLawful();
    TallyCodec();
    NestedIsPrepared();
    ReplayRoundTrip(NestedStream(), Reading(Tally(), Decisive));
    assert 1 in [1];
  }
}
