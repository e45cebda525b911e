/**
 Decoded upstream payloads, and the walker that every stream writer and the collector share.

 A part carries one kind of payload, as the Gemini API defines it. `keys` is the number of
 keys of a text part's JSON object. Sizes are those of the re-encoded payload.
 */
module Gemini {
  import opened Wrappers
  import opened Text

  const MAX_CANDIDATES: nat := 64

  /** `args` is the JSON text of the arguments, "{}" when they are absent. */
  datatype FunctionCall = FunctionCall(callId: string, id: string, name: string, args: string)
  {
    function UpstreamId(): string {
      FirstNonEmpty(callId, id)
    }
  }

  datatype Part =
    | TextPart(text: string, thought: bool, sig: string, keys: nat)
    | CallPart(call: FunctionCall, sig: string)
    | MediaPart(markdown: string, thought: bool, sig: string)
  {
    /** `partIsThought`. */
    predicate IsThought() {
      !CallPart? && thought
    }

    /** The answer text and the thinking text that `collectParts` finds in a part that is no call. */
    function Content(): string {
      match this
      case TextPart(t, thought, _, _) => if thought then "" else t
      case CallPart(_, _) => ""
      case MediaPart(markdown, _, _) => markdown
    }

    function Thinking(): string {
      if TextPart? && thought then text else ""
    }

    predicate HasOutput() {
      match this
      case TextPart(t, _, _, _) => t != ""
      case CallPart(_, _) => true
      case MediaPart(markdown, _, _) => markdown != ""
    }
  }

  /** A candidate's own index: a member that is missing, null, or anything else, which reads as a number. */
  datatype IndexField = NoIndex | NullIndex | IndexIs(value: int)

  datatype Candidate =
    | NotAnObject
    | Candidate(index: IndexField, finish: Option<string>, parts: seq<Part>)
  {
    function Index(position: nat): int {
      if Candidate? && index.IndexIs? then index.value else position
    }

    /** `AsString` of the finish reason: absent and empty are the same. */
    function Finish(): string {
      if Candidate? then finish.GetOr("") else ""
    }

    function Parts(): seq<Part> {
      if Candidate? then parts else []
    }

    predicate HasOutput() {
      Candidate? && exists p <- parts :: p.HasOutput()
    }
  }

  /** A candidate of a complete response; `nulled` when its `index` member is null. */
  datatype Saved = Saved(nulled: bool, finish: Option<string>, parts: seq<Part>)

  /**
   The `response` member that a payload itself has: an object, with its candidates, numbered as
   conversion numbers them, and whether it is an error, or anything else.
   */
  datatype Inner = NoObject | Nested(candidates: seq<(int, Saved)>, fails: bool)

  datatype Frame = Frame(candidates: seq<Candidate>, usage: Option<string>, response: Option<Inner>, size: nat)

  /** How the decoder ends: cleanly, or with a transport or protocol error. */
  datatype Source = Source(frames: seq<Frame>, ok: bool)

  /** What a visitor does with a frame, in order: open each candidate, then take its parts. */
  datatype Action = Open(index: int, field: IndexField, finish: Option<string>) | Deliver(index: int, part: Part)

  function Deliveries(index: int, parts: seq<Part>, n: nat): seq<Action>
    requires n <= |parts|
  {
    if n == 0 then [] else Deliveries(index, parts, n - 1) + [Deliver(index, parts[n - 1])]
  }

  function OpeningOf(c: Candidate, position: nat): Action {
    if c.Candidate? then Open(c.Index(position), c.index, c.finish) else Open(position, NoIndex, None)
  }

  function CandidateActions(c: Candidate, position: nat): seq<Action> {
    [OpeningOf(c, position)] + Deliveries(c.Index(position), c.Parts(), |c.Parts()|)
  }

  /** The actions of the first `n` candidates of a frame. */
  function Actions(candidates: seq<Candidate>, n: nat): seq<Action>
    requires n <= |candidates|
  {
    if n == 0 then [] else Actions(candidates, n - 1) + CandidateActions(candidates[n - 1], n - 1)
  }

  function FrameActions(frame: Frame): seq<Action> {
    Actions(frame.candidates, |frame.candidates|)
  }

  lemma {:induction false} DeliveriesSplit(index: int, parts: seq<Part>, m: nat, n: nat) returns (rest: seq<Action>)
    requires m <= n <= |parts|
    ensures Deliveries(index, parts, n) == Deliveries(index, parts, m) + rest
  {
    if m == n {
      rest := [];
    } else {
      var front := DeliveriesSplit(index, parts, m, n - 1);
      rest := front + [Deliver(index, parts[n - 1])];
    }
  }

  lemma {:induction false} ActionsSplit(candidates: seq<Candidate>, m: nat, n: nat) returns (rest: seq<Action>)
    requires m <= n <= |candidates|
    ensures Actions(candidates, n) == Actions(candidates, m) + rest
  {
    if m == n {
      rest := [];
    } else {
      var front := ActionsSplit(candidates, m, n - 1);
      rest := front + CandidateActions(candidates[n - 1], n - 1);
    }
  }

  lemma OneMoreCandidate(candidates: seq<Candidate>, i: nat)
    requires i < |candidates|
    ensures var c := candidates[i];
      Actions(candidates, i + 1)
        == (Actions(candidates, i) + [OpeningOf(c, i)]) + Deliveries(c.Index(i), c.Parts(), |c.Parts()|)
  {
  }

  /** The identifiers upstream gives to the calls of some frames. */
  function CallIds(frames: seq<Frame>): set<string> {
    set f, a | f in frames && a in FrameActions(f) && a.Deliver? && a.part.CallPart? :: a.part.call.UpstreamId()
  }

  /** Parts are delivered only to candidates that the same actions opened. */
  ghost predicate OpenedBefore(actions: seq<Action>) {
    forall k | 0 <= k < |actions| && actions[k].Deliver? :: OpenedIn(actions[..k], actions[k].index)
  }

  ghost predicate OpenedIn(actions: seq<Action>, index: int) {
    exists a <- actions :: a.Open? && a.index == index
  }

  lemma {:induction false} DeliveriesAreDelivered(index: int, parts: seq<Part>, n: nat, k: nat)
    requires n <= |parts| && k < |Deliveries(index, parts, n)|
    ensures Deliveries(index, parts, n)[k].Deliver? && Deliveries(index, parts, n)[k].index == index
  {
    if k < |Deliveries(index, parts, n - 1)| {
      DeliveriesAreDelivered(index, parts, n - 1, k);
    }
  }

  lemma {:induction false} ActionsAreOpenedBefore(candidates: seq<Candidate>, n: nat)
    requires n <= |candidates|
    ensures OpenedBefore(Actions(candidates, n))
  {
    if n > 0 {
      ActionsAreOpenedBefore(candidates, n - 1);
      var front, c := Actions(candidates, n - 1), candidates[n - 1];
      var rest := CandidateActions(c, n - 1);
      var all := front + rest;
      forall k | 0 <= k < |all| && all[k].Deliver?
        ensures OpenedIn(all[..k], all[k].index)
      {
        if k < |front| {
          assert all[..k] == front[..k];
        } else {
          assert all[k] == Deliveries(c.Index(n - 1), c.Parts(), |c.Parts()|)[k - |front| - 1];
          DeliveriesAreDelivered(c.Index(n - 1), c.Parts(), |c.Parts()|, k - |front| - 1);
          assert all[..k][|front|] == OpeningOf(c, n - 1);
        }
      }
    }
  }

  /** The last finish reason that actions give a candidate, counting empty ones or not. */
  function Latest(before: string, actions: seq<Action>, index: int, countEmpty: bool): string {
    if actions == [] then before
    else
      var a := actions[|actions| - 1];
      if a.Open? && a.index == index && a.finish.Some? && (countEmpty || a.finish.value != "") then a.finish.value
      else Latest(before, actions[..|actions| - 1], index, countEmpty)
  }

  function LatestIn(frames: seq<Frame>, n: nat, index: int, countEmpty: bool): string
    requires n <= |frames|
  {
    if n == 0 then ""
    else Latest(LatestIn(frames, n - 1, index, countEmpty), FrameActions(frames[n - 1]), index, countEmpty)
  }

  /** The last `index` member that actions give a candidate is null. */
  predicate Nulled(before: bool, actions: seq<Action>, index: int) {
    if actions == [] then before
    else
      var a := actions[|actions| - 1];
      if a.Open? && a.index == index && !a.field.NoIndex? then a.field.NullIndex?
      else Nulled(before, actions[..|actions| - 1], index)
  }

  predicate NulledIn(frames: seq<Frame>, n: nat, index: int)
    requires n <= |frames|
  {
    n > 0 && Nulled(NulledIn(frames, n - 1, index), FrameActions(frames[n - 1]), index)
  }

  predicate AppearsAmong(candidates: seq<Candidate>, n: nat, index: int)
    requires n <= |candidates|
  {
    exists i | 0 <= i < n :: candidates[i].Index(i) == index
  }

  /** Some candidate of the first `n` frames has the index. */
  predicate Appears(frames: seq<Frame>, n: nat, index: int)
    requires n <= |frames|
  {
    exists k | 0 <= k < n :: AppearsAmong(frames[k].candidates, |frames[k].candidates|, index)
  }

  /** The last `response` member among the first `n` frames. */
  function LastInner(frames: seq<Frame>, n: nat): Option<Inner>
    requires n <= |frames|
  {
    if n == 0 then None
    else if frames[n - 1].response.Some? then frames[n - 1].response
    else LastInner(frames, n - 1)
  }

  /** The last usage among the first `n` frames. */
  function LastUsage(frames: seq<Frame>, n: nat): Option<string>
    requires n <= |frames|
  {
    if n == 0 then None else if frames[n - 1].usage.Some? then frames[n - 1].usage else LastUsage(frames, n - 1)
  }

  function TotalSize(frames: seq<Frame>, n: nat): nat
    requires n <= |frames|
  {
    if n == 0 then 0 else TotalSize(frames, n - 1) + frames[n - 1].size
  }

  /** What the walker remembers of a candidate index. */
  datatype Seen = Seen(finish: string, content: bool)

  predicate IndexAllowed(c: Candidate, position: nat, seen: map<int, Seen>) {
    c.Candidate? && 0 <= c.Index(position) < MAX_CANDIDATES && (c.Index(position) in seen || |seen| < MAX_CANDIDATES)
  }

  function Note(c: Candidate, position: nat, seen: map<int, Seen>): map<int, Seen>
    requires IndexAllowed(c, position, seen)
  {
    var idx := c.Index(position);
    var before := if idx in seen then seen[idx] else Seen("", false);
    seen[idx := Seen(if c.Finish() != "" then c.Finish() else before.finish, before.content || c.HasOutput())]
  }

  /** The walker's checks on the first `n` candidates of a frame; None when one is invalid. */
  function Admitted(candidates: seq<Candidate>, n: nat, seen: map<int, Seen>): Option<map<int, Seen>>
    requires n <= |candidates|
  {
    if n == 0 then Some(seen)
    else
      match Admitted(candidates, n - 1, seen)
      case None => None
      case Some(before) =>
        if IndexAllowed(candidates[n - 1], n - 1, before) then Some(Note(candidates[n - 1], n - 1, before)) else None
  }

  /** The checks at the end of a stream. */
  predicate Complete(seen: map<int, Seen>) {
    seen != map[] && forall idx <- seen ::
      seen[idx].finish != "" && (seen[idx].content || !EqualFold(seen[idx].finish, "STOP"))
  }

  /** The state of a visitor, and whether it has stopped the walk. */
  datatype Walked<S> = Walked(state: S, seen: map<int, Seen>, failed: bool)

  datatype Visited<S> = Visited(state: S, failed: bool)

  /** `walkGeminiStream` over the first `n` frames with a visitor. */
  function Walk<S>(init: S, visit: (S, Frame) -> Visited<S>, frames: seq<Frame>, n: nat): Walked<S>
    requires n <= |frames|
  {
    if n == 0 then Walked(init, map[], false)
    else
      var before := Walk(init, visit, frames, n - 1);
      if before.failed then before
      else
        match Admitted(frames[n - 1].candidates, |frames[n - 1].candidates|, before.seen)
        case None => before.(failed := true)
        case Some(seen) =>
          var v := visit(before.state, frames[n - 1]);
          Walked(v.state, seen, v.failed)
  }

  /** Whether the walk of a whole source returns without an error. */
  predicate WalkSucceeds<S>(w: Walked<S>, source: Source) {
    !w.failed && source.ok && Complete(w.seen)
  }

  /** Nothing happens after a failure. */
  lemma {:induction false} FailureIsFinal<S>(init: S, visit: (S, Frame) -> Visited<S>, frames: seq<Frame>, m: nat,
                                             n: nat)
    requires m <= n <= |frames| && Walk(init, visit, frames, m).failed
    ensures Walk(init, visit, frames, n) == Walk(init, visit, frames, m)
  {
    if m < n {
      FailureIsFinal(init, visit, frames, m, n - 1);
    }
  }

  lemma {:induction false} AdmittedIndices(candidates: seq<Candidate>, n: nat, seen: map<int, Seen>, index: int)
    requires n <= |candidates| && Admitted(candidates, n, seen).Some?
    ensures index in Admitted(candidates, n, seen).value <==> index in seen || AppearsAmong(candidates, n, index)
    ensures AppearsAmong(candidates, n, index) ==> 0 <= index < MAX_CANDIDATES
  {
    if n > 0 {
      AdmittedIndices(candidates, n - 1, seen, index);
      if candidates[n - 1].Index(n - 1) == index {
        assert AppearsAmong(candidates, n, index);
      } else {
        assert AppearsAmong(candidates, n, index) ==> AppearsAmong(candidates, n - 1, index);
      }
    }
  }

  /** The walker has seen exactly the indices that appear, and they are within its bounds. */
  lemma {:induction false} SeenAppears<S>(init: S, visit: (S, Frame) -> Visited<S>, frames: seq<Frame>, n: nat,
                                          index: int)
    requires n <= |frames| && !Walk(init, visit, frames, n).failed
    ensures index in Walk(init, visit, frames, n).seen <==> Appears(frames, n, index)
    ensures Appears(frames, n, index) ==> 0 <= index < MAX_CANDIDATES
  {
    hide Admitted, AppearsAmong;
    if n > 0 {
      SeenAppears(init, visit, frames, n - 1, index);
      var candidates := frames[n - 1].candidates;
      AdmittedIndices(candidates, |candidates|, Walk(init, visit, frames, n - 1).seen, index);
      assert Appears(frames, n, index)
        <==> Appears(frames, n - 1, index) || AppearsAmong(candidates, |candidates|, index);
    }
  }

  /** The walker in place; `Visit` of each consumer runs after `Admit`. */
  class Walker {
    var seen: map<int, Seen>

    constructor ()
      ensures seen == map[]
    {
      seen := map[];
    }

    /** One candidate of a frame. */
    method AdmitCandidate(c: Candidate, i: nat) returns (ok: bool)
      modifies this
      ensures ok == IndexAllowed(c, i, old(seen)) && (ok ==> seen == Note(c, i, old(seen)))
    {
      if c.NotAnObject? || c.Index(i) < 0 || c.Index(i) >= MAX_CANDIDATES {
        return false;
      }
      var idx := c.Index(i);
      if idx !in seen {
        if |seen| >= MAX_CANDIDATES {
          return false;
        }
        seen := seen[idx := Seen("", false)];
      }
      if c.HasOutput() {
        seen := seen[idx := seen[idx].(content := true)];
      }
      if c.Finish() != "" {
        seen := seen[idx := seen[idx].(finish := c.Finish())];
      }
      return true;
    }

    method Admit(frame: Frame) returns (ok: bool)
      modifies this
      ensures var after := Admitted(frame.candidates, |frame.candidates|, old(seen));
        ok == after.Some? && (ok ==> seen == after.value)
    {
      hide IndexAllowed, Note;
      ghost var start := seen;
      for i := 0 to |frame.candidates|
        invariant Admitted(frame.candidates, i, start) == Some(seen)
      {
        ok := AdmitCandidate(frame.candidates[i], i);
        if !ok {
          AdmissionFailsForGood(frame.candidates, i + 1, |frame.candidates|, start);
          return false;
        }
      }
      return true;
    }
  }

  lemma {:induction false} AdmissionFailsForGood(candidates: seq<Candidate>, m: nat, n: nat, seen: map<int, Seen>)
    requires m <= n <= |candidates| && Admitted(candidates, m, seen).None?
    ensures Admitted(candidates, n, seen).None?
  {
    if m < n {
      AdmissionFailsForGood(candidates, m, n - 1, seen);
    }
  }
}
