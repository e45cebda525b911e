/** When the walk over a stream succeeds, by the frames of the stream. */
module WalkLaws {
  import opened Wrappers
  import opened Sets
  import opened Text
  import opened Gemini

  /** Every candidate is an object with an index from 0 to 63. */
  predicate Indexed(candidates: seq<Candidate>, n: nat)
    requires n <= |candidates|
  {
    forall i | 0 <= i < n :: candidates[i].Candidate? && 0 <= candidates[i].Index(i) < 64
  }

  predicate AllIndexed(frames: seq<Frame>, n: nat)
    requires n <= |frames|
  {
    forall k | 0 <= k < n :: Indexed(frames[k].candidates, |frames[k].candidates|)
  }

  predicate InRange(seen: map<int, Seen>) {
    forall index <- seen :: 0 <= index < 64
  }

  lemma {:induction false} SmallSet(s: set<int>, n: nat)
    requires forall x <- s :: 0 <= x < n
    ensures |s| <= n
  {
    if s != {} {
      var x := Member(s);
      SmallSet(s - {n - 1}, n - 1);
    }
  }

  /** The limit of 64 indices adds nothing to the range of the indices. */
  lemma RangeLeavesRoom(seen: map<int, Seen>, index: int)
    requires InRange(seen) && 0 <= index < 64 && index !in seen
    ensures |seen| < 64
  {
    SmallSet(seen.Keys + {index}, 64);
    assert |seen.Keys + {index}| == |seen.Keys| + 1 && |seen.Keys| == |seen|;
  }

  lemma {:induction false} AdmittedIff(candidates: seq<Candidate>, n: nat, seen: map<int, Seen>)
    requires n <= |candidates| && InRange(seen)
    ensures Admitted(candidates, n, seen).Some? <==> Indexed(candidates, n)
    ensures Admitted(candidates, n, seen).Some? ==> InRange(Admitted(candidates, n, seen).value)
  {
    hide Note;
    if n > 0 {
      AdmittedIff(candidates, n - 1, seen);
      if Admitted(candidates, n - 1, seen).Some? {
        var before, c := Admitted(candidates, n - 1, seen).value, candidates[n - 1];
        if c.Candidate? && 0 <= c.Index(n - 1) < 64 {
          if c.Index(n - 1) !in before {
            RangeLeavesRoom(before, c.Index(n - 1));
          }
          NotingAddsIndex(c, n - 1, before);
        }
      }
    }
  }

  lemma NotingAddsIndex(c: Candidate, position: nat, seen: map<int, Seen>)
    requires IndexAllowed(c, position, seen)
    ensures Note(c, position, seen).Keys == seen.Keys + {c.Index(position)}
  {
  }

  // ---- What is remembered of an index ----------------------------------------------------

  /** A candidate with this index shows something: text, media or a call. */
  predicate ShowsAmong(candidates: seq<Candidate>, n: nat, index: int)
    requires n <= |candidates|
  {
    exists i | 0 <= i < n :: candidates[i].Index(i) == index && ShowsPart(candidates[i])
  }

  predicate ShowsPart(c: Candidate) {
    c.Candidate? && exists p <- c.parts :: IsShown(p)
  }

  predicate IsShown(p: Part) {
    match p
    case TextPart(text, _, _, _) => text != ""
    case CallPart(_, _) => true
    case MediaPart(markdown, _, _) => markdown != ""
  }

  predicate Shows(frames: seq<Frame>, n: nat, index: int)
    requires n <= |frames|
  {
    exists k | 0 <= k < n :: ShowsAmong(frames[k].candidates, |frames[k].candidates|, index)
  }

  lemma OutputIsShown(c: Candidate)
    ensures c.HasOutput() <==> ShowsPart(c)
  {
    assert forall p: Part :: p.HasOutput() <==> IsShown(p);
  }

  /** The last nonempty finish reason among the first `n` candidates of a frame, or what was before. */
  function FinishAmong(before: string, candidates: seq<Candidate>, n: nat, index: int): string
    requires n <= |candidates|
  {
    if n == 0 then before
    else
      var c := candidates[n - 1];
      if c.Candidate? && c.Index(n - 1) == index && c.finish.GetOr("") != "" then c.finish.value
      else FinishAmong(before, candidates, n - 1, index)
  }

  /** The last nonempty finish reason that the first `n` frames give the index. */
  function FinishIn(frames: seq<Frame>, n: nat, index: int): string
    requires n <= |frames|
  {
    if n == 0 then ""
    else FinishAmong(FinishIn(frames, n - 1, index), frames[n - 1].candidates, |frames[n - 1].candidates|, index)
  }

  function SeenAt(seen: map<int, Seen>, index: int): Seen {
    if index in seen then seen[index] else Seen("", false)
  }

  lemma {:induction false} AdmittedRemembers(candidates: seq<Candidate>, n: nat, seen: map<int, Seen>, index: int)
    requires n <= |candidates| && Admitted(candidates, n, seen).Some?
    ensures var after := SeenAt(Admitted(candidates, n, seen).value, index);
      && after.finish == FinishAmong(SeenAt(seen, index).finish, candidates, n, index)
      && (after.content <==> SeenAt(seen, index).content || ShowsAmong(candidates, n, index))
  {
    if n > 0 {
      AdmittedRemembers(candidates, n - 1, seen, index);
      var c := candidates[n - 1];
      OutputIsShown(c);
      hide ShowsPart, Candidate.HasOutput, IndexAllowed;
      ShowsAmongOneMore(candidates, n, index);
    }
  }

  lemma ShowsAmongOneMore(candidates: seq<Candidate>, n: nat, index: int)
    requires 0 < n <= |candidates|
    ensures ShowsAmong(candidates, n, index) <==>
      ShowsAmong(candidates, n - 1, index)
      || (candidates[n - 1].Index(n - 1) == index && ShowsPart(candidates[n - 1]))
  {
    hide ShowsPart;
  }

  lemma {:induction false} WalkRemembers<S>(init: S, visit: (S, Frame) -> Visited<S>, frames: seq<Frame>, n: nat,
                                            index: int)
    requires n <= |frames| && !Walk(init, visit, frames, n).failed
    ensures var after := SeenAt(Walk(init, visit, frames, n).seen, index);
      after.finish == FinishIn(frames, n, index) && (after.content <==> Shows(frames, n, index))
  {
    hide Admitted, ShowsAmong;
    if n > 0 {
      WalkRemembers(init, visit, frames, n - 1, index);
      var candidates := frames[n - 1].candidates;
      AdmittedRemembers(candidates, |candidates|, Walk(init, visit, frames, n - 1).seen, index);
      assert Shows(frames, n, index) <==>
        Shows(frames, n - 1, index) || ShowsAmong(candidates, |candidates|, index);
    }
  }

  // ---- The walk ----------------------------------------------------------------------------

  /** The consumer refuses none of the first `n` frames. */
  ghost predicate NoneRefused<S>(init: S, visit: (S, Frame) -> Visited<S>, frames: seq<Frame>, n: nat)
    requires n <= |frames|
  {
    forall k | 0 <= k < n :: !visit(Walk(init, visit, frames, k).state, frames[k]).failed
  }

  lemma {:induction false} WalksIff<S>(init: S, visit: (S, Frame) -> Visited<S>, frames: seq<Frame>, n: nat)
    requires n <= |frames|
    ensures !Walk(init, visit, frames, n).failed <==>
      AllIndexed(frames, n) && NoneRefused(init, visit, frames, n)
    ensures !Walk(init, visit, frames, n).failed ==> InRange(Walk(init, visit, frames, n).seen)
  {
    hide Admitted, Indexed;
    if n > 0 {
      WalksIff(init, visit, frames, n - 1);
      if !Walk(init, visit, frames, n - 1).failed {
        AdmittedIff(frames[n - 1].candidates, |frames[n - 1].candidates|, Walk(init, visit, frames, n - 1).seen);
      }
    }
  }

  /** Every index that appears has a finish reason, and shows something unless that is another than "STOP". */
  ghost predicate AllFinished(frames: seq<Frame>) {
    var n := |frames|;
    && (exists index: int :: Appears(frames, n, index))
    && forall index: int | Appears(frames, n, index) ::
         && FinishIn(frames, n, index) != ""
         && (Shows(frames, n, index) || ToUpper(FinishIn(frames, n, index)) != "STOP")
  }

  /**
   A stream succeeds exactly when the source ends cleanly, every candidate is an object with an index
   from 0 to 63, the consumer refuses no frame, and every index that appears is finished, with
   something shown if it stopped normally.
   */
  lemma WalkSucceedsIff<S>(init: S, visit: (S, Frame) -> Visited<S>, source: Source)
    ensures WalkSucceeds(Walk(init, visit, source.frames, |source.frames|), source) <==>
      && source.ok && AllIndexed(source.frames, |source.frames|)
      && NoneRefused(init, visit, source.frames, |source.frames|) && AllFinished(source.frames)
  {
    hide Walk, NoneRefused, AllIndexed, Appears, Shows, FinishIn, ToUpper;
    var frames, n := source.frames, |source.frames|;
    WalksIff(init, visit, frames, n);
    var w := Walk(init, visit, frames, n);
    if !w.failed {
      forall index: int
        ensures index in w.seen <==> Appears(frames, n, index)
        ensures SeenAt(w.seen, index).finish == FinishIn(frames, n, index)
        ensures SeenAt(w.seen, index).content <==> Shows(frames, n, index)
      {
        SeenAppears(init, visit, frames, n, index);
        WalkRemembers(init, visit, frames, n, index);
      }
      CompleteIff(frames, w.seen);
    }
  }

  lemma CompleteIff(frames: seq<Frame>, seen: map<int, Seen>)
    requires forall index: int :: index in seen <==> Appears(frames, |frames|, index)
    requires forall index: int :: SeenAt(seen, index).finish == FinishIn(frames, |frames|, index)
    requires forall index: int :: SeenAt(seen, index).content <==> Shows(frames, |frames|, index)
    ensures Complete(seen) <==> AllFinished(frames)
  {
    hide Appears, Shows, FinishIn, ToUpper;
    StopIsUpper();
    if seen != map[] {
      var index := Member(seen.Keys);
      assert Appears(frames, |frames|, index);
    }
    forall index <- seen
      ensures SeenAt(seen, index) == seen[index]
    {
    }
  }

  lemma StopIsUpper()
    ensures ToUpper("STOP") == "STOP"
  {
  }
}
