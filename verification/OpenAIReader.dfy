/** A client that reads the chunks of one choice, and what it learns from each step of the writer. */
module OpenAIReaders {
  import opened Wrappers
  import opened Gemini
  import opened OpenAIMessages
  import opened OpenAIStreams
  import opened Sets

  /** Broken: the chunks do not open with a role, number the tools 0, 1, …, and close once. */
  datatype Reader = Waiting | Reading(digest: Digest) | Finished(digest: Digest, reason: string) | Broken

  function Learn(d: Digest, delta: Delta): Reader {
    match delta
    case RoleDelta => Broken
    case ToolDelta(position, tool) => if position == |d.tools| then Reading(d.(tools := d.tools + [tool])) else Broken
    case ReasoningDelta(text) => Reading(d.(reasoning := d.reasoning + text))
    case ContentDelta(text) => Reading(d.(content := d.content + text))
    case SignatureDelta(sig) => Reading(d.(signature := sig))
  }

  function Hear(r: Reader, e: Event, index: int): Reader {
    match e
    case Chunk(i, delta) =>
      if i != index then r
      else if r.Waiting? && delta.RoleDelta? then Reading(Nothing())
      else if r.Reading? then Learn(r.digest, delta)
      else Broken
    case Closing(i, reason) =>
      if i != index then r else if r.Reading? then Finished(r.digest, reason) else Broken
    case _ => r
  }

  function HearFrom(r: Reader, events: seq<Event>, index: int): Reader
    decreases events
  {
    if events == [] then r else HearFrom(Hear(r, events[0], index), events[1..], index)
  }

  function Read(events: seq<Event>, index: int): Reader {
    HearFrom(Waiting, events, index)
  }

  lemma {:induction false} HearFromConcat(r: Reader, a: seq<Event>, b: seq<Event>, index: int)
    ensures HearFrom(r, a + b, index) == HearFrom(HearFrom(r, a, index), b, index)
    decreases a
  {
    if a == [] {
      assert a + b == b;
    } else {
      assert (a + b)[1..] == a[1..] + b;
      HearFromConcat(Hear(r, a[0], index), a[1..], b, index);
    }
  }

  predicate AddressedTo(e: Event, index: int) {
    (e.Chunk? || e.Closing?) && e.index == index
  }

  /** A reader ignores what is meant for others. */
  lemma {:induction false} OthersAreIgnored(r: Reader, events: seq<Event>, index: int)
    requires forall e <- events :: !AddressedTo(e, index)
    ensures HearFrom(r, events, index) == r
    decreases events
  {
    if events != [] {
      assert events[0] in events;
      OthersAreIgnored(r, events[1..], index);
    }
  }

  lemma ReadOneMore(events: seq<Event>, e: Event, index: int)
    ensures Read(events + [e], index) == Hear(Read(events, index), e, index)
  {
    HearFromConcat(Waiting, events, [e], index);
  }

  /** The reader of an open choice is reading, and has counted as many tools as the writer. */
  predicate InStep(s: State, index: int) {
    var r := Read(s.events, index);
    if index in s.choices then r.Reading? && |r.digest.tools| == s.choices[index].toolIndex else r.Waiting?
  }

  // ---- One step of the writer --------------------------------------------------------

  lemma HearingPart(d: Digest, index: int, part: Part, i: int, spare: nat -> string)
    requires !part.CallPart?
    ensures HearFrom(Reading(d), PartChunks(i, part), index)
      == Reading(if i == index then Extend(d, part, spare) else d)
  {
    var think, content, sig := part.Thinking(), part.Content(), part.sig;
    var a := if think != "" then [Chunk(i, ReasoningDelta(think))] else [];
    var b := if content != "" then [Chunk(i, ContentDelta(content))] else [];
    var c := if sig != "" then [Chunk(i, SignatureDelta(sig))] else [];
    var da := if i == index then d.(reasoning := d.reasoning + think) else d;
    var db := if i == index then da.(content := da.content + content) else da;
    assert HearFrom(Reading(d), a, index) == Reading(da);
    assert HearFrom(Reading(da), b, index) == Reading(db);
    HearFromConcat(Reading(d), a, b, index);
    HearFromConcat(Reading(d), a + b, c, index);
    assert PartChunks(i, part) == (a + b) + c;
  }

  /** What opening a candidate does to the readers. */
  lemma OpeningIsHeard(s: State, i: int, finish: Option<string>, index: int)
    requires InStep(s, index)
    ensures InStep(Opened(s, i, finish), index)
    ensures index == i && i !in s.choices ==> Read(Opened(s, i, finish).events, index) == Reading(Nothing())
    ensures index in s.choices ==> Read(Opened(s, i, finish).events, index) == Read(s.events, index)
  {
    ReadOneMore(s.events, Chunk(i, RoleDelta), index);
  }

  /** An accepted call is heard by its own choice, as its next tool. */
  lemma CallIsHeard(s: State, i: int, call: FunctionCall, id: string, index: int)
    requires InStep(s, index) && i in s.choices
    ensures InStep(CallTaken(s, i, call, id), index)
    ensures index in s.choices ==>
      var d := Read(s.events, index).digest;
      Read(CallTaken(s, i, call, id).events, index)
        == Reading(if index == i then d.(tools := d.tools + [Tool(id, call.name, call.args)]) else d)
  {
    ReadOneMore(s.events, Chunk(i, ToolDelta(s.ChoiceAt(i).toolIndex, Tool(id, call.name, call.args))), index);
  }

  /** Any other part is heard by its own choice, as an extension of its message. */
  lemma PartIsHeard(s: State, i: int, part: Part, mint: nat -> string, index: int, spare: nat -> string)
    requires InStep(s, index) && i in s.choices && !part.CallPart?
    ensures InStep(Delivered(s, i, part, mint).state, index)
    ensures index in s.choices ==>
      var d := Read(s.events, index).digest;
      Read(Delivered(s, i, part, mint).state.events, index) == Reading(if index == i then Extend(d, part, spare) else d)
  {
    HearFromConcat(Waiting, s.events, PartChunks(i, part), index);
    if index in s.choices {
      HearingPart(Read(s.events, index).digest, index, part, i, spare);
    } else {
      OthersAreIgnored(Read(s.events, index), PartChunks(i, part), index);
    }
  }

  // ---- The end of the stream ---------------------------------------------------------

  lemma {:induction false} ClosingsElsewhere(r: Reader, choices: map<int, ChoiceState>, indices: seq<int>, index: int)
    requires index !in indices
    ensures HearFrom(r, Closings(choices, indices), index) == r
  {
    if indices != [] {
      var n := |indices| - 1;
      ClosingsElsewhere(r, choices, indices[..n], index);
      HearFromConcat(r, Closings(choices, indices[..n]), [ClosingAt(choices, indices[n])], index);
    }
  }

  lemma {:induction false} ClosedOnce(d: Digest, choices: map<int, ChoiceState>, indices: seq<int>, index: int)
    requires index in indices && index in choices
    requires forall i, j | 0 <= i < j < |indices| :: indices[i] < indices[j]
    ensures HearFrom(Reading(d), Closings(choices, indices), index)
         == Finished(d, OpenaiFinish(choices[index].finish, choices[index].toolIndex > 0))
  {
    hide OpenaiFinish;
    var n := |indices| - 1;
    HearFromConcat(Reading(d), Closings(choices, indices[..n]), [ClosingAt(choices, indices[n])], index);
    if indices[n] == index {
      ClosingsElsewhere(Reading(d), choices, indices[..n], index);
    } else {
      ClosedOnce(d, choices, indices[..n], index);
    }
  }

  /** After the ending every open choice is finished with its reason, and no other choice was heard of. */
  lemma EndingIsHeard(s: State, index: int)
    requires InStep(s, index)
    ensures index in s.choices ==>
      Read(s.events + Ending(s), index)
        == Finished(Read(s.events, index).digest, OpenaiFinish(s.choices[index].finish, s.choices[index].toolIndex > 0))
    ensures index !in s.choices ==> Read(s.events + Ending(s), index).Waiting?
  {
    hide OpenaiFinish;
    var indices := Ascending(s.choices.Keys);
    var r := Read(s.events, index);
    var closings := Closings(s.choices, indices);
    var tail := (if s.usage.Some? then [Usage(s.usage.value)] else []) + [Done];
    if index in s.choices {
      ClosedOnce(r.digest, s.choices, indices, index);
    } else {
      ClosingsElsewhere(r, s.choices, indices, index);
    }
    var closed := HearFrom(r, closings, index);
    HearFromConcat(Waiting, s.events, closings + tail, index);
    HearFromConcat(r, closings, tail, index);
    assert Ending(s) == closings + tail;
    OthersAreIgnored(closed, tail, index);
  }
}
