/**
 The decoder dispatches a payload as soon as its JSON is complete. On streams of events that
 end in a blank line and hold one JSON object (or [DONE]) split over `data:` lines, that gives
 what buffering until the blank line gives (section 9.2.6 of the WHATWG HTML Standard).
 */
module EarlyDispatch {
  import opened Wrappers
  import opened Text
  import opened Decoders

  datatype Line = BlankLine | ControlLine | DataLine(value: string) | OtherLine

  function Classify(line: string): Line {
    var l := TrimSuffix(line, "\r");
    if l == "" then BlankLine
    else if "data:" <= l then DataLine(TrimPrefix(TrimPrefix(l, "data:"), " "))
    else if IsControl(l) then ControlLine
    else OtherLine
  }

  function Join(values: seq<string>): string {
    if values == [] then ""
    else if |values| == 1 then values[0]
    else Join(values[..|values| - 1]) + "\n" + values[|values| - 1]
  }

  /** The data that the standard dispatches, `pending` being the data lines of the event so far. */
  function Buffered(pending: seq<string>, lines: seq<string>): seq<string>
    decreases lines
  {
    if lines == [] then []
    else
      match Classify(lines[0])
      case BlankLine => if pending == [] then Buffered([], lines[1..]) else [Join(pending)] + Buffered([], lines[1..])
      case DataLine(v) => Buffered(pending + [v], lines[1..])
      case _ => Buffered(pending, lines[1..])
  }

  /** One JSON object or [DONE], with blanks around it. */
  predicate IsEventData<P>(data: string, c: Codec<P>) {
    var t := TrimSpace(data);
    t != "" && (t == DONE || c.parse(t).Some?)
  }

  /** Only blank, control and data lines; every event is ended by a blank line and holds one object or [DONE]. */
  predicate IsEventStream<P>(pending: seq<string>, lines: seq<string>, c: Codec<P>)
    decreases lines
  {
    if lines == [] then pending == []
    else
      match Classify(lines[0])
      case BlankLine => (pending != [] ==> IsEventData(Join(pending), c)) && IsEventStream([], lines[1..], c)
      case DataLine(v) => IsEventStream(pending + [v], lines[1..], c)
      case ControlLine => IsEventStream(pending, lines[1..], c)
      case OtherLine => false
  }

  /** The payloads of buffered data, up to the first that is an error. */
  function PayloadsOf<P>(datas: seq<string>, c: Codec<P>): Outcome<P>
    decreases datas
  {
    if datas == [] then Outcome([], None)
    else if TrimSpace(datas[0]) == DONE then PayloadsOf(datas[1..], c)
    else
      match DecodePayload(c, TrimSpace(datas[0]))
      case Bad(e) => Outcome([], Some(e))
      case Good(p) => PayloadsOf(datas[1..], c).After(p)
  }

  /** The number of data lines of an event, and the size of their values with a line ending each. */
  datatype Load = Load(lines: nat, size: nat) {
    function With(value: string): Load {
      Load(lines + 1, size + |value| + 1)
    }
  }

  function Empty(): Load {
    Load(0, 0)
  }

  /**
   Within the limits: every line, and every event together with the event before it. The one
   before counts because its blank data lines after the object stay pending.
   */
  predicate Fits(before: Load, now: Load, lines: seq<string>)
    decreases lines
  {
    if lines == [] then true
    else
      && |lines[0]| + 1 <= MAX_EVENT_BYTES
      && match Classify(lines[0])
         case BlankLine => Fits(if now.lines > 0 then now else before, Empty(), lines[1..])
         case DataLine(v) =>
           var more := now.With(v);
           before.lines + more.lines <= MAX_DATA_LINES && before.size + more.size <= MAX_EVENT_BYTES
             && Fits(before, more, lines[1..])
         case _ => Fits(before, now, lines[1..])
  }

  /** The same, or cut short because something is too large. */
  predicate Agrees<P(==)>(out: Outcome<P>, expected: Outcome<P>) {
    out == expected || (out.error == Some(TooLarge) && out.payloads <= expected.payloads)
  }

  // ---- Pieces of an event's data -------------------------------------------------------

  lemma JoinOneMore(values: seq<string>, v: string)
    requires values != []
    ensures Join(values + [v]) == Join(values) + "\n" + v
  {
    assert (values + [v])[..|values|] == values;
  }

  /** The data of the event that is being read, once its blank line is reached. */
  function WholeOf(pending: seq<string>, lines: seq<string>): string
    decreases lines
  {
    if lines == [] then Join(pending)
    else
      match Classify(lines[0])
      case BlankLine => Join(pending)
      case DataLine(v) => WholeOf(pending + [v], lines[1..])
      case _ => WholeOf(pending, lines[1..])
  }

  lemma {:induction false} WholeExtends<P>(pending: seq<string>, lines: seq<string>, c: Codec<P>)
    requires pending != [] && IsEventStream(pending, lines, c)
    ensures Join(pending) <= WholeOf(pending, lines) && IsEventData(WholeOf(pending, lines), c)
    ensures Buffered(pending, lines) != [] && Buffered(pending, lines)[0] == WholeOf(pending, lines)
    decreases lines
  {
    hide IsEventData, Join, Classify;
    match Classify(lines[0])
    case BlankLine =>
    case DataLine(v) =>
      JoinOneMore(pending, v);
      WholeExtends(pending + [v], lines[1..], c);
    case ControlLine => WholeExtends(pending, lines[1..], c);
  }

  /** A prefix of an event's data is blank, or not yet complete, or complete with only blanks to come. */
  lemma PrefixOfData<P(!new)>(u: string, whole: string, c: Codec<P>)
    requires Lawful(c) && IsEventData(whole, c) && u <= whole
    ensures TrimSpace(u) == "" || (!c.valid(TrimSpace(u)) && TrimSpace(u) != DONE)
      || (TrimSpace(u) == TrimSpace(whole) && IsBlank(whole[|u|..]))
  {
    hide Lawful, TrimSpace;
    var t := TrimSpace(whole);
    var lead, trail := TrimSpaceSplits(whole);
    if |u| <= |lead| {
      assert IsBlank(u) by {
        assert u == lead[..|u|];
      }
      BlankIffTrimsToNothing(u);
    } else if |u| < |lead| + |t| {
      var k := |u| - |lead|;
      assert u == lead + t[..k];
      TrimBehindBlank(lead, t[..k]);
      ProperPrefixIsIncomplete(t, k, c);
    } else {
      var k := |u| - |lead| - |t|;
      assert u == lead + t + trail[..k];
      TrimSpaceFindsCore(lead, t, trail[..k]);
      assert whole[|u|..] == trail[k..];
    }
  }

  lemma TrimBehindBlank(lead: string, s: string)
    requires IsBlank(lead)
    ensures TrimSpace(lead + s) == TrimSpace(s)
  {
    TrimLeftSkipsBlank(lead, s);
  }

  lemma ProperPrefixIsIncomplete<P(!new)>(t: string, k: nat, c: Codec<P>)
    requires Lawful(c) && IsTrimmed(t) && (t == DONE || c.parse(t).Some?) && 0 < k < |t|
    ensures !c.valid(TrimSpace(t[..k])) && TrimSpace(t[..k]) != DONE
  {
    if t == DONE {
      assert !c.valid(DONE[..k]);
      TrimmedStays(DONE[..k]);
    } else {
      assert t[0] == '{';
      var trail := TrimRightSplits(t[..k]);
      assert TrimSpace(t[..k]) != DONE;
    }
  }

  // ---- The decoder against the event ---------------------------------------------------

  /** What the decoder yields from here, the input ending cleanly after the lines. */
  function Run<P>(s: State, lines: seq<string>, c: Codec<P>): Outcome<P> {
    All(Decoder(s, Input(lines, Clean("")), false), c)
  }

  lemma RunStep<P>(s: State, lines: seq<string>, c: Codec<P>)
    requires lines != []
    ensures Run(s, lines, c)
         == if |lines[0]| + 1 > MAX_EVENT_BYTES then Outcome([], Some(TooLarge))
            else match TakeLine(s, lines[0], c)
                 case Stop(e) => Outcome([], Some(e))
                 case Yield(p, t) => Run(t, lines[1..], c).After(p)
                 case More(t) => Run(t, lines[1..], c)
  {
    hide TakeLine, TakeTail;
  }

  predicate Within(s: State, load: Load) {
    s.lines <= load.lines && |s.data| <= load.size
  }

  function Plus(a: Load, b: Load): Load {
    Load(a.lines + b.lines, a.size + b.size)
  }

  /** The event's object is not complete yet; blanks may be left over from the event before. */
  ghost predicate Waiting<P>(s: State, pending: seq<string>, before: Load, now: Load, c: Codec<P>) {
    && !s.raw && Within(s, Plus(before, now)) && |pending| == now.lines && (pending == [] ==> now == Empty())
    && TrimLeft(s.data) == TrimLeft(Join(pending))
    && (TrimSpace(s.data) == "" || (!c.valid(TrimSpace(s.data)) && TrimSpace(s.data) != DONE))
  }

  /** The event's data was dispatched; only blanks are to come before its end. */
  ghost predicate Served(s: State, pending: seq<string>, rest: seq<string>, now: Load) {
    var whole := WholeOf(pending, rest);
    && !s.raw && IsBlank(s.data) && Within(s, now) && |pending| == now.lines > 0
    && Join(pending) <= whole && IsBlank(whole[|Join(pending)|..])
  }

  lemma AppendingTrims(a: string, b: string, v: string)
    requires TrimLeft(a) == TrimLeft(b)
    ensures TrimLeft(Appended(a, v)) == TrimLeft(b + "\n" + v) && (b == "" ==> TrimLeft(Appended(a, v)) == TrimLeft(v))
  {
    BlankIffTrimLeftEmpties(a);
    BlankIffTrimLeftEmpties(b);
    assert a + "\n" + v == a + ("\n" + v) && b + "\n" + v == b + ("\n" + v);
    if IsBlank(a) {
      assert a + "\n" + v == (a + "\n") + v && b + "\n" + v == (b + "\n") + v;
      TrimLeftSkipsBlank(a + "\n", v);
      TrimLeftSkipsBlank(b + "\n", v);
    } else {
      TrimLeftKeepsRest(a, "\n" + v);
      TrimLeftKeepsRest(b, "\n" + v);
    }
  }

  lemma JoiningTrims(data: string, pending: seq<string>, v: string)
    requires TrimLeft(data) == TrimLeft(Join(pending))
    ensures TrimLeft(Appended(data, v)) == TrimLeft(Join(pending + [v]))
  {
    AppendingTrims(data, Join(pending), v);
    if pending == [] {
      assert pending + [v] == [v];
    } else {
      JoinOneMore(pending, v);
    }
  }

  /** A data line is either too large or appended; then the decoder looks for a complete text. */
  lemma DataIsAppended<P>(s: State, line: string, v: string, c: Codec<P>)
    requires Classify(line) == DataLine(v)
    ensures TakeLine(s, line, c)
         == if s.lines + 1 > MAX_DATA_LINES || |Appended(s.data, v)| > MAX_EVENT_BYTES then Stop(TooLarge)
            else Dispatch(s.(data := Appended(s.data, v), lines := s.lines + 1), c)
  {
    hide TrimSuffix, TrimPrefix, Dispatch;
  }

  lemma ControlIsSkipped<P>(s: State, line: string, c: Codec<P>)
    requires Classify(line) == ControlLine
    requires (TrimSpace(s.data) == "" || (!c.valid(TrimSpace(s.data)) && TrimSpace(s.data) != DONE))
    ensures TakeLine(s, line, c) == More(s)
  {
    ControlIsNotBlank(TrimSuffix(line, "\r"));
  }

  lemma ControlIsNotBlank(l: string)
    requires IsControl(l)
    ensures TrimSpace(l) != ""
  {
    BlankIffTrimsToNothing(l);
    assert l[0] in l && !IsSpace(l[0]);
  }

  lemma BlankIsSkipped<P>(s: State, line: string, c: Codec<P>)
    requires Classify(line) == BlankLine && TrimSpace(s.data) == ""
    ensures TakeLine(s, line, c) == More(s)
  {
    assert TrimSpace("") == "";
    assert TrimSpace(s.data) != DONE;
  }

  lemma DecodingIsNeverTooLarge<P>(c: Codec<P>, text: string)
    ensures DecodePayload(c, text) != Bad(TooLarge)
  {
  }

  /** What a data line does while the event is incomplete. */
  lemma WaitingTakesData<P(!new)>(s: State, pending: seq<string>, line: string, v: string, rest: seq<string>,
      before: Load, now: Load, c: Codec<P>)
    requires Lawful(c) && Waiting(s, pending, before, now, c) && Classify(line) == DataLine(v)
    requires IsEventStream(pending + [v], rest, c)
    ensures var r := TakeLine(s, line, c);
      var t := TrimSpace(WholeOf(pending + [v], rest));
      || (r == Stop(TooLarge)
           && (Plus(before, now.With(v)).lines > MAX_DATA_LINES || Plus(before, now.With(v)).size > MAX_EVENT_BYTES))
      || (r.More? && Waiting(r.state, pending + [v], before, now.With(v), c))
      || (r.More? && t == DONE && Served(r.state, pending + [v], rest, now.With(v)))
      || (r.Yield? && t != DONE && DecodePayload(c, t) == Good(r.payload) && r.state == Fresh()
           && Served(Fresh(), pending + [v], rest, now.With(v)))
      || (r.Stop? && t != DONE && DecodePayload(c, t) == Bad(r.error))
  {
    hide Lawful, Classify, IsEventStream, Join, TrimLeft, TrimRight, IsEventData, WholeOf, DecodePayload, TakeLine;
    DataIsAppended(s, line, v, c);
    var next := s.(data := Appended(s.data, v), lines := s.lines + 1);
    DecodingIsNeverTooLarge(c, TrimSpace(next.data));
    if s.lines + 1 <= MAX_DATA_LINES && |next.data| <= MAX_EVENT_BYTES {
      JoiningTrims(s.data, pending, v);
      var u, whole := Join(pending + [v]), WholeOf(pending + [v], rest);
      WholeExtends(pending + [v], rest, c);
      assert TrimSpace(next.data) == TrimSpace(u);
      PrefixOfData(u, whole, c);
      if TrimSpace(u) != "" && (c.valid(TrimSpace(u)) || TrimSpace(u) == DONE) {
        assert Served(Fresh(), pending + [v], rest, now.With(v));
      }
    }
  }

  /** A data line after the object was dispatched is blank, and is kept. */
  lemma ServedTakesData<P>(s: State, pending: seq<string>, line: string, v: string, rest: seq<string>, now: Load,
      c: Codec<P>)
    requires Served(s, pending, [line] + rest, now) && Classify(line) == DataLine(v)
    requires IsEventStream(pending + [v], rest, c)
    ensures var r := TakeLine(s, line, c);
      || (r == Stop(TooLarge) && (now.With(v).lines > MAX_DATA_LINES || now.With(v).size > MAX_EVENT_BYTES))
      || (r.More? && Served(r.state, pending + [v], rest, now.With(v)))
  {
    hide Classify, IsEventStream, IsEventData, TakeLine, Dispatch, Join;
    DataIsAppended(s, line, v, c);
    assert ([line] + rest)[1..] == rest;
    var whole := WholeOf(pending + [v], rest);
    assert whole == WholeOf(pending, [line] + rest);
    WholeExtends(pending + [v], rest, c);
    var next := s.(data := Appended(s.data, v), lines := s.lines + 1);
    var a, b := Join(pending), Join(pending + [v]);
    JoinOneMore(pending, v);
    assert b == a + "\n" + v;
    BlanksRemain(whole, a, b);
    assert v == b[|a| + 1..];
    assert IsBlank(v) by {
      forall x <- v ensures IsSpace(x) {
        assert x in b[|a|..];
      }
    }
    if s.lines + 1 <= MAX_DATA_LINES && |next.data| <= MAX_EVENT_BYTES {
      BlankIffTrimsToNothing(next.data);
      BlankIsKept(next, c);
    }
  }

  lemma BlanksRemain(whole: string, a: string, b: string)
    requires a <= b <= whole && IsBlank(whole[|a|..])
    ensures IsBlank(whole[|b|..]) && IsBlank(b[|a|..])
  {
    assert whole[|b|..] == whole[|a|..][|b| - |a|..];
    assert b[|a|..] == whole[|a|..][..|b| - |a|];
  }

  lemma BlankIsKept<P>(s: State, c: Codec<P>)
    requires TrimSpace(s.data) == ""
    ensures Dispatch(s, c) == More(s)
  {
  }

  /** An event's blank line comes only after its object was dispatched. */
  lemma WaitingHasNoWholeEvent<P(!new)>(s: State, pending: seq<string>, before: Load, now: Load, c: Codec<P>)
    requires Lawful(c) && Waiting(s, pending, before, now, c) && pending != []
    ensures !IsEventData(Join(pending), c)
  {
    hide Join, TrimLeft, TrimRight;
    var whole := Join(pending);
    assert TrimSpace(whole) == TrimSpace(s.data);
    assert c.parse(TrimSpace(whole)).Some? ==> c.valid(TrimSpace(whole));
  }

  lemma FitsNext(before: Load, now: Load, lines: seq<string>)
    requires lines != [] && Fits(before, now, lines)
    ensures |lines[0]| + 1 <= MAX_EVENT_BYTES
    ensures match Classify(lines[0])
      case BlankLine => Fits(if now.lines > 0 then now else before, Empty(), lines[1..])
      case DataLine(v) => Fits(before, now.With(v), lines[1..])
        && Plus(before, now.With(v)).lines <= MAX_DATA_LINES && Plus(before, now.With(v)).size <= MAX_EVENT_BYTES
      case _ => Fits(before, now, lines[1..])
  {
  }

  lemma AgreesAfter<P>(p: P, out: Outcome<P>, expected: Outcome<P>)
    requires Agrees(out, expected)
    ensures Agrees(out.After(p), expected.After(p))
  {
  }

  /** From a waiting state the decoder yields the payloads of this and all later events. */
  lemma {:induction false} WaitingRuns<P(!new)>(s: State, pending: seq<string>, lines: seq<string>, before: Load,
      now: Load, c: Codec<P>)
    requires Lawful(c) && IsEventStream(pending, lines, c) && Waiting(s, pending, before, now, c)
    ensures Agrees(Run(s, lines, c), PayloadsOf(Buffered(pending, lines), c))
    ensures Fits(before, now, lines) ==> Run(s, lines, c) == PayloadsOf(Buffered(pending, lines), c)
    decreases lines
  {
    hide Lawful, Classify, Run, TakeLine, Waiting, Served, IsEventData, Fits, Join, DecodePayload, WholeOf;
    if lines == [] {
      NothingLeft(s, before, now, c);
    } else {
      RunStep(s, lines, c);
      var line, rest := lines[0], lines[1..];
      if Fits(before, now, lines) {
        FitsNext(before, now, lines);
      }
      match Classify(line)
      case BlankLine =>
        if pending == [] {
          WaitingForNothing(s, before, now, c);
          BlankIsSkipped(s, line, c);
          WaitingAfterBlank(s, before, now, c);
          WaitingRuns(s, [], rest, before, Empty(), c);
        } else {
          WaitingHasNoWholeEvent(s, pending, before, now, c);
          assert false;
        }
      case ControlLine =>
        WaitingIsIncomplete(s, pending, before, now, c);
        ControlIsSkipped(s, line, c);
        WaitingRuns(s, pending, rest, before, now, c);
      case DataLine(v) =>
        WaitingTakesData(s, pending, line, v, rest, before, now, c);
        WholeExtends(pending + [v], rest, c);
        var r := TakeLine(s, line, c);
        assert Buffered(pending, lines) == Buffered(pending + [v], rest);
        var t := TrimSpace(WholeOf(pending + [v], rest));
        if r.More? && Waiting(r.state, pending + [v], before, now.With(v), c) {
          WaitingRuns(r.state, pending + [v], rest, before, now.With(v), c);
        } else if r.More? {
          ServedRuns(r.state, pending + [v], rest, before, now.With(v), c);
        } else if r.Yield? {
          ServedRuns(Fresh(), pending + [v], rest, before, now.With(v), c);
          AgreesAfter(r.payload, Run(Fresh(), rest, c), PayloadsOf(Buffered(pending + [v], rest)[1..], c));
        }
    }
  }

  /** Once the event's object was dispatched, the decoder yields the payloads of the later events. */
  lemma {:induction false} ServedRuns<P(!new)>(s: State, pending: seq<string>, lines: seq<string>, before: Load,
      now: Load, c: Codec<P>)
    requires Lawful(c) && IsEventStream(pending, lines, c) && Served(s, pending, lines, now)
    ensures Buffered(pending, lines) != []
    ensures Agrees(Run(s, lines, c), PayloadsOf(Buffered(pending, lines)[1..], c))
    ensures Fits(before, now, lines) ==> Run(s, lines, c) == PayloadsOf(Buffered(pending, lines)[1..], c)
    decreases lines
  {
    hide Lawful, Classify, Run, TakeLine, Waiting, Served, IsEventData, Fits, Join, DecodePayload, WholeOf;
    ServedIsPending(s, pending, lines, now);
    WholeExtends(pending, lines, c);
    RunStep(s, lines, c);
    var line, rest := lines[0], lines[1..];
    assert lines == [line] + rest;
    if Fits(before, now, lines) {
      FitsNext(before, now, lines);
    }
    match Classify(line)
    case BlankLine =>
      BlankIsSkipped(s, line, c);
      ServedThenWaiting(s, pending, lines, now, c);
      WaitingRuns(s, [], rest, now, Empty(), c);
      assert Buffered(pending, lines)[1..] == Buffered([], rest);
    case ControlLine =>
      ControlIsSkipped(s, line, c);
      ServedAfterControl(s, pending, line, rest, now);
      ServedRuns(s, pending, rest, before, now, c);
    case DataLine(v) =>
      ServedTakesData(s, pending, line, v, rest, now, c);
      var r := TakeLine(s, line, c);
      assert Buffered(pending, lines) == Buffered(pending + [v], rest);
      if r.More? {
        ServedRuns(r.state, pending + [v], rest, before, now.With(v), c);
      }
  }

  lemma NothingLeft<P(!new)>(s: State, before: Load, now: Load, c: Codec<P>)
    requires Waiting(s, [], before, now, c)
    ensures Run(s, [], c) == Outcome([], None)
  {
    WaitingForNothing(s, before, now, c);
    BlankIsSkipped(s, "", c);
  }

  lemma WaitingForNothing<P>(s: State, before: Load, now: Load, c: Codec<P>)
    requires Waiting(s, [], before, now, c)
    ensures TrimSpace(s.data) == "" && now.lines == 0
  {
    assert TrimLeft("") == "";
  }

  lemma WaitingAfterBlank<P>(s: State, before: Load, now: Load, c: Codec<P>)
    requires Waiting(s, [], before, now, c)
    ensures Waiting(s, [], before, Empty(), c)
  {
  }

  lemma WaitingIsIncomplete<P>(s: State, pending: seq<string>, before: Load, now: Load, c: Codec<P>)
    requires Waiting(s, pending, before, now, c)
    ensures TrimSpace(s.data) == "" || (!c.valid(TrimSpace(s.data)) && TrimSpace(s.data) != DONE)
  {
  }

  lemma ServedIsPending(s: State, pending: seq<string>, lines: seq<string>, now: Load)
    requires Served(s, pending, lines, now)
    ensures pending != [] && now.lines > 0 && TrimSpace(s.data) == ""
  {
    BlankIffTrimsToNothing(s.data);
  }

  lemma ServedThenWaiting<P>(s: State, pending: seq<string>, lines: seq<string>, now: Load, c: Codec<P>)
    requires Served(s, pending, lines, now)
    ensures Waiting(s, [], now, Empty(), c)
  {
    BlankIffTrimLeftEmpties(s.data);
  }

  lemma ServedAfterControl(s: State, pending: seq<string>, line: string, rest: seq<string>, now: Load)
    requires Served(s, pending, [line] + rest, now) && Classify(line) == ControlLine
    ensures Served(s, pending, rest, now)
  {
    assert ([line] + rest)[1..] == rest;
  }

  // ---- Exactly when nothing is too large ---------------------------------------------------

  function SizeWith(size: nat, value: string): nat {
    (if size > 0 then size + 1 else 0) + |value|
  }

  /** The event's data becomes complete with this data line. */
  predicate Completes<P>(pending: seq<string>, v: string, c: Codec<P>) {
    !IsEventData(Join(pending), c) && IsEventData(Join(pending + [v]), c)
  }

  predicate IsBad<P>(data: string, c: Codec<P>) {
    TrimSpace(data) != DONE && DecodePayload(c, TrimSpace(data)).Bad?
  }

  /**
   No line is too long, and the data lines since the last completed object are few and short
   enough, up to the first object that is an error. `count` and `size` start after the last
   completed object, not at the event's first line.
   */
  predicate Roomy<P>(count: nat, size: nat, pending: seq<string>, lines: seq<string>, c: Codec<P>)
    decreases lines
  {
    if lines == [] then true
    else
      |lines[0]| + 1 <= MAX_EVENT_BYTES
      && match Classify(lines[0])
         case BlankLine => Roomy(count, size, [], lines[1..], c)
         case DataLine(v) =>
           count + 1 <= MAX_DATA_LINES && SizeWith(size, v) <= MAX_EVENT_BYTES
           && if Completes(pending, v, c) then
                IsBad(Join(pending + [v]), c) || Roomy(0, 0, pending + [v], lines[1..], c)
              else Roomy(count + 1, SizeWith(size, v), pending + [v], lines[1..], c)
         case _ => Roomy(count, size, pending, lines[1..], c)
  }

  lemma AppendedSize(data: string, v: string)
    ensures |Appended(data, v)| == SizeWith(|data|, v)
  {
  }

  lemma WaitingIsNoEvent<P(!new)>(s: State, pending: seq<string>, before: Load, now: Load, c: Codec<P>)
    requires Lawful(c) && Waiting(s, pending, before, now, c)
    ensures !IsEventData(Join(pending), c)
  {
    hide Lawful, Waiting, IsEventData;
    if pending == [] {
      BlankIsNoEvent(c);
    } else {
      WaitingHasNoWholeEvent(s, pending, before, now, c);
    }
  }

  lemma BlankIsNoEvent<P>(c: Codec<P>)
    ensures !IsEventData("", c)
  {
    assert TrimLeft("") == "";
  }

  /** What a data line does to a waiting decoder, in terms of the event's own data. */
  lemma DataStep<P(!new)>(s: State, pending: seq<string>, line: string, v: string, rest: seq<string>, before: Load,
      now: Load, c: Codec<P>)
    requires Lawful(c) && Waiting(s, pending, before, now, c) && Classify(line) == DataLine(v)
    requires IsEventStream(pending + [v], rest, c)
    ensures var r := TakeLine(s, line, c);
      var u := Join(pending + [v]);
      if s.lines + 1 > MAX_DATA_LINES || SizeWith(|s.data|, v) > MAX_EVENT_BYTES then r == Stop(TooLarge)
      else if !Completes(pending, v, c) then
        r == More(s.(data := Appended(s.data, v), lines := s.lines + 1))
          && Waiting(r.state, pending + [v], before, now.With(v), c)
      else if IsBad(u, c) then r.Stop? && r.error != TooLarge
      else (r == More(Fresh()) || (r.Yield? && r.state == Fresh())) && Served(Fresh(), pending + [v], rest, now.With(v))
  {
    hide Lawful, Classify, IsEventStream, Join, TrimLeft, TrimRight, WholeOf, DecodePayload, TakeLine;
    DataIsAppended(s, line, v, c);
    AppendedSize(s.data, v);
    WaitingIsNoEvent(s, pending, before, now, c);
    var next := s.(data := Appended(s.data, v), lines := s.lines + 1);
    var u, whole := Join(pending + [v]), WholeOf(pending + [v], rest);
    DecodingIsNeverTooLarge(c, TrimSpace(next.data));
    JoiningTrims(s.data, pending, v);
    WholeExtends(pending + [v], rest, c);
    assert TrimSpace(next.data) == TrimSpace(u);
    PrefixOfData(u, whole, c);
    ParsedIsValid(TrimSpace(u), c);
    ParsedIsValid(TrimSpace(whole), c);
  }

  lemma ParsedIsValid<P(!new)>(t: string, c: Codec<P>)
    requires Lawful(c)
    ensures c.parse(t).Some? ==> c.valid(t)
  {
  }

  lemma {:induction false} WaitingTooLargeIff<P(!new)>(s: State, pending: seq<string>, lines: seq<string>, before: Load,
      now: Load, c: Codec<P>)
    requires Lawful(c) && IsEventStream(pending, lines, c) && Waiting(s, pending, before, now, c)
    ensures Run(s, lines, c).error == Some(TooLarge) <==> !Roomy(s.lines, |s.data|, pending, lines, c)
    decreases lines
  {
    hide Lawful, Classify, Run, TakeLine, Waiting, Served, IsEventData, Join, DecodePayload, WholeOf, Completes, IsBad,
      SizeWith;
    if lines == [] {
      NothingLeft(s, before, now, c);
    } else {
      RunStep(s, lines, c);
      var line, rest := lines[0], lines[1..];
      match Classify(line)
      case BlankLine =>
        if pending == [] {
          WaitingForNothing(s, before, now, c);
          BlankIsSkipped(s, line, c);
          WaitingAfterBlank(s, before, now, c);
          WaitingTooLargeIff(s, [], rest, before, Empty(), c);
        } else {
          WaitingHasNoWholeEvent(s, pending, before, now, c);
          assert false;
        }
      case ControlLine =>
        WaitingIsIncomplete(s, pending, before, now, c);
        ControlIsSkipped(s, line, c);
        WaitingTooLargeIff(s, pending, rest, before, now, c);
      case DataLine(v) =>
        DataStep(s, pending, line, v, rest, before, now, c);
        AppendedSize(s.data, v);
        var r := TakeLine(s, line, c);
        if r.More? && Waiting(r.state, pending + [v], before, now.With(v), c) && !Completes(pending, v, c) {
          WaitingTooLargeIff(r.state, pending + [v], rest, before, now.With(v), c);
        } else if !r.Stop? {
          ServedTooLargeIff(Fresh(), pending + [v], rest, now.With(v), c);
        }
    }
  }

  lemma {:induction false} ServedTooLargeIff<P(!new)>(s: State, pending: seq<string>, lines: seq<string>, now: Load,
      c: Codec<P>)
    requires Lawful(c) && IsEventStream(pending, lines, c) && Served(s, pending, lines, now)
    ensures Run(s, lines, c).error == Some(TooLarge) <==> !Roomy(s.lines, |s.data|, pending, lines, c)
    decreases lines
  {
    hide Lawful, Classify, Run, TakeLine, Waiting, Served, IsEventData, Join, DecodePayload, WholeOf, Completes, IsBad,
      SizeWith;
    ServedIsPending(s, pending, lines, now);
    WholeExtends(pending, lines, c);
    RunStep(s, lines, c);
    var line, rest := lines[0], lines[1..];
    assert lines == [line] + rest;
    match Classify(line)
    case BlankLine =>
      BlankIsSkipped(s, line, c);
      ServedThenWaiting(s, pending, lines, now, c);
      WaitingTooLargeIff(s, [], rest, now, Empty(), c);
    case ControlLine =>
      ControlIsSkipped(s, line, c);
      ServedAfterControl(s, pending, line, rest, now);
      ServedTooLargeIff(s, pending, rest, now, c);
    case DataLine(v) =>
      ServedTakesData(s, pending, line, v, rest, now, c);
      ServedDataStep(s, pending, line, v, rest, now, c);
      var r := TakeLine(s, line, c);
      if r.More? {
        ServedTooLargeIff(r.state, pending + [v], rest, now.With(v), c);
      }
  }

  /** After the object nothing completes again; blank data lines are only counted. */
  lemma ServedDataStep<P(!new)>(s: State, pending: seq<string>, line: string, v: string, rest: seq<string>, now: Load,
      c: Codec<P>)
    requires Lawful(c) && Served(s, pending, [line] + rest, now) && Classify(line) == DataLine(v)
    requires IsEventStream(pending, [line] + rest, c)
    ensures !Completes(pending, v, c)
    ensures TakeLine(s, line, c)
         == if s.lines + 1 > MAX_DATA_LINES || SizeWith(|s.data|, v) > MAX_EVENT_BYTES then Stop(TooLarge)
            else More(s.(data := Appended(s.data, v), lines := s.lines + 1))
    ensures |Appended(s.data, v)| == SizeWith(|s.data|, v)
  {
    hide Lawful, Classify, TakeLine, Join, TrimLeft, TrimRight, WholeOf, Dispatch;
    assert ([line] + rest)[0] == line && ([line] + rest)[1..] == rest;
    DataIsAppended(s, line, v, c);
    AppendedSize(s.data, v);
    var whole, u := WholeOf(pending, [line] + rest), Join(pending);
    ServedIsPending(s, pending, [line] + rest, now);
    WholeExtends(pending, [line] + rest, c);
    CompletePrefix(u, whole);
    assert IsEventData(u, c);
    ServedTakesData(s, pending, line, v, rest, now, c);
    if s.lines + 1 <= MAX_DATA_LINES && SizeWith(|s.data|, v) <= MAX_EVENT_BYTES {
      ServedValueIsBlank(s, pending, line, v, rest, now, c);
      BlankIsKept(s.(data := Appended(s.data, v), lines := s.lines + 1), c);
    }
  }

  lemma CompletePrefix(u: string, whole: string)
    requires u <= whole && IsBlank(whole[|u|..])
    ensures TrimSpace(u) == TrimSpace(whole)
  {
    assert whole == u + whole[|u|..];
    if IsBlank(u) {
      BlankIffTrimLeftEmpties(u);
      forall x <- whole ensures IsSpace(x) {
        assert x in u || x in whole[|u|..];
      }
      BlankIffTrimLeftEmpties(whole);
    } else {
      TrimLeftKeepsRest(u, whole[|u|..]);
      TrimRightSkipsBlank(TrimLeft(u), whole[|u|..]);
    }
  }

  lemma ServedValueIsBlank<P>(s: State, pending: seq<string>, line: string, v: string, rest: seq<string>, now: Load,
      c: Codec<P>)
    requires Served(s, pending, [line] + rest, now) && Classify(line) == DataLine(v)
    requires IsEventStream(pending + [v], rest, c)
    ensures TrimSpace(Appended(s.data, v)) == ""
  {
    hide Classify, IsEventStream, IsEventData, Join;
    assert ([line] + rest)[1..] == rest;
    var whole := WholeOf(pending + [v], rest);
    assert whole == WholeOf(pending, [line] + rest);
    WholeExtends(pending + [v], rest, c);
    var a, b := Join(pending), Join(pending + [v]);
    JoinOneMore(pending, v);
    assert b == a + "\n" + v;
    BlanksRemain(whole, a, b);
    assert v == b[|a| + 1..];
    forall x <- v ensures IsSpace(x) {
      assert x in b[|a|..];
    }
    BlankIffTrimsToNothing(Appended(s.data, v));
  }

  lemma {:induction false} PayloadsAreNotTooLarge<P>(datas: seq<string>, c: Codec<P>)
    ensures PayloadsOf(datas, c).error != Some(TooLarge)
    decreases datas
  {
    if datas != [] {
      PayloadsAreNotTooLarge(datas[1..], c);
      DecodingIsNeverTooLarge(c, TrimSpace(datas[0]));
    }
  }

  /**
   Early dispatch equals buffering. On every stream of blank-line-terminated events that hold
   one JSON object or [DONE], the decoder yields the buffered payloads or is cut short by its
   size limits; it yields exactly those if and only if there is room for every line, counted
   from the last completed object on. Events that fit together with the one before leave room.
   */
  lemma EarlyDispatchIsBuffering<P(!new)>(lines: seq<string>, c: Codec<P>)
    requires Lawful(c) && IsEventStream([], lines, c)
    ensures var out := All(Begin(Input(lines, Clean(""))), c);
      var expected := PayloadsOf(Buffered([], lines), c);
      && Agrees(out, expected)
      && (out == expected <==> Roomy(0, 0, [], lines, c))
      && (Fits(Empty(), Empty(), lines) ==> Roomy(0, 0, [], lines, c))
  {
    hide Lawful, All, Roomy, Fits, Buffered;
    assert Waiting(Fresh(), [], Empty(), Empty(), c);
    WaitingRuns(Fresh(), [], lines, Empty(), Empty(), c);
    WaitingTooLargeIff(Fresh(), [], lines, Empty(), Empty(), c);
    PayloadsAreNotTooLarge(Buffered([], lines), c);
  }

  // ---- Why the event before counts -------------------------------------------------------

  function Repeated(line: string, n: nat): seq<string> {
    if n == 0 then [] else [line] + Repeated(line, n - 1)
  }

  /** Empty data lines after a dispatch are only counted. */
  lemma {:induction false} EmptyDataPilesUp<P>(m: nat, n: nat, rest: seq<string>, c: Codec<P>)
    requires m + n <= MAX_DATA_LINES
    ensures Run(State("", false, m), Repeated("data:", n) + rest, c) == Run(State("", false, m + n), rest, c)
    decreases n
  {
    hide TakeLine, All, Run;
    if n == 0 {
      assert Repeated("data:", 0) + rest == rest;
    } else {
      var lines := Repeated("data:", n) + rest;
      assert lines[0] == "data:" && lines[1..] == Repeated("data:", n - 1) + rest;
      RunStep(State("", false, m), lines, c);
      EmptyDataIsCounted(m, c);
      EmptyDataPilesUp(m + 1, n - 1, rest, c);
    }
  }

  lemma EmptyDataIsCounted<P>(m: nat, c: Codec<P>)
    requires m < MAX_DATA_LINES
    ensures TakeLine(State("", false, m), "data:", c) == More(State("", false, m + 1))
    ensures Classify("data:") == DataLine("")
  {
    assert TrimPrefix("data:", "data:") == "" && TrimPrefix("", " ") == "";
    assert TrimSpace("") == "";
  }

  /**
   Two events of 4096 and 2 data lines, each within the limit: the decoder refuses the second,
   because the 4095 empty data lines after the first event's object still count.
   */
  lemma LeftoverLinesAreCounted<P(!new)>(p: P, c: Codec<P>)
    requires Lawful(c) && !c.fails(p) && c.inner(p).None? && |c.render(p)| + 8 <= MAX_EVENT_BYTES
    ensures var full := "data: " + c.render(p);
      All(Begin(Input([full] + Repeated("data:", MAX_DATA_LINES - 1) + ["", "data:", full, ""], Clean(""))), c)
        == Outcome([p], Some(TooLarge))
  {
    hide Lawful, TakeLine, All, Repeated;
    var full := "data: " + c.render(p);
    var after := ["", "data:", full, ""];
    var tail := Repeated("data:", MAX_DATA_LINES - 1) + after;
    assert [full] + Repeated("data:", MAX_DATA_LINES - 1) + after == [full] + tail;
    RunStep(Fresh(), [full] + tail, c);
    assert ([full] + tail)[1..] == tail;
    PrintedObjectIsTaken(p, c);
    EmptyDataPilesUp(0, MAX_DATA_LINES - 1, after, c);
    var s := State("", false, MAX_DATA_LINES - 1);
    RunStep(s, after, c);
    assert after[1..] == ["data:", full, ""] && after[1..][1..] == [full, ""];
    BlankLineIsSkipped(s, c);
    RunStep(s, after[1..], c);
    EmptyDataIsCounted(MAX_DATA_LINES - 1, c);
    RunStep(State("", false, MAX_DATA_LINES), [full, ""], c);
    PrintedText(p, c);
    ObjectIsRefused(c.render(p), c);
  }

  lemma BlankLineIsSkipped<P>(s: State, c: Codec<P>)
    requires s.data == ""
    ensures TakeLine(s, "", c) == More(s)
  {
    assert TrimSpace("") == "";
  }

  lemma PrintedObjectIsTaken<P(!new)>(p: P, c: Codec<P>)
    requires Lawful(c) && !c.fails(p) && c.inner(p).None? && |c.render(p)| + 8 <= MAX_EVENT_BYTES
    ensures TakeLine(Fresh(), "data: " + c.render(p), c) == Yield(p, Fresh())
  {
    hide Absorb, Lawful, TrimSpace, TrimSuffix;
    PrintedText(p, c);
    PrintedIsAbsorbed(c.render(p), c);
    TrimmedStays(c.render(p));
  }

  lemma ObjectIsRefused<P(!new)>(text: string, c: Codec<P>)
    requires OnOneLine(text) && |text| + 8 <= MAX_EVENT_BYTES
    ensures TakeLine(State("", false, MAX_DATA_LINES), "data: " + text, c) == Stop(TooLarge)
  {
    var line := "data: " + text;
    assert line[|line| - 1] == text[|text| - 1] && text[|text| - 1] in text;
    assert TrimSuffix(line, "\r") == line;
  }
}
