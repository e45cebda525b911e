/** What the decoder makes of input that is not one event after the other. */
module DecoderLaws {
  import opened Wrappers
  import opened Text
  import opened Decoders
  import opened EarlyDispatch

  /** A line that is no data line, no control line and not blank. */
  predicate IsPlain(line: string) {
    && !IsBlank(line) && !("data:" <= line)
    && !(":" <= line) && !("event:" <= line) && !("id:" <= line) && !("retry:" <= line)
  }

  /** The line without the carriage return before its line ending. */
  function Bare(line: string): string {
    if line != "" && line[|line| - 1] == '\r' then line[..|line| - 1] else line
  }

  /** The text that some lines hold together. */
  function Body(lines: seq<string>): string {
    if lines == [] then "" else Body(lines[..|lines| - 1]) + Bare(lines[|lines| - 1]) + "\n"
  }

  lemma BareIsTrimmed(line: string)
    ensures TrimSuffix(line, "\r") == Bare(line)
  {
    if |line| >= 1 {
      assert line[|line| - 1..] == [line[|line| - 1]];
    }
  }

  lemma NoBody()
    ensures Body([]) == ""
  {
  }

  lemma BodyOneMore(lines: seq<string>, line: string)
    ensures Body(lines + [line]) == Body(lines) + Bare(line) + "\n"
  {
    assert (lines + [line])[..|lines|] == lines;
  }

  lemma {:induction false} BodyConcat(a: seq<string>, b: seq<string>)
    ensures Body(a + b) == Body(a) + Body(b)
  {
    hide Body, Bare;
    NoBody();
    if b == [] {
      assert a + b == a;
    } else {
      var n := |b| - 1;
      BodyConcat(a, b[..n]);
      assert a + b == (a + b[..n]) + [b[n]] && b == b[..n] + [b[n]];
      BodyOneMore(a + b[..n], b[n]);
      BodyOneMore(b[..n], b[n]);
    }
  }

  lemma {:induction false} PlainBodyIsNotBlank(lines: seq<string>)
    requires lines != [] && forall l <- lines :: IsPlain(Bare(l))
    ensures !IsBlank(Body(lines))
  {
    var n := |lines| - 1;
    assert IsPlain(Bare(lines[n]));
    var c :| c in Bare(lines[n]) && !IsSpace(c);
    assert c in Body(lines);
  }

  /** A text that starts with an object starts with a line that does. */
  lemma FirstLineOpens(first: string, more: string)
    requires !IsBlank(first) && TrimSpace(first + more) != "" && TrimSpace(first + more)[0] == '{'
    ensures "{" <= TrimSpace(first)
  {
    TrimLeftKeepsRest(first, more);
    BlankIffTrimLeftEmpties(first);
    var lead, trail := TrimSpaceSplits(first + more);
    var trail' := TrimRightSplits(TrimLeft(first));
    var trail'' := TrimRightSplits(TrimLeft(first + more));
    assert TrimLeft(first + more)[0] == TrimSpace(first + more)[0];
    assert TrimLeft(first)[0] == '{';
    BlankIffTrimsToNothing(first);
    assert TrimSpace(first)[0] == '{';
  }

  lemma PlainIsAbsorbed<P>(s: State, line: string, c: Codec<P>)
    requires IsPlain(Bare(line)) && (s.raw || (s.data == "" && "{" <= TrimSpace(Bare(line))))
    requires |s.data| + |Bare(line)| + 1 <= 32 * 1024 * 1024
    ensures Absorb(s, TrimSuffix(line, "\r"), c) == Kept(State(s.data + Bare(line) + "\n", true, s.lines))
  {
    BareIsTrimmed(line);
    BlankIffTrimsToNothing(Bare(line));
  }

  /** Before its last line an unprefixed object is not complete. */
  lemma UnfinishedWaits<P(!new)>(done: seq<string>, more: seq<string>, c: Codec<P>)
    requires Lawful(c) && done != [] && more != [] && forall l <- done + more :: IsPlain(Bare(l))
    requires c.parse(TrimSpace(Body(done + more))).Some?
    ensures Dispatch(State(Body(done), true, 0), c) == More(State(Body(done), true, 0))
  {
    hide Lawful, TrimSpace, IsPlain, Body, IsBlank;
    assert forall l <- done :: l in done + more;
    assert forall l <- more :: l in done + more;
    BodyConcat(done, more);
    PlainBodyIsNotBlank(done);
    PlainBodyIsNotBlank(more);
    BlankIffTrimsToNothing(Body(done));
    BlankIffTrimsToNothing(Body(done + more));
    assert !IsBlank(Body(done + more)) by {
      BodyIsMoreThan(Body(done), Body(more));
    }
    PrefixOfData(Body(done), Body(done + more), c);
    assert Body(done + more)[|Body(done)|..] == Body(more);
  }

  lemma BodyIsMoreThan(a: string, b: string)
    requires !IsBlank(a)
    ensures !IsBlank(a + b)
  {
    var c :| c in a && !IsSpace(c);
    assert c in a + b;
  }

  /** What the decoder answers to a whole JSON text of an object. */
  function Answer<P>(text: string, rest: Input, c: Codec<P>): Result<P> {
    match DecodePayload(c, text)
    case Good(p) => Payload(p, Decoder(Fresh(), rest, false))
    case Bad(e) => Result.Failed(e)
  }

  lemma WholeIsDispatched<P(!new)>(data: string, c: Codec<P>)
    requires Lawful(c) && c.parse(TrimSpace(data)).Some? && TrimSpace(data) != ""
    ensures Dispatch(State(data, true, 0), c)
      == match DecodePayload(c, TrimSpace(data)) case Good(p) => Yield(p, Fresh()) case Bad(e) => Stop(e)
  {
    var lead, trail := TrimSpaceSplits(data);
    assert TrimSpace(data)[0] == '{';
  }

  lemma {:induction false} UnprefixedFrom<P(!new)>(done: seq<string>, more: seq<string>, rest: Input, c: Codec<P>)
    requires Lawful(c) && more != [] && forall l <- done + more :: IsPlain(Bare(l))
    requires c.parse(TrimSpace(Body(done + more))).Some?
    requires |Body(done + more)| <= 32 * 1024 * 1024
    requires forall l <- done + more :: |l| + 1 <= 32 * 1024 * 1024
    ensures var s := State(Body(done), done != [], 0);
      Next(Decoder(s, Input(more + rest.lines, rest.end), false), c) == Answer(TrimSpace(Body(done + more)), rest, c)
    decreases |more|
  {
    hide Lawful, TrimSpace, IsPlain, Absorb, DecodePayload, Dispatch, Body, IsBlank;
    var line := more[0];
    assert line in more && line in done + more;
    var s := State(Body(done), done != [], 0);
    var input := Input(more + rest.lines, rest.end);
    assert input.lines[0] == line && input.lines[1..] == more[1..] + rest.lines;
    assert (done + [line]) + more[1..] == done + more;
    BodyOneMore(done, line);
    BodyConcat(done + [line], more[1..]);
    FirstPlainLine(done, more, c);
    PlainIsAbsorbed(s, line, c);
    if |more| > 1 {
      UnfinishedWaits(done + [line], more[1..], c);
      UnprefixedFrom(done + [line], more[1..], rest, c);
    } else {
      assert more[1..] == [] && done + [line] == done + more;
      assert input.lines[1..] == rest.lines;
      PlainBodyTrims(done + more);
      WholeIsDispatched(Body(done + more), c);
    }
  }

  lemma PlainBodyTrims(lines: seq<string>)
    requires lines != [] && forall l <- lines :: IsPlain(Bare(l))
    ensures TrimSpace(Body(lines)) != ""
  {
    hide IsPlain, Body;
    PlainBodyIsNotBlank(lines);
    BlankIffTrimsToNothing(Body(lines));
  }

  lemma FirstPlainLine<P(!new)>(done: seq<string>, more: seq<string>, c: Codec<P>)
    requires Lawful(c) && more != [] && forall l <- done + more :: IsPlain(Bare(l))
    requires c.parse(TrimSpace(Body(done + more))).Some?
    ensures Body([]) == "" && (done == [] ==> "{" <= TrimSpace(Bare(more[0])))
  {
    hide Lawful, TrimSpace, IsPlain, Body;
    NoBody();
    if done == [] {
      assert done + more == more;
      PlainBodyTrims(more);
      ObjectOpens(TrimSpace(Body(more)), Body(more), c);
      BodyConcat([more[0]], more[1..]);
      assert [more[0]] + more[1..] == more && [] + [more[0]] == [more[0]];
      BodyOneMore([], more[0]);
      assert Body(more) == Bare(more[0]) + ("\n" + Body(more[1..]));
      assert more[0] in more && more[0] in done + more;
      PlainIsNotBlank(Bare(more[0]));
      FirstLineOpens(Bare(more[0]), "\n" + Body(more[1..]));
    }
  }

  lemma PlainIsNotBlank(line: string)
    requires IsPlain(line)
    ensures !IsBlank(line)
  {
  }

  lemma ObjectOpens<P(!new)>(text: string, data: string, c: Codec<P>)
    requires Lawful(c) && text == TrimSpace(data) && text != "" && c.parse(text).Some?
    ensures text[0] == '{'
  {
    var lead, trail := TrimSpaceSplits(data);
  }

  /**
   A JSON object over several lines without any `data:` is one payload, as long as no line of it is blank or
   looks like a control line, and it fits into 32 MiB.
   */
  lemma UnprefixedIsYielded<P(!new)>(lines: seq<string>, rest: Input, c: Codec<P>)
    requires Lawful(c) && lines != [] && forall l <- lines :: IsPlain(Bare(l)) && |l| + 1 <= 32 * 1024 * 1024
    requires c.parse(TrimSpace(Body(lines))).Some? && |Body(lines)| <= 32 * 1024 * 1024
    ensures Next(Decoder(Fresh(), Input(lines + rest.lines, rest.end), false), c)
      == Answer(TrimSpace(Body(lines)), rest, c)
  {
    hide Lawful, TrimSpace, IsPlain, Next, Body;
    assert [] + lines == lines;
    NoBody();
    UnprefixedFrom([], lines, rest, c);
  }

  /** Anything else that is no data line, with nothing unprefixed before it, fails. */
  lemma StrayLineFails<P>(data: string, count: nat, line: string, rest: Input, c: Codec<P>)
    requires IsPlain(Bare(line)) && |line| + 1 <= 32 * 1024 * 1024
    requires data != "" || !("{" <= TrimSpace(Bare(line)))
    ensures Next(Decoder(State(data, false, count), Input([line] + rest.lines, rest.end), false), c)
      == Result.Failed(Invalid)
  {
    BareIsTrimmed(line);
    BlankIffTrimsToNothing(Bare(line));
  }

  lemma BlankIsNoData(line: string)
    requires IsBlank(line)
    ensures !("data:" <= line)
  {
    if |line| > 0 {
      assert line[0] in line;
    }
  }

  /** Data that is not blank, no JSON text and not the end mark. */
  predicate IsTruncated<P>(data: string, c: Codec<P>) {
    !IsBlank(data) && !c.valid(data) && !c.valid(TrimSpace(data)) && TrimSpace(data) != "[DONE]"
  }

  /** At a blank line, and at the end of the input, pending data must be complete. */
  lemma TruncatedFails<P>(s: State, blank: string, rest: Input, c: Codec<P>)
    requires IsTruncated(s.data, c) && IsBlank(blank) && |blank| + 1 <= 32 * 1024 * 1024
    ensures Next(Decoder(s, Input([blank] + rest.lines, rest.end), false), c) == Result.Failed(Invalid)
    ensures Next(Decoder(s, Input([], Clean(blank)), false), c) == Result.Failed(Invalid)
  {
    BareIsTrimmed(blank);
    BlankIffTrimsToNothing(s.data);
    var bare := Bare(blank);
    assert forall ch <- bare :: ch in blank;
    BlankIffTrimsToNothing(bare);
    BlankIsNoData(bare);
  }

  /** With nothing pending, blank and control lines are skipped. */
  lemma IdleLineIsSkipped<P>(line: string, rest: Input, c: Codec<P>)
    requires |line| + 1 <= 32 * 1024 * 1024
    requires IsBlank(line) || ":" <= line || "event:" <= line || "id:" <= line || "retry:" <= line
    ensures Next(Decoder(Fresh(), Input([line] + rest.lines, rest.end), false), c)
      == Next(Decoder(Fresh(), rest, false), c)
  {
    BareIsTrimmed(line);
    var bare := Bare(line);
    assert ([line] + rest.lines)[1..] == rest.lines;
    assert TrimSpace("") == "";
    if IsBlank(line) {
      assert forall ch <- bare :: ch in line;
      BlankIffTrimsToNothing(bare);
      BlankIsNoData(bare);
    } else {
      ControlSurvives(line);
    }
    assert rest == Input(rest.lines, rest.end);
  }

  lemma ControlSurvives(line: string)
    requires ":" <= line || "event:" <= line || "id:" <= line || "retry:" <= line
    ensures var bare := Bare(line);
      (":" <= bare || "event:" <= bare || "id:" <= bare || "retry:" <= bare) && !("data:" <= bare)
  {
    assert line[0] != 'd';
    assert "event:"[5] == ':' && "id:"[2] == ':' && "retry:"[5] == ':';
  }

  /**
   A text is decoded to its object, or to the object that this holds under `response`, provided that neither is an
   error; a text that holds no object is invalid.
   */
  lemma DecodedIff<P>(text: string, p: P, c: Codec<P>)
    ensures DecodePayload(c, text) == Good(p) <==>
      && c.parse(text).Some? && !c.fails(c.parse(text).value) && !c.fails(p)
      && (c.inner(c.parse(text).value) == Some(p) || (c.inner(c.parse(text).value).None? && c.parse(text) == Some(p)))
    ensures DecodePayload(c, text) == Bad(Invalid) <==> c.parse(text).None?
    ensures DecodePayload(c, text) == Bad(Upstream) <==>
      c.parse(text).Some? && forall q: P :: DecodePayload(c, text) != Good(q)
  {
  }

  /**
   One data line too many, a data line that makes the event too large, and a line that is too large
   itself all fail.
   */
  lemma LimitsAreKept<P>(s: State, value: string, rest: Input, c: Codec<P>)
    ensures s.lines >= 4096 || |s.data| + |value| > 32 * 1024 * 1024 ==>
      Next(Decoder(s, Input(["data: " + value + "\r"] + rest.lines, rest.end), false), c) == Result.Failed(TooLarge)
    ensures |value| >= 32 * 1024 * 1024 ==>
      Next(Decoder(s, Input([value] + rest.lines, rest.end), false), c) == Result.Failed(TooLarge)
  {
    var line := "data: " + value + "\r";
    BareIsTrimmed(line);
    assert Bare(line) == "data: " + value;
    assert TrimPrefix(Bare(line), "data:") == " " + value;
    assert TrimPrefix(" " + value, " ") == value;
  }
}
