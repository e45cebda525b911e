/**
 `geminiDecoder`: upstream bytes cut into JSON payloads.

 JSON text is abstract: a `Codec` says which texts are valid, which are objects, and how
 objects are printed. The input is the lines between '\n' characters, then the rest of
 the bytes, which ends cleanly or in a read error.
 */
module Decoders {
  import opened Wrappers
  import opened Text

  const MAX_EVENT_BYTES: nat := 0x200_0000
  const MAX_DATA_LINES: nat := 4096
  const DONE: string := "[DONE]"

  /** `parse` is None for a text that is no object or no UTF-8; `inner` is an object-valued `response` member. */
  datatype Codec<!P> = Codec(valid: string -> bool, parse: string -> Option<P>, render: P -> string, fails: P -> bool,
                             inner: P -> Option<P>)

  datatype Error = TooLarge | Invalid | Upstream | Transport

  datatype Decoded<P> = Good(payload: P) | Bad(error: Error)

  /** `decodeGeminiPayload`. */
  function DecodePayload<P>(c: Codec<P>, text: string): Decoded<P> {
    match c.parse(text)
    case None => Bad(Invalid)
    case Some(m) =>
      if c.fails(m) then Bad(Upstream)
      else
        var payload := c.inner(m).GetOr(m);
        if c.fails(payload) then Bad(Upstream) else Good(payload)
  }

  datatype State = State(data: string, raw: bool, lines: nat)

  function Fresh(): State {
    State("", false, 0)
  }

  datatype Absorbed = Kept(state: State) | Refused(error: Error)

  predicate IsControl(line: string) {
    ":" <= line || "event:" <= line || "id:" <= line || "retry:" <= line
  }

  function Appended(data: string, value: string): string {
    if data != "" then data + "\n" + value else value
  }

  /** What one line, without its line ending, does to the pending data. */
  function Absorb<P>(s: State, line: string, c: Codec<P>): Absorbed {
    if "data:" <= line then
      var value := TrimPrefix(TrimPrefix(line, "data:"), " ");
      if s.lines + 1 > MAX_DATA_LINES || |Appended(s.data, value)| > MAX_EVENT_BYTES then Refused(TooLarge)
      else Kept(s.(data := Appended(s.data, value), lines := s.lines + 1))
    else if TrimSpace(line) == "" then
      if TrimSpace(s.data) != "" && !c.valid(s.data) && TrimSpace(s.data) != DONE then Refused(Invalid) else Kept(s)
    else if IsControl(line) then Kept(s)
    else if s.raw || (s.data == "" && "{" <= TrimSpace(line)) then
      if |s.data| + |line| + 1 > MAX_EVENT_BYTES then Refused(TooLarge)
      else Kept(s.(data := s.data + line + "\n", raw := true))
    else Refused(Invalid)
  }

  datatype Step<P> = More(state: State) | Yield(payload: P, state: State) | Stop(error: Error)

  /** Dispatch as soon as the pending data is a whole JSON text. */
  function Dispatch<P>(s: State, c: Codec<P>): Step<P> {
    var data := TrimSpace(s.data);
    if data == DONE then More(s.(data := "", lines := 0))
    else if data != "" && c.valid(data) then
      match DecodePayload(c, data)
      case Good(payload) => Yield(payload, Fresh())
      case Bad(e) => Stop(e)
    else More(s)
  }

  function TakeLine<P>(s: State, line: string, c: Codec<P>): Step<P> {
    match Absorb(s, TrimSuffix(line, "\r"), c)
    case Refused(e) => Stop(e)
    case Kept(kept) => Dispatch(kept, c)
  }

  /** The bytes after the last line ending, and whether the input ends there or reading fails. */
  datatype Ending = Clean(tail: string) | Severed(tail: string)

  datatype Input = Input(lines: seq<string>, end: Ending)

  datatype Decoder = Decoder(state: State, rest: Input, eof: bool)
  {
    function Size(): nat {
      |rest.lines| + if eof then 0 else 1
    }
  }

  function Begin(input: Input): Decoder {
    Decoder(Fresh(), input, false)
  }

  datatype Result<P> = Payload(payload: P, after: Decoder) | Over | Failed(error: Error)

  /** The last line, which no line ending follows. */
  function TakeTail<P>(d: Decoder, tail: string, c: Codec<P>): (r: Result<P>)
    ensures r.Payload? ==> r.after.eof && r.after.rest == d.rest
  {
    if |tail| > MAX_EVENT_BYTES then Failed(TooLarge)
    else
      match TakeLine(d.state, tail, c)
      case Stop(e) => Failed(e)
      case Yield(p, s) => Payload(p, Decoder(s, d.rest, true))
      case More(s) => if TrimSpace(s.data) != "" then Failed(Invalid) else Over
  }

  /** `geminiDecoder.next`. */
  function Next<P>(d: Decoder, c: Codec<P>): (r: Result<P>)
    ensures r.Payload? ==> r.after.Size() < d.Size()
    decreases |d.rest.lines|
  {
    if d.eof then Over
    else if d.rest.lines == [] then
      match d.rest.end
      case Severed(tail) => Failed(if |tail| > MAX_EVENT_BYTES then TooLarge else Transport)
      case Clean(tail) => TakeTail(d, tail, c)
    else
      var line, rest := d.rest.lines[0], d.rest.(lines := d.rest.lines[1..]);
      if |line| + 1 > MAX_EVENT_BYTES then Failed(TooLarge)
      else
        match TakeLine(d.state, line, c)
        case Stop(e) => Failed(e)
        case Yield(p, s) => Payload(p, Decoder(s, rest, false))
        case More(s) => Next(Decoder(s, rest, false), c)
  }

  datatype Outcome<P> = Outcome(payloads: seq<P>, error: Option<Error>)
  {
    function After(p: P): Outcome<P> {
      Outcome([p] + payloads, error)
    }
  }

  /** Everything a decoder yields, and how it ends. */
  function All<P>(d: Decoder, c: Codec<P>): Outcome<P>
    decreases d.Size()
  {
    match Next(d, c)
    case Over => Outcome([], None)
    case Failed(e) => Outcome([], Some(e))
    case Payload(p, after) => All(after, c).After(p)
  }

  /** The laws of JSON texts that the decoder relies on (sections 2 and 4 of RFC 8259). */
  ghost predicate Lawful<P(!new)>(c: Codec<P>) {
    && (forall p: P :: c.parse(c.render(p)) == Some(p))
    && (forall p: P :: OnOneLine(c.render(p)))
    && (forall t: string :: c.parse(t).Some? ==> c.valid(t))
    && (forall t: string :: c.valid(t) ==> c.valid(TrimSpace(t)))
    && (forall t: string, k: nat :: c.parse(t).Some? && IsTrimmed(t) && 0 < k < |t| ==> !c.valid(TrimSpace(t[..k])))
    && (forall t: string :: c.parse(t).Some? && IsTrimmed(t) ==> t[0] == '{')
    && (forall k: nat | 0 < k < |DONE| :: !c.valid(DONE[..k]))
    && (forall p: P :: c.inner(p) != Some(p))
  }

  predicate OnOneLine(text: string) {
    IsTrimmed(text) && '\n' !in text && '\r' !in text
  }

  // ---- One printed payload -----------------------------------------------------------

  lemma PrintedText<P(!new)>(p: P, c: Codec<P>)
    requires Lawful(c)
    ensures var text := c.render(p); OnOneLine(text) && c.parse(text) == Some(p) && c.valid(text) && text[0] == '{'
  {
    assert c.parse(c.render(p)).Some?;
  }

  lemma PrintedIsAbsorbed<P>(text: string, c: Codec<P>)
    requires OnOneLine(text) && |text| + 8 <= MAX_EVENT_BYTES
    ensures Absorb(Fresh(), TrimSuffix("data: " + text, "\r"), c) == Kept(State(text, false, 1))
  {
    var line := "data: " + text;
    assert line[|line| - 1] == text[|text| - 1] && text[|text| - 1] in text;
    assert TrimSuffix(line, "\r") == line;
    assert line[5..] == " " + text && (" " + text)[1..] == text;
    assert TrimPrefix(TrimPrefix(line, "data:"), " ") == text;
  }

  // ---- The decoder in place --------------------------------------------------------

  class GeminiDecoder<P> {
    var data: string
    var raw: bool
    var eof: bool
    var lines: nat
    /** The unread input. */
    var rest: Input
    const codec: Codec<P>

    function Model(): Decoder
      reads this
    {
      Decoder(State(data, raw, lines), rest, eof)
    }

    constructor (input: Input, codec: Codec<P>)
      ensures Model() == Begin(input) && this.codec == codec
    {
      data, raw, eof, lines, rest := "", false, false, 0, input;
      this.codec := codec;
    }

    method AbsorbLine(line: string) returns (error: Option<Error>)
      modifies this
      ensures rest == old(rest) && eof == old(eof)
      ensures match Absorb(old(Model()).state, line, codec)
        case Refused(e) => error == Some(e)
        case Kept(s) => error == None && Model().state == s
    {
      if "data:" <= line {
        lines := lines + 1;
        if lines > MAX_DATA_LINES {
          return Some(TooLarge);
        }
        var value := TrimPrefix(TrimPrefix(line, "data:"), " ");
        if |data| > 0 {
          data := data + "\n";
        }
        if |data| + |value| > MAX_EVENT_BYTES {
          return Some(TooLarge);
        }
        data := data + value;
      } else if |TrimSpace(line)| == 0 {
        if |TrimSpace(data)| > 0 && !codec.valid(data) && TrimSpace(data) != DONE {
          return Some(Invalid);
        }
      } else if !IsControl(line) {
        if raw || (|data| == 0 && "{" <= TrimSpace(line)) {
          raw := true;
          if |data| + |line| + 1 > MAX_EVENT_BYTES {
            return Some(TooLarge);
          }
          data := data + line + "\n";
        } else {
          return Some(Invalid);
        }
      }
      return None;
    }

    /** Reads up to the next payload; `payload` and `error` are both None at the end of the input. */
    method NextPayload() returns (payload: Option<P>, error: Option<Error>)
      modifies this
      ensures match Next(old(Model()), codec)
        case Over => payload == None && error == None
        case Failed(e) => payload == None && error == Some(e)
        case Payload(p, after) => payload == Some(p) && error == None && Model() == after
    {
      hide Absorb;
      while true
        invariant Next(old(Model()), codec) == Next(Model(), codec)
        decreases Model().Size()
      {
        if eof {
          return None, None;
        }
        ghost var before := Model();
        var line := "";
        if |rest.lines| > 0 {
          line := rest.lines[0];
          if |line| + 1 > MAX_EVENT_BYTES {
            return None, Some(TooLarge);
          }
          rest := rest.(lines := rest.lines[1..]);
        } else {
          line := rest.end.tail;
          if |line| > MAX_EVENT_BYTES {
            return None, Some(TooLarge);
          }
          if rest.end.Severed? {
            return None, Some(Transport);
          }
          eof := true;
        }
        error := AbsorbLine(TrimSuffix(line, "\r"));
        if error.Some? {
          return None, error;
        }
        var text := TrimSpace(data);
        if text == DONE {
          data := "";
          lines := 0;
          continue;
        }
        if |text| > 0 && codec.valid(text) {
          var decoded := DecodePayload(codec, text);
          data := "";
          lines := 0;
          raw := false;
          match decoded {
            case Good(p) => return Some(p), None;
            case Bad(e) => return None, Some(e);
          }
        }
        if eof {
          if |text| > 0 {
            return None, Some(Invalid);
          }
          return None, None;
        }
      }
    }
  }
}
