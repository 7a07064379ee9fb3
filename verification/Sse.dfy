/**
 * Server-sent event framing, as functions: what one line does to a decoder, what a
 * push does, and the declarative reading of a whole stream that the decoder must
 * agree with. Text is the bytes of a valid UTF-8 string.
 */
module Sse {
  import opened Wrappers
  import opened Bytes

  type Text = seq<Byte>

  const LF: Byte := 0x0A
  const CR: Byte := 0x0D
  const COLON: Byte := 0x3A
  const SPACE: Byte := 0x20
  const DATA: seq<Byte> := [0x64, 0x61, 0x74, 0x61]
  const MAX_PENDING_BYTES: nat := 0x80_0000

  datatype Decoder = Decoder(buffer: seq<Byte>, data: Text, hasData: bool)

  const FRESH := Decoder([], [], false)

  // ---------------------------------------------------------------- one line

  /** Where the first byte satisfying one of `stops` is, or the length when there is none. */
  function Find(bytes: seq<Byte>, stops: set<Byte>): (i: nat)
    ensures i <= |bytes|
    ensures i < |bytes| ==> bytes[i] in stops
    ensures forall j :: 0 <= j < i ==> bytes[j] !in stops
  {
    if bytes == [] || bytes[0] in stops then 0 else 1 + Find(bytes[1..], stops)
  }

  datatype Cut = Cut(line: seq<Byte>, ending: seq<Byte>, rest: seq<Byte>)

  /**
   * The first complete line. A carriage return ends a line only once the byte after
   * it is known, and takes a following line feed with it.
   */
  function TakeLine(buffer: seq<Byte>): Option<Cut> {
    var i := Find(buffer, {LF, CR});
    if i == |buffer| then None
    else if buffer[i] == LF then Some(Cut(buffer[..i], [LF], buffer[i + 1..]))
    else if i + 1 == |buffer| then None
    else if buffer[i + 1] == LF then Some(Cut(buffer[..i], [CR, LF], buffer[i + 2..]))
    else Some(Cut(buffer[..i], [CR], buffer[i + 1..]))
  }

  /** What a `data` line carries; `None` for a comment or any other field. */
  function DataOf(line: seq<Byte>): Option<seq<Byte>>
    requires line != []
  {
    var colon := Find(line, {COLON});
    if line[0] == COLON || line[..colon] != DATA then None
    else if colon == |line| then Some([])
    else
      var raw := line[colon + 1..];
      Some(if raw != [] && raw[0] == SPACE then raw[1..] else raw)
  }

  datatype Consumed = Quiet(decoder: Decoder) | Event(decoder: Decoder, event: Text) | Invalid

  function Consume(d: Decoder, line: seq<Byte>): Consumed {
    if line == [] then
      if d.hasData then Event(Decoder(d.buffer, [], false), d.data) else Quiet(d)
    else match DataOf(line)
         case None => Quiet(d)
         case Some(value) =>
           if ValidUtf8(value)
           then Quiet(Decoder(d.buffer, d.data + (if d.hasData then [LF] else []) + value, true))
           else Invalid
  }

  // ---------------------------------------------------------------- a push

  datatype Drained = Drained(decoder: Decoder, events: seq<Text>, failed: bool)

  lemma TakeLineShrinks(buffer: seq<Byte>)
    requires TakeLine(buffer).Some?
    ensures var c := TakeLine(buffer).value;
            && buffer == c.line + c.ending + c.rest && |c.ending| > 0
            && Find(c.line, {LF, CR}) == |c.line|
  {
  }

  /** Applies every complete line the buffer holds, stopping at one that is not text. */
  function Drain(d: Decoder): Drained
    decreases |d.buffer|
  {
    match TakeLine(d.buffer)
    case None => Drained(d, [], false)
    case Some(cut) =>
      TakeLineShrinks(d.buffer);
      match Consume(d.(buffer := cut.rest), cut.line)
      case Invalid => Drained(d.(buffer := cut.rest), [], true)
      case Quiet(next) => Drain(next)
      case Event(next, event) =>
        var r := Drain(next);
        r.(events := [event] + r.events)
  }

  datatype Pushed = Ok(decoder: Decoder, events: seq<Text>) | TooLong(decoder: Decoder) | NotText(decoder: Decoder)

  function Fed(d: Decoder, chunk: seq<Byte>): Decoder {
    d.(buffer := d.buffer + chunk)
  }

  predicate Overflows(d: Decoder, chunk: seq<Byte>) {
    |d.buffer| + |chunk| > MAX_PENDING_BYTES || |d.data| > MAX_PENDING_BYTES
  }

  function Push(d: Decoder, chunk: seq<Byte>): Pushed {
    if Overflows(d, chunk) then TooLong(Fed(d, chunk))
    else
      var r := Drain(Fed(d, chunk));
      if r.failed then NotText(r.decoder) else Ok(r.decoder, r.events)
  }

  /** Pushes chunks one after another; the first failure ends it. */
  function Feed(d: Decoder, chunks: seq<seq<Byte>>): Pushed
    decreases |chunks|
  {
    if chunks == [] then Ok(d, [])
    else
      var first := Push(d, chunks[0]);
      if !first.Ok? then first
      else
        var others := Feed(first.decoder, chunks[1..]);
        if others.Ok? then Ok(others.decoder, first.events + others.events) else others
  }

  function Flatten(chunks: seq<seq<Byte>>): seq<Byte> {
    if chunks == [] then [] else chunks[0] + Flatten(chunks[1..])
  }

  // ------------------------------------------- the declarative reading

  /** A line together with how it was ended. */
  datatype Ended = Ended(line: seq<Byte>, ending: seq<Byte>)

  function Written(lines: seq<Ended>, rest: seq<Byte>): seq<Byte> {
    if lines == [] then rest else lines[0].line + lines[0].ending + Written(lines[1..], rest)
  }

  predicate BreakFree(bytes: seq<Byte>) {
    0x0A !in bytes && 0x0D !in bytes
  }

  /** Bytes that hold no complete line: the only break they may hold is a last carriage return. */
  predicate Unfinished(bytes: seq<Byte>) {
    BreakFree(bytes) || (bytes != [] && bytes[|bytes| - 1] == 0x0D && BreakFree(bytes[..|bytes| - 1]))
  }

  predicate ProperEnding(ending: seq<Byte>, following: seq<Byte>) {
    || ending == [0x0A]
    || ending == [0x0D, 0x0A]
    || (ending == [0x0D] && following != [] && following[0] != 0x0A)
  }

  /** `lines` and `rest` are how the stream they spell is divided into lines. */
  predicate Divides(lines: seq<Ended>, rest: seq<Byte>) {
    if lines == [] then Unfinished(rest)
    else
      && BreakFree(lines[0].line)
      && ProperEnding(lines[0].ending, Written(lines[1..], rest))
      && Divides(lines[1..], rest)
  }

  function Bare(lines: seq<Ended>): (bare: seq<seq<Byte>>)
    ensures |bare| == |lines|
    ensures forall i :: 0 <= i < |lines| ==> bare[i] == lines[i].line
  {
    seq(|lines|, i requires 0 <= i < |lines| => lines[i].line)
  }

  /** The values of the `data` lines, in order. */
  function DataValues(lines: seq<seq<Byte>>): seq<seq<Byte>> {
    if lines == [] then []
    else (if lines[0] != [] && DataOf(lines[0]).Some? then [DataOf(lines[0]).value] else []) + DataValues(lines[1..])
  }

  function Join(values: seq<seq<Byte>>): seq<Byte> {
    if values == [] then []
    else if |values| == 1 then values[0]
    else values[0] + [LF] + Join(values[1..])
  }

  function FirstBlank(lines: seq<seq<Byte>>): (k: nat)
    ensures k <= |lines| && (k < |lines| ==> lines[k] == [])
    ensures forall j :: 0 <= j < k ==> lines[j] != []
  {
    if lines == [] || lines[0] == [] then 0 else 1 + FirstBlank(lines[1..])
  }

  /**
   * Every blank line closes a block; a block with `data` lines is an event, their
   * values joined with line feeds. `carried` is what the first block already holds.
   */
  function Events(carried: seq<seq<Byte>>, lines: seq<seq<Byte>>): seq<Text>
    decreases |lines|
  {
    var k := FirstBlank(lines);
    if k == |lines| then []
    else
      var values := carried + DataValues(lines[..k]);
      (if values == [] then [] else [Join(values)]) + Events([], lines[k + 1..])
  }

  /** The `data` values after the last blank line. */
  function Undispatched(carried: seq<seq<Byte>>, lines: seq<seq<Byte>>): seq<seq<Byte>>
    decreases |lines|
  {
    var k := FirstBlank(lines);
    if k == |lines| then carried + DataValues(lines) else Undispatched([], lines[k + 1..])
  }

  predicate AllText(values: seq<seq<Byte>>) {
    forall i :: 0 <= i < |values| ==> ValidUtf8(values[i])
  }

  predicate HasPartialEvent(d: Decoder) {
    d.buffer != [] || d.hasData
  }
}
