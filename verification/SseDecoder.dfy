/** The decoder as it runs: a buffer drained in place, one line at a time. */
module SseDecoding {
  import opened Wrappers
  import opened Sequences
  import opened Bytes
  import opened Sse
  import opened SseProofs

  datatype Pushing = Events(events: seq<Text>) | TooMuchHeld | TextInvalid

  /** What a drain yields when `events` were already found. */
  ghost function Ahead(events: seq<Text>, r: Drained): Drained {
    r.(events := events + r.events)
  }

  class SseDecoder {
    var buffer: seq<Byte>
    var data: Text
    var hasData: bool

    constructor ()
      ensures Value() == FRESH && Valid()
    {
      buffer, data, hasData := [], [], false;
    }

    /** Nothing is kept of an event that has been dispatched. */
    ghost predicate Valid()
      reads this
    {
      !hasData ==> data == []
    }

    function Value(): Decoder
      reads this
    {
      Decoder(buffer, data, hasData)
    }

    /** Feeds a chunk; a failure, too, leaves the decoder where the specification says. */
    method Push(chunk: seq<Byte>) returns (r: Pushing)
      modifies this
      ensures old(Valid()) ==> Valid()
      ensures match Sse.Push(old(Value()), chunk)
              case Ok(d, events) => r == Events(events) && Value() == d
              case TooLong(d) => r == TooMuchHeld && Value() == d
              case NotText(d) => r == TextInvalid && Value() == d
      ensures r == TooMuchHeld <==> old(|buffer|) + |chunk| > 0x80_0000 || old(|data|) > 0x80_0000
    {
      hide Sse.TakeLine, Sse.Consume, Drain;
      buffer := buffer + chunk;
      var events: seq<Text> := [];

      if |buffer| > MAX_PENDING_BYTES || |data| > MAX_PENDING_BYTES {
        return TooMuchHeld;
      }

      ghost var start := Value();
      assert [] + Drain(start).events == Drain(start).events;
      while true
        invariant old(Valid()) ==> Valid()
        invariant Drain(start) == Ahead(events, Drain(Value()))
        decreases |buffer|
      {
        ghost var here := Value();
        var line := TakeLine();
        if line.None? {
          DrainNothing(here);
          break;
        }
        DrainStep(here);
        var consumed := Consume(line.value);
        match consumed {
          case Failed => return TextInvalid;
          case Nothing =>
          case Payload(event) =>
            Assoc(events, [event], Drain(Value()).events);
            events := events + [event];
        }
      }
      r := Events(events);
    }

    /** Takes the first complete line out of the buffer; without one, the buffer stays as it is. */
    method TakeLine() returns (line: Option<seq<Byte>>)
      modifies this`buffer
      ensures match Sse.TakeLine(old(buffer))
              case None => line == None && buffer == old(buffer)
              case Some(cut) => line == Some(cut.line) && buffer == cut.rest && |buffer| < |old(buffer)|
    {
      var index := Find(buffer, {LF, CR});
      if index == |buffer| {
        return None;
      }
      var consumed := index + 1;
      if buffer[index] == CR {
        if index + 1 == |buffer| {
          return None;
        }
        if buffer[index + 1] == LF {
          consumed := index + 2;
        }
      }
      line := Some(buffer[..index]);
      buffer := buffer[consumed..];
    }

    /** Applies one line to the event being assembled. */
    method Consume(line: seq<Byte>) returns (r: Applied)
      modifies this`data, this`hasData
      ensures old(Valid()) ==> Valid()
      ensures match Sse.Consume(old(Value()), line)
              case Invalid => r == Failed && Value() == old(Value())
              case Quiet(d) => r == Nothing && Value() == d
              case Event(d, event) => r == Payload(event) && Value() == d
    {
      if line == [] {
        if !hasData {
          return Nothing;
        }
        hasData := false;
        r := Payload(data);
        data := [];
        return;
      }

      if line[0] == COLON {
        return Nothing;
      }

      var colon := Find(line, {COLON});
      var field, value := line, [];
      if colon < |line| {
        field, value := line[..colon], line[colon + 1..];
        if value != [] && value[0] == SPACE {
          value := value[1..];
        }
      }

      if field != DATA {
        return Nothing;
      }
      if !ValidUtf8(value) {
        return Failed;
      }
      if hasData {
        data := data + [LF];
      }
      data := data + value;
      hasData := true;
      r := Nothing;
    }

    /** When not, the decoder is as good as new, and nothing fed to it can show in what follows. */
    predicate HasPartialEvent()
      requires Valid()
      reads this
      ensures !HasPartialEvent() <==> Value() == FRESH
    {
      buffer != [] || hasData
    }
  }

  /** What applying one line did. */
  datatype Applied = Nothing | Payload(event: Text) | Failed
}
