/**
 * The producer of one generation: it waits for the backend while others act on
 * the request and the consumer draws, and ends the sink exactly once.
 */
module Generating {
  import opened Wrappers
  import opened Sequences
  import opened Bytes
  import opened Requests
  import opened Handles
  import opened Streams
  import opened StreamProofs
  import opened StreamHalves
  import opened Bodies
  import Sse
  import SseDecoding
  import SseProofs

  // --------------------------------------------------------------- producer

  /** The producer still has to end the sink, and nobody else can end the request. */
  ghost predicate Busy(sink: GenerationSink, stream: GenerationStream)
    reads sink, sink.handle, sink.channel, stream
  {
    sink.Valid() && stream.Joins(sink) && !sink.finished && Inv(View(sink, stream))
  }

  /** Nothing stands in the way of the backend: no reason to stop is recorded, and the consumer reads. */
  ghost predicate Free(sink: GenerationSink)
    reads sink.handle, sink.channel
  {
    sink.handle.slot.None? && sink.channel.reading
  }

  /** A reason to stop that may be given: the recorded one, or that nobody reads any more. */
  ghost predicate Given(sink: GenerationSink, cause: Cause)
    reads sink, sink.handle, sink.channel
  {
    Warranted(sink.handle.Value(), sink.channel.Value(), cause)
  }

  /** Others take any steps of theirs, in any number; when all is `quiet`, none that gives a reason to stop. */
  method Others(sink: GenerationSink, stream: GenerationStream, ghost quiet: bool)
    requires stream.Joins(sink)
    modifies sink.handle, sink.channel, stream
    ensures ReachedByOthers(old(View(sink, stream)), View(sink, stream))
    ensures quiet && old(Free(sink)) ==> Free(sink)
  {
    LeadsNowhere(View(sink, stream));
  }

  /** The same until there is room in the buffer, or nobody to make any; here, by the consumer drawing once. */
  method OthersMakeRoom(sink: GenerationSink, stream: GenerationStream, ghost quiet: bool)
    requires Busy(sink, stream)
    modifies sink.handle, sink.channel, stream
    ensures ReachedByOthers(old(View(sink, stream)), View(sink, stream))
    ensures sink.channel.reading ==> |sink.channel.queue| < CAPACITY
    ensures quiet && old(Free(sink)) ==> Free(sink)
  {
    ghost var before := View(sink, stream);
    LeadsNowhere(before);
    if sink.channel.reading && |sink.channel.queue| >= CAPACITY {
      LeadsOne(before, Next);
      var _ := stream.Next(sink);
    }
  }

  /** What the producer may still rely on after time has passed. */
  twostate predicate Elapses(sink: GenerationSink, stream: GenerationStream)
    reads sink, sink.handle, sink.channel, stream
  {
    && Busy(sink, stream)
    && Elapsed(old(sink.handle.Value()), old(sink.channel.Value()), sink.handle.Value(), sink.channel.Value())
    && Reaches(old(View(sink, stream)), View(sink, stream))
  }

  lemma StillBusy(sink: GenerationSink, stream: GenerationStream, before: Generation)
    requires ReachedByOthers(before, View(sink, stream)) && Producing(before) && Inv(before)
    requires stream.Joins(sink) && !sink.finished && sink.ending.None?
    ensures Busy(sink, stream) && Reaches(before, View(sink, stream))
    ensures Elapsed(before.request, before.pipe, sink.handle.Value(), sink.channel.Value())
  {
    hide Leads, Elapsed, Inv;
    var steps :| OthersOnly(steps) && Leads(before, steps, View(sink, stream));
    OthersElapse(before, steps, View(sink, stream));
    PathAfter(before, steps, View(sink, stream));
  }

  lemma BusyProduces(sink: GenerationSink, stream: GenerationStream)
    requires Busy(sink, stream)
    ensures Producing(View(sink, stream)) && sink.ending.None? && sink.channel.feeding
  {
  }

  method Elsewhere(sink: GenerationSink, stream: GenerationStream, ghost quiet: bool)
    requires Busy(sink, stream)
    modifies sink.handle, sink.channel, stream
    ensures Elapses(sink, stream)
    ensures quiet && old(Free(sink)) ==> Free(sink)
  {
    hide ReachedByOthers, Reaches, Elapsed, Inv;
    ghost var before := View(sink, stream);
    BusyProduces(sink, stream);
    Others(sink, stream, quiet);
    StillBusy(sink, stream, before);
  }

  method AwaitRoom(sink: GenerationSink, stream: GenerationStream, ghost quiet: bool)
    requires Busy(sink, stream)
    modifies sink.handle, sink.channel, stream
    ensures Elapses(sink, stream)
    ensures sink.channel.reading ==> |sink.channel.queue| < CAPACITY
    ensures quiet && old(Free(sink)) ==> Free(sink)
  {
    hide ReachedByOthers, Reaches, Elapsed, Inv;
    ghost var before := View(sink, stream);
    BusyProduces(sink, stream);
    OthersMakeRoom(sink, stream, quiet);
    StillBusy(sink, stream, before);
  }

  /** The end that was decided on, whether or not anyone was left to be told. */
  ghost predicate EndedWith(sink: GenerationSink, item: Item)
    reads sink, sink.handle, sink.channel
  {
    && sink.finished && Settled(sink.handle.Value()) && sink.outcome == Some(item)
    && (match item
        case Error(_) => sink.handle.state == Failed
        case Yields(Completed(request, _)) => request == sink.handle.id && sink.handle.state == RequestState.Completed
        case Yields(Cancelled(request, cause)) =>
          && request == sink.handle.id && sink.handle.state == RequestState.Cancelled
          && Given(sink, cause)
        case _ => false)
    && (sink.ending == Some(item)
        || (sink.ending.None? && (sink.last == Some(item) || (sink.last.None? && !sink.channel.reading))))
  }

  /** What waiting for the backend came to, unless something else came first. */
  datatype Work<+T> = Done(value: T) | Silent

  datatype Waited<+T> = Got(value: T) | Stopped(cause: Cause)

  /**
   * Waits for `work`. A request told to stop, and then a consumer that has left, come
   * before anything the backend does, and silence becomes a recorded reason. When
   * nothing stands in the way and nobody puts anything there, what the backend finished
   * is handed over, and only silence stops the wait.
   */
  method Within<T>(sink: GenerationSink, work: Work<T>, stream: GenerationStream, ghost quiet: bool)
    returns (r: Waited<T>)
    requires Busy(sink, stream)
    modifies sink.handle, sink.channel, stream
    ensures Busy(sink, stream) && Reaches(old(View(sink, stream)), View(sink, stream))
    ensures old(sink.handle.slot.Some?) ==> r == Stopped(old(sink.handle.slot.value))
    ensures old(sink.handle.slot.None? && !sink.channel.reading) ==> r.Stopped?
    ensures r.Stopped? ==> Given(sink, r.cause)
    ensures r.Got? ==> work == Done(r.value) && old(sink.handle.slot.None? && sink.channel.reading)
    ensures quiet && old(Free(sink)) && work.Done? ==> r == Got(work.value) && Free(sink)
    ensures quiet && old(Free(sink)) && work.Silent? ==> r == Stopped(StreamIdleTimeout)
  {
    hide Reaches, View, Inv;
    ghost var before := View(sink, stream);
    Elsewhere(sink, stream, quiet);
    if sink.handle.slot.Some? {
      return Stopped(sink.handle.slot.value);
    }
    ghost var looked := View(sink, stream);
    Elsewhere(sink, stream, quiet);
    ReachesOn(before, looked, View(sink, stream));
    if !sink.channel.reading {
      return Stopped(ConsumerGone);
    }
    match work {
      case Done(value) => r := Got(value);
      case Silent =>
        looked := View(sink, stream);
        var cause := GoSilent(sink, stream, quiet);
        ReachesOn(before, looked, View(sink, stream));
        r := Stopped(cause);
    }
  }

  /** Silence is recorded, unless another reason is recorded first, and the recorded reason is the one given. */
  method GoSilent(sink: GenerationSink, stream: GenerationStream, ghost quiet: bool) returns (cause: Cause)
    requires Busy(sink, stream)
    modifies sink.handle, sink.channel, stream
    ensures Busy(sink, stream) && Reaches(old(View(sink, stream)), View(sink, stream))
    ensures sink.handle.slot == Some(cause)
    ensures old(sink.handle.slot.Some?) ==> cause == old(sink.handle.slot.value)
    ensures quiet && old(Free(sink)) ==> cause == StreamIdleTimeout
  {
    hide Reaches, Inv;
    ghost var before := View(sink, stream);
    Elsewhere(sink, stream, quiet);
    ghost var silent := View(sink, stream);
    var _ := sink.handle.CancelToken(StreamIdleTimeout);
    LeadsOne(silent, Act(WriteToken(StreamIdleTimeout)));
    StepKeeps(silent, Act(WriteToken(StreamIdleTimeout)));
    ReachesOn(before, silent, View(sink, stream));
    silent := View(sink, stream);
    Elsewhere(sink, stream, false);
    ReachesOn(before, silent, View(sink, stream));
    cause := if sink.handle.slot.Some? then sink.handle.slot.value else StreamIdleTimeout;
  }

  /** Emits text once there is room; `false` means that nobody reads any more. */
  method Deliver(sink: GenerationSink, text: Text, stream: GenerationStream, ghost quiet: bool)
    returns (delivered: bool)
    requires Busy(sink, stream)
    modifies sink`emitted, sink.handle, sink.channel, stream
    ensures Busy(sink, stream) && Reaches(old(View(sink, stream)), View(sink, stream))
    ensures !delivered ==> !sink.channel.reading && sink.emitted == old(sink.emitted)
    ensures delivered ==> sink.emitted == old(sink.emitted) + if text == [] then [] else [text]
    ensures quiet && old(Free(sink)) ==> delivered && Free(sink)
  {
    hide Reaches, Inv;
    ghost var before := View(sink, stream);
    if text == [] {
      LeadsNowhere(before);
      StepKeeps(before, Emit(text));
      BusyProduces(sink, stream);
      var sent := sink.Delta(text, stream);
      return true;
    }
    AwaitRoom(sink, stream, quiet);
    ghost var room := View(sink, stream);
    BusyProduces(sink, stream);
    StepKeeps(room, Emit(text));
    var sent := sink.Delta(text, stream);
    LeadsOne(room, Emit(text));
    ReachesOn(before, room, View(sink, stream));
    delivered := sent.value;
  }

  lemma LeadsTwo(g: Generation, first: Step, second: Step)
    requires Enabled(g, first) && Warrants(g, first)
    requires Enabled(Do(g, first), second) && Warrants(Do(g, first), second)
    ensures Reaches(g, Do(Do(g, first), second))
  {
    hide Reaches, Enabled, Warrants, Do;
    LeadsOne(g, first);
    LeadsOne(Do(g, first), second);
    ReachesOn(g, Do(g, first), Do(Do(g, first), second));
  }

  method Cancelling(sink: GenerationSink, cause: Cause, stream: GenerationStream)
    requires Busy(sink, stream) && Given(sink, cause)
    modifies sink, sink.handle, sink.channel, stream
    ensures EndedWith(sink, Yields(Event.Cancelled(sink.handle.id, cause)))
    ensures Reaches(old(View(sink, stream)), View(sink, stream))
    ensures sink.emitted == old(sink.emitted)
  {
    hide Reaches, Inv;
    ghost var before := View(sink, stream);
    Elsewhere(sink, stream, false);
    ghost var now := View(sink, stream);
    BusyProduces(sink, stream);
    sink.Cancel(cause, stream);
    LeadsTwo(now, Cancel(cause), RecordStop);
    LeadsOne(Do(Do(now, Cancel(cause)), RecordStop), Send);
    ReachesOn(now, Do(Do(now, Cancel(cause)), RecordStop), View(sink, stream));
    ReachesOn(before, now, View(sink, stream));
  }

  method Failing(sink: GenerationSink, error: StreamError, stream: GenerationStream)
    requires Busy(sink, stream)
    modifies sink, sink.handle, sink.channel, stream
    ensures EndedWith(sink, Error(error))
    ensures Reaches(old(View(sink, stream)), View(sink, stream))
    ensures sink.emitted == old(sink.emitted)
  {
    hide Reaches, Inv;
    ghost var before := View(sink, stream);
    Elsewhere(sink, stream, false);
    ghost var now := View(sink, stream);
    BusyProduces(sink, stream);
    sink.Fail(error, stream);
    LeadsTwo(now, Fail(error), Send);
    ReachesOn(before, now, View(sink, stream));
  }

  method Completing(sink: GenerationSink, summary: Summary, stream: GenerationStream)
    requires Busy(sink, stream)
    modifies sink, sink.handle, sink.channel, stream
    ensures EndedWith(sink, Yields(Event.Completed(sink.handle.id, summary)))
    ensures Reaches(old(View(sink, stream)), View(sink, stream))
    ensures sink.emitted == old(sink.emitted)
  {
    hide Reaches, Inv;
    ghost var before := View(sink, stream);
    Elsewhere(sink, stream, false);
    ghost var now := View(sink, stream);
    BusyProduces(sink, stream);
    sink.Complete(summary, stream);
    LeadsTwo(now, Complete(summary), Send);
    ReachesOn(before, now, View(sink, stream));
  }

  // ------------------------------------------------------------ the response

  datatype Frame = Data(chunk: seq<Byte>) | Trailers | End | Broken

  /** The data of the frames that arrive before the body ends. */
  function Frames(waits: seq<Work<Frame>>): seq<seq<Byte>> {
    if waits == [] then []
    else match waits[0]
         case Done(Data(chunk)) => [chunk] + Frames(waits[1..])
         case Done(Trailers) => Frames(waits[1..])
         case _ => []
  }

  /** Whether the body stops arriving before it ends. */
  predicate Breaks(waits: seq<Work<Frame>>) {
    waits != []
    && match waits[0]
       case Done(Data(_)) => Breaks(waits[1..])
       case Done(Trailers) => Breaks(waits[1..])
       case Done(End) => false
       case Done(Broken) => true
       case Silent => false
  }

  /** Whether the backend goes silent before the body ends. */
  predicate FallsSilent(waits: seq<Work<Frame>>) {
    waits != []
    && match waits[0]
       case Done(Data(_)) => FallsSilent(waits[1..])
       case Done(Trailers) => FallsSilent(waits[1..])
       case Done(_) => false
       case Silent => true
  }

  /** How a body that nobody interrupts ends its stream, unless silence does. */
  function Conclusion(b: Backend, id: nat, waits: seq<Work<Frame>>): Option<Item> {
    var digest := ReadBody(b, Frames(waits)).digest;
    if digest.end == Going && Breaks(waits) then Some(Error(Transport))
    else if digest.end == Going && FallsSilent(waits) then None
    else Some(Verdict(id, digest))
  }

  /** The end that comes of it when nothing else stands in the way. */
  function Unhindered(expected: Option<Item>, id: nat): Item {
    if expected.Some? then expected.value else Yields(Event.Cancelled(id, StreamIdleTimeout))
  }

  lemma {:induction false} ReadFurther(b: Backend, p: seq<seq<Byte>>, q: seq<seq<Byte>>)
    ensures ReadBody(b, p).digest.deltas <= ReadBody(b, p + q).digest.deltas
    ensures ReadBody(b, p).digest.end != Going ==> ReadBody(b, p + q) == ReadBody(b, p)
    decreases |q|
  {
    hide Sse.Push, Digest;
    if q == [] {
      assert p + q == p;
    } else {
      var n := |q| - 1;
      ReadFurther(b, p, q[..n]);
      assert (p + q)[..|p + q| - 1] == p + q[..n];
    }
  }

  datatype Fate = Continues | Ends(end: Bodies.End) | Lost

  /** Takes one frame's payloads in order; a consumer found gone ends it part way. */
  method TakePayloads(b: Backend, payloads: seq<Text>, before: Option<Summary>, sink: GenerationSink,
                      stream: GenerationStream, ghost quiet: bool)
    returns (fate: Fate, terminal: Option<Summary>)
    requires Busy(sink, stream)
    modifies sink`emitted, sink.handle, sink.channel, stream
    ensures Busy(sink, stream) && Reaches(old(View(sink, stream)), View(sink, stream))
    ensures quiet && old(Free(sink)) ==> !fate.Lost? && Free(sink)
    ensures var d := Digest(b, payloads, before);
            match fate
            case Continues => d == Digested(d.deltas, terminal, Going) && sink.emitted == old(sink.emitted) + d.deltas
            case Ends(end) =>
              d == Digested(d.deltas, terminal, end) && end != Going && sink.emitted == old(sink.emitted) + d.deltas
            case Lost =>
              && !sink.channel.reading
              && exists ds :: ds <= d.deltas && sink.emitted == old(sink.emitted) + ds
  {
    hide Busy, Free, Reaches, View;
    LeadsNowhere(View(sink, stream));
    terminal := before;
    ghost var ds: seq<Text> := [];
    for i := 0 to |payloads|
      invariant Busy(sink, stream) && Reaches(old(View(sink, stream)), View(sink, stream))
      invariant sink.emitted == old(sink.emitted) + ds
      invariant quiet && old(Free(sink)) ==> Free(sink)
      invariant Digest(b, payloads, before) == Then(Digested(ds, terminal, Going), Digest(b, payloads[i..], terminal))
    {
      ghost var whole := Digest(b, payloads, before);
      assert payloads[i..][0] == payloads[i] && payloads[i..][1..] == payloads[i + 1..];
      if b.isDone(payloads[i]) {
        assert whole == Digested(ds, terminal, Marked) by { assert ds + [] == ds; }
        return Ends(Marked), terminal;
      }
      var parsed := b.parse(payloads[i]);
      if parsed.None? {
        assert whole == Digested(ds, terminal, Malformed) by { assert ds + [] == ds; }
        return Ends(Malformed), terminal;
      }
      var r := parsed.value;
      terminal := Updated(terminal, r);
      Assoc(ds, Content(r), Digest(b, payloads[i + 1..], terminal).deltas);
      if r.choices != [] {
        ghost var now := View(sink, stream);
        var delivered := Deliver(sink, r.choices[0].text, stream, quiet);
        ReachesOn(old(View(sink, stream)), now, View(sink, stream));
        if !delivered {
          return Lost, terminal;
        }
        assert old(sink.emitted) + (ds + Content(r)) == (old(sink.emitted) + ds) + Content(r);
      } else {
        assert ds + Content(r) == ds;
      }
      ds := ds + Content(r);
    }
    assert ds + [] == ds;
    fate := Continues;
  }

  lemma OneFrameMore(b: Backend, received: seq<seq<Byte>>, chunk: seq<Byte>, rest: seq<seq<Byte>>)
    requires ReadBody(b, received).digest.end == Going
    ensures ReadBody(b, received + [chunk]) == Absorb(b, ReadBody(b, received), chunk)
    ensures received + ([chunk] + rest) == (received + [chunk]) + rest
  {
    hide Absorb;
    assert (received + [chunk])[..|received + [chunk]| - 1] == received;
  }

  /** What the texts emitted so far and the frames read so far are to what the whole body says. */
  ghost predicate PartWay(b: Backend, waits: seq<Work<Frame>>, left: seq<Work<Frame>>, received: seq<seq<Byte>>,
                          reading: Reading)
  {
    && Frames(waits) == received + Frames(left)
    && (Breaks(waits) <==> Breaks(left)) && (FallsSilent(waits) <==> FallsSilent(left))
    && ReadBody(b, received) == reading && reading.digest.end == Going
  }

  lemma PartOfTheBody(b: Backend, waits: seq<Work<Frame>>, left: seq<Work<Frame>>, received: seq<seq<Byte>>,
                      reading: Reading)
    requires PartWay(b, waits, left, received, reading)
    ensures reading.digest.deltas <= ReadBody(b, Frames(waits)).digest.deltas
    ensures left == [] || left[0] in {Done(End), Done(Broken), Silent} ==>
              && ReadBody(b, Frames(waits)) == reading
              && (Breaks(waits) <==> left != [] && left[0] == Done(Broken))
              && (FallsSilent(waits) <==> left != [] && left[0] == Silent)
    ensures left != [] && left[0] == Done(Trailers) ==> PartWay(b, waits, left[1..], received, reading)
  {
    hide ReadBody;
    ReadFurther(b, received, Frames(left));
    assert received + [] == received;
  }

  lemma FrameOfTheBody(b: Backend, waits: seq<Work<Frame>>, left: seq<Work<Frame>>, received: seq<seq<Byte>>,
                       reading: Reading, chunk: seq<Byte>)
    requires PartWay(b, waits, left, received, reading) && left != [] && left[0] == Done(Data(chunk))
    ensures var next := Absorb(b, reading, chunk);
            && next.digest.deltas <= ReadBody(b, Frames(waits)).digest.deltas
            && (next.digest.end == Going ==> PartWay(b, waits, left[1..], received + [chunk], next))
            && (next.digest.end != Going ==> ReadBody(b, Frames(waits)) == next)
  {
    hide ReadBody, Absorb;
    OneFrameMore(b, received, chunk, Frames(left[1..]));
    ReadFurther(b, received + [chunk], Frames(left[1..]));
  }

  /** The texts emitted in the meantime are the first ones, or all, of those the body carries. */
  predicate Extends(emitted: seq<Text>, before: seq<Text>, deltas: seq<Text>) {
    before <= emitted && emitted[|before|..] <= deltas
  }

  /** Why reading stopped: it was interrupted, failed, or the body came to its end. */
  datatype Halted = Interrupted(cause: Cause) | BrokeOff(error: StreamError) | AtEnd(terminal: Option<Summary>)

  /** The end a reading stopped like this comes to. */
  function EndOf(halted: Halted, id: nat): Item {
    match halted
    case Interrupted(cause) => Yields(Event.Cancelled(id, cause))
    case BrokeOff(error) => Error(error)
    case AtEnd(Some(summary)) => Yields(Event.Completed(id, summary))
    case AtEnd(None) => Error(UnexpectedEnd)
  }

  /** What a reading that stopped has emitted, and what its end says, of the body as a whole. */
  ghost predicate Tells(b: Backend, waits: seq<Work<Frame>>, halted: Halted, id: nat, emitted: seq<Text>,
                        before: seq<Text>)
  {
    var d := ReadBody(b, Frames(waits)).digest;
    if halted.Interrupted? then Extends(emitted, before, d.deltas)
    else Some(EndOf(halted, id)) == Conclusion(b, id, waits) && emitted == before + d.deltas
  }

  /** Takes frames until something stops the reading. */
  method ReadFrames(b: Backend, waits: seq<Work<Frame>>, sink: GenerationSink, stream: GenerationStream,
                    ghost quiet: bool)
    returns (halted: Halted)
    requires Busy(sink, stream)
    modifies sink`emitted, sink.handle, sink.channel, stream
    ensures Busy(sink, stream) && Reaches(old(View(sink, stream)), View(sink, stream))
    ensures Tells(b, waits, halted, sink.handle.id, sink.emitted, old(sink.emitted))
    ensures halted.Interrupted? ==> Given(sink, halted.cause)
    ensures quiet && old(Free(sink)) && halted.Interrupted? ==>
              && halted.cause == StreamIdleTimeout && Conclusion(b, sink.handle.id, waits).None?
              && sink.emitted == old(sink.emitted) + ReadBody(b, Frames(waits)).digest.deltas
  {
    hide FallsSilent, Free, Busy, ReadBody, Digest, Frames, Breaks, Given, Sse.Push, PartWay, Reaches, View;
    LeadsNowhere(View(sink, stream));
    var decoder := new SseDecoding.SseDecoder();
    var terminal: Option<Summary> := None;
    ghost var ds: seq<Text> := [];
    ghost var received: seq<seq<Byte>> := [];
    var i := 0;
    StartOfTheBody(b, waits);
    assert waits[0..] == waits;
    while true
      invariant i <= |waits|
      invariant Busy(sink, stream) && fresh(decoder) && Reaches(old(View(sink, stream)), View(sink, stream))
      invariant PartWay(b, waits, waits[i..], received, Reading(decoder.Value(), Digested(ds, terminal, Going)))
      invariant sink.emitted == old(sink.emitted) + ds
      invariant quiet && old(Free(sink)) ==> Free(sink)
      decreases |waits| - i
    {
      ghost var left, reading := waits[i..], Reading(decoder.Value(), Digested(ds, terminal, Going));
      PartOfTheBody(b, waits, left, received, reading);
      ghost var now := View(sink, stream);
      var waited := Within(sink, if i == |waits| then Done(End) else waits[i], stream, quiet);
      ReachesOn(old(View(sink, stream)), now, View(sink, stream));
      match waited {
        case Stopped(cause) => return Interrupted(cause);
        case Got(End) => return AtEnd(terminal);
        case Got(Broken) => return BrokeOff(Transport);
        case Got(Trailers) =>
          assert waits[i..][1..] == waits[i + 1..];
        case Got(Data(chunk)) =>
          assert waits[i..][1..] == waits[i + 1..];
          FrameOfTheBody(b, waits, left, received, reading, chunk);
          var pushed := decoder.Push(chunk);
          if !pushed.Events? {
            return BrokeOff(MalformedEvent);
          }
          now := View(sink, stream);
          var fate, after := TakePayloads(b, pushed.events, terminal, sink, stream, quiet);
          ReachesOn(old(View(sink, stream)), now, View(sink, stream));
          ghost var d := Digest(b, pushed.events, terminal);
          Assoc(old(sink.emitted), ds, d.deltas);
          match fate {
            case Lost =>
              NobodyReads(sink);
              return Interrupted(ConsumerGone);
            case Ends(end) =>
              return if end == Malformed then BrokeOff(MalformedEvent) else AtEnd(after);
            case Continues =>
              terminal, ds, received := after, ds + d.deltas, received + [chunk];
          }
      }
      i := i + 1;
    }
  }

  /**
   * Reads the response to its end and ends the sink once. Unless it was stopped, what it
   * emitted and how it ended are what the body, as a whole, says; stopped, it emitted the
   * first of those texts, and for a reason that was recorded or because nobody was left
   * to read them.
   */
  method Read(b: Backend, waits: seq<Work<Frame>>, sink: GenerationSink, stream: GenerationStream, ghost quiet: bool)
    returns (ghost item: Item)
    requires Busy(sink, stream) && sink.handle.state != Starting
    modifies sink, sink.handle, sink.channel, stream
    ensures EndedWith(sink, item)
    ensures Reaches(old(View(sink, stream)), View(sink, stream))
    ensures var d := ReadBody(b, Frames(waits)).digest;
            if item.Yields? && item.event.Cancelled? then Extends(sink.emitted, old(sink.emitted), d.deltas)
            else Some(item) == Conclusion(b, sink.handle.id, waits) && sink.emitted == old(sink.emitted) + d.deltas
    ensures quiet && old(Free(sink)) ==>
              && item == Unhindered(Conclusion(b, sink.handle.id, waits), sink.handle.id)
              && sink.emitted == old(sink.emitted) + ReadBody(b, Frames(waits)).digest.deltas
  {
    hide Free, Busy, ReadBody, Frames, Conclusion, EndedWith, Given, Reaches, View;
    var halted := ReadFrames(b, waits, sink, stream, quiet);
    item := EndOf(halted, sink.handle.id);
    ghost var now := View(sink, stream);
    match halted {
      case Interrupted(cause) => Cancelling(sink, cause, stream);
      case BrokeOff(error) => Failing(sink, error, stream);
      case AtEnd(Some(summary)) => Completing(sink, summary, stream);
      case AtEnd(None) => Failing(sink, UnexpectedEnd, stream);
    }
    ReachesOn(old(View(sink, stream)), now, View(sink, stream));
  }

  lemma StartOfTheBody(b: Backend, waits: seq<Work<Frame>>)
    ensures PartWay(b, waits, waits, [], UNREAD_BODY)
  {
    assert [] + Frames(waits) == Frames(waits);
  }

  lemma NobodyReads(sink: GenerationSink)
    requires !sink.channel.reading
    ensures Given(sink, ConsumerGone)
  {
  }

  // ------------------------------------------------------ the whole exchange

  /** What the backend answers: whether it accepts the request, and the body that follows either way. */
  datatype Answer = Accepted(waits: seq<Work<Frame>>) | Rejected(body: Work<()>)

  /** What each wait of one exchange comes to; `None` is a step that failed. */
  datatype Job = Job(encoded: bool, connected: Work<bool>, shaken: Work<bool>, built: bool,
                     answer: Work<Option<Answer>>)

  /** How the exchange ends its stream when nobody interrupts it; silence always does. */
  function Expected(b: Backend, id: nat, job: Job): Option<Item> {
    if !job.encoded then Some(Error(Transport))
    else if job.connected.Silent? then None
    else if !job.connected.value then Some(Error(Transport))
    else if job.shaken.Silent? then None
    else if !job.shaken.value || !job.built then Some(Error(Transport))
    else match job.answer
         case Silent => None
         case Done(None) => Some(Error(Transport))
         case Done(Some(Accepted(waits))) => Conclusion(b, id, waits)
         case Done(Some(Rejected(body))) => if body.Silent? then None else Some(Error(Refused))
  }

  predicate Answered(job: Job) {
    job.encoded && job.connected == Done(true) && job.shaken == Done(true) && job.built
    && job.answer.Done? && job.answer.value.Some?
  }

  /** The texts it delivers when nobody interrupts it. */
  function Carried(b: Backend, job: Job): seq<Text> {
    if Answered(job) && job.answer.value.value.Accepted?
    then ReadBody(b, Frames(job.answer.value.value.waits)).digest.deltas else []
  }

  /** What ends an exchange before the backend has answered. */
  method Prepare(b: Backend, job: Job, sink: GenerationSink, stream: GenerationStream, ghost quiet: bool)
    returns (r: Waited<Option<Answer>>)
    requires Busy(sink, stream)
    modifies sink.handle, sink.channel, stream
    ensures Busy(sink, stream) && Reaches(old(View(sink, stream)), View(sink, stream))
    ensures job.encoded && old(sink.handle.slot.Some?) ==> r == Stopped(old(sink.handle.slot.value))
    ensures match r
            case Stopped(cause) => Given(sink, cause)
            case Got(Some(answer)) =>
              Answered(job) && job.answer == Done(Some(answer))
            case Got(None) => !Answered(job) && Expected(b, sink.handle.id, job) == Some(Error(Transport))
    ensures quiet && old(Free(sink)) ==>
              match r
              case Got(_) => Free(sink)
              case Stopped(cause) =>
                cause == StreamIdleTimeout && !Answered(job) && Expected(b, sink.handle.id, job) == None
  {
    hide Free, Busy, Given, Conclusion, Reaches, View;
    LeadsNowhere(View(sink, stream));
    ghost var now := View(sink, stream);
    if !job.encoded {
      return Got(None);
    }
    var connected := Within(sink, job.connected, stream, quiet);
    ReachesOn(old(View(sink, stream)), now, View(sink, stream));
    now := View(sink, stream);
    if connected.Stopped? {
      return Stopped(connected.cause);
    }
    if !connected.value {
      return Got(None);
    }
    var shaken := Within(sink, job.shaken, stream, quiet);
    ReachesOn(old(View(sink, stream)), now, View(sink, stream));
    now := View(sink, stream);
    if shaken.Stopped? {
      return Stopped(shaken.cause);
    }
    if !shaken.value || !job.built {
      return Got(None);
    }
    r := Within(sink, job.answer, stream, quiet);
    ReachesOn(old(View(sink, stream)), now, View(sink, stream));
    now := View(sink, stream);
  }

  method MarkRunning(sink: GenerationSink, stream: GenerationStream, ghost quiet: bool)
    requires Busy(sink, stream)
    modifies sink.handle, sink.channel, stream
    ensures Busy(sink, stream) && Reaches(old(View(sink, stream)), View(sink, stream))
    ensures sink.handle.state != Starting
    ensures quiet && old(Free(sink)) ==> Free(sink)
  {
    hide Reaches, Inv;
    ghost var before := View(sink, stream);
    Elsewhere(sink, stream, quiet);
    ghost var now := View(sink, stream);
    LeadsOne(now, Act(Action.MarkRunning));
    StepKeeps(now, Act(Action.MarkRunning));
    sink.handle.MarkRunning();
    ReachesOn(before, now, View(sink, stream));
  }

  /**
   * Carries out one generation and ends its sink exactly once. A request already told to
   * stop is stopped before anything is attempted.
   */
  method Execute(b: Backend, job: Job, sink: GenerationSink, stream: GenerationStream, ghost quiet: bool)
    returns (ghost item: Item)
    requires Busy(sink, stream)
    modifies sink, sink.handle, sink.channel, stream
    ensures EndedWith(sink, item)
    ensures Reaches(old(View(sink, stream)), View(sink, stream))
    ensures job.encoded && old(sink.handle.slot.Some?) ==>
              item == Yields(Event.Cancelled(sink.handle.id, old(sink.handle.slot.value)))
    ensures if item.Yields? && item.event.Cancelled? then Extends(sink.emitted, old(sink.emitted), Carried(b, job))
            else Some(item) == Expected(b, sink.handle.id, job)
                 && sink.emitted == old(sink.emitted) + Carried(b, job)
    ensures quiet && old(Free(sink)) ==>
              && item == Unhindered(Expected(b, sink.handle.id, job), sink.handle.id)
              && sink.emitted == old(sink.emitted) + Carried(b, job)
  {
    hide Free, Given, EndedWith, ReadBody, Conclusion, Frames, Reaches, View, Busy;
    var prepared := Prepare(b, job, sink, stream, quiet);
    ghost var now := View(sink, stream);
    match prepared {
      case Stopped(cause) =>
        item := Yields(Event.Cancelled(sink.handle.id, cause));
        Cancelling(sink, cause, stream);
        ReachesOn(old(View(sink, stream)), now, View(sink, stream));
      case Got(None) =>
        item := Error(Transport);
        Failing(sink, Transport, stream);
        ReachesOn(old(View(sink, stream)), now, View(sink, stream));
      case Got(Some(answer)) =>
        MarkRunning(sink, stream, quiet);
        ReachesOn(old(View(sink, stream)), now, View(sink, stream));
        now := View(sink, stream);
        match answer {
          case Accepted(waits) =>
            item := Read(b, waits, sink, stream, quiet);
            ReachesOn(old(View(sink, stream)), now, View(sink, stream));
          case Rejected(body) =>
            var collected := Within(sink, body, stream, quiet);
            ReachesOn(old(View(sink, stream)), now, View(sink, stream));
            now := View(sink, stream);
            if collected.Stopped? {
              item := Yields(Event.Cancelled(sink.handle.id, collected.cause));
              Cancelling(sink, collected.cause, stream);
              ReachesOn(old(View(sink, stream)), now, View(sink, stream));
            } else {
              item := Error(Refused);
              Failing(sink, Refused, stream);
              ReachesOn(old(View(sink, stream)), now, View(sink, stream));
            }
        }
    }
  }

  /**
   * One generation from its start. Whatever is interleaved, a consumer that goes on to
   * draw to the end has drawn the start, what was emitted and the one end decided on,
   * which says how the request ended; and unless the request was stopped, what was
   * emitted and the end are what the exchange as a whole says.
   */
  method StartGeneration(b: Backend, job: Job, handle: RequestHandle, ghost quiet: bool)
    returns (sink: GenerationSink, stream: GenerationStream, ghost item: Item)
    requires Valid(handle.Value()) && !Settled(handle.Value())
    modifies handle
    ensures stream.Joins(sink) && sink.handle == handle && EndedWith(sink, item)
    ensures forall m :: Reaches(View(sink, stream), m) && m.reader.finished ==>
              m.drawn == Body(handle.id, sink.emitted) + [item] && Truthful(item, handle.id, m.request)
    ensures if item.Yields? && item.event.Cancelled? then sink.emitted <= Carried(b, job)
            else Some(item) == Expected(b, handle.id, job) && sink.emitted == Carried(b, job)
    ensures quiet && old(handle.slot.None?) ==>
              item == Unhindered(Expected(b, handle.id, job), handle.id) && sink.emitted == Carried(b, job)
  {
    sink, stream := StreamHalves.Open(handle);
    ghost var start := View(sink, stream);
    InitialIsSound(start);
    item := Execute(b, job, sink, stream, quiet);
    ghost var done := View(sink, stream);
    Heard(start, done);
    assert [] + Carried(b, job) == Carried(b, job);
  }

  lemma Heard(start: Generation, done: Generation)
    requires Initial(start) && Reaches(start, done) && done.outcome.Some?
    ensures forall m :: Reaches(done, m) && m.reader.finished ==>
              m.drawn == Body(start.id, done.emitted) + [done.outcome.value]
              && Truthful(done.outcome.value, start.id, m.request)
  {
    hide Initial, Reaches;
    forall m | Reaches(done, m) && m.reader.finished
      ensures m.drawn == Body(start.id, done.emitted) + [done.outcome.value]
              && Truthful(done.outcome.value, start.id, m.request)
    {
      TheEndIsHeard(start, done, m);
    }
  }

  // --------------------------------------------------- what is expected, outright

  /** Frames arriving one after another, with trailers or without, and then `last`. */
  function Arriving(frames: seq<seq<Byte>>, last: seq<Work<Frame>>): seq<Work<Frame>> {
    if frames == [] then last else [Done(Data(frames[0]))] + Arriving(frames[1..], last)
  }

  lemma {:induction false} ArrivingFrames(frames: seq<seq<Byte>>, last: seq<Work<Frame>>)
    ensures Frames(Arriving(frames, last)) == frames + Frames(last)
    ensures Breaks(Arriving(frames, last)) <==> Breaks(last)
    ensures FallsSilent(Arriving(frames, last)) <==> FallsSilent(last)
    decreases |frames|
  {
    if frames == [] {
      assert [] + Frames(last) == Frames(last);
    } else {
      var all := Arriving(frames, last);
      assert all[0] == Done(Data(frames[0])) && all[1..] == Arriving(frames[1..], last);
      ArrivingFrames(frames[1..], last);
      assert frames == [frames[0]] + frames[1..];
    }
  }

  /**
   * A step that fails before the answer is a failed transport, a refusal is one, and
   * silence leaves nothing to expect.
   */
  lemma ExpectedBeforeTheBody(b: Backend, id: nat, job: Job)
    ensures !job.encoded ==> Expected(b, id, job) == Some(Error(Transport))
    ensures job.encoded && job.connected == Done(false) ==> Expected(b, id, job) == Some(Error(Transport))
    ensures job.encoded && job.connected == Silent ==> Expected(b, id, job) == None
    ensures job.encoded && job.connected == Done(true) ==>
              && (job.shaken == Done(false) ==> Expected(b, id, job) == Some(Error(Transport)))
              && (job.shaken == Silent ==> Expected(b, id, job) == None)
              && (job.shaken == Done(true) && !job.built ==> Expected(b, id, job) == Some(Error(Transport)))
    ensures job.encoded && job.connected == Done(true) && job.shaken == Done(true) && job.built ==>
              && (job.answer == Silent ==> Expected(b, id, job) == None)
              && (job.answer == Done(None) ==> Expected(b, id, job) == Some(Error(Transport)))
              && (job.answer == Done(Some(Rejected(Done(())))) ==> Expected(b, id, job) == Some(Error(Refused)))
              && (job.answer == Done(Some(Rejected(Silent))) ==> Expected(b, id, job) == None)
    ensures !(job.answer.Done? && job.answer.value.Some? && job.answer.value.value.Accepted?) ==> Carried(b, job) == []
  {
  }

  /** An exchange in which every step succeeds, up to a body that arrives as `waits`. */
  function Accepting(waits: seq<Work<Frame>>): Job {
    Job(true, Done(true), Done(true), true, Done(Some(Accepted(waits))))
  }

  /**
   * A body read to where it says it ends, or closed, ends as it says; one that goes on
   * until the connection breaks is a failed transport, and one that falls silent leaves
   * nothing to expect but the silence.
   */
  lemma ExpectedOfTheBody(b: Backend, id: nat, frames: seq<seq<Byte>>)
    ensures var d := ReadBody(b, frames).digest;
            && Carried(b, Accepting(Arriving(frames, [Done(End)]))) == d.deltas
            && Expected(b, id, Accepting(Arriving(frames, [Done(End)]))) == Some(Verdict(id, d))
            && Expected(b, id, Accepting(Arriving(frames, [Done(Broken)])))
               == Some(if d.end == Going then Error(Transport) else Verdict(id, d))
            && Expected(b, id, Accepting(Arriving(frames, [Silent])))
               == (if d.end == Going then None else Some(Verdict(id, d)))
            && Carried(b, Accepting(Arriving(frames, [Silent]))) == d.deltas
            && Expected(b, id, Accepting(Arriving(frames, [Done(Trailers), Done(End)]))) == Some(Verdict(id, d))
  {
    hide ReadBody, Verdict, Arriving;
    ArrivingFrames(frames, [Done(End)]);
    ArrivingFrames(frames, [Done(Broken)]);
    ArrivingFrames(frames, [Silent]);
    assert [Done(Trailers), Done(End)][1..] == [Done(End)];
    ArrivingFrames(frames, [Done(Trailers), Done(End)]);
    assert frames + [] == frames;
  }

  /**
   * The whole of a generation, told outright: a backend that accepts the request and
   * answers with `payloads` and its marker, written and framed as it likes, whatever the
   * connection does after. Left to itself, the stream is the start, the text of the first
   * choices in non-empty pieces, and a completion with the last reported reason.
   */
  method WholeGeneration(b: Backend, handle: RequestHandle, payloads: seq<Text>, marker: Text, ghost after: seq<Text>,
                         ghost script: seq<SseProofs.Writing>, ghost lines: seq<Sse.Ended>,
                         frames: seq<seq<Byte>>, last: Work<Frame>, ghost reporter: nat)
    returns (sink: GenerationSink, stream: GenerationStream, ghost end: Item)
    requires Valid(handle.Value()) && !Settled(handle.Value()) && handle.slot.None?
    requires WellEnded(b, payloads, marker) && ReportsLast(b, payloads, reporter)
    requires SseProofs.AllProper(script) && SseProofs.Says(script, [], payloads + [marker] + after)
    requires forall p <- payloads + [marker] + after :: SseProofs.Writable(p)
    requires Sse.Bare(lines) == SseProofs.SpelledAll(script) && Sse.Divides(lines, [])
    requires Sse.Flatten(frames) == Sse.Written(lines, []) && SseProofs.RoomThroughout(Sse.FRESH, frames)
    requires last in {Done(End), Done(Broken), Silent}
    modifies handle
    ensures handle.state == RequestState.Completed
    ensures var r := b.parse(payloads[reporter]).value;
            end == Yields(Event.Completed(handle.id,
                     Summary(FinishReasonFor(r.choices[0].finishReason.value), r.usage)))
    ensures Together(sink.emitted) == Together(FirstTexts(b, payloads))
    ensures forall i :: 0 <= i < |sink.emitted| ==> sink.emitted[i] != []
    ensures forall m :: Reaches(View(sink, stream), m) && m.reader.finished ==>
              m.drawn == Body(handle.id, sink.emitted) + [end]
  {
    hide SseProofs.AllProper, SseProofs.Says, SseProofs.Writable, Sse.Divides, Sse.Flatten, SseProofs.RoomThroughout;
    hide ReadBody, Expected, Carried, WellEnded, Together, FirstTexts, Reaches;
    var job := Accepting(Arriving(frames, [last]));
    ToldOutright(b, handle.id, payloads, marker, after, script, lines, frames);
    ExpectedOfTheMarked(b, handle.id, frames, last);
    sink, stream, end := StartGeneration(b, job, handle, true);
  }

  lemma ExpectedOfTheMarked(b: Backend, id: nat, frames: seq<seq<Byte>>, last: Work<Frame>)
    requires ReadBody(b, frames).digest.end == Marked && last in {Done(End), Done(Broken), Silent}
    ensures var d := ReadBody(b, frames).digest;
            && Expected(b, id, Accepting(Arriving(frames, [last]))) == Some(Verdict(id, d))
            && Carried(b, Accepting(Arriving(frames, [last]))) == d.deltas
  {
    hide ReadBody, Verdict, Arriving;
    ArrivingFrames(frames, [last]);
    assert frames + [] == frames;
  }
}
