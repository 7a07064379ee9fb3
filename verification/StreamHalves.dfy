/**
 * The two halves of a generation's stream and the buffer between them. Every method is
 * one step of the machine, or two taken together, on what the halves jointly are.
 */
module StreamHalves {
  import opened Wrappers
  import opened Requests
  import opened Handles
  import opened Streams

  class Channel {
    var queue: seq<Item>
    /** Whether the consumer's half still exists. */
    var reading: bool
    /** Whether the producer's half still exists. */
    var feeding: bool

    constructor (first: Item)
      ensures Value() == Pipe([first], true, true)
    {
      queue, reading, feeding := [first], true, true;
    }

    ghost function Value(): Pipe
      reads this
    {
      Pipe(queue, reading, feeding)
    }

    method Offer(item: Item) returns (r: Poll<bool>)
      modifies this`queue
      ensures (Value(), r) == Streams.Offer(old(Value()), item)
      ensures r.Pending? <==> old(reading) && |old(queue)| >= 32
    {
      if !reading {
        return Ready(false);
      }
      if |queue| >= CAPACITY {
        return Pending;
      }
      queue := queue + [item];
      r := Ready(true);
    }
  }

  class GenerationSink {
    const handle: RequestHandle
    const channel: Channel
    var finished: bool
    /** How the stream ends, once that is decided, and until there was room to say so. */
    var ending: Option<Item>
    ghost var emitted: seq<Text>
    ghost var outcome: Option<Item>
    ghost var last: Option<Item>

    constructor (handle: RequestHandle, channel: Channel)
      ensures this.handle == handle && this.channel == channel
      ensures !finished && ending == None && emitted == [] && outcome == None && last == None
    {
      this.handle, this.channel, finished, ending := handle, channel, false, None;
      emitted, outcome, last := [], None, None;
    }

    ghost predicate Valid()
      reads this, channel
    {
      && (!finished ==> channel.feeding && ending.None?)
      && (finished ==> (channel.feeding <==> ending.Some?))
    }

    ghost function Value(): Sink
      reads this, channel
    {
      if !channel.feeding then Gone else if ending.Some? then Ending(ending.value) else Open
    }

    /** Emits text, if there is any; `false` means that nobody reads any more. */
    method Delta(text: Text, ghost stream: GenerationStream) returns (r: Poll<bool>)
      requires Valid() && stream.Joins(this)
      modifies this`emitted, channel`queue
      ensures Valid()
      ensures old(finished) ==> r == Ready(false) && View(this, stream) == old(View(this, stream))
      ensures !old(finished) ==>
                && View(this, stream) == Do(old(View(this, stream)), Emit(text))
                && r == (if text == [] then Ready(true)
                         else Streams.Offer(old(channel.Value()), Yields(TextDelta(handle.id, text))).1)
    {
      if finished {
        return Ready(false);
      }
      if text == [] {
        return Ready(true);
      }
      r := channel.Offer(Yields(TextDelta(handle.id, text)));
      if r == Ready(true) {
        emitted := emitted + [text];
      }
    }

    /** Sends the end that was decided on, as soon as there is room for it. */
    method Flush(ghost stream: GenerationStream) returns (r: Poll<()>)
      requires Valid() && stream.Joins(this) && Value().Ending?
      modifies this`ending, this`last, channel`queue, channel`feeding
      ensures Valid()
      ensures View(this, stream) == Do(old(View(this, stream)), Send)
      ensures r.Pending? <==> Value().Ending?
    {
      var sent := channel.Offer(ending.value);
      if sent.Pending? {
        return Pending;
      }
      last := if sent.value then ending else None;
      ending := None;
      channel.feeding := false;
      r := Ready(());
    }

    /** Decides the outcome, then starts sending it. */
    method Complete(summary: Summary, ghost stream: GenerationStream)
      requires Valid() && stream.Joins(this)
      modifies this, handle, channel`queue, channel`feeding
      ensures Valid() && finished
      ensures old(finished) ==> View(this, stream) == old(View(this, stream))
      ensures !old(finished) ==>
                View(this, stream) == Do(Do(old(View(this, stream)), Step.Complete(summary)), Send)
    {
      if finished {
        return;
      }
      finished := true;
      var _ := handle.Finish(RequestState.Completed);
      ending := Some(Yields(Event.Completed(handle.id, summary)));
      outcome := ending;
      var _ := Flush(stream);
    }

    /** The reason goes on record first, then the outcome; a cause that was there already stays. */
    method Cancel(cause: Cause, ghost stream: GenerationStream)
      requires Valid() && stream.Joins(this)
      modifies this, handle, channel`queue, channel`feeding
      ensures Valid() && finished
      ensures old(finished) ==> View(this, stream) == old(View(this, stream))
      ensures !old(finished) ==>
                View(this, stream) == Do(Do(Do(old(View(this, stream)), Step.Cancel(cause)), RecordStop), Send)
    {
      if finished {
        return;
      }
      finished := true;
      var _ := handle.RequestCancellation(cause);
      var _ := handle.Finish(RequestState.Cancelled);
      ending := Some(Yields(Event.Cancelled(handle.id, cause)));
      outcome := ending;
      var _ := Flush(stream);
    }

    method Fail(error: StreamError, ghost stream: GenerationStream)
      requires Valid() && stream.Joins(this)
      modifies this, handle, channel`queue, channel`feeding
      ensures Valid() && finished
      ensures old(finished) ==> View(this, stream) == old(View(this, stream))
      ensures !old(finished) ==>
                View(this, stream) == Do(Do(old(View(this, stream)), Step.Fail(error)), Send)
    {
      if finished {
        return;
      }
      finished := true;
      var _ := handle.Finish(Failed);
      ending := Some(Error(error));
      outcome := ending;
      var _ := Flush(stream);
    }

    /**
     * The producer is gone. Without having said how it ended, it fails its request first;
     * with an end that still waited for room, that end is never sent.
     */
    method Drop(ghost stream: GenerationStream)
      requires Valid() && stream.Joins(this)
      modifies this, handle, channel`feeding
      ensures Valid() && !channel.feeding
      ensures !old(finished) ==> View(this, stream) == Do(Do(old(View(this, stream)), Vanish), Close)
      ensures old(finished) ==>
                View(this, stream) == if old(Value()).Ending? then Abandoned(old(View(this, stream)))
                                      else old(View(this, stream))
    {
      if !finished {
        var _ := handle.Finish(Failed);
      }
      finished, ending := true, None;
      channel.feeding := false;
    }
  }

  class GenerationStream {
    const handle: RequestHandle
    const channel: Channel
    var deltas: nat
    var completed: bool
    var cancelled: Option<Cause>
    var finished: bool
    ghost var drawn: seq<Item>

    constructor (handle: RequestHandle, channel: Channel)
      ensures this.handle == handle && this.channel == channel && Value() == UNREAD && drawn == []
    {
      this.handle, this.channel := handle, channel;
      deltas, completed, cancelled, finished, drawn := 0, false, None, false, [];
    }

    ghost predicate Joins(sink: GenerationSink) {
      handle == sink.handle && channel == sink.channel
    }

    ghost function Value(): Reader
      reads this
    {
      Reader(deltas, completed, cancelled, finished)
    }

    /** The next item, or that there will be none, or that there is none yet. */
    method Next(ghost sink: GenerationSink) returns (r: Poll<Option<Item>>)
      requires Joins(sink) && channel.reading
      modifies this, handle`state, channel`queue
      ensures View(sink, this) == Do(old(View(sink, this)), Step.Next)
      ensures r == Draw(old(Value()), old(channel.Value()), old(handle.Value())).result
    {
      if finished {
        return Ready(None);
      }
      if channel.queue == [] {
        if channel.feeding {
          return Pending;
        }
        finished := true;
        var _ := handle.Finish(Failed);
        drawn := drawn + [Error(UnexpectedEnd)];
        return Ready(Some(Error(UnexpectedEnd)));
      }
      var item := channel.queue[0];
      channel.queue := channel.queue[1..];
      drawn := drawn + [item];
      match item {
        case Error(_) => finished := true;
        case Yields(event) =>
          match event {
            case Started(_) =>
            case TextDelta(_, _) => deltas := deltas + 1;
            case Completed(_, _) => completed, finished := true, true;
            case Cancelled(_, cause) => cancelled, finished := Some(cause), true;
          }
      }
      r := Ready(Some(item));
    }

    method Drop(ghost sink: GenerationSink)
      requires Joins(sink) && channel.reading
      modifies channel`queue, channel`reading
      ensures View(sink, this) == Do(old(View(sink, this)), Leave)
    {
      channel.queue, channel.reading := [], false;
    }
  }

  /** What the two halves, the buffer and the request are together. */
  ghost function View(sink: GenerationSink, stream: GenerationStream): Generation
    reads sink, sink.handle, sink.channel, stream
  {
    Generation(sink.handle.id, sink.handle.Value(), sink.Value(), sink.channel.Value(), stream.Value(),
               sink.emitted, sink.outcome, sink.last, stream.drawn)
  }

  /** Opens a stream for a request that has just been accepted. */
  method Open(handle: RequestHandle) returns (sink: GenerationSink, stream: GenerationStream)
    requires Valid(handle.Value()) && !Settled(handle.Value())
    ensures fresh(sink) && fresh(stream) && fresh(sink.channel) && sink.handle == handle
    ensures sink.Valid() && stream.Joins(sink)
    ensures Initial(View(sink, stream))
  {
    var channel := new Channel(Yields(Started(handle.id)));
    sink := new GenerationSink(handle, channel);
    stream := new GenerationStream(handle, channel);
  }
}
