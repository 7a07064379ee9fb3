/**
 * A generation's event stream: a bounded buffer between the sink a backend emits into
 * and the stream a consumer draws from, sharing one request. First what each operation
 * does, then a machine whose steps are those operations in any order.
 */
module Streams {
  import opened Wrappers
  import opened Bytes
  import opened Requests

  type Text = seq<Byte>

  const CAPACITY: nat := 32

  datatype FinishReason = Stop | Length | Other(reason: string)

  datatype Usage = Usage(inputTokens: U64, outputTokens: U64)

  datatype Summary = Summary(finishReason: FinishReason, usage: Option<Usage>)

  datatype Event =
    | Started(request: nat)
    | TextDelta(request: nat, text: Text)
    | Completed(request: nat, summary: Summary)
    | Cancelled(request: nat, cause: Cause)

  datatype StreamError = Refused | MalformedEvent | UnexpectedEnd | Transport

  datatype Item = Yields(event: Event) | Error(error: StreamError)

  predicate EndsStream(item: Item) {
    item.Error? || item.event.Completed? || item.event.Cancelled?
  }

  // ------------------------------------------------------------- operations

  /** What an operation that may have to wait has to say now. */
  datatype Poll<+T> = Pending | Ready(value: T)

  /** The buffer, whether anyone still reads from it, and whether anyone still may write to it. */
  datatype Pipe = Pipe(queue: seq<Item>, reading: bool, feeding: bool)

  /** What the consumer's half keeps of what it has drawn. */
  datatype Reader = Reader(deltas: nat, completed: bool, cancelled: Option<Cause>, finished: bool)

  const UNREAD := Reader(0, false, None, false)

  function Offer(p: Pipe, item: Item): (Pipe, Poll<bool>) {
    if !p.reading then (p, Ready(false))
    else if |p.queue| >= CAPACITY then (p, Pending)
    else (p.(queue := p.queue + [item]), Ready(true))
  }

  function Leaving(p: Pipe): Pipe {
    p.(queue := [], reading := false)
  }

  function Noting(r: Reader, item: Item): Reader {
    match item
    case Error(_) => r.(finished := true)
    case Yields(Started(_)) => r
    case Yields(TextDelta(_, _)) => r.(deltas := r.deltas + 1)
    case Yields(Completed(_, _)) => r.(completed := true, finished := true)
    case Yields(Cancelled(_, cause)) => r.(cancelled := Some(cause), finished := true)
  }

  datatype Drawing = Drawing(reader: Reader, pipe: Pipe, request: Request, result: Poll<Option<Item>>)

  /** The next item; a producer gone without a word is reported, and nothing comes after an end. */
  function Draw(r: Reader, p: Pipe, q: Request): Drawing {
    if r.finished then Drawing(r, p, q, Ready(None))
    else if p.queue != [] then
      Drawing(Noting(r, p.queue[0]), p.(queue := p.queue[1..]), q, Ready(Some(p.queue[0])))
    else if p.feeding then Drawing(r, p, q, Pending)
    else Drawing(r.(finished := true), p, Apply(q, Finish(Failed)).0, Ready(Some(Error(UnexpectedEnd))))
  }

  predicate Demonstrated(r: Reader) {
    r.completed && r.deltas > 0
  }

  // ---------------------------------------------------------------- machine

  /** Where the producing half is: an end is recorded on the request before it is sent. */
  datatype Sink =
    | Open
    | Stopping(cause: Cause)
    | Ending(item: Item)
    | Vanishing
    | Gone

  /**
   * `emitted` are the texts put into the buffer, `outcome` the end that was decided on,
   * `last` the item that ended the buffer, and `drawn` what the consumer has been given,
   * oldest first.
   */
  datatype Generation = Generation(
    id: nat,
    request: Request,
    sink: Sink,
    pipe: Pipe,
    reader: Reader,
    emitted: seq<Text>,
    outcome: Option<Item>,
    last: Option<Item>,
    drawn: seq<Item>)

  datatype Step =
    | Act(action: Action)
    | Emit(text: Text)
    | Complete(summary: Summary)
    | Cancel(cause: Cause)
    | RecordStop
    | Fail(error: StreamError)
    | Send
    | Vanish
    | Close
    | Next
    | Leave

  /** The reasons a producer gives for stopping: the recorded one, or that nobody reads any more. */
  predicate Warranted(q: Request, p: Pipe, cause: Cause) {
    q.cause == Some(cause) || (!p.reading && cause == ConsumerGone)
  }

  predicate Warrants(g: Generation, step: Step) {
    step.Cancel? ==> Warranted(g.request, g.pipe, step.cause)
  }

  predicate Enabled(g: Generation, step: Step) {
    match step
    case Act(action) => !action.Finish?
    case Emit(_) => g.sink.Open?
    case Complete(_) => g.sink.Open?
    case Cancel(_) => g.sink.Open?
    case RecordStop => g.sink.Stopping?
    case Fail(_) => g.sink.Open?
    case Send => g.sink.Ending?
    case Vanish => g.sink.Open?
    case Close => g.sink.Vanishing?
    case Next => g.pipe.reading
    case Leave => g.pipe.reading
  }

  function Acted(g: Generation, action: Action): Generation {
    g.(request := Apply(g.request, action).0)
  }

  function Do(g: Generation, step: Step): Generation
    requires Enabled(g, step)
  {
    match step
    case Act(action) => Acted(g, action)
    case Emit(text) => Emitting(g, text)
    case Complete(summary) => Deciding(g, RequestState.Completed, Yields(Event.Completed(g.id, summary)))
    case Cancel(cause) => Acted(g, RequestCancellation(cause)).(sink := Stopping(cause))
    case RecordStop => Deciding(g, RequestState.Cancelled, Yields(Event.Cancelled(g.id, g.sink.cause)))
    case Fail(error) => Deciding(g, Failed, Error(error))
    case Send => Sending(g)
    case Vanish => Acted(g, Finish(Failed)).(sink := Vanishing)
    case Close => g.(sink := Gone, pipe := g.pipe.(feeding := false))
    case Next => Taking(g)
    case Leave => g.(pipe := Leaving(g.pipe))
  }

  function Deciding(g: Generation, state: RequestState, item: Item): Generation {
    Acted(g, Finish(state)).(sink := Ending(item), outcome := Some(item))
  }

  function Emitting(g: Generation, text: Text): Generation {
    if text == [] then g
    else
      var (pipe, r) := Offer(g.pipe, Yields(TextDelta(g.id, text)));
      if r == Ready(true) then g.(pipe := pipe, emitted := g.emitted + [text]) else g
  }

  function Sending(g: Generation): Generation
    requires g.sink.Ending?
  {
    var (pipe, r) := Offer(g.pipe, g.sink.item);
    if r.Pending? then g
    else g.(sink := Gone, pipe := pipe.(feeding := false), last := if r.value then Some(g.sink.item) else None)
  }

  function Taking(g: Generation): Generation {
    var d := Draw(g.reader, g.pipe, g.request);
    g.(reader := d.reader, pipe := d.pipe, request := d.request,
       drawn := if d.result.Ready? && d.result.value.Some? then g.drawn + [d.result.value.value] else g.drawn)
  }

  /** What a producer that goes while its end waits for room leaves behind; no step of a run does this. */
  function Abandoned(g: Generation): Generation {
    g.(sink := Gone, pipe := g.pipe.(feeding := false))
  }

  /** The consumer asking `n` times in a row. */
  function TakenTimes(g: Generation, n: nat): Generation
    decreases n
  {
    if n == 0 then g else TakenTimes(Taking(g), n - 1)
  }

  predicate Initial(g: Generation) {
    && Valid(g.request) && !Settled(g.request)
    && g.sink == Open && g.pipe == Pipe([Yields(Started(g.id))], true, true)
    && g.reader == UNREAD && g.emitted == [] && g.outcome == None && g.last == None && g.drawn == []
  }

  /** A run, by a producer that gives no reason for stopping but the warranted ones. */
  predicate IsRun(states: seq<Generation>, steps: seq<Step>) {
    && |states| == |steps| + 1
    && Initial(states[0])
    && forall i :: 0 <= i < |steps| ==>
         Enabled(states[i], steps[i]) && Warrants(states[i], steps[i]) && states[i + 1] == Do(states[i], steps[i])
  }

  /** `steps` lead from `g` to `n`. */
  ghost predicate Leads(g: Generation, steps: seq<Step>, n: Generation)
    decreases |steps|
  {
    if steps == [] then g == n
    else Enabled(g, steps[0]) && Warrants(g, steps[0]) && Leads(Do(g, steps[0]), steps[1..], n)
  }

  ghost predicate Reaches(g: Generation, n: Generation) {
    exists steps :: Leads(g, steps, n)
  }

  // ------------------------------------------------------------- who else acts

  /** A step the producer has no part in. */
  predicate ByOthers(step: Step) {
    step.Act? || step.Next? || step.Leave?
  }

  predicate OthersOnly(steps: seq<Step>) {
    forall i :: 0 <= i < |steps| ==> ByOthers(steps[i])
  }

  ghost predicate ReachedByOthers(g: Generation, n: Generation) {
    exists steps :: OthersOnly(steps) && Leads(g, steps, n)
  }

  /** The producer is at work: it has decided on no end, and nobody else can end the request. */
  predicate Producing(g: Generation) {
    g.sink.Open? && g.pipe.feeding && Valid(g.request) && !Settled(g.request)
  }

  predicate IsSuffix(s: seq<Item>, of: seq<Item>) {
    |s| <= |of| && s == of[|of| - |s|..]
  }

  /** What others can have done while the producer waits: acted on the request, never ended it, and drawn or left. */
  predicate Elapsed(q: Request, p: Pipe, r: Request, n: Pipe) {
    && Later(q, r)
    && (Valid(q) ==> Valid(r))
    && (Settled(r) <==> Settled(q))
    && n.feeding == p.feeding
    && (n.reading ==> p.reading)
    && IsSuffix(n.queue, p.queue)
  }

  // ----------------------------------------------------------- what is meant

  function Deltas(id: nat, texts: seq<Text>): (items: seq<Item>)
    ensures |items| == |texts|
    ensures forall i :: 0 <= i < |texts| ==> items[i] == Yields(TextDelta(id, texts[i]))
  {
    seq(|texts|, i requires 0 <= i < |texts| => Yields(TextDelta(id, texts[i])))
  }

  /** Everything a stream says before it ends. */
  function Body(id: nat, texts: seq<Text>): seq<Item> {
    [Yields(Started(id))] + Deltas(id, texts)
  }

  /** `item` says of how the request ended what the request itself says. */
  predicate Truthful(item: Item, id: nat, q: Request) {
    match item
    case Error(_) => q.state == Failed
    case Yields(Completed(request, _)) => request == id && q.state == RequestState.Completed
    case Yields(Cancelled(request, cause)) =>
      request == id && q.state == RequestState.Cancelled && q.cause == Some(cause)
    case _ => false
  }

  // -------------------------------------------------------------- invariant

  ghost predicate SinkSound(g: Generation) {
    match g.sink
    case Open => !Settled(g.request) && g.pipe.feeding && g.outcome.None?
    case Stopping(cause) =>
      && !Settled(g.request) && g.pipe.feeding && g.outcome.None?
      && (g.pipe.reading ==> g.request.cause == Some(cause))
    case Ending(item) =>
      && Settled(g.request) && g.pipe.feeding && EndsStream(item) && g.outcome == Some(item)
      && (g.pipe.reading ==> Truthful(item, g.id, g.request))
    case Vanishing => g.request.state == Failed && g.pipe.feeding && g.outcome.None?
    case Gone =>
      && Settled(g.request) && !g.pipe.feeding
      && (g.last.None? && g.pipe.reading ==> g.request.state == Failed && g.outcome.None?)
  }

  function Sent(g: Generation): seq<Item> {
    Body(g.id, g.emitted) + if g.last.Some? then [g.last.value] else []
  }

  ghost predicate PipeSound(g: Generation) {
    && |g.pipe.queue| <= CAPACITY
    && (forall i :: 0 <= i < |g.emitted| ==> g.emitted[i] != [])
    && (g.last.Some? ==>
          g.sink.Gone? && g.outcome == g.last && EndsStream(g.last.value) && Truthful(g.last.value, g.id, g.request))
    && (!g.reader.finished ==> g.drawn <= Body(g.id, g.emitted))
    && (!g.reader.finished && g.pipe.reading ==> g.drawn + g.pipe.queue == Sent(g))
  }

  /** What has been drawn, once the stream has ended, and what the reader made of it. */
  ghost predicate ReaderSound(g: Generation) {
    if g.reader.finished then
      && g.sink.Gone?
      && |g.drawn| == |g.emitted| + 2
      && var t := g.drawn[|g.drawn| - 1];
         && g.drawn == Body(g.id, g.emitted) + [t]
         && EndsStream(t) && Truthful(t, g.id, g.request)
         && t == (if g.outcome.Some? then g.outcome.value else Error(UnexpectedEnd))
         && g.reader.deltas == |g.emitted|
         && (g.reader.completed <==> t.Yields? && t.event.Completed?)
         && g.reader.cancelled == (if t.Yields? && t.event.Cancelled? then Some(t.event.cause) else None)
    else
      g.reader == UNREAD.(deltas := if g.drawn == [] then 0 else |g.drawn| - 1)
  }

  ghost predicate Inv(g: Generation) {
    Valid(g.request) && SinkSound(g) && PipeSound(g) && ReaderSound(g)
  }
}
