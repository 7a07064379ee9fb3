/**
 * What the body of a streamed response says: the payloads its frames decode to, the text
 * they carry, and how the generation ended. How a payload is parsed, and which payload
 * marks the end, is the backend's format and is left open.
 */
module Bodies {
  import opened Wrappers
  import opened Sequences
  import opened Bytes
  import opened Streams
  import Sse
  import SseProofs

  datatype Choice = Choice(text: Text, finishReason: Option<string>)

  datatype Response = Response(choices: seq<Choice>, usage: Option<Usage>)

  datatype Backend = Backend(isDone: Text -> bool, parse: Text -> Option<Response>)

  function FinishReasonFor(reported: string): FinishReason {
    if reported == "stop" then Stop else if reported == "length" then Length else Other(reported)
  }

  /** What a response says of why generation stopped, if it says. */
  function Report(r: Response): Option<Summary> {
    if r.choices == [] || r.choices[0].finishReason.None? then None
    else Some(Summary(FinishReasonFor(r.choices[0].finishReason.value), r.usage))
  }

  /** The text of the first choice, unless it is empty. */
  function Content(r: Response): seq<Text> {
    if r.choices == [] || r.choices[0].text == [] then [] else [r.choices[0].text]
  }

  function Updated(terminal: Option<Summary>, r: Response): Option<Summary> {
    if Report(r).Some? then Report(r) else terminal
  }

  // ------------------------------------------------------- as it is processed

  datatype End = Going | Marked | Malformed

  datatype Digested = Digested(deltas: seq<Text>, terminal: Option<Summary>, end: End)

  /** Payloads taken one after another, up to the one that ends the reading. */
  function Digest(b: Backend, payloads: seq<Text>, terminal: Option<Summary>): Digested {
    if payloads == [] then Digested([], terminal, Going)
    else if b.isDone(payloads[0]) then Digested([], terminal, Marked)
    else match b.parse(payloads[0])
         case None => Digested([], terminal, Malformed)
         case Some(r) =>
           var others := Digest(b, payloads[1..], Updated(terminal, r));
           others.(deltas := Content(r) + others.deltas)
  }

  datatype Reading = Reading(decoder: Sse.Decoder, digest: Digested)

  const UNREAD_BODY := Reading(Sse.FRESH, Digested([], None, Going))

  function Then(first: Digested, second: Digested): Digested {
    second.(deltas := first.deltas + second.deltas)
  }

  /** One more frame. */
  function Absorb(b: Backend, r: Reading, chunk: seq<Byte>): Reading {
    match Sse.Push(r.decoder, chunk)
    case Ok(d, payloads) => Reading(d, Then(r.digest, Digest(b, payloads, r.digest.terminal)))
    case TooLong(d) => Reading(d, r.digest.(end := Malformed))
    case NotText(d) => Reading(d, r.digest.(end := Malformed))
  }

  /** Frames taken one after another; nothing is read once the reading has ended. */
  function ReadBody(b: Backend, chunks: seq<seq<Byte>>): Reading
    decreases |chunks|
  {
    if chunks == [] then UNREAD_BODY
    else
      var r := ReadBody(b, chunks[..|chunks| - 1]);
      if r.digest.end != Going then r else Absorb(b, r, chunks[|chunks| - 1])
  }

  /** How a stream whose body was read to its end finishes. */
  function Verdict(id: nat, digest: Digested): Item {
    if digest.end == Malformed then Error(MalformedEvent)
    else if digest.terminal.Some? then Yields(Event.Completed(id, digest.terminal.value))
    else Error(UnexpectedEnd)
  }

  // --------------------------------------------------------- as it is meant

  /** The first payload that is not an event: the marker, or one that cannot be parsed. */
  function Reach(b: Backend, payloads: seq<Text>): (k: nat)
    ensures k <= |payloads|
    ensures forall i :: 0 <= i < k ==> !b.isDone(payloads[i]) && b.parse(payloads[i]).Some?
    ensures k < |payloads| ==> b.isDone(payloads[k]) || b.parse(payloads[k]).None?
  {
    if payloads == [] || b.isDone(payloads[0]) || b.parse(payloads[0]).None? then 0
    else 1 + Reach(b, payloads[1..])
  }

  predicate Parsed(b: Backend, payloads: seq<Text>) {
    forall i :: 0 <= i < |payloads| ==> b.parse(payloads[i]).Some?
  }

  /** Everything the payloads carry, in order. */
  function Texts(b: Backend, payloads: seq<Text>): seq<Text>
    requires Parsed(b, payloads)
  {
    if payloads == [] then []
    else
      var n := |payloads| - 1;
      Texts(b, payloads[..n]) + Content(b.parse(payloads[n]).value)
  }

  /** What the last payload that says anything says about why generation stopped. */
  function LastReport(b: Backend, payloads: seq<Text>): Option<Summary>
    requires Parsed(b, payloads)
  {
    if payloads == [] then None
    else
      var n := |payloads| - 1;
      var last := Report(b.parse(payloads[n]).value);
      if last.Some? then last else LastReport(b, payloads[..n])
  }

  // ------------------------------------------------- a generation told outright

  /** A finish reason known to the runtime is named, and any other is carried as it was reported. */
  lemma FinishReasonsAreKept(reported: string, other: string)
    ensures reported == "stop" ==> FinishReasonFor(reported) == FinishReason.Stop
    ensures reported == "length" ==> FinishReasonFor(reported) == FinishReason.Length
    ensures reported != "stop" && reported != "length" ==> FinishReasonFor(reported) == FinishReason.Other(reported)
    ensures FinishReasonFor(reported) == FinishReasonFor(other) ==> reported == other
  {
  }

  /** What the first choices say, put together as one text. */
  function Together(texts: seq<Text>): Text {
    if texts == [] then [] else texts[0] + Together(texts[1..])
  }

  function FirstTexts(b: Backend, payloads: seq<Text>): (texts: seq<Text>)
    requires Parsed(b, payloads)
    ensures |texts| == |payloads|
    ensures forall i :: 0 <= i < |payloads| ==>
              var choices := b.parse(payloads[i]).value.choices;
              texts[i] == if choices == [] then [] else choices[0].text
  {
    seq(|payloads|, i requires 0 <= i < |payloads| =>
      var choices := b.parse(payloads[i]).value.choices;
      if choices == [] then [] else choices[0].text)
  }

  /** Payload `k` reports why generation stopped, and no later one does. */
  predicate ReportsLast(b: Backend, payloads: seq<Text>, k: nat)
    requires Parsed(b, payloads)
  {
    && k < |payloads|
    && Reporting(b.parse(payloads[k]).value)
    && forall j :: k < j < |payloads| ==> !Reporting(b.parse(payloads[j]).value)
  }

  predicate Reporting(r: Response) {
    r.choices != [] && r.choices[0].finishReason.Some?
  }

  lemma {:induction false} TogetherAppend(a: seq<Text>, c: seq<Text>)
    ensures Together(a + c) == Together(a) + Together(c)
    decreases |a|
  {
    if a == [] {
      assert a + c == c;
    } else {
      assert (a + c)[1..] == a[1..] + c;
      TogetherAppend(a[1..], c);
    }
  }

  /** What is delivered has no empty piece and is, put together, what the first choices say. */
  lemma {:induction false} DeliversTheText(b: Backend, payloads: seq<Text>)
    requires Parsed(b, payloads)
    ensures Together(Texts(b, payloads)) == Together(FirstTexts(b, payloads))
    ensures forall i :: 0 <= i < |Texts(b, payloads)| ==> Texts(b, payloads)[i] != []
    decreases |payloads|
  {
    if payloads != [] {
      hide Together, FirstTexts, Content;
      var n := |payloads| - 1;
      var r := b.parse(payloads[n]).value;
      DeliversTheText(b, payloads[..n]);
      ContentTogether(r);
      LastOfTheFirstTexts(b, payloads);
      TogetherAppend(FirstTexts(b, payloads[..n]), [FirstTexts(b, payloads)[n]]);
      TogetherAppend(Texts(b, payloads[..n]), Content(r));
      TogetherOne(FirstTexts(b, payloads)[n]);
    }
  }

  lemma ContentTogether(r: Response)
    ensures Together(Content(r)) == if r.choices == [] then [] else r.choices[0].text
    ensures forall text <- Content(r) :: text != []
  {
    if Content(r) != [] {
      TogetherOne(r.choices[0].text);
    }
  }

  lemma LastOfTheFirstTexts(b: Backend, payloads: seq<Text>)
    requires payloads != [] && Parsed(b, payloads)
    ensures var n := |payloads| - 1;
            FirstTexts(b, payloads) == FirstTexts(b, payloads[..n]) + [FirstTexts(b, payloads)[n]]
  {
    assert forall i :: 0 <= i < |payloads| - 1 ==> payloads[..|payloads| - 1][i] == payloads[i];
  }

  lemma TogetherOne(text: Text)
    ensures Together([text]) == text && Together([]) == []
  {
    assert [text][1..] == [];
  }

  /** The summary is that of the last payload that reports, and there is none exactly when none does. */
  lemma {:induction false} SummaryIsTheLast(b: Backend, payloads: seq<Text>)
    requires Parsed(b, payloads)
    ensures LastReport(b, payloads).None? <==>
              forall k :: 0 <= k < |payloads| ==> !Reporting(b.parse(payloads[k]).value)
    ensures forall k: nat :: ReportsLast(b, payloads, k) ==>
              var r := b.parse(payloads[k]).value;
              LastReport(b, payloads) == Some(Summary(FinishReasonFor(r.choices[0].finishReason.value), r.usage))
  {
    hide LastReport;
    NoneReports(b, payloads);
    forall k: nat | ReportsLast(b, payloads, k)
      ensures var r := b.parse(payloads[k]).value;
              && Reporting(r)
              && LastReport(b, payloads) == Some(Summary(FinishReasonFor(r.choices[0].finishReason.value), r.usage))
    {
      LastReportIs(b, payloads, k);
    }
  }

  lemma {:induction false} NoneReports(b: Backend, payloads: seq<Text>)
    requires Parsed(b, payloads)
    ensures LastReport(b, payloads).None? <==>
              forall k :: 0 <= k < |payloads| ==> !Reporting(b.parse(payloads[k]).value)
    decreases |payloads|
  {
    if payloads != [] {
      var n := |payloads| - 1;
      NoneReports(b, payloads[..n]);
      assert forall k :: 0 <= k < n ==> payloads[..n][k] == payloads[k];
    }
  }

  lemma {:induction false} LastReportIs(b: Backend, payloads: seq<Text>, k: nat)
    requires Parsed(b, payloads) && ReportsLast(b, payloads, k)
    ensures var r := b.parse(payloads[k]).value;
            && Reporting(r)
            && LastReport(b, payloads) == Some(Summary(FinishReasonFor(r.choices[0].finishReason.value), r.usage))
    decreases |payloads|
  {
    var n := |payloads| - 1;
    if k < n {
      assert !Reporting(b.parse(payloads[n]).value);
      LastReportIs(b, payloads[..n], k);
    }
  }

  // ------------------------------------------------------------------ proofs

  lemma {:induction false} DigestAppend(b: Backend, p: seq<Text>, q: seq<Text>, terminal: Option<Summary>)
    ensures var first := Digest(b, p, terminal);
            Digest(b, p + q, terminal)
            == if first.end != Going then first else Then(first, Digest(b, q, first.terminal))
    decreases |p|
  {
    if p == [] {
      assert p + q == q;
    } else {
      assert (p + q)[1..] == p[1..] + q;
      if !b.isDone(p[0]) && b.parse(p[0]).Some? {
        var r := b.parse(p[0]).value;
        DigestAppend(b, p[1..], q, Updated(terminal, r));
        var first := Digest(b, p[1..], Updated(terminal, r));
        if first.end == Going {
          Assoc(Content(r), first.deltas, Digest(b, q, first.terminal).deltas);
        }
      }
    }
  }

  /**
   * Processing payloads one by one comes to what they mean together: every text before
   * the first that is not an event, in order, and the last report among those.
   */
  lemma {:induction false} DigestMeans(b: Backend, payloads: seq<Text>)
    ensures var k := Reach(b, payloads);
            && Parsed(b, payloads[..k])
            && Digest(b, payloads, None)
               == Digested(Texts(b, payloads[..k]), LastReport(b, payloads[..k]),
                           if k == |payloads| then Going
                           else if b.isDone(payloads[k]) then Marked else Malformed)
  {
    hide Digest, Texts, LastReport;
    var k := Reach(b, payloads);
    EventsMean(b, payloads[..k]);
    if k == |payloads| {
      assert payloads[..k] == payloads;
    } else {
      var first := Digest(b, payloads[..k], None);
      DigestAppend(b, payloads[..k], payloads[k..], None);
      assert payloads[..k] + payloads[k..] == payloads;
      EndsAtFirst(b, payloads[k..], first.terminal);
      assert first.deltas + [] == first.deltas;
    }
  }

  lemma EndsAtFirst(b: Backend, payloads: seq<Text>, terminal: Option<Summary>)
    requires payloads != [] && (b.isDone(payloads[0]) || b.parse(payloads[0]).None?)
    ensures Digest(b, payloads, terminal)
         == Digested([], terminal, if b.isDone(payloads[0]) then Marked else Malformed)
  {
  }

  lemma {:induction false} EventsMean(b: Backend, payloads: seq<Text>)
    requires forall i :: 0 <= i < |payloads| ==> !b.isDone(payloads[i]) && b.parse(payloads[i]).Some?
    ensures Digest(b, payloads, None) == Digested(Texts(b, payloads), LastReport(b, payloads), Going)
    decreases |payloads|
  {
    if payloads != [] {
      var n := |payloads| - 1;
      var before, last := payloads[..n], payloads[n..];
      EventsMean(b, before);
      assert payloads == before + last;
      DigestAppend(b, before, last, None);
      assert last[1..] == [];
      var r := b.parse(payloads[n]).value;
      assert Content(r) + [] == Content(r);
    }
  }

  lemma {:induction false} FeedMore(d: Sse.Decoder, chunks: seq<seq<Byte>>, chunk: seq<Byte>)
    requires Sse.Feed(d, chunks + [chunk]).Ok?
    ensures Sse.Feed(d, chunks).Ok?
    ensures var first := Sse.Feed(d, chunks);
            var second := Sse.Push(first.decoder, chunk);
            second.Ok? && Sse.Feed(d, chunks + [chunk]) == Sse.Ok(second.decoder, first.events + second.events)
    decreases |chunks|
  {
    hide Sse.Push;
    var all := chunks + [chunk];
    if chunks == [] {
      assert all[0] == chunk && all[1..] == [];
      var second := Sse.Push(d, chunk);
      assert second.Ok?;
      assert second.events + [] == second.events && [] + second.events == second.events;
    } else {
      assert all[0] == chunks[0] && all[1..] == chunks[1..] + [chunk];
      var first := Sse.Push(d, chunks[0]);
      assert first.Ok?;
      FeedMore(first.decoder, chunks[1..], chunk);
      var mid := Sse.Feed(first.decoder, chunks[1..]);
      Assoc(first.events, mid.events, Sse.Push(mid.decoder, chunk).events);
    }
  }

  /** Reading frame by frame comes to digesting everything they decode to. */
  lemma {:induction false} ReadBodyIsDigest(b: Backend, chunks: seq<seq<Byte>>)
    requires Sse.Feed(Sse.FRESH, chunks).Ok?
    ensures ReadBody(b, chunks).digest == Digest(b, Sse.Feed(Sse.FRESH, chunks).events, None)
    ensures ReadBody(b, chunks).digest.end == Going ==>
              ReadBody(b, chunks).decoder == Sse.Feed(Sse.FRESH, chunks).decoder
    decreases |chunks|
  {
    hide Sse.Push;
    if chunks != [] {
      var n := |chunks| - 1;
      assert chunks == chunks[..n] + [chunks[n]];
      FeedMore(Sse.FRESH, chunks[..n], chunks[n]);
      ReadBodyIsDigest(b, chunks[..n]);
      var first := Sse.Feed(Sse.FRESH, chunks[..n]);
      DigestAppend(b, first.events, Sse.Push(first.decoder, chunks[n]).events, None);
    }
  }

  /**
   * However a body that decodes is split into frames, the same texts are delivered in
   * the same order and the stream ends the same way; and both are what the events that
   * the lines of the body spell say.
   */
  lemma EverySplitReadsAlike(b: Backend, id: nat, frames: seq<seq<Byte>>, others: seq<seq<Byte>>,
                             lines: seq<Sse.Ended>, rest: seq<Byte>)
    requires Sse.Flatten(frames) == Sse.Flatten(others)
    requires Sse.Feed(Sse.FRESH, frames).Ok? && Sse.Feed(Sse.FRESH, others).Ok?
    requires Sse.Divides(lines, rest) && Sse.Written(lines, rest) == Sse.Flatten(frames)
    ensures ReadBody(b, frames).digest == ReadBody(b, others).digest
    ensures ReadBody(b, frames).digest.end == Going ==> ReadBody(b, frames).decoder == ReadBody(b, others).decoder
    ensures var payloads := Sse.Events([], Sse.Bare(lines));
            var k := Reach(b, payloads);
            && Parsed(b, payloads[..k])
            && ReadBody(b, frames).digest.deltas == Texts(b, payloads[..k])
            && Verdict(id, ReadBody(b, frames).digest)
               == if k < |payloads| && !b.isDone(payloads[k]) then Error(MalformedEvent)
                  else if LastReport(b, payloads[..k]).Some?
                  then Yields(Event.Completed(id, LastReport(b, payloads[..k]).value))
                  else Error(UnexpectedEnd)
  {
    hide Sse.Feed, Sse.Flatten, Sse.Divides, Sse.Written, Sse.Events, Digest, ReadBody, Texts, LastReport;
    ReadBodyIsDigest(b, frames);
    ReadBodyIsDigest(b, others);
    SseProofs.SplitsAgree(Sse.FRESH, frames, others);
    DecodesToEvents(frames, lines, rest);
    DigestMeans(b, Sse.Events([], Sse.Bare(lines)));
  }

  lemma DecodesToEvents(frames: seq<seq<Byte>>, lines: seq<Sse.Ended>, rest: seq<Byte>)
    requires Sse.Feed(Sse.FRESH, frames).Ok?
    requires Sse.Divides(lines, rest) && Sse.Written(lines, rest) == Sse.Flatten(frames)
    ensures Sse.Feed(Sse.FRESH, frames).events == Sse.Events([], Sse.Bare(lines))
  {
    hide Sse.Drain, Sse.Feed, Sse.Flatten, Sse.Divides, Sse.Written, Sse.Events;
    SseProofs.FeedIsOneDrain(Sse.FRESH, frames);
    SseProofs.StreamRead(frames, lines, rest);
  }

  /** The payloads of a generation whose backend ends it with its marker, and nothing amiss before it. */
  predicate WellEnded(b: Backend, payloads: seq<Text>, marker: Text) {
    Parsed(b, payloads) && b.isDone(marker) && forall i :: 0 <= i < |payloads| ==> !b.isDone(payloads[i])
  }

  /**
   * A generation told outright: payloads and then the marker, written among whatever
   * comments and fields, in whatever frames that find room, deliver in order what the
   * first choices say, and end completed with the last reported reason and its usage, or
   * unexpectedly when none was reported; what follows the marker changes nothing.
   */
  lemma ToldOutright(b: Backend, id: nat, payloads: seq<Text>, marker: Text, after: seq<Text>,
                     script: seq<SseProofs.Writing>, lines: seq<Sse.Ended>, frames: seq<seq<Byte>>)
    requires WellEnded(b, payloads, marker)
    requires SseProofs.AllProper(script) && SseProofs.Says(script, [], payloads + [marker] + after)
    requires forall p <- payloads + [marker] + after :: SseProofs.Writable(p)
    requires Sse.Bare(lines) == SseProofs.SpelledAll(script) && Sse.Divides(lines, [])
    requires Sse.Flatten(frames) == Sse.Written(lines, []) && SseProofs.RoomThroughout(Sse.FRESH, frames)
    ensures var d := ReadBody(b, frames).digest;
            && d.end == Marked
            && Together(d.deltas) == Together(FirstTexts(b, payloads))
            && (forall i :: 0 <= i < |d.deltas| ==> d.deltas[i] != [])
            && (forall k: nat :: ReportsLast(b, payloads, k) ==>
                  var r := b.parse(payloads[k]).value;
                  Verdict(id, d) == Yields(Event.Completed(id,
                                      Summary(FinishReasonFor(r.choices[0].finishReason.value), r.usage))))
            && ((forall k :: 0 <= k < |payloads| ==> !Reporting(b.parse(payloads[k]).value)) ==>
                  Verdict(id, d) == Error(UnexpectedEnd))
  {
    hide Sse.Feed, Sse.Flatten, Sse.Divides, Sse.Written, SseProofs.RoomThroughout, SseProofs.Says, SseProofs.AllProper;
    hide SseProofs.SpelledAll, SseProofs.Writable, ReadBody, Digest, Texts, LastReport, Together, FirstTexts;
    var all := payloads + [marker] + after;
    SseProofs.SpokenPayloadsReadBack(script, all, lines, frames);
    ReadBodyIsDigest(b, frames);
    DigestMeans(b, all);
    assert all[|payloads|] == marker && all[..|payloads|] == payloads;
    assert forall i :: 0 <= i < |payloads| ==> all[i] == payloads[i];
    assert Reach(b, all) == |payloads|;
    DeliversTheText(b, payloads);
    SummaryIsTheLast(b, payloads);
  }

  // ----------------------------------------- where a split does show

  const DONE: Text := [0x5B, 0x44, 0x4F, 0x4E, 0x45, 0x5D]
  const NOT_TEXT: seq<Byte> := [0xFF]

  const MARKER: seq<Byte> := SseProofs.DataLine(DONE) + [Sse.LF, Sse.LF]
  const REMAINS: seq<Byte> := SseProofs.DataLine(NOT_TEXT) + [Sse.LF]

  lemma MarkerLines()
    ensures var lines := [Sse.Ended(SseProofs.DataLine(DONE), [Sse.LF]), Sse.Ended([], [Sse.LF])];
            && Sse.Written(lines, []) == MARKER
            && Sse.Bare(lines) == SseProofs.StreamLines([DONE])
  {
    var first, blank := Sse.Ended(SseProofs.DataLine(DONE), [Sse.LF]), Sse.Ended([], [Sse.LF]);
    assert [first, blank][1..] == [blank] && [blank][1..] == [];
    assert Sse.Written([blank], []) == [Sse.LF];
    assert MARKER == SseProofs.DataLine(DONE) + [Sse.LF] + [Sse.LF];
    assert Sse.Find(DONE, {Sse.LF}) == |DONE|;
    assert SseProofs.LinesOf(DONE) == [DONE];
    assert [DONE][1..] == [];
    assert SseProofs.DataLines([DONE]) == [SseProofs.DataLine(DONE)];
  }

  lemma DoneIsText()
    ensures SseProofs.EachWritable([DONE])
  {
    assert [DONE][1..] == [];
    assert DONE[6..] == [];
    assert ValidUtf8(DONE[5..]) && ValidUtf8(DONE[4..]) && ValidUtf8(DONE[3..]);
    assert ValidUtf8(DONE[2..]) && ValidUtf8(DONE[1..]);
  }

  lemma MarkerDecodes()
    ensures Sse.Push(Sse.FRESH, MARKER) == Sse.Ok(Sse.FRESH, [DONE])
  {
    hide Sse.Push;
    MarkerLines();
    DoneIsText();
    SseProofs.SmallInputHasRoom(Sse.FRESH, [MARKER]);
    assert Sse.Flatten([MARKER]) == MARKER;
    var lines := [Sse.Ended(SseProofs.DataLine(DONE), [Sse.LF]), Sse.Ended([], [Sse.LF])];
    SseProofs.WrittenPayloadsReadBack([DONE], lines, [MARKER]);
    assert [MARKER][1..] == [];
  }

  lemma ValuesOfThree(first: seq<Byte>, last: seq<Byte>)
    requires Sse.BreakFree(first) && Sse.BreakFree(last)
    ensures Sse.DataValues([SseProofs.DataLine(first), [], SseProofs.DataLine(last)]) == [first, last]
  {
    var a, c := SseProofs.DataLine(first), SseProofs.DataLine(last);
    SseProofs.DataLineReads(first);
    SseProofs.DataLineReads(last);
    hide SseProofs.DataLine, Sse.DataOf;
    assert [a, [], c] == [a] + ([[]] + ([c] + []));
    SseProofs.FirstValue(a, [[]] + ([c] + []));
    SseProofs.FirstValue([], [c] + []);
    SseProofs.FirstValue(c, []);
  }

  lemma RemainsDoNotDecode()
    ensures !Sse.Push(Sse.FRESH, MARKER + REMAINS).Ok?
  {
    hide Sse.Push, Sse.DataValues, Sse.DataOf, Sse.Events, Sse.Undispatched;
    var value := SseProofs.DataLine(NOT_TEXT);
    var first, blank := Sse.Ended(SseProofs.DataLine(DONE), [Sse.LF]), Sse.Ended([], [Sse.LF]);
    var last := Sse.Ended(value, [Sse.LF]);
    var lines := [first, blank, last];
    WrittenThree(first, blank, last);
    assert Sse.Written(lines, []) == MARKER + REMAINS;
    SseProofs.DataLineReads(DONE);
    SseProofs.DataLineReads(NOT_TEXT);
    SseProofs.FeedLinesDivide(lines);
    SseProofs.SmallInputHasRoom(Sse.FRESH, [MARKER + REMAINS]);
    assert [MARKER + REMAINS][1..] == [];
    assert Sse.Flatten([MARKER + REMAINS]) == MARKER + REMAINS;
    SseProofs.StreamRead([MARKER + REMAINS], lines, []);
    ValuesOfThree(DONE, NOT_TEXT);
    assert Sse.Bare(lines) == [first.line, [], value];
    assert !ValidUtf8(NOT_TEXT) && NOT_TEXT == Sse.DataValues(Sse.Bare(lines))[1];
  }

  lemma WrittenThree(first: Sse.Ended, second: Sse.Ended, third: Sse.Ended)
    ensures Sse.Written([first, second, third], [])
         == first.line + first.ending + (second.line + second.ending + (third.line + third.ending))
  {
    assert [first, second, third][1..] == [second, third] && [second, third][1..] == [third] && [third][1..] == [];
    assert Sse.Written([third], []) == third.line + third.ending;
    assert Sse.Written([second, third], []) == second.line + second.ending + Sse.Written([third], []);
  }

  lemma OneFrame(b: Backend, chunk: seq<Byte>)
    ensures ReadBody(b, [chunk]) == Absorb(b, UNREAD_BODY, chunk)
    ensures Sse.Flatten([chunk]) == chunk
  {
    assert [chunk][..0] == [] && [chunk][1..] == [];
  }

  /**
   * That both splits decode is needed: after the marker nothing is read, so bytes that do
   * not decode are met only when they share a frame with it.
   */
  lemma PastTheMarkerSplitsDiffer(b: Backend)
    requires b.isDone(DONE)
    ensures Sse.Flatten([MARKER + REMAINS]) == Sse.Flatten([MARKER, REMAINS])
    ensures ReadBody(b, [MARKER, REMAINS]).digest.end == Marked
    ensures ReadBody(b, [MARKER + REMAINS]).digest.end == Malformed
  {
    hide Sse.Push;
    MarkerDecodes();
    RemainsDoNotDecode();
    OneFrame(b, MARKER);
    OneFrame(b, MARKER + REMAINS);
    assert [MARKER, REMAINS][..1] == [MARKER] && [MARKER, REMAINS][1..] == [REMAINS];
    assert Sse.Flatten([REMAINS]) == REMAINS;
  }
}
