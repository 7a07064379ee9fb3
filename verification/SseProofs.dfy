/**
 * The decoder yields what the stream says, however it is split; and what was written
 * as events is read back.
 */
module SseProofs {
  import opened Wrappers
  import opened Sequences
  import opened Bytes
  import opened Sse

  // ------------------------------------------------------ splits do not matter

  lemma FindExtends(a: seq<Byte>, b: seq<Byte>, stops: set<Byte>)
    requires Find(a, stops) < |a|
    ensures Find(a + b, stops) == Find(a, stops)
  {
    var i, j := Find(a, stops), Find(a + b, stops);
    assert (a + b)[i] == a[i];
    if j < i {
      assert (a + b)[j] == a[j];
    }
  }

  lemma TakeLineExtends(buffer: seq<Byte>, more: seq<Byte>)
    requires TakeLine(buffer).Some?
    ensures var c := TakeLine(buffer).value;
            TakeLine(buffer + more) == Some(Cut(c.line, c.ending, c.rest + more))
  {
    FindExtends(buffer, more, {LF, CR});
    var i := Find(buffer, {LF, CR});
    assert (buffer + more)[..i] == buffer[..i];
    assert (buffer + more)[i + 1..] == buffer[i + 1..] + more;
    if i + 2 <= |buffer| {
      assert (buffer + more)[i + 2..] == buffer[i + 2..] + more;
    }
  }

  /** One turn of the loop. */
  lemma DrainStep(d: Decoder)
    requires TakeLine(d.buffer).Some?
    ensures var cut := TakeLine(d.buffer).value;
            match Consume(d.(buffer := cut.rest), cut.line)
            case Invalid => Drain(d) == Drained(d.(buffer := cut.rest), [], true)
            case Quiet(next) => Drain(d) == Drain(next)
            case Event(next, event) => Drain(d) == Drain(next).(events := [event] + Drain(next).events)
  {
    hide Consume, TakeLine;
  }

  lemma DrainNothing(d: Decoder)
    requires TakeLine(d.buffer).None?
    ensures Drain(d) == Drained(d, [], false)
  {
  }

  /** Draining, then feeding more and draining again, is draining once with everything. */
  lemma {:induction false} DrainAppend(d: Decoder, more: seq<Byte>)
    ensures var first := Drain(d);
            var whole := Drain(Fed(d, more));
            if first.failed then whole.failed && whole.events == first.events
            else
              var second := Drain(Fed(first.decoder, more));
              whole == second.(events := first.events + second.events)
    decreases |d.buffer|
  {
    hide Consume, TakeLine, Drain;
    match TakeLine(d.buffer)
    case None =>
      DrainNothing(d);
      var whole := Drain(Fed(d, more));
      assert [] + whole.events == whole.events;
    case Some(cut) =>
      TakeLineShrinks(d.buffer);
      TakeLineExtends(d.buffer, more);
      var here := d.(buffer := cut.rest);
      ConsumeIgnoresBuffer(here, cut.line, cut.rest + more);
      DrainStep(d);
      DrainStep(Fed(d, more));
      match Consume(here, cut.line)
      case Invalid =>
      case Quiet(next) => DrainAppend(next, more);
      case Event(next, event) =>
        DrainAppend(next, more);
        Assoc([event], Drain(next).events, Drain(Fed(Drain(next).decoder, more)).events);
  }

  lemma ConsumeIgnoresBuffer(d: Decoder, line: seq<Byte>, buffer: seq<Byte>)
    ensures var other := Consume(d.(buffer := buffer), line);
            match Consume(d, line)
            case Invalid => other == Invalid
            case Quiet(next) => next.buffer == d.buffer && other == Quiet(next.(buffer := buffer))
            case Event(next, event) => next.buffer == d.buffer && other == Event(next.(buffer := buffer), event)
  {
  }

  /** No complete line is left over, which is exactly that the buffer is unfinished. */
  lemma NothingToTake(buffer: seq<Byte>)
    ensures TakeLine(buffer).None? <==> Unfinished(buffer)
  {
    var i := Find(buffer, {LF, CR});
    if i == |buffer| {
      assert BreakFree(buffer);
    } else {
      assert buffer[i] in buffer;
      if i + 1 == |buffer| {
        assert BreakFree(buffer[..i]);
      } else if i < |buffer| - 1 {
        assert buffer[..|buffer| - 1][i] in buffer[..|buffer| - 1];
      }
    }
  }

  lemma DrainFinished(d: Decoder)
    requires Unfinished(d.buffer)
    ensures Drain(d) == Drained(d, [], false)
  {
    NothingToTake(d.buffer);
  }

  lemma {:induction false} DrainLeavesNoLine(d: Decoder)
    requires !Drain(d).failed
    ensures Unfinished(Drain(d).decoder.buffer)
    ensures Drain(Drain(d).decoder) == Drained(Drain(d).decoder, [], false)
    decreases |d.buffer|
  {
    hide Consume;
    NothingToTake(d.buffer);
    match TakeLine(d.buffer)
    case None =>
    case Some(cut) =>
      TakeLineShrinks(d.buffer);
      var here := d.(buffer := cut.rest);
      ConsumeIgnoresBuffer(here, cut.line, cut.rest);
      match Consume(here, cut.line)
      case Invalid =>
      case Quiet(next) => DrainLeavesNoLine(next);
      case Event(next, _) => DrainLeavesNoLine(next);
  }

  function Total(events: seq<Text>): nat {
    if events == [] then 0 else |events[0]| + Total(events[1..])
  }

  lemma ConsumeConserves(d: Decoder, line: seq<Byte>)
    ensures match Consume(d, line)
            case Invalid => true
            case Quiet(next) => |next.data| <= |d.data| + |line| && next.buffer == d.buffer
            case Event(next, event) => |next.data| + |event| <= |d.data| && next.buffer == d.buffer
  {
  }

  /** Nothing is made up: what is held and what was handed out never exceeds what came in. */
  lemma {:induction false} DrainConserves(d: Decoder)
    ensures var r := Drain(d);
            |r.decoder.buffer| + |r.decoder.data| + Total(r.events) <= |d.buffer| + |d.data|
    decreases |d.buffer|
  {
    hide Consume, TakeLine;
    match TakeLine(d.buffer)
    case None =>
    case Some(cut) =>
      TakeLineShrinks(d.buffer);
      var here := d.(buffer := cut.rest);
      ConsumeConserves(here, cut.line);
      match Consume(here, cut.line)
      case Invalid =>
      case Quiet(next) => DrainConserves(next);
      case Event(next, event) =>
        DrainConserves(next);
        assert ([event] + Drain(next).events)[1..] == Drain(next).events;
  }

  /** After a push that succeeded, what is held is bounded and holds no complete line. */
  lemma HeldAfterPush(d: Decoder, chunk: seq<Byte>)
    requires Push(d, chunk).Ok?
    ensures var held := Push(d, chunk).decoder;
            && |held.buffer| + |held.data| <= 0x100_0000
            && Unfinished(held.buffer)
  {
    DrainConserves(Fed(d, chunk));
    DrainLeavesNoLine(Fed(d, chunk));
  }

  /** No chunk of the split meets a decoder too full for it. */
  predicate RoomThroughout(d: Decoder, chunks: seq<seq<Byte>>) {
    forall i :: 0 <= i < |chunks| ==> !Overflows(Drain(Fed(d, Flatten(chunks[..i]))).decoder, chunks[i])
  }

  lemma FlattenFirst(chunks: seq<seq<Byte>>, i: nat)
    requires chunks != [] && i < |chunks|
    ensures Flatten(chunks[..i + 1]) == chunks[0] + Flatten(chunks[1..][..i])
  {
    assert chunks[..i + 1][1..] == chunks[1..][..i];
  }

  lemma FedTwice(d: Decoder, a: seq<Byte>, b: seq<Byte>)
    ensures Fed(Fed(d, a), b) == Fed(d, a + b)
  {
    assert (d.buffer + a) + b == d.buffer + (a + b);
  }

  lemma RoomFromFirst(d: Decoder, chunks: seq<seq<Byte>>)
    requires chunks != [] && Unfinished(d.buffer) && !Drain(Fed(d, chunks[0])).failed
    ensures RoomThroughout(d, chunks)
       <==> !Overflows(d, chunks[0]) && RoomThroughout(Drain(Fed(d, chunks[0])).decoder, chunks[1..])
  {
    hide Drain, Overflows, Unfinished;
    var next := Drain(Fed(d, chunks[0])).decoder;
    DrainFinished(d);
    assert Fed(d, Flatten(chunks[..0])) == d;
    forall i | 0 <= i < |chunks| - 1
      ensures Drain(Fed(d, Flatten(chunks[..i + 1]))).decoder == Drain(Fed(next, Flatten(chunks[1..][..i]))).decoder
      ensures chunks[1..][i] == chunks[i + 1]
    {
      FlattenFirst(chunks, i);
      DrainAppend(Fed(d, chunks[0]), Flatten(chunks[1..][..i]));
      FedTwice(d, chunks[0], Flatten(chunks[1..][..i]));
    }
    forall i | 0 <= i < |chunks|
      ensures i == 0 || (chunks[i] == chunks[1..][i - 1]
                         && Drain(Fed(d, Flatten(chunks[..i]))).decoder
                            == Drain(Fed(next, Flatten(chunks[1..][..i - 1]))).decoder)
    {
      if i > 0 {
        var j := i - 1;
        assert chunks[..j + 1] == chunks[..i];
      }
    }
  }

  /**
   * Feeding chunks succeeds exactly when each finds room and the whole stream is text,
   * and then yields what one drain of all the bytes yields.
   */
  lemma {:induction false} FeedIsOneDrain(d: Decoder, chunks: seq<seq<Byte>>)
    requires Unfinished(d.buffer)
    ensures var whole := Drain(Fed(d, Flatten(chunks)));
            && (Feed(d, chunks).Ok? <==> RoomThroughout(d, chunks) && !whole.failed)
            && (Feed(d, chunks).Ok? ==> Feed(d, chunks) == Ok(whole.decoder, whole.events))
    decreases |chunks|
  {
    hide Drain, Overflows, Unfinished, RoomThroughout;
    if chunks == [] {
      DrainFinished(d);
      assert Fed(d, []) == d;
      RoomInNothing(d);
    } else {
      var first := Drain(Fed(d, chunks[0]));
      DrainAppend(Fed(d, chunks[0]), Flatten(chunks[1..]));
      FedTwice(d, chunks[0], Flatten(chunks[1..]));
      if first.failed {
      } else {
        DrainLeavesNoLine(Fed(d, chunks[0]));
        RoomFromFirst(d, chunks);
        FeedIsOneDrain(first.decoder, chunks[1..]);
      }
    }
  }

  lemma RoomInNothing(d: Decoder)
    ensures RoomThroughout(d, [])
  {
  }

  /** Two splits of the same bytes in which no push fails leave the same decoder and the same events. */
  lemma SplitsAgree(d: Decoder, a: seq<seq<Byte>>, b: seq<seq<Byte>>)
    requires Unfinished(d.buffer) && Flatten(a) == Flatten(b)
    requires Feed(d, a).Ok? && Feed(d, b).Ok?
    ensures Feed(d, a) == Feed(d, b)
  {
    FeedIsOneDrain(d, a);
    FeedIsOneDrain(d, b);
  }

  lemma {:induction false} FlattenPrefix(chunks: seq<seq<Byte>>, i: nat)
    requires i < |chunks|
    ensures |Flatten(chunks[..i])| + |chunks[i]| <= |Flatten(chunks)|
    decreases i
  {
    if i > 0 {
      FlattenPrefix(chunks[1..], i - 1);
      FlattenFirst(chunks, i - 1);
    }
  }

  /** Input that fits the limit as a whole meets room however it is split. */
  lemma SmallInputHasRoom(d: Decoder, chunks: seq<seq<Byte>>)
    requires |d.buffer| + |d.data| + |Flatten(chunks)| <= MAX_PENDING_BYTES
    ensures RoomThroughout(d, chunks)
  {
    forall i | 0 <= i < |chunks|
      ensures !Overflows(Drain(Fed(d, Flatten(chunks[..i]))).decoder, chunks[i])
    {
      DrainConserves(Fed(d, Flatten(chunks[..i])));
      FlattenPrefix(chunks, i);
    }
  }

  /** For such input one split fails exactly when every split does: the outcome is the bytes' alone. */
  lemma SmallInputFailsAlike(d: Decoder, a: seq<seq<Byte>>, b: seq<seq<Byte>>)
    requires Unfinished(d.buffer) && Flatten(a) == Flatten(b)
    requires |d.buffer| + |d.data| + |Flatten(a)| <= 0x80_0000
    ensures Feed(d, a).Ok? <==> Feed(d, b).Ok?
    ensures Feed(d, a).Ok? ==> Feed(d, a) == Feed(d, b)
  {
    SmallInputHasRoom(d, a);
    SmallInputHasRoom(d, b);
    FeedIsOneDrain(d, a);
    FeedIsOneDrain(d, b);
  }

  lemma {:induction false} BlankLinesDrain(n: nat)
    ensures Drain(Decoder(seq(n, _ => LF), [], false)) == Drained(FRESH, [], false)
  {
    if n > 0 {
      var buffer := seq(n, _ => LF);
      assert Find(buffer, {LF, CR}) == 0;
      assert buffer[..0] == [] && buffer[1..] == seq(n - 1, _ => LF);
      BlankLinesDrain(n - 1);
    } else {
      assert seq(0, _ => LF) == [];
    }
  }

  /** Past the limit the size check does depend on the split: the same bytes, whole and in two. */
  lemma SizeCheckDependsOnTheSplit()
    ensures var bytes := seq(MAX_PENDING_BYTES, _ => LF);
            && Flatten([bytes + [LF]]) == Flatten([bytes, [LF]])
            && Feed(FRESH, [bytes + [LF]]).TooLong?
            && Feed(FRESH, [bytes, [LF]]) == Ok(FRESH, [])
  {
    hide Drain;
    var bytes := seq(MAX_PENDING_BYTES, _ => LF);
    BlankLinesDrain(MAX_PENDING_BYTES);
    BlankLinesDrain(1);
    assert [LF] == seq(1, _ => LF);
    assert Fed(FRESH, bytes) == Decoder(bytes, [], false);
    assert Fed(FRESH, [LF]) == Decoder([LF], [], false);
    assert [bytes, [LF]][1..] == [[LF]];
    assert [[LF]][1..] == [];
    assert Push(FRESH, bytes) == Ok(FRESH, []);
    assert Push(FRESH, [LF]) == Ok(FRESH, []);
    assert Feed(FRESH, [[LF]]) == Ok(FRESH, []);
    assert Push(FRESH, bytes + [LF]).TooLong?;
    calc {
      Flatten([bytes, [LF]]);
      bytes + Flatten([[LF]]);
      bytes + ([LF] + []);
      bytes + [LF];
      Flatten([bytes + [LF]]);
    }
  }

  // ------------------------------------------------- division into lines

  function Division(bytes: seq<Byte>): (seq<Ended>, seq<Byte>)
    decreases |bytes|
  {
    match TakeLine(bytes)
    case None => ([], bytes)
    case Some(cut) =>
      TakeLineShrinks(bytes);
      var (lines, rest) := Division(cut.rest);
      ([Ended(cut.line, cut.ending)] + lines, rest)
  }

  lemma TakeLineIs(line: seq<Byte>, ending: seq<Byte>, following: seq<Byte>)
    requires BreakFree(line) && ProperEnding(ending, following)
    ensures TakeLine(line + ending + following) == Some(Cut(line, ending, following))
  {
    var b := line + ending + following;
    assert b[|line|] == ending[0];
    forall j | 0 <= j < |line| ensures b[j] !in {LF, CR} {
      assert b[j] == line[j];
    }
    var i := Find(b, {LF, CR});
    assert i == |line|;
    assert b[..i] == line;
    assert b[i + |ending|..] == following;
    if ending == [CR, LF] {
      assert b[i + 1] == LF;
    } else if ending == [CR] {
      assert b[i + 1] == following[0];
    }
  }

  lemma TakeLineProper(bytes: seq<Byte>)
    requires TakeLine(bytes).Some?
    ensures var c := TakeLine(bytes).value;
            BreakFree(c.line) && ProperEnding(c.ending, c.rest) && bytes == c.line + c.ending + c.rest
  {
    TakeLineShrinks(bytes);
  }

  /** Every stream divides into lines, the way the decoder takes them. */
  lemma {:induction false} DivisionDivides(bytes: seq<Byte>)
    ensures var (lines, rest) := Division(bytes);
            Divides(lines, rest) && Written(lines, rest) == bytes
    decreases |bytes|
  {
    NothingToTake(bytes);
    match TakeLine(bytes)
    case None =>
    case Some(cut) =>
      TakeLineShrinks(bytes);
      TakeLineProper(bytes);
      DivisionDivides(cut.rest);
      var (lines, rest) := Division(cut.rest);
      assert ([Ended(cut.line, cut.ending)] + lines)[1..] == lines;
  }

  /** And in no other way. */
  lemma {:induction false} DivisionUnique(lines: seq<Ended>, rest: seq<Byte>)
    requires Divides(lines, rest)
    ensures Division(Written(lines, rest)) == (lines, rest)
    decreases |lines|
  {
    NothingToTake(rest);
    hide TakeLine, Unfinished, BreakFree, ProperEnding;
    if lines != [] {
      var following := Written(lines[1..], rest);
      TakeLineIs(lines[0].line, lines[0].ending, following);
      DivisionUnique(lines[1..], rest);
      assert [lines[0]] + lines[1..] == lines;
    }
  }

  /** Every stream divides into lines in exactly one way. */
  lemma OneDivision(bytes: seq<Byte>, lines: seq<Ended>, rest: seq<Byte>)
    ensures Divides(lines, rest) && Written(lines, rest) == bytes <==> (lines, rest) == Division(bytes)
  {
    hide Divides, Written, Division;
    DivisionDivides(bytes);
    if Divides(lines, rest) {
      DivisionUnique(lines, rest);
    }
  }

  // ------------------------------------------------- the declarative reading

  function ValueOf(line: seq<Byte>): seq<seq<Byte>> {
    if line != [] && DataOf(line).Some? then [DataOf(line).value] else []
  }

  lemma BlankAfter(line: seq<Byte>, lines: seq<seq<Byte>>)
    requires line != []
    ensures FirstBlank([line] + lines) == FirstBlank(lines) + 1
  {
    assert ([line] + lines)[1..] == lines;
  }

  lemma DropFirst(line: seq<Byte>, lines: seq<seq<Byte>>, k: nat)
    requires k <= |lines|
    ensures ([line] + lines)[k + 1..] == lines[k..]
  {
  }

  lemma EventsGrow(carried: seq<seq<Byte>>, line: seq<Byte>, lines: seq<seq<Byte>>)
    requires line != []
    ensures Events(carried, [line] + lines) == Events(carried + ValueOf(line), lines)
  {
    hide DataOf, ValueOf, DataValues, FirstBlank, Join;
    var k := FirstBlank(lines);
    BlankAfter(line, lines);
    BlockValues(carried, line, lines, k);
    if k < |lines| {
      DropFirst(line, lines, k + 1);
    }
  }

  lemma UndispatchedGrow(carried: seq<seq<Byte>>, line: seq<Byte>, lines: seq<seq<Byte>>)
    requires line != []
    ensures Undispatched(carried, [line] + lines) == Undispatched(carried + ValueOf(line), lines)
  {
    hide DataOf, ValueOf, DataValues, FirstBlank;
    var k := FirstBlank(lines);
    BlankAfter(line, lines);
    if k < |lines| {
      DropFirst(line, lines, k + 1);
    } else {
      BlockValues(carried, line, lines, |lines|);
      assert ([line] + lines)[..|lines| + 1] == [line] + lines && lines[..|lines|] == lines;
    }
  }

  /** A line that is not blank only adds its value, if it has one, to the block. */
  lemma BlockGrows(carried: seq<seq<Byte>>, line: seq<Byte>, lines: seq<seq<Byte>>)
    requires line != []
    ensures Events(carried, [line] + lines) == Events(carried + ValueOf(line), lines)
    ensures Undispatched(carried, [line] + lines) == Undispatched(carried + ValueOf(line), lines)
  {
    hide ValueOf, Events, Undispatched;
    EventsGrow(carried, line, lines);
    UndispatchedGrow(carried, line, lines);
  }

  lemma BlockValues(carried: seq<seq<Byte>>, line: seq<Byte>, lines: seq<seq<Byte>>, k: nat)
    requires k <= |lines|
    ensures carried + DataValues(([line] + lines)[..k + 1]) == (carried + ValueOf(line)) + DataValues(lines[..k])
  {
    assert ([line] + lines)[..k + 1][1..] == lines[..k];
    assert carried + (ValueOf(line) + DataValues(lines[..k])) == (carried + ValueOf(line)) + DataValues(lines[..k]);
  }

  lemma BlockCloses(carried: seq<seq<Byte>>, lines: seq<seq<Byte>>)
    ensures Events(carried, [[]] + lines) == (if carried == [] then [] else [Join(carried)]) + Events([], lines)
    ensures Undispatched(carried, [[]] + lines) == Undispatched([], lines)
  {
    var all := [[]] + lines;
    assert FirstBlank(all) == 0 && all[1..] == lines;
    assert carried + DataValues(all[..0]) == carried;
  }

  lemma {:induction false} JoinMore(values: seq<seq<Byte>>, value: seq<Byte>)
    ensures Join(values + [value]) == if values == [] then value else Join(values) + [LF] + value
    decreases |values|
  {
    if values == [] {
      assert [] + [value] == [value];
    } else {
      assert (values + [value])[1..] == values[1..] + [value];
      JoinMore(values[1..], value);
      if |values| == 1 {
        assert values[1..] == [];
      } else {
        assert values[0] + [LF] + (Join(values[1..]) + [LF] + value)
            == (values[0] + [LF] + Join(values[1..])) + [LF] + value;
      }
    }
  }

  lemma AllTextFirst(values: seq<seq<Byte>>, others: seq<seq<Byte>>)
    requires |values| <= 1
    ensures AllText(values + others) <==> AllText(values) && AllText(others)
  {
    if AllText(values + others) {
      forall i | 0 <= i < |others| ensures ValidUtf8(others[i]) {
        assert (values + others)[|values| + i] == others[i];
      }
      forall i | 0 <= i < |values| ensures ValidUtf8(values[i]) {
        assert (values + others)[i] == values[i];
      }
    }
  }

  /** The decoder holds exactly the values of the block it is in. */
  predicate Holds(d: Decoder, values: seq<seq<Byte>>) {
    d.data == Join(values) && (d.hasData <==> values != [])
  }

  lemma {:induction false} DrainReads(d: Decoder, carried: seq<seq<Byte>>)
    requires Holds(d, carried)
    ensures var (lines, rest) := Division(d.buffer);
            var r := Drain(d);
            && (r.failed <==> !AllText(DataValues(Bare(lines))))
            && (!r.failed ==>
                  && r.events == Events(carried, Bare(lines))
                  && r.decoder.buffer == rest
                  && Holds(r.decoder, Undispatched(carried, Bare(lines))))
    decreases |d.buffer|
  {
    hide TakeLine, DataOf, ValidUtf8, Events, Undispatched, Join;
    match TakeLine(d.buffer)
    case None => NoLines(carried);
    case Some(cut) =>
      TakeLineShrinks(d.buffer);
      var here := d.(buffer := cut.rest);
      var (lines, rest) := Division(cut.rest);
      var whole := Bare([Ended(cut.line, cut.ending)] + lines);
      assert whole == [cut.line] + Bare(lines);
      assert whole[1..] == Bare(lines);
      assert DataValues(whole) == ValueOf(cut.line) + DataValues(Bare(lines));
      AllTextFirst(ValueOf(cut.line), DataValues(Bare(lines)));
      if cut.line == [] {
        BlockCloses(carried, Bare(lines));
        assert Holds(Decoder(cut.rest, [], false), []) by { NoValues(); }
        DrainReads(Decoder(cut.rest, [], false), []);
        if !d.hasData {
          NoValues();
        }
      } else {
        BlockGrows(carried, cut.line, Bare(lines));
        ConsumeHolds(here, cut.line, carried);
        match Consume(here, cut.line)
        case Invalid =>
        case Quiet(next) => DrainReads(next, carried + ValueOf(cut.line));
      }
  }

  lemma NoValues()
    ensures Join([]) == []
  {
  }

  lemma NoLines(carried: seq<seq<Byte>>)
    ensures Events(carried, []) == [] && Undispatched(carried, []) == carried && Bare([]) == []
  {
    assert carried + [] == carried;
  }

  lemma ConsumeHolds(d: Decoder, line: seq<Byte>, carried: seq<seq<Byte>>)
    requires Holds(d, carried) && line != []
    ensures AllText(ValueOf(line)) <==> !Consume(d, line).Invalid?
    ensures !Consume(d, line).Invalid? ==>
              && Consume(d, line).Quiet?
              && Consume(d, line).decoder.buffer == d.buffer
              && Holds(Consume(d, line).decoder, carried + ValueOf(line))
  {
    hide DataOf, ValidUtf8;
    assert carried + [] == carried;
    if DataOf(line).Some? {
      JoinMore(carried, DataOf(line).value);
      assert AllText(ValueOf(line)) <==> ValidUtf8(ValueOf(line)[0]);
    }
  }

  /**
   * A fresh decoder reads a stream, however it is split, as the lines it divides into
   * say: it fails exactly when a push finds no room or a `data` value is not text, and
   * otherwise yields the events the blocks spell, and holds something exactly when the
   * stream ends inside a line or inside a block with data.
   */
  lemma StreamRead(chunks: seq<seq<Byte>>, lines: seq<Ended>, rest: seq<Byte>)
    requires Divides(lines, rest) && Written(lines, rest) == Flatten(chunks)
    ensures Feed(FRESH, chunks).Ok? <==> RoomThroughout(FRESH, chunks) && AllText(DataValues(Bare(lines)))
    ensures Feed(FRESH, chunks).Ok? ==>
              && Feed(FRESH, chunks).events == Events([], Bare(lines))
              && (HasPartialEvent(Feed(FRESH, chunks).decoder)
                  <==> rest != [] || Undispatched([], Bare(lines)) != [])
              && Feed(FRESH, chunks).decoder
                 == Decoder(rest, Join(Undispatched([], Bare(lines))), Undispatched([], Bare(lines)) != [])
  {
    hide Drain, Events, Undispatched, RoomThroughout, Divides, Written, Join, Flatten, AllText, DataValues, Feed;
    hide Division;
    var bytes := Flatten(chunks);
    assert Fed(FRESH, bytes) == Decoder(bytes, [], false);
    NoValues();
    DivisionUnique(lines, rest);
    DrainReads(Fed(FRESH, bytes), []);
    FeedIsOneDrain(FRESH, chunks);
  }

  // ------------------------------------------------------- text stays text

  lemma ConsumeKeepsText(d: Decoder, line: seq<Byte>)
    requires ValidUtf8(d.data)
    ensures match Consume(d, line)
            case Quiet(next) => ValidUtf8(next.data)
            case Event(next, event) => ValidUtf8(next.data) && ValidUtf8(event)
            case Invalid => true
  {
    hide DataOf;
    if line != [] && DataOf(line).Some? && ValidUtf8(DataOf(line).value) {
      var value := DataOf(line).value;
      assert ValidUtf8([]) && ValidUtf8([LF]) by { BreakIsText(); }
      Utf8Append(d.data, if d.hasData then [LF] else []);
      Utf8Append(d.data + (if d.hasData then [LF] else []), value);
    }
  }

  lemma BreakIsText()
    ensures ValidUtf8([]) && ValidUtf8([LF])
  {
    assert [LF][1..] == [];
  }

  /** However characters were cut between chunks, every event is whole text, and so is what is held. */
  lemma {:induction false} DrainKeepsText(d: Decoder)
    requires ValidUtf8(d.data)
    ensures AllText(Drain(d).events) && ValidUtf8(Drain(d).decoder.data)
    decreases |d.buffer|
  {
    hide ValidUtf8, Consume, TakeLine;
    match TakeLine(d.buffer)
    case None =>
    case Some(cut) =>
      TakeLineShrinks(d.buffer);
      ConsumeKeepsText(d.(buffer := cut.rest), cut.line);
      ConsumeKeepsBuffer(d.(buffer := cut.rest), cut.line);
      match Consume(d.(buffer := cut.rest), cut.line)
      case Invalid =>
      case Quiet(next) => DrainKeepsText(next);
      case Event(next, event) => DrainKeepsText(next);
  }

  lemma ConsumeKeepsBuffer(d: Decoder, line: seq<Byte>)
    ensures !Consume(d, line).Invalid? ==> Consume(d, line).decoder.buffer == d.buffer
  {
  }

  /** So it is over any number of pushes. */
  lemma {:induction false} EventsAreText(d: Decoder, chunks: seq<seq<Byte>>)
    requires ValidUtf8(d.data) && Feed(d, chunks).Ok?
    ensures AllText(Feed(d, chunks).events) && ValidUtf8(Feed(d, chunks).decoder.data)
    decreases |chunks|
  {
    hide ValidUtf8, Drain;
    if chunks != [] {
      DrainKeepsText(Fed(d, chunks[0]));
      EventsAreText(Push(d, chunks[0]).decoder, chunks[1..]);
    }
  }

  // --------------------------------------------- what was written is read back

  function LinesOf(payload: Text): (lines: seq<Text>)
    ensures lines != []
    decreases |payload|
  {
    var i := Find(payload, {LF});
    if i == |payload| then [payload] else [payload[..i]] + LinesOf(payload[i + 1..])
  }

  function DataLine(value: Text): seq<Byte> {
    DATA + [COLON, SPACE] + value
  }

  function DataLines(values: seq<Text>): seq<seq<Byte>> {
    if values == [] then [] else [DataLine(values[0])] + DataLines(values[1..])
  }

  /** A stream that carries each payload as `data` lines followed by a blank line. */
  function StreamLines(payloads: seq<Text>): seq<seq<Byte>> {
    if payloads == [] then [] else DataLines(LinesOf(payloads[0])) + ([[]] + StreamLines(payloads[1..]))
  }

  predicate Writable(payload: Text) {
    ValidUtf8(payload) && CR !in payload
  }

  predicate EachWritable(payloads: seq<Text>) {
    payloads == [] || (Writable(payloads[0]) && EachWritable(payloads[1..]))
  }

  /** A line value that can stand in a `data` line. */
  predicate LineText(value: Text) {
    BreakFree(value) && ValidUtf8(value)
  }

  predicate EachLineText(values: seq<Text>) {
    values == [] || (LineText(values[0]) && EachLineText(values[1..]))
  }

  lemma {:induction false} LinesOfSound(payload: Text)
    requires Writable(payload)
    ensures Join(LinesOf(payload)) == payload
    ensures EachLineText(LinesOf(payload))
    decreases |payload|
  {
    hide ValidUtf8, Join, LineText, BreakFree, EachLineText, Writable, Find;
    var i := Find(payload, {LF});
    if i == |payload| {
      OneLine(payload);
    } else {
      var line, later := payload[..i], payload[i + 1..];
      LineCut(payload, i);
      LinesOfSound(later);
      FirstOf(line, LinesOf(later));
    }
  }

  lemma OneLine(payload: Text)
    requires Writable(payload) && Find(payload, {LF}) == |payload|
    ensures Join([payload]) == payload && EachLineText([payload])
  {
    assert [payload][1..] == [];
  }

  lemma LineCut(payload: Text, i: nat)
    requires Writable(payload) && i == Find(payload, {LF}) && i < |payload|
    ensures LineText(payload[..i]) && Writable(payload[i + 1..])
    ensures payload == payload[..i] + [LF] + payload[i + 1..]
  {
    hide ValidUtf8;
    Utf8SplitAtAscii(payload, i);
  }

  lemma FirstOf(line: Text, others: seq<Text>)
    requires others != []
    ensures Join([line] + others) == line + [LF] + Join(others)
    ensures LineText(line) && EachLineText(others) ==> EachLineText([line] + others)
  {
    assert ([line] + others)[1..] == others;
  }

  lemma DataLineReads(value: Text)
    requires BreakFree(value)
    ensures DataLine(value) != [] && BreakFree(DataLine(value))
    ensures ValueOf(DataLine(value)) == [value]
  {
    var line := DataLine(value);
    assert line[0] == DATA[0] && line[1] == DATA[1] && line[2] == DATA[2] && line[3] == DATA[3] && line[4] == COLON;
    assert Find(line, {COLON}) == 4;
    assert line[..4] == DATA;
    assert line[5..] == [SPACE] + value;
    assert line[5..][1..] == value;
  }

  lemma {:induction false} DataLinesGrow(carried: seq<seq<Byte>>, values: seq<Text>, lines: seq<seq<Byte>>)
    requires EachLineText(values)
    ensures Events(carried, DataLines(values) + lines) == Events(carried + values, lines)
    ensures Undispatched(carried, DataLines(values) + lines) == Undispatched(carried + values, lines)
    ensures DataValues(DataLines(values) + lines) == values + DataValues(lines)
    decreases |values|
  {
    hide Events, Undispatched, DataLine, ValueOf;
    if values == [] {
      assert carried + [] == carried && [] + lines == lines && [] + DataValues(lines) == DataValues(lines);
    } else {
      hide DataValues, LineText;
      var first, more := DataLine(values[0]), DataLines(values[1..]) + lines;
      LineTextBreakFree(values[0]);
      DataLineReads(values[0]);
      BlockGrows(carried, first, more);
      Assoc([first], DataLines(values[1..]), lines);
      DataLinesGrow(carried + [values[0]], values[1..], lines);
      FirstValue(first, more);
      Assoc(carried, [values[0]], values[1..]);
      Assoc([values[0]], values[1..], DataValues(lines));
      assert [values[0]] + values[1..] == values;
    }
  }

  lemma FirstValue(line: seq<Byte>, lines: seq<seq<Byte>>)
    ensures DataValues([line] + lines) == ValueOf(line) + DataValues(lines)
  {
    assert ([line] + lines)[1..] == lines;
  }

  lemma {:induction false} StreamLinesRead(payloads: seq<Text>)
    requires EachWritable(payloads)
    ensures Events([], StreamLines(payloads)) == payloads
    ensures Undispatched([], StreamLines(payloads)) == []
    ensures AllText(DataValues(StreamLines(payloads)))
    decreases |payloads|
  {
    hide Events, Undispatched, Join, ValidUtf8, Writable, LinesOf, LineText;
    if payloads == [] {
      NoLines([]);
    } else {
      var values, later := LinesOf(payloads[0]), StreamLines(payloads[1..]);
      LinesOfSound(payloads[0]);
      DataLinesGrow([], values, [[]] + later);
      assert [] + values == values;
      BlockCloses(values, later);
      StreamLinesRead(payloads[1..]);
      assert [payloads[0]] + payloads[1..] == payloads;
      FirstValue([], later);
      assert ValueOf([]) + DataValues(later) == DataValues(later);
      LineTextsAreText(values, DataValues(later));
    }
  }

  lemma {:induction false} LineTextsAreText(values: seq<Text>, others: seq<seq<Byte>>)
    requires EachLineText(values) && AllText(others)
    ensures AllText(values + others)
    decreases |values|
  {
    if values == [] {
      assert [] + others == others;
    } else {
      LineTextsAreText(values[1..], others);
      assert values + others == [values[0]] + (values[1..] + others);
      AllTextFirst([values[0]], values[1..] + others);
    }
  }

  predicate EachBreakFree(lines: seq<seq<Byte>>) {
    forall i :: 0 <= i < |lines| ==> BreakFree(lines[i])
  }

  lemma {:induction false} DataLinesBreakFree(values: seq<Text>)
    requires EachLineText(values)
    ensures EachBreakFree(DataLines(values))
    decreases |values|
  {
    if values != [] {
      hide BreakFree;
      assert LineText(values[0]);
      assert BreakFree(values[0]) by { LineTextBreakFree(values[0]); }
      DataLineReads(values[0]);
      DataLinesBreakFree(values[1..]);
    }
  }

  lemma LineTextBreakFree(value: Text)
    requires LineText(value)
    ensures BreakFree(value)
  {
  }

  lemma {:induction false} StreamLinesBreakFree(payloads: seq<Text>)
    requires EachWritable(payloads)
    ensures EachBreakFree(StreamLines(payloads))
    decreases |payloads|
  {
    if payloads != [] {
      hide Writable, LinesOf, LineText;
      LinesOfSound(payloads[0]);
      DataLinesBreakFree(LinesOf(payloads[0]));
      StreamLinesBreakFree(payloads[1..]);
    }
  }

  lemma {:induction false} FeedLinesDivide(lines: seq<Ended>)
    requires EachBreakFree(Bare(lines))
    requires forall i :: 0 <= i < |lines| ==> lines[i].ending in {[LF], [CR, LF]}
    ensures Divides(lines, [])
    decreases |lines|
  {
    if lines != [] {
      assert Bare(lines)[0] == lines[0].line;
      assert forall i :: 0 <= i < |lines| - 1 ==> Bare(lines[1..])[i] == Bare(lines)[i + 1];
      FeedLinesDivide(lines[1..]);
    }
  }

  /**
   * Payloads written as `data` lines, each line ended by a line feed or by a pair as
   * the writer likes, and split into chunks at will, are read back exactly, unless a
   * push finds no room.
   */
  lemma WrittenPayloadsReadBack(payloads: seq<Text>, lines: seq<Ended>, chunks: seq<seq<Byte>>)
    requires EachWritable(payloads)
    requires Bare(lines) == StreamLines(payloads)
    requires forall i :: 0 <= i < |lines| ==> lines[i].ending in {[LF], [CR, LF]}
    requires Flatten(chunks) == Written(lines, [])
    ensures if RoomThroughout(FRESH, chunks) then Feed(FRESH, chunks) == Ok(FRESH, payloads)
            else !Feed(FRESH, chunks).Ok?
  {
    hide Events, Undispatched, Divides, Written, StreamLines, RoomThroughout, Feed;
    StreamLinesBreakFree(payloads);
    FeedLinesDivide(lines);
    StreamLinesRead(payloads);
    StreamRead(chunks, lines, []);
    NoValues();
  }

  // --------------------------------------------------- what any line carries

  /**
   * A line with a field name carries the value after its colon, less one leading space,
   * exactly when the name is `data`; so a line that begins with a colon, a comment,
   * carries nothing.
   */
  lemma FieldCarries(name: seq<Byte>, value: seq<Byte>)
    requires 0x3A !in name
    ensures DataOf(name + [0x3A] + value)
         == if name == [0x64, 0x61, 0x74, 0x61]
            then Some(if value != [] && value[0] == 0x20 then value[1..] else value)
            else None
  {
    var line := name + [0x3A] + value;
    var colon := Find(line, {COLON});
    assert line[|name|] == COLON;
    assert forall j :: 0 <= j < |name| ==> line[j] == name[j];
    assert colon == |name|;
    assert line[..colon] == name && line[colon + 1..] == value;
  }

  /** A line without a colon is a field name, and carries an empty value exactly when it is `data`. */
  lemma BareNameCarries(line: seq<Byte>)
    requires line != [] && 0x3A !in line
    ensures DataOf(line) == if line == [0x64, 0x61, 0x74, 0x61] then Some([]) else None
  {
    assert Find(line, {COLON}) == |line|;
    assert line[..|line|] == line;
  }

  /** What a writer may put on a line. */
  datatype Writing =
    | Data(value: Text, spaced: bool)
    | Comment(text: seq<Byte>)
    | Field(name: seq<Byte>, value: seq<Byte>)
    | Name(name: seq<Byte>)
    | Blank

  function Spelled(w: Writing): seq<Byte> {
    match w
    case Data(value, spaced) => [0x64, 0x61, 0x74, 0x61, 0x3A] + (if spaced then [0x20] else []) + value
    case Comment(text) => [0x3A] + text
    case Field(name, value) => name + [0x3A] + value
    case Name(name) => name
    case Blank => []
  }

  predicate Proper(w: Writing) {
    match w
    case Data(value, spaced) => ValidUtf8(value) && (spaced || value == [] || value[0] != 0x20)
    case Comment(_) => true
    case Field(name, _) => 0x3A !in name && name != [0x64, 0x61, 0x74, 0x61]
    case Name(name) => name != [] && 0x3A !in name && name != [0x64, 0x61, 0x74, 0x61]
    case Blank => true
  }

  function SpelledAll(script: seq<Writing>): (lines: seq<seq<Byte>>)
    ensures |lines| == |script|
  {
    if script == [] then [] else [Spelled(script[0])] + SpelledAll(script[1..])
  }

  predicate AllProper(script: seq<Writing>) {
    script == [] || (Proper(script[0]) && AllProper(script[1..]))
  }

  /**
   * The script says `payloads`, `said` being the lines of the one it is in: data lines
   * spell a payload's lines, one after another, a blank line ends a payload that has any,
   * and comments and other fields say nothing.
   */
  predicate Says(script: seq<Writing>, said: seq<Text>, payloads: seq<Text>)
    decreases |script|
  {
    if script == [] then said == [] && payloads == []
    else match script[0]
         case Data(value, _) => Says(script[1..], said + [value], payloads)
         case Blank =>
           if said == [] then Says(script[1..], [], payloads)
           else payloads != [] && LinesOf(payloads[0]) == said && Says(script[1..], [], payloads[1..])
         case _ => Says(script[1..], said, payloads)
  }

  lemma WritingCarries(w: Writing)
    requires Proper(w)
    ensures Spelled(w) == [] <==> w.Blank?
    ensures ValueOf(Spelled(w)) == if w.Data? then [w.value] else []
  {
    match w
    case Data(value, spaced) =>
      var tail := (if spaced then [0x20] else []) + value;
      assert Spelled(w) == [0x64, 0x61, 0x74, 0x61] + [0x3A] + tail;
      FieldCarries([0x64, 0x61, 0x74, 0x61], tail);
      assert spaced ==> tail[1..] == value;
      assert !spaced ==> tail == value;
    case Comment(text) =>
      assert Spelled(w) == [] + [0x3A] + text;
      FieldCarries([], text);
    case Field(name, value) => FieldCarries(name, value);
    case Name(name) => BareNameCarries(name);
    case Blank =>
  }

  lemma {:induction false} ScriptReads(script: seq<Writing>, said: seq<Text>, payloads: seq<Text>)
    requires AllProper(script) && Says(script, said, payloads)
    requires forall i :: 0 <= i < |payloads| ==> Writable(payloads[i])
    ensures Events(said, SpelledAll(script)) == payloads
    ensures Undispatched(said, SpelledAll(script)) == []
    ensures AllText(DataValues(SpelledAll(script)))
    decreases |script|
  {
    hide Events, Undispatched, Join, LinesOf, Spelled, ValidUtf8, Writable, ValueOf, Proper;
    if script == [] {
      NoLines([]);
    } else {
      var w, line, later := script[0], Spelled(script[0]), SpelledAll(script[1..]);
      WritingCarries(w);
      FirstValue(line, later);
      match w
      case Blank =>
        BlockCloses(said, later);
        assert [] + DataValues(later) == DataValues(later);
        if said == [] {
          ScriptReads(script[1..], [], payloads);
        } else {
          LinesOfSound(payloads[0]);
          ScriptReads(script[1..], [], payloads[1..]);
          assert [payloads[0]] + payloads[1..] == payloads;
        }
      case Data(value, _) =>
        BlockGrows(said, line, later);
        ScriptReads(script[1..], said + [value], payloads);
        ProperDataIsText(w);
        AllTextFirst([value], DataValues(later));
      case _ =>
        BlockGrows(said, line, later);
        assert said + [] == said;
        assert [] + DataValues(later) == DataValues(later);
        ScriptReads(script[1..], said, payloads);
    }
  }

  lemma ProperDataIsText(w: Writing)
    requires w.Data? && Proper(w)
    ensures AllText([w.value])
  {
  }

  /**
   * Payloads however they are written, with or without the space, among comments and
   * other fields, each line ended in any of the three ways, and split into chunks at
   * will, are read back exactly, unless a push finds no room.
   */
  lemma SpokenPayloadsReadBack(script: seq<Writing>, payloads: seq<Text>, lines: seq<Ended>, chunks: seq<seq<Byte>>)
    requires AllProper(script) && Says(script, [], payloads)
    requires forall i :: 0 <= i < |payloads| ==> Writable(payloads[i])
    requires Bare(lines) == SpelledAll(script) && Divides(lines, [])
    requires Flatten(chunks) == Written(lines, [])
    ensures if RoomThroughout(FRESH, chunks) then Feed(FRESH, chunks) == Ok(FRESH, payloads)
            else !Feed(FRESH, chunks).Ok?
  {
    hide Events, Undispatched, Divides, Written, SpelledAll, RoomThroughout, Feed, Says, AllProper, Writable;
    ScriptReads(script, [], payloads);
    StreamRead(chunks, lines, []);
    NoValues();
  }
}
