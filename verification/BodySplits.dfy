/** Exactly which bodies read alike however they are split, those that do not decode included. */
module BodySplits {
  import opened Wrappers
  import opened Bytes
  import opened Streams
  import opened Bodies
  import Sse
  import SseProofs

  /** What a consumer of the stream learns of a body. */
  function Delivered(b: Backend, id: nat, frames: seq<seq<Byte>>): (seq<Text>, Item) {
    var digest := ReadBody(b, frames).digest;
    (digest.deltas, Verdict(id, digest))
  }

  function Whole(body: seq<Byte>): Sse.Drained {
    Sse.Drain(Sse.Fed(Sse.FRESH, body))
  }

  /** The body decodes, or what comes before the line that does not carries neither text nor the marker. */
  predicate SplitsDoNotShow(b: Backend, body: seq<Byte>) {
    var digest := Digest(b, Whole(body).events, None);
    !Whole(body).failed || (digest.deltas == [] && digest.end != Marked)
  }

  // ----------------------------------------- everything before the bad line

  lemma TakeLineShorter(buffer: seq<Byte>, k: nat)
    requires Sse.TakeLine(buffer).Some? && 0 < k <= |Sse.TakeLine(buffer).value.rest|
    ensures var c := Sse.TakeLine(buffer).value;
            var n := |c.line| + |c.ending| + k;
            n <= |buffer| && Sse.TakeLine(buffer[..n]) == Some(Sse.Cut(c.line, c.ending, c.rest[..k]))
  {
    var c := Sse.TakeLine(buffer).value;
    Sse.TakeLineShrinks(buffer);
    var n := |c.line| + |c.ending| + k;
    var i := Sse.Find(buffer, {Sse.LF, Sse.CR});
    assert buffer[..n][i] == buffer[i];
    assert buffer == buffer[..n] + buffer[n..];
    SseProofs.FindExtends(buffer[..n], buffer[n..], {Sse.LF, Sse.CR});
    assert buffer[..n][..i] == c.line;
    assert buffer[..n][n - k..] == c.rest[..k];
  }

  /** The first byte of a line that does not decode is not yet a line. */
  lemma StopsAtOnce(d: Sse.Decoder)
    requires Sse.TakeLine(d.buffer).Some?
    requires var cut := Sse.TakeLine(d.buffer).value;
             Sse.Consume(d.(buffer := cut.rest), cut.line).Invalid?
    ensures d.buffer != [] && Sse.Drain(d).events == []
    ensures var start := d.(buffer := d.buffer[..1]); Sse.Drain(start) == Sse.Drained(start, [], false)
  {
    var cut := Sse.TakeLine(d.buffer).value;
    assert d.buffer[0] == cut.line[0];
    assert d.buffer[..1] == [d.buffer[0]];
    assert Sse.Find(d.buffer[..1], {Sse.LF, Sse.CR}) == 1;
  }

  lemma FailsOnALine(d: Sse.Decoder)
    requires Sse.Drain(d).failed
    ensures Sse.TakeLine(d.buffer).Some?
  {
  }

  lemma RestIsLess(d: Sse.Decoder)
    requires Sse.TakeLine(d.buffer).Some?
    ensures |Sse.TakeLine(d.buffer).value.rest| < |d.buffer|
  {
  }

  /** A decoder that fails can be stopped short, having found every event it found. */
  lemma {:induction false} StopsShort(d: Sse.Decoder) returns (k: nat)
    requires Sse.Drain(d).failed
    ensures 0 < k <= |d.buffer|
    ensures var r := Sse.Drain(d.(buffer := d.buffer[..k]));
            !r.failed && r.events == Sse.Drain(d).events
    decreases |d.buffer|
  {
    hide Sse.Consume, Sse.TakeLine, Sse.Drain;
    FailsOnALine(d);
    RestIsLess(d);
    var cut := Sse.TakeLine(d.buffer).value;
    var here := d.(buffer := cut.rest);
    SseProofs.DrainStep(d);
    match Sse.Consume(here, cut.line)
    case Invalid =>
      k := 1;
      StopsAtOnce(d);
    case Quiet(next) =>
      SseProofs.ConsumeKeepsBuffer(here, cut.line);
      var rest := StopsShort(next);
      k := |cut.line| + |cut.ending| + rest;
      ShorterStep(d, next, rest);
    case Event(next, event) =>
      SseProofs.ConsumeKeepsBuffer(here, cut.line);
      var rest := StopsShort(next);
      k := |cut.line| + |cut.ending| + rest;
      ShorterStep(d, next, rest);
  }

  lemma ShorterStep(d: Sse.Decoder, next: Sse.Decoder, k: nat)
    requires Sse.TakeLine(d.buffer).Some?
    requires var cut := Sse.TakeLine(d.buffer).value;
             var consumed := Sse.Consume(d.(buffer := cut.rest), cut.line);
             !consumed.Invalid? && consumed.decoder == next && 0 < k <= |cut.rest|
    ensures var cut := Sse.TakeLine(d.buffer).value;
            var n := |cut.line| + |cut.ending| + k;
            var r := Sse.Drain(next.(buffer := next.buffer[..k]));
            && next.buffer == cut.rest && n <= |d.buffer|
            && Sse.Drain(d.(buffer := d.buffer[..n]))
               == match Sse.Consume(d.(buffer := cut.rest), cut.line)
                  case Event(_, event) => r.(events := [event] + r.events)
                  case _ => r
  {
    hide Sse.Drain, Sse.TakeLine, Sse.Consume;
    var cut := Sse.TakeLine(d.buffer).value;
    var n := |cut.line| + |cut.ending| + k;
    TakeLineShorter(d.buffer, k);
    SseProofs.DrainStep(d.(buffer := d.buffer[..n]));
    SseProofs.ConsumeIgnoresBuffer(d.(buffer := cut.rest), cut.line, cut.rest[..k]);
  }

  // ------------------------------------------------------- what a split shows

  lemma TwoFrames(b: Backend, x: seq<Byte>, y: seq<Byte>)
    ensures ReadBody(b, [x]) == Absorb(b, UNREAD_BODY, x)
    ensures ReadBody(b, [x, y]) == if ReadBody(b, [x]).digest.end != Going then ReadBody(b, [x])
                                   else Absorb(b, ReadBody(b, [x]), y)
    ensures Sse.Flatten([x, y]) == x + y && Sse.Flatten([x]) == x
    ensures Sse.Feed(Sse.FRESH, [x]).Ok? <==> Sse.Push(Sse.FRESH, x).Ok?
    ensures Sse.Feed(Sse.FRESH, [x]).Ok? ==> Sse.Feed(Sse.FRESH, [x]).events == Sse.Push(Sse.FRESH, x).events
    ensures Sse.Feed(Sse.FRESH, [x, y]).Ok? <==>
              Sse.Push(Sse.FRESH, x).Ok? && Sse.Push(Sse.Push(Sse.FRESH, x).decoder, y).Ok?
  {
    hide Sse.Push, Absorb;
    assert [x, y][..1] == [x] && [x][..0] == [] && [x, y][1..] == [y] && [y][1..] == [] && [x][1..] == [];
    assert Sse.Flatten([y]) == y;
    var first := Sse.Push(Sse.FRESH, x);
    if first.Ok? {
      assert first.events + [] == first.events;
      assert Sse.Feed(first.decoder, [y]).Ok? <==> Sse.Push(first.decoder, y).Ok?;
    }
  }

  lemma OneFrameFails(b: Backend, id: nat, body: seq<Byte>)
    requires |body| <= Sse.MAX_PENDING_BYTES && Whole(body).failed
    ensures Delivered(b, id, [body]) == ([], Error(MalformedEvent))
  {
    hide Sse.Push, Sse.Drain;
    TwoFrames(b, body, []);
    SseProofs.FeedIsOneDrain(Sse.FRESH, [body]);
  }

  /** Cut where the failing line begins, a body delivers everything that comes before it. */
  lemma CutFramesDeliver(b: Backend, id: nat, body: seq<Byte>) returns (frames: seq<seq<Byte>>)
    requires |body| <= Sse.MAX_PENDING_BYTES && Whole(body).failed
    ensures Sse.Flatten(frames) == body
    ensures var d := Digest(b, Whole(body).events, None);
            Delivered(b, id, frames) == (d.deltas, if d.end == Marked then Verdict(id, d) else Error(MalformedEvent))
  {
    hide Sse.Push, Sse.Drain, Digest;
    var k := StopsShort(Sse.Fed(Sse.FRESH, body));
    assert Sse.Fed(Sse.FRESH, body).buffer == body && Sse.Fed(Sse.FRESH, body[..k]).buffer == body[..k];
    var x, y := body[..k], body[k..];
    frames := [x, y];
    assert x + y == body;
    TwoFrames(b, x, y);
    SseProofs.SmallInputHasRoom(Sse.FRESH, [x]);
    SseProofs.FeedIsOneDrain(Sse.FRESH, [x]);
    SseProofs.FeedIsOneDrain(Sse.FRESH, [x, y]);
    var d := Digest(b, Whole(body).events, None);
    assert [] + d.deltas == d.deltas;
  }

  // ------------------------------------------------- what no split can show

  lemma {:induction false} FeedThen(d: Sse.Decoder, chunks: seq<seq<Byte>>, chunk: seq<Byte>)
    requires Sse.Feed(d, chunks).Ok? && Sse.Push(Sse.Feed(d, chunks).decoder, chunk).Ok?
    ensures Sse.Feed(d, chunks + [chunk]).Ok?
    decreases |chunks|
  {
    hide Sse.Push;
    var all := chunks + [chunk];
    if chunks == [] {
      assert all[0] == chunk && all[1..] == [];
    } else {
      assert all[0] == chunks[0] && all[1..] == chunks[1..] + [chunk];
      FeedThen(Sse.Push(d, chunks[0]).decoder, chunks[1..], chunk);
    }
  }

  lemma {:induction false} FlattenLast(chunks: seq<seq<Byte>>, chunk: seq<Byte>)
    ensures Sse.Flatten(chunks + [chunk]) == Sse.Flatten(chunks) + chunk
    decreases |chunks|
  {
    if chunks == [] {
      assert [chunk][1..] == [] && [] + [chunk] == [chunk];
    } else {
      assert (chunks + [chunk])[1..] == chunks[1..] + [chunk];
      FlattenLast(chunks[1..], chunk);
    }
  }

  /** What the first part of a body decodes to comes first in what all of it decodes to. */
  lemma DecodesFirst(chunks: seq<seq<Byte>>, more: seq<Byte>)
    requires Sse.Feed(Sse.FRESH, chunks).Ok?
    ensures Sse.Feed(Sse.FRESH, chunks).events <= Whole(Sse.Flatten(chunks) + more).events
  {
    hide Sse.Drain, Sse.Feed;
    var bytes := Sse.Flatten(chunks);
    SseProofs.FeedIsOneDrain(Sse.FRESH, chunks);
    SseProofs.DrainAppend(Sse.Fed(Sse.FRESH, bytes), more);
    assert Sse.Fed(Sse.Fed(Sse.FRESH, bytes), more) == Sse.Fed(Sse.FRESH, bytes + more);
  }

  lemma DigestFirst(b: Backend, first: seq<Text>, all: seq<Text>)
    requires first <= all
    ensures var (d, e) := (Digest(b, first, None), Digest(b, all, None));
            d.deltas <= e.deltas && (d.end != Going ==> d == e)
  {
    hide Digest;
    DigestAppend(b, first, all[|first|..], None);
    assert all == first + all[|first|..];
  }

  /** While nothing has been carried, reading on delivers nothing, until the reading fails. */
  lemma {:induction false} DeliversNothing(b: Backend, chunks: seq<seq<Byte>>, more: seq<Byte>)
    requires var d := Digest(b, Whole(Sse.Flatten(chunks) + more).events, None);
             d.deltas == [] && d.end != Marked
    ensures var d := ReadBody(b, chunks).digest;
            d.deltas == [] && (d.end == Malformed || (d.end == Going && Sse.Feed(Sse.FRESH, chunks).Ok?))
    decreases |chunks|
  {
    hide ReadBody, Sse.Feed, Sse.Flatten, Digest, Whole;
    if chunks == [] {
      NothingRead(b);
    } else {
      var n := |chunks| - 1;
      var before, chunk := chunks[..n], chunks[n];
      assert chunks == before + [chunk];
      FlattenLast(before, chunk);
      assert Sse.Flatten(before) + (chunk + more) == Sse.Flatten(chunks) + more;
      DeliversNothing(b, before, chunk + more);
      if ReadBody(b, before).digest.end == Going && Sse.Feed(Sse.FRESH, chunks).Ok? {
        ReadBodyIsDigest(b, chunks);
        DecodesFirst(chunks, more);
        DigestFirst(b, Sse.Feed(Sse.FRESH, chunks).events, Whole(Sse.Flatten(chunks) + more).events);
      } else {
        FailsThere(b, before, chunk);
      }
    }
  }

  lemma NothingRead(b: Backend)
    ensures ReadBody(b, []) == UNREAD_BODY && Sse.Feed(Sse.FRESH, []).Ok?
  {
  }

  lemma FailsThere(b: Backend, before: seq<seq<Byte>>, chunk: seq<Byte>)
    ensures var (r, next) := (ReadBody(b, before), ReadBody(b, before + [chunk]));
            && (r.digest.end != Going ==> next == r)
            && (r.digest.end == Going && Sse.Feed(Sse.FRESH, before).Ok?
                && !Sse.Feed(Sse.FRESH, before + [chunk]).Ok? ==>
                  next.digest == r.digest.(end := Malformed))
  {
    hide Sse.Push, Sse.Feed, Digest;
    assert (before + [chunk])[..|before|] == before;
    if ReadBody(b, before).digest.end == Going && Sse.Feed(Sse.FRESH, before).Ok? {
      ReadBodyIsDigest(b, before);
      if Sse.Push(Sse.Feed(Sse.FRESH, before).decoder, chunk).Ok? {
        FeedThen(Sse.FRESH, before, chunk);
      }
    }
  }

  /** A body of any length reads alike at two splits that find room, when nothing it says can show. */
  lemma AlikeWhenNothingShows(b: Backend, id: nat, frames: seq<seq<Byte>>, others: seq<seq<Byte>>)
    requires Sse.Flatten(frames) == Sse.Flatten(others)
    requires SseProofs.RoomThroughout(Sse.FRESH, frames) && SseProofs.RoomThroughout(Sse.FRESH, others)
    requires SplitsDoNotShow(b, Sse.Flatten(frames))
    ensures Delivered(b, id, frames) == Delivered(b, id, others)
  {
    hide Sse.Drain, Sse.Feed, Sse.Flatten, SseProofs.RoomThroughout, Digest, ReadBody;
    var body := Sse.Flatten(frames);
    assert body + [] == body;
    SseProofs.FeedIsOneDrain(Sse.FRESH, frames);
    SseProofs.FeedIsOneDrain(Sse.FRESH, others);
    if Whole(body).failed {
      DeliversNothing(b, frames, []);
      DeliversNothing(b, others, []);
    } else {
      ReadBodyIsDigest(b, frames);
      ReadBodyIsDigest(b, others);
    }
  }

  /**
   * Every two splits of a body deliver the same texts and the same end exactly when the
   * body decodes, or nothing before the line that does not carries text or the marker.
   */
  lemma SplitsReadAlikeExactlyWhen(b: Backend, id: nat, body: seq<Byte>)
    requires |body| <= Sse.MAX_PENDING_BYTES
    ensures (forall frames, others :: Sse.Flatten(frames) == body && Sse.Flatten(others) == body ==>
               Delivered(b, id, frames) == Delivered(b, id, others))
            <==> SplitsDoNotShow(b, body)
  {
    hide Sse.Flatten, Delivered, Digest, Whole;
    if SplitsDoNotShow(b, body) {
      forall frames, others | Sse.Flatten(frames) == body && Sse.Flatten(others) == body
        ensures Delivered(b, id, frames) == Delivered(b, id, others)
      {
        SseProofs.SmallInputHasRoom(Sse.FRESH, frames);
        SseProofs.SmallInputHasRoom(Sse.FRESH, others);
        AlikeWhenNothingShows(b, id, frames, others);
      }
    } else {
      OneFrameFails(b, id, body);
      TwoFrames(b, body, []);
      var frames := CutFramesDeliver(b, id, body);
      assert Delivered(b, id, frames) != Delivered(b, id, [body]);
    }
  }
}
