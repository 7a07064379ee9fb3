/** What a generation's stream keeps in every interleaving of its two halves and of those who act on the request. */
module StreamProofs {
  import opened Wrappers
  import opened Requests
  import opened Streams

  lemma OneMore(id: nat, texts: seq<Text>, text: Text)
    ensures Body(id, texts + [text]) == Body(id, texts) + [Yields(TextDelta(id, text))]
  {
    assert Deltas(id, texts + [text]) == Deltas(id, texts) + [Yields(TextDelta(id, text))];
  }

  lemma ActKeeps(g: Generation, action: Action)
    requires Inv(g) && Enabled(g, Act(action))
    ensures Inv(Do(g, Act(action)))
  {
  }

  lemma EmitKeeps(g: Generation, text: Text)
    requires Inv(g) && Enabled(g, Emit(text))
    ensures Inv(Do(g, Emit(text)))
  {
    OneMore(g.id, g.emitted, text);
    var item := Yields(TextDelta(g.id, text));
    assert (g.drawn + g.pipe.queue) + [item] == g.drawn + (g.pipe.queue + [item]);
  }

  lemma EndKeeps(g: Generation, step: Step)
    requires step.Complete? || step.Cancel? || step.RecordStop? || step.Fail? || step.Vanish?
    requires Inv(g) && Enabled(g, step) && Warrants(g, step)
    ensures Inv(Do(g, step))
  {
  }

  lemma SendKeeps(g: Generation)
    requires Inv(g) && Enabled(g, Send)
    ensures Inv(Do(g, Send))
  {
    var item := g.sink.item;
    assert (g.drawn + g.pipe.queue) + [item] == g.drawn + (g.pipe.queue + [item]);
  }

  /** Drawing what stands first in the buffer. */
  lemma TakeKeeps(g: Generation)
    requires Inv(g) && Enabled(g, Next) && !g.reader.finished && g.pipe.queue != []
    ensures Inv(Do(g, Next))
  {
    var item, body := g.pipe.queue[0], Body(g.id, g.emitted);
    FirstIsNext(g);
    if |g.drawn| == |body| {
      assert g.drawn == body;
    } else {
      assert g.drawn + [item] == body[..|g.drawn| + 1];
    }
  }

  lemma FirstIsNext(g: Generation)
    requires g.pipe.queue != [] && g.drawn + g.pipe.queue == Sent(g) && g.drawn <= Body(g.id, g.emitted)
    ensures (g.drawn + [g.pipe.queue[0]]) + g.pipe.queue[1..] == Sent(g)
    ensures var n := |g.drawn|;
            if n == 0 then g.pipe.queue[0] == Yields(Started(g.id))
            else if n <= |g.emitted| then g.pipe.queue[0] == Yields(TextDelta(g.id, g.emitted[n - 1]))
            else g.last == Some(g.pipe.queue[0])
    ensures |g.drawn| <= |g.emitted| ==> Body(g.id, g.emitted)[|g.drawn|] == g.pipe.queue[0]
  {
    assert g.drawn + g.pipe.queue == (g.drawn + [g.pipe.queue[0]]) + g.pipe.queue[1..];
    assert g.pipe.queue[0] == Sent(g)[|g.drawn|];
  }

  lemma NextKeeps(g: Generation)
    requires Inv(g) && Enabled(g, Next)
    ensures Inv(Do(g, Next))
  {
    if !g.reader.finished && g.pipe.queue != [] {
      TakeKeeps(g);
    } else if !g.reader.finished && !g.pipe.feeding {
      assert g.drawn + g.pipe.queue == g.drawn;
    }
  }

  lemma StepKeeps(g: Generation, step: Step)
    requires Inv(g) && Enabled(g, step) && Warrants(g, step)
    ensures Inv(Do(g, step))
  {
    match step
    case Act(action) => ActKeeps(g, action);
    case Emit(text) => EmitKeeps(g, text);
    case Send => SendKeeps(g);
    case Next => NextKeeps(g);
    case Close =>
    case Leave =>
    case _ => EndKeeps(g, step);
  }

  // ------------------------------------------------------------------- runs

  lemma {:induction false} RunKeeps(states: seq<Generation>, steps: seq<Step>, i: nat)
    requires IsRun(states, steps) && i < |states|
    ensures Inv(states[i])
  {
    hide Inv, Do, Enabled, Warrants, Initial, IsRun;
    if i == 0 {
      InitialKeeps(states, steps);
    } else {
      StepOf(states, steps, i - 1);
      RunKeeps(states, steps, i - 1);
      StepKeeps(states[i - 1], steps[i - 1]);
    }
  }

  lemma InitialKeeps(states: seq<Generation>, steps: seq<Step>)
    requires IsRun(states, steps)
    ensures Inv(states[0])
  {
    hide Do, Enabled, Warrants, Initial, Inv;
    InitialIsSound(states[0]);
  }

  lemma InitialIsSound(g: Generation)
    requires Initial(g)
    ensures Inv(g)
  {
    assert Body(g.id, []) == [Yields(Started(g.id))];
  }

  lemma StepOf(states: seq<Generation>, steps: seq<Step>, i: nat)
    requires IsRun(states, steps) && i + 1 < |states|
    ensures i < |steps| && Enabled(states[i], steps[i]) && Warrants(states[i], steps[i])
    ensures states[i + 1] == Do(states[i], steps[i])
  {
    hide Do, Enabled, Warrants, Initial;
  }

  /** What no step undoes. */
  ghost predicate After(g: Generation, n: Generation) {
    && n.id == g.id && Later(g.request, n.request)
    && g.drawn <= n.drawn && g.emitted <= n.emitted
    && (n.pipe.reading ==> g.pipe.reading)
    && (g.reader.finished ==> n.reader == g.reader && n.drawn == g.drawn)
    && (g.outcome.Some? ==> n.outcome == g.outcome && n.emitted == g.emitted && !n.sink.Open?)
    && (g.sink.Gone? ==> n.sink.Gone? && n.emitted == g.emitted && n.outcome == g.outcome && Settled(n.request))
  }

  lemma StepAfter(g: Generation, step: Step)
    requires Inv(g) && Enabled(g, step) && Warrants(g, step)
    ensures After(g, Do(g, step))
  {
    StepKeeps(g, step);
    hide Body, Sent, PipeSound, ReaderSound;
  }

  lemma AfterSelf(g: Generation)
    requires Inv(g)
    ensures After(g, g)
  {
    hide PipeSound, ReaderSound;
  }

  lemma AfterTransitive(a: Generation, b: Generation, c: Generation)
    requires After(a, b) && After(b, c)
    ensures After(a, c)
  {
  }

  lemma {:induction false} RunAfter(states: seq<Generation>, steps: seq<Step>, i: nat, j: nat)
    requires IsRun(states, steps) && i <= j < |states|
    ensures After(states[i], states[j])
    decreases j
  {
    hide Inv, Do, Enabled, Warrants, After, IsRun;
    if i == j {
      RunKeeps(states, steps, i);
      AfterSelf(states[i]);
    } else {
      StepOf(states, steps, j - 1);
      RunKeeps(states, steps, j - 1);
      RunAfter(states, steps, i, j - 1);
      StepAfter(states[j - 1], steps[j - 1]);
      AfterTransitive(states[i], states[j - 1], states[j]);
    }
  }

  /**
   * In every state of every run: the buffer is within its bound and every text in it has
   * content; what a consumer has drawn is the start, then the emitted texts in order,
   * then, once it has finished, one end, the one decided on, that says of the request what
   * the request says of itself, a cancellation for the cause recorded first. Nothing drawn is skipped:
   * while the consumer reads, what it has drawn and what is waiting make up all that was
   * sent. A request whose producer is gone has ended.
   */
  lemma StreamIsTruthful(states: seq<Generation>, steps: seq<Step>, i: nat)
    requires IsRun(states, steps) && i < |states|
    ensures var g := states[i];
            && |g.pipe.queue| <= 32
            && (forall k :: 0 <= k < |g.emitted| ==> g.emitted[k] != [])
            && (if g.reader.finished then
                  && g.drawn != []
                  && var t := g.drawn[|g.drawn| - 1];
                     && g.drawn == Body(g.id, g.emitted) + [t] && EndsStream(t) && Truthful(t, g.id, g.request)
                     && t == (if g.outcome.Some? then g.outcome.value else Error(UnexpectedEnd))
                else g.drawn <= Body(g.id, g.emitted))
            && (!g.reader.finished && g.pipe.reading ==>
                  g.drawn + g.pipe.queue == Body(g.id, g.emitted) + if g.last.Some? then [g.last.value] else [])
            && (g.sink.Gone? ==> Settled(g.request))
  {
    RunKeeps(states, steps, i);
  }

  /** Nothing follows an end: however often it is asked, the consumer is told there is no more. */
  lemma NothingFollowsTheEnd(states: seq<Generation>, steps: seq<Step>, i: nat, j: nat)
    requires IsRun(states, steps) && i <= j < |states|
    requires states[i].reader.finished
    ensures states[j].drawn == states[i].drawn && states[j].emitted == states[i].emitted
    ensures states[j].request.state == states[i].request.state
    ensures Draw(states[j].reader, states[j].pipe, states[j].request).result == Ready(None)
  {
    RunKeeps(states, steps, i);
    RunAfter(states, steps, i, j);
  }

  /**
   * Generation is demonstrated exactly when the consumer was given some text and then a
   * completion; a failure or a stop after any amount of text demonstrates nothing.
   */
  lemma DemonstratedMeansCompletedWithText(states: seq<Generation>, steps: seq<Step>, i: nat)
    requires IsRun(states, steps) && i < |states|
    ensures var g := states[i];
            Demonstrated(g.reader) <==>
              && (exists k :: 0 <= k < |g.drawn| && g.drawn[k].Yields? && g.drawn[k].event.TextDelta?)
              && g.drawn[|g.drawn| - 1].Yields? && g.drawn[|g.drawn| - 1].event.Completed?
  {
    RunKeeps(states, steps, i);
    var g := states[i];
    if Demonstrated(g.reader) {
      assert g.drawn[1] == Yields(TextDelta(g.id, g.emitted[0]));
    } else if !g.reader.finished && g.drawn != [] {
      assert g.drawn[|g.drawn| - 1] == Body(g.id, g.emitted)[|g.drawn| - 1];
    }
  }

  /** What stopping a sink for `cause` makes of its request. */
  function StoppedFor(q: Request, cause: Cause): Request {
    Apply(Apply(q, RequestCancellation(cause)).0, Finish(RequestState.Cancelled)).0
  }

  /**
   * A sink reports the cause it is given, while the request keeps the first one it was
   * given, so the report is true exactly when nothing else had been recorded.
   */
  lemma CancellationIsTruthfulExactlyWhen(q: Request, id: nat, cause: Cause)
    requires Valid(q) && !Settled(q)
    ensures Truthful(Yields(Event.Cancelled(id, cause)), id, StoppedFor(q, cause))
            <==> q.cause.None? || q.cause == Some(cause)
  {
  }

  // ------------------------------------------------------------------- paths

  lemma LeadsNowhere(g: Generation)
    ensures Reaches(g, g) && ReachedByOthers(g, g)
  {
    hide Enabled, Do, Warrants;
    var none: seq<Step> := [];
    assert OthersOnly(none) && Leads(g, none, g);
  }

  lemma LeadsOne(g: Generation, step: Step)
    requires Enabled(g, step) && Warrants(g, step)
    ensures Leads(g, [step], Do(g, step)) && Reaches(g, Do(g, step))
    ensures ByOthers(step) ==> ReachedByOthers(g, Do(g, step))
  {
    hide Enabled, Do, Warrants;
    assert [step][1..] == [];
    assert ByOthers(step) ==> OthersOnly([step]);
  }

  lemma {:induction false} LeadsOn(a: Generation, s: seq<Step>, b: Generation, t: seq<Step>, c: Generation)
    requires Leads(a, s, b) && Leads(b, t, c)
    ensures Leads(a, s + t, c)
    decreases |s|
  {
    hide Enabled, Do, Warrants;
    if s == [] {
      assert s + t == t;
    } else {
      LeadsOn(Do(a, s[0]), s[1..], b, t, c);
      assert (s + t)[1..] == s[1..] + t;
    }
  }

  lemma ReachesOn(a: Generation, b: Generation, c: Generation)
    requires Reaches(a, b) && Reaches(b, c)
    ensures Reaches(a, c)
  {
    hide Leads;
    var s, t :| Leads(a, s, b) && Leads(b, t, c);
    LeadsOn(a, s, b, t, c);
  }

  /** What is reached from a start is the last state of a run. */
  lemma {:induction false} LeadsIsRun(g: Generation, steps: seq<Step>, n: Generation) returns (states: seq<Generation>)
    requires Leads(g, steps, n)
    ensures |states| == |steps| + 1 && states[0] == g && states[|steps|] == n
    ensures Initial(g) ==> IsRun(states, steps)
    ensures forall i :: 0 <= i < |steps| ==>
              Enabled(states[i], steps[i]) && Warrants(states[i], steps[i]) && states[i + 1] == Do(states[i], steps[i])
    decreases |steps|
  {
    hide Enabled, Do, Warrants, Initial;
    if steps == [] {
      states := [g];
    } else {
      var others := LeadsIsRun(Do(g, steps[0]), steps[1..], n);
      states := [g] + others;
    }
  }

  // --------------------------------------------------------------- who else acts

  lemma NothingElapsed(g: Generation)
    ensures Elapsed(g.request, g.pipe, g.request, g.pipe)
  {
  }

  lemma OtherStep(g: Generation, step: Step)
    requires Producing(g) && Enabled(g, step) && ByOthers(step)
    ensures var n := Do(g, step);
            && Producing(n) && n.emitted == g.emitted && n.outcome == g.outcome && n.last == g.last
            && Elapsed(g.request, g.pipe, n.request, n.pipe)
  {
  }

  lemma ElapsedTwice(a: Generation, b: Generation, c: Generation)
    requires Elapsed(a.request, a.pipe, b.request, b.pipe) && Elapsed(b.request, b.pipe, c.request, c.pipe)
    ensures Elapsed(a.request, a.pipe, c.request, c.pipe)
  {
    hide Valid;
    LaterTransitive(a.request, b.request, c.request);
    assert IsSuffix(c.pipe.queue, a.pipe.queue);
  }

  /** Whatever others do while the producer is at work, in however many steps, is within what it allows for. */
  lemma {:induction false} OthersElapse(g: Generation, steps: seq<Step>, n: Generation)
    requires Producing(g) && OthersOnly(steps) && Leads(g, steps, n)
    ensures Producing(n) && n.emitted == g.emitted && n.outcome == g.outcome && n.last == g.last
    ensures Elapsed(g.request, g.pipe, n.request, n.pipe)
    decreases |steps|
  {
    hide Producing, Enabled, Do, Warrants, Elapsed;
    if steps == [] {
      NothingElapsed(g);
    } else {
      var next := Do(g, steps[0]);
      OtherStep(g, steps[0]);
      OthersElapse(next, steps[1..], n);
      ElapsedTwice(g, next, n);
    }
  }

  // ------------------------------------------------------------- from end to end

  /**
   * Once a producer has decided how a stream ends, a consumer that draws to the end has
   * drawn the start, everything emitted and that very end, whatever was interleaved
   * before and after, and the request ended the way it was told.
   */
  lemma TheEndIsHeard(g: Generation, n: Generation, m: Generation)
    requires Initial(g) && Reaches(g, n) && Reaches(n, m)
    requires n.outcome.Some? && m.reader.finished
    ensures m.drawn == Body(g.id, n.emitted) + [n.outcome.value]
    ensures Truthful(n.outcome.value, g.id, m.request)
  {
    hide Initial, Inv, Leads, IsRun;
    var s, t :| Leads(g, s, n) && Leads(n, t, m);
    LeadsOn(g, s, n, t, m);
    var before := LeadsIsRun(g, s, n);
    RunKeeps(before, s, |s|);
    RunAfter(before, s, 0, |s|);
    var states := LeadsIsRun(g, s + t, m);
    RunKeeps(states, s + t, |s + t|);
    PathAfter(n, t, m);
    FinishedMeans(m);
  }

  lemma FinishedMeans(g: Generation)
    requires Inv(g) && g.reader.finished
    ensures g.drawn != [] && var t := g.drawn[|g.drawn| - 1];
            && g.drawn == Body(g.id, g.emitted) + [t] && Truthful(t, g.id, g.request)
            && t == (if g.outcome.Some? then g.outcome.value else Error(UnexpectedEnd))
  {
  }

  lemma {:induction false} PathAfter(g: Generation, steps: seq<Step>, n: Generation)
    requires Inv(g) && Leads(g, steps, n)
    ensures After(g, n) && Inv(n)
    decreases |steps|
  {
    hide Inv, Enabled, Do, Warrants, After;
    if steps == [] {
      AfterSelf(g);
    } else {
      StepKeeps(g, steps[0]);
      StepAfter(g, steps[0]);
      PathAfter(Do(g, steps[0]), steps[1..], n);
      AfterTransitive(g, Do(g, steps[0]), n);
    }
  }

  // --------------------------------------------------- a producer that just goes

  /** A stream whose producer went while its end waited for room, as a consumer goes on to draw it. */
  ghost predicate LeftToDraw(g: Generation) {
    && g.sink.Gone? && !g.pipe.feeding && g.pipe.reading && !g.reader.finished
    && Settled(g.request)
    && g.drawn + g.pipe.queue == Body(g.id, g.emitted)
  }

  lemma {:induction false} DrawsWhatIsLeft(g: Generation)
    requires LeftToDraw(g)
    ensures var n := TakenTimes(g, |g.pipe.queue| + 1);
            && n.drawn == Body(g.id, g.emitted) + [Error(UnexpectedEnd)]
            && n.reader.finished && n.request == g.request && n.id == g.id
    decreases |g.pipe.queue|
  {
    var next := Taking(g);
    if g.pipe.queue == [] {
      assert g.drawn + [] == g.drawn;
      assert TakenTimes(g, 1) == TakenTimes(next, 0);
    } else {
      var item := g.pipe.queue[0];
      assert item == Body(g.id, g.emitted)[|g.drawn|];
      assert !EndsStream(item);
      assert g.drawn + g.pipe.queue == (g.drawn + [item]) + g.pipe.queue[1..];
      DrawsWhatIsLeft(next);
    }
  }

  /**
   * A producer that goes while its end waits for room, however full the buffer is, leaves
   * a consumer that draws everything emitted and is then told of an unexpected end, which
   * agrees with the request exactly when the end never sent was a failure.
   */
  lemma AbandonedIsTruthfulExactlyWhen(g: Generation)
    requires Inv(g) && g.sink.Ending? && g.pipe.reading
    ensures var n := TakenTimes(Abandoned(g), |g.pipe.queue| + 1);
            && n.drawn == Body(g.id, g.emitted) + [Error(UnexpectedEnd)]
            && n.reader.finished && n.request == g.request
            && (Truthful(Error(UnexpectedEnd), n.id, n.request) <==> g.outcome.value.Error?)
  {
    var left := Abandoned(g);
    assert Sent(g) == Body(g.id, g.emitted);
    DrawsWhatIsLeft(left);
  }
}
