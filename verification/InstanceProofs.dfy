/** What every interleaving of an instance's steps keeps. */
module InstanceProofs {
  import opened Wrappers
  import opened Requests
  import Sets
  import Workers
  import opened Instances

  lemma ActOnward(c: Core, id: RequestId, action: Action)
    requires Sound(c) && id in c.requests && Allowed(action)
    ensures Sound(Acting(c, id, action)) && Onward(c, Acting(c, id, action))
  {
    RunIsLater(c.requests[id], [action]);
    assert [action][1..] == [];
    assert Run(c.requests[id], [action]) == Apply(c.requests[id], action).0;
  }

  lemma OnwardKeeps(c: Core, d: Core, ids: set<RequestId>)
    requires Onward(c, d) && c.requests.Keys == d.requests.Keys
    ensures Among(c, ids) ==> Among(d, ids)
    ensures AllTold(c) ==> AllTold(d)
    ensures forall id <- c.requests :: SettledOrTold(c.requests[id]) ==> SettledOrTold(d.requests[id])
    ensures |Unsettled(d)| <= |Unsettled(c)|
  {
    assert Unsettled(d) <= Unsettled(c);
    Sets.NoMoreIn(Unsettled(d), Unsettled(c));
  }

  /** The stage a teardown has reached survives whatever is done to requests. */
  lemma StageKept(s: Instance, t: Teardown, d: Core)
    requires Stage(s, t) && Onward(s.core, d) && s.core.requests.Keys == d.requests.Keys
    requires d.phase == s.core.phase
    ensures Stage(s.(core := d), t)
  {
    match t
    case Telling(_, outstanding, _) => OnwardKeeps(s.core, d, outstanding);
    case Scanning(_, _, toLook, seen) => OnwardKeeps(s.core, d, toLook + seen);
    case Stopping(_, _, seen) => OnwardKeeps(s.core, d, seen);
    case Recording(_, seen, _) => OnwardKeeps(s.core, d, seen);
    case _ => OnwardKeeps(s.core, d, {});
  }

  lemma AdmitKeeps(s: Instance, forgotten: set<RequestId>)
    requires Inv(s) && Enabled(s, Admit(forgotten))
    ensures Inv(Do(s, Admit(forgotten)))
  {
  }

  lemma ForgetKeeps(s: Instance, forgotten: set<RequestId>)
    requires Inv(s) && Enabled(s, Forget(forgotten))
    ensures Inv(Do(s, Forget(forgotten)))
  {
    var next := Do(s, Forget(forgotten));
    if s.core.phase != Serving {
      StageKept(s, s.teardowns[s.takers[0]], next.core);
    }
  }

  lemma ActKeeps(s: Instance, id: RequestId, action: Action)
    requires Inv(s) && Enabled(s, Act(id, action))
    ensures Inv(Do(s, Act(id, action)))
  {
    var next := Do(s, Act(id, action));
    ActOnward(s.core, id, action);
    OnwardKeeps(s.core, next.core, s.core.active);
    if s.core.phase != Serving {
      StageKept(s, s.teardowns[s.takers[0]], next.core);
    }
  }

  lemma BeginKeeps(s: Instance, task: TaskId, outstanding: set<RequestId>)
    requires Inv(s) && Enabled(s, Begin(task, outstanding))
    ensures Inv(Do(s, Begin(task, outstanding)))
  {
    var next := Do(s, Begin(task, outstanding));
    if s.core.phase == Serving {
      forall id <- s.core.requests ensures Settled(s.core.requests[id]) || id in outstanding {
        assert id in s.core.active && id !in outstanding ==> id in s.core.active - outstanding;
      }
      assert Stage(next, next.teardowns[task]);
    } else {
      assert Stage(next, s.teardowns[s.takers[0]]);
    }
  }

  lemma TellKeeps(s: Instance, task: TaskId, id: RequestId)
    requires Inv(s) && Enabled(s, Tell(task, id))
    ensures Inv(Do(s, Tell(task, id)))
  {
    var next := Do(s, Tell(task, id));
    var action := RequestCancellation(InstanceUnloading);
    ActOnward(s.core, id, action);
    OnwardKeeps(s.core, next.core, s.core.active);
    OnwardKeeps(s.core, next.core, s.teardowns[task].outstanding);
    assert SettledOrTold(Apply(s.core.requests[id], action).0);
    assert Stage(next, next.teardowns[task]);
  }

  lemma ScanKeeps(s: Instance, task: TaskId)
    requires Inv(s) && Enabled(s, Scan(task))
    ensures Inv(Do(s, Scan(task)))
  {
    var next, t := Do(s, Scan(task)), s.teardowns[task];
    assert t.outstanding + {} == t.outstanding;
    assert Stage(next, next.teardowns[task]);
  }

  lemma LookKeeps(s: Instance, task: TaskId, id: RequestId)
    requires Inv(s) && Enabled(s, Look(task, id))
    ensures Inv(Do(s, Look(task, id)))
  {
    var next := Do(s, Look(task, id));
    assert Stage(next, next.teardowns[task]);
  }

  lemma LeaveKeeps(s: Instance, task: TaskId, expired: bool)
    requires Inv(s) && Enabled(s, Leave(task, expired))
    ensures Inv(Do(s, Leave(task, expired)))
  {
    var next, t := Do(s, Leave(task, expired)), s.teardowns[task];
    assert {} + t.seen == t.seen;
    assert forall id <- t.seen :: id in t.outstanding + {};
    assert Stage(next, next.teardowns[task]);
  }

  lemma StopReturnsKeeps(s: Instance, task: TaskId, kill: Workers.Kill)
    requires Inv(s) && Enabled(s, StopReturns(task, kill))
    ensures Inv(Do(s, StopReturns(task, kill)))
  {
    var next := Do(s, StopReturns(task, kill));
    assert Stage(next, next.teardowns[task]);
  }

  lemma RecordKeeps(s: Instance, task: TaskId)
    requires Inv(s) && Enabled(s, Record(task))
    ensures Inv(Do(s, Record(task)))
  {
    var next, t := Do(s, Record(task)), s.teardowns[task];
    Sets.NoMoreIn(Unsettled(s.core), t.seen);
    Sets.NoMoreIn(t.seen, t.outstanding);
    assert Unsettled(next.core) == Unsettled(s.core);
    assert Stage(next, next.teardowns[task]);
  }

  lemma DropKeeps(s: Instance, task: TaskId)
    requires Inv(s) && Enabled(s, Drop(task))
    ensures Inv(Do(s, Drop(task)))
  {
    var next := Do(s, Drop(task));
    assert Stage(next, next.teardowns[task]);
  }

  lemma StepKeeps(s: Instance, step: Step)
    requires Inv(s) && Enabled(s, step)
    ensures Inv(Do(s, step))
  {
    hide Inv, Enabled, Do;
    match step
    case Admit(forgotten) => AdmitKeeps(s, forgotten);
    case Forget(forgotten) => ForgetKeeps(s, forgotten);
    case Act(id, action) => ActKeeps(s, id, action);
    case Begin(task, outstanding) => BeginKeeps(s, task, outstanding);
    case Tell(task, id) => TellKeeps(s, task, id);
    case Scan(task) => ScanKeeps(s, task);
    case Look(task, id) => LookKeeps(s, task, id);
    case Leave(task, expired) => LeaveKeeps(s, task, expired);
    case StopReturns(task, kill) => StopReturnsKeeps(s, task, kill);
    case Record(task) => RecordKeeps(s, task);
    case Drop(task) => DropKeeps(s, task);
  }

  // ------------------------------------------------------------- direction

  predicate Gone(phase: Phase) {
    phase == Unloaded || phase == UnloadFailed
  }

  predicate ResultKept(t: Teardown, u: Teardown) {
    t.Returned? ==> u == t
  }

  /** What can never be undone, whatever happens between the two states. */
  ghost predicate After(s: Instance, n: Instance) {
    && Onward(s.core, n.core)
    && (n.core.phase == Serving ==> s.core.phase == Serving)
    && (Gone(s.core.phase) ==> n.core.phase == s.core.phase)
    && (s.core.phase != Serving ==> n.core.requests.Keys == s.core.requests.Keys && n.core.active <= s.core.active)
    && s.takers <= n.takers
    && s.stops <= n.stops && n.built == s.built
    && s.teardowns.Keys <= n.teardowns.Keys
    && (forall t <- s.teardowns :: ResultKept(s.teardowns[t], n.teardowns[t]))
  }

  lemma ActAfter(s: Instance, id: RequestId, action: Action)
    requires Inv(s) && id in s.core.requests && Allowed(action)
    ensures After(s, s.(core := Acting(s.core, id, action)))
  {
    ActOnward(s.core, id, action);
  }

  lemma StepAfter(s: Instance, step: Step)
    requires Inv(s) && Enabled(s, step)
    ensures After(s, Do(s, step))
  {
    hide Stage, Apply, Workers.StopByTermination;
    match step
    case Act(id, action) => ActAfter(s, id, action);
    case Tell(_, id) => ActAfter(s, id, RequestCancellation(InstanceUnloading));
    case Record(task) => RecordAfter(s, task);
    case _ =>
  }

  lemma RecordAfter(s: Instance, task: TaskId)
    requires Inv(s) && Enabled(s, Record(task))
    ensures After(s, Do(s, Record(task)))
  {
    assert s.core.phase == Unloading;
  }

  lemma AfterSelf(s: Instance)
    ensures After(s, s)
  {
  }

  lemma AfterTransitive(a: Instance, b: Instance, c: Instance)
    requires After(a, b) && After(b, c)
    ensures After(a, c)
  {
    forall id <- a.core.requests ensures Later(a.core.requests[id], c.core.requests[id]) {
      LaterTransitive(a.core.requests[id], b.core.requests[id], c.core.requests[id]);
    }
    forall t <- a.teardowns ensures ResultKept(a.teardowns[t], c.teardowns[t]) {
      assert ResultKept(a.teardowns[t], b.teardowns[t]);
      assert ResultKept(b.teardowns[t], c.teardowns[t]);
    }
  }

  // ------------------------------------------------------------------ runs

  lemma {:induction false} RunKeeps(states: seq<Instance>, steps: seq<Step>, i: nat)
    requires IsRun(states, steps) && i < |states|
    ensures Inv(states[i])
  {
    if i > 0 {
      RunKeeps(states, steps, i - 1);
      StepKeeps(states[i - 1], steps[i - 1]);
      assert states[i - 1 + 1] == states[i];
    }
  }

  lemma {:induction false} RunAfter(states: seq<Instance>, steps: seq<Step>, i: nat, j: nat)
    requires IsRun(states, steps) && i <= j < |states|
    ensures After(states[i], states[j])
    decreases j
  {
    hide Inv, Do, Enabled, After;
    if i < j {
      RunKeeps(states, steps, j - 1);
      RunAfter(states, steps, i, j - 1);
      assert states[j - 1 + 1] == states[j];
      assert Enabled(states[j - 1], steps[j - 1]);
      StepAfter(states[j - 1], steps[j - 1]);
      AfterTransitive(states[i], states[j - 1], states[j]);
    } else {
      AfterSelf(states[i]);
    }
  }

  /** The stop left no process in hand: there was none, it was seen to exit, it took the kill, or it ended anyway. */
  predicate Stopped(s: Stop) {
    && s.ok && !s.after.child
    && (s.before.child ==>
          s.kill.before == Workers.Exited || s.kill.accepted || s.kill.after == Workers.Exited || s.kill.endsInTime)
  }

  /** The stop left a process in hand, which was there throughout, did not take the kill and did not end. */
  predicate Refused(s: Stop) {
    && !s.ok && s.after.child && s.before.child
    && s.kill.before != Workers.Exited && !s.kill.accepted && s.kill.after != Workers.Exited && !s.kill.endsInTime
  }

  lemma StopsEnd(s: Stop)
    requires StopOf(s)
    ensures s.ok <==> Stopped(s)
    ensures !s.ok <==> Refused(s)
  {
  }

  /**
   * In every state of every run: a request that has not ended is tracked until teardown
   * lets go of it; at most one call ever takes the worker and at most one stop returns;
   * while a stop is under way every request ever admitted has ended or been told to; and
   * what the phase says of the worker is what that one stop established.
   */
  lemma TeardownIsSafe(states: seq<Instance>, steps: seq<Step>, i: nat)
    requires IsRun(states, steps) && i < |states|
    ensures var s := states[i];
            && (s.core.phase == Serving || s.core.phase == Unloading ==>
                  forall id <- s.core.requests :: Settled(s.core.requests[id]) || id in s.core.active)
            && |s.takers| == (if s.core.phase == Serving then 0 else 1)
            && |s.stops| <= 1
            && (forall t <- s.teardowns :: s.teardowns[t].Stopping? ==>
                  && s.takers == [t]
                  && (forall id <- s.core.requests :: SettledOrTold(s.core.requests[id]))
                  && (s.teardowns[t].seen == {} ==>
                        forall id <- s.core.requests :: Settled(s.core.requests[id])))
            && (s.core.phase == Unloaded ==> |s.stops| == 1 && s.stops[0].before == s.built && Stopped(s.stops[0]))
            && (s.core.phase == UnloadFailed ==> |s.stops| == 1 && s.stops[0].before == s.built && Refused(s.stops[0]))
            && (forall t <- s.teardowns :: !s.teardowns[t].Orphaned?)
  {
    RunKeeps(states, steps, i);
    var s := states[i];
    if s.stops != [] {
      StopsEnd(s.stops[0]);
    }
    forall t <- s.teardowns
      ensures !s.teardowns[t].Orphaned?
      ensures s.teardowns[t].Stopping? ==> s.takers == [t]
    {
      assert TurnedAway(s.teardowns[t]) || t in s.takers;
    }
  }

  /**
   * Once admission closed nothing is added; a phase that ends teardown is never left;
   * and any unload begun after a failed one is told so and touches nothing.
   */
  lemma ClosedForGood(states: seq<Instance>, steps: seq<Step>, i: nat, j: nat)
    requires IsRun(states, steps) && i <= j < |states|
    requires states[i].core.phase != Serving
    ensures var (s, n) := (states[i], states[j]);
            && n.core.phase != Serving
            && n.core.requests.Keys == s.core.requests.Keys
            && n.core.active <= s.core.active
            && n.takers == s.takers
            && (Gone(s.core.phase) ==> n.core.phase == s.core.phase && n.stops == s.stops)
            && (j < |steps| && steps[j].Begin? && s.core.phase == UnloadFailed ==>
                  && states[j + 1].core == n.core
                  && states[j + 1].teardowns[steps[j].task] == Returned(AlreadyFailed))
  {
    hide Stage, Enabled;
    RunAfter(states, steps, i, j);
    TeardownIsSafe(states, steps, i);
    TeardownIsSafe(states, steps, j);
    if j < |steps| && steps[j].Begin? {
      assert states[j + 1] == Do(states[j], steps[j]);
    }
  }

  /** The stop `task` asked for has begun and has not returned. */
  predicate UnderWay(s: Instance, task: TaskId) {
    task in s.teardowns && s.teardowns[task].Stopping?
  }

  /** `t` goes by what a stop with these outstanding and these seen unsettled began with. */
  ghost predicate Reports(t: Teardown, outstanding: set<RequestId>, seen: set<RequestId>) {
    match t
    case Recording(o, e, _) => o == outstanding && e == seen
    case Returned(Drained(cancelled)) => cancelled == |outstanding| && seen == {}
    case Returned(Escalated(cancelled, unsettled)) => cancelled == |outstanding| && unsettled == |seen| && seen != {}
    case _ => false
  }

  /** What a teardown whose stop is under way as `t` can be, then or later. */
  ghost predicate FateOf(t: Teardown, u: Teardown)
    requires t.Stopping?
  {
    u == t || u.Dropped? || u == Returned(StopFailed) || Reports(u, t.outstanding, t.seen)
  }

  lemma FateKept(s: Instance, step: Step, task: TaskId, t: Teardown)
    requires Enabled(s, step) && t.Stopping? && task in s.teardowns && FateOf(t, s.teardowns[task])
    ensures task in Do(s, step).teardowns && FateOf(t, Do(s, step).teardowns[task])
  {
    hide Apply, Workers.StopByTermination;
  }

  /** From whenever a stop is under way, what it began with is what its result goes by. */
  lemma {:induction false} WhileStopping(states: seq<Instance>, steps: seq<Step>, k: nat, j: nat, task: TaskId)
    requires IsRun(states, steps) && k <= j < |states| && UnderWay(states[k], task)
    ensures task in states[j].teardowns && FateOf(states[k].teardowns[task], states[j].teardowns[task])
    decreases j
  {
    hide Enabled, Do, FateOf;
    if j == k {
      FateOfItself(states[k].teardowns[task]);
    } else {
      WhileStopping(states, steps, k, j - 1, task);
      assert Enabled(states[j - 1], steps[j - 1]) && states[j - 1 + 1] == Do(states[j - 1], steps[j - 1]);
      FateKept(states[j - 1], steps[j - 1], task, states[k].teardowns[task]);
    }
  }

  lemma FateOfItself(t: Teardown)
    requires t.Stopping?
    ensures FateOf(t, t)
  {
  }

  /** A result other than a refusal or a failure is that of a stop that was under way before. */
  lemma {:induction false} StopWasUnderWay(states: seq<Instance>, steps: seq<Step>, i: nat, task: TaskId)
      returns (k: nat)
    requires IsRun(states, steps) && i < |states| && task in states[i].teardowns
    requires var t := states[i].teardowns[task];
             t.Recording? || (t.Returned? && (t.outcome.Drained? || t.outcome.Escalated?))
    ensures k < i && UnderWay(states[k], task)
  {
    hide Stage, Apply, Workers.StopByTermination;
    var s := states[i - 1];
    assert i > 0;
    assert Enabled(s, steps[i - 1]) && states[i - 1 + 1] == Do(s, steps[i - 1]);
    if UnderWay(s, task) {
      k := i - 1;
    } else {
      k := StopWasUnderWay(states, steps, i - 1, task);
    }
  }

  /**
   * An unload reported as drained or escalated had its worker stopped, and all through
   * that stop, from the state in which it began: for a drained one every request ever
   * admitted had ended; for an escalated one the number it gives is positive, no more
   * than it cancelled, and at least the number of requests still live.
   */
  lemma OutcomesAreTrue(states: seq<Instance>, steps: seq<Step>, i: nat, task: TaskId)
    requires IsRun(states, steps) && i < |states|
    requires task in states[i].teardowns && states[i].teardowns[task].Returned?
    ensures var outcome := states[i].teardowns[task].outcome;
            outcome.Drained? || outcome.Escalated? ==>
              && (exists k :: 0 <= k < i && UnderWay(states[k], task))
              && forall k :: 0 <= k < i && UnderWay(states[k], task) ==>
                   && |states[k].teardowns[task].outstanding| == outcome.cancelled
                   && (outcome.Drained? ==> Unsettled(states[k].core) == {})
                   && (outcome.Escalated? ==>
                         0 < outcome.unsettled <= outcome.cancelled && |Unsettled(states[k].core)| <= outcome.unsettled)
  {
    var outcome := states[i].teardowns[task].outcome;
    if outcome.Drained? || outcome.Escalated? {
      hide IsRun, Inv;
      var began := StopWasUnderWay(states, steps, i, task);
      forall k | 0 <= k < i && UnderWay(states[k], task)
        ensures |states[k].teardowns[task].outstanding| == outcome.cancelled
        ensures outcome.Drained? ==> Unsettled(states[k].core) == {}
        ensures outcome.Escalated? ==>
                  0 < outcome.unsettled <= outcome.cancelled && |Unsettled(states[k].core)| <= outcome.unsettled
      {
        RunKeeps(states, steps, k);
        WhileStopping(states, steps, k, i, task);
        LiveWhileStopping(states[k], task);
      }
    }
  }

  lemma LiveWhileStopping(s: Instance, task: TaskId)
    requires Inv(s) && UnderWay(s, task)
    ensures Unsettled(s.core) <= s.teardowns[task].seen <= s.teardowns[task].outstanding
    ensures |Unsettled(s.core)| <= |s.teardowns[task].seen| <= |s.teardowns[task].outstanding|
  {
    assert task in s.takers;
    assert Stage(s, s.teardowns[task]);
    Sets.NoMoreIn(Unsettled(s.core), s.teardowns[task].seen);
    Sets.NoMoreIn(s.teardowns[task].seen, s.teardowns[task].outstanding);
  }

  /** Requests nobody else acts on are told by an unload that their instance is going, and nothing else. */
  lemma {:induction false} LeftAloneToldWhy(states: seq<Instance>, steps: seq<Step>, i: nat)
    requires IsRun(states, steps) && i < |states|
    requires forall k :: 0 <= k < |steps| ==> !steps[k].Act?
    ensures forall id <- states[i].core.requests ::
              var q := states[i].core.requests[id];
              q == NEW || q == Request(Cancelling, Some(InstanceUnloading))
  {
    hide Stage, Workers.StopByTermination;
    if i > 0 {
      LeftAloneToldWhy(states, steps, i - 1);
      assert Enabled(states[i - 1], steps[i - 1]) && states[i - 1 + 1] == Do(states[i - 1], steps[i - 1]);
    }
  }
}
