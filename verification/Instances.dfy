/**
 * One instance being served and torn down, as a machine whose steps are the sections
 * the source runs under a lock, the single looks it takes at a request, and the return
 * of a stop. Requests may be acted on, and further unloads may arrive, between any two.
 */
module Instances {
  import opened Wrappers
  import opened Requests
  import Workers

  type RequestId = nat
  type TaskId = nat

  datatype Phase = Serving | Unloading | Unloaded | UnloadFailed

  datatype Outcome =
    | Drained(cancelled: nat)
    | Escalated(cancelled: nat, unsettled: nat)
    | AlreadyUnloading
    | AlreadyUnloaded
    | AlreadyFailed
    | StopFailed

  /** What the lifecycle lock guards, with the requests the handles in it refer to. */
  datatype Core = Core(
    phase: Phase,
    active: set<RequestId>,
    requests: map<RequestId, Request>,
    nextRequest: RequestId,
    worker: Option<Workers.Worker>)

  /** Where one call that takes the instance down has got to. */
  datatype Teardown =
    | Telling(worker: Workers.Worker, outstanding: set<RequestId>, toTell: set<RequestId>)
    | Scanning(worker: Workers.Worker, outstanding: set<RequestId>, toLook: set<RequestId>, seen: set<RequestId>)
    | Stopping(worker: Workers.Worker, outstanding: set<RequestId>, seen: set<RequestId>)
    | Recording(outstanding: set<RequestId>, seen: set<RequestId>, stopped: bool)
    | Orphaned
    | Dropped
    | Returned(outcome: Outcome)

  /** One stop of a worker: what it met, what it left and whether it reported success. */
  datatype Stop = Stop(before: Workers.Worker, kill: Workers.Kill, after: Workers.Worker, ok: bool)

  /**
   * `built` is the worker the instance began with; `takers` and `stops` record which calls
   * ever took it and how each stop ended.
   */
  datatype Instance = Instance(
    core: Core,
    teardowns: map<TaskId, Teardown>,
    built: Workers.Worker,
    takers: seq<TaskId>,
    stops: seq<Stop>)

  datatype Step =
    | Admit(forgotten: set<RequestId>)
    | Forget(forgotten: set<RequestId>)
    | Act(id: RequestId, action: Action)
    | Begin(task: TaskId, outstanding: set<RequestId>)
    | Tell(task: TaskId, id: RequestId)
    | Scan(task: TaskId)
    | Look(task: TaskId, id: RequestId)
    | Leave(task: TaskId, expired: bool)
    | StopReturns(task: TaskId, kill: Workers.Kill)
    | Record(task: TaskId)
    | Drop(task: TaskId)

  // ------------------------------------------------------ lock-held sections

  predicate SettledIn(c: Core, ids: set<RequestId>) {
    forall id <- ids :: id in c.requests && Settled(c.requests[id])
  }

  /** Registers a new request, letting go of active ones found to have ended. */
  function Admitting(c: Core, forgotten: set<RequestId>): Core {
    c.(active := c.active - forgotten + {c.nextRequest},
       requests := c.requests[c.nextRequest := NEW],
       nextRequest := c.nextRequest + 1)
  }

  function Forgetting(c: Core, forgotten: set<RequestId>): Core {
    c.(active := c.active - forgotten)
  }

  function Closing(c: Core): Core {
    c.(phase := Unloading, worker := None)
  }

  function Finishing(c: Core, phase: Phase): Core {
    c.(phase := phase, active := {})
  }

  function Acting(c: Core, id: RequestId, action: Action): Core
    requires id in c.requests
  {
    c.(requests := c.requests[id := Apply(c.requests[id], action).0])
  }

  function Refusal(phase: Phase): Outcome {
    match phase
    case Unloaded => AlreadyUnloaded
    case UnloadFailed => AlreadyFailed
    case _ => AlreadyUnloading
  }

  // ------------------------------------------------------------------ steps

  predicate Enabled(s: Instance, step: Step) {
    match step
    case Admit(forgotten) => s.core.phase == Serving && SettledIn(s.core, forgotten)
    case Forget(forgotten) => SettledIn(s.core, forgotten)
    case Act(id, action) => id in s.core.requests && Allowed(action)
    case Begin(task, outstanding) =>
      task !in s.teardowns && outstanding <= s.core.active && SettledIn(s.core, s.core.active - outstanding)
    case Tell(task, id) =>
      task in s.teardowns && s.teardowns[task].Telling? && id in s.teardowns[task].toTell && id in s.core.requests
    case Scan(task) => task in s.teardowns && s.teardowns[task].Telling? && s.teardowns[task].toTell == {}
    case Look(task, id) =>
      task in s.teardowns && s.teardowns[task].Scanning? && id in s.teardowns[task].toLook && id in s.core.requests
    case Leave(task, _) => task in s.teardowns && s.teardowns[task].Scanning? && s.teardowns[task].toLook == {}
    case StopReturns(task, _) => task in s.teardowns && s.teardowns[task].Stopping?
    case Record(task) => task in s.teardowns && (s.teardowns[task].Recording? || s.teardowns[task].Orphaned?)
    case Drop(task) =>
      task in s.teardowns
      && (s.teardowns[task].Telling? || s.teardowns[task].Scanning? || s.teardowns[task].Stopping?)
  }

  function At(s: Instance, task: TaskId, t: Teardown): Instance {
    s.(teardowns := s.teardowns[task := t])
  }

  function Do(s: Instance, step: Step): Instance
    requires Enabled(s, step)
  {
    match step
    case Admit(forgotten) => s.(core := Admitting(s.core, forgotten))
    case Forget(forgotten) => s.(core := Forgetting(s.core, forgotten))
    case Act(id, action) => s.(core := Acting(s.core, id, action))
    case Begin(task, outstanding) => Beginning(s, task, outstanding)
    case Tell(task, id) =>
      var t := s.teardowns[task];
      At(s, task, t.(toTell := t.toTell - {id}))
        .(core := Acting(s.core, id, RequestCancellation(InstanceUnloading)))
    case Scan(task) =>
      var t := s.teardowns[task];
      At(s, task, Scanning(t.worker, t.outstanding, t.outstanding, {}))
    case Look(task, id) =>
      var t := s.teardowns[task];
      At(s, task, t.(toLook := t.toLook - {id},
                     seen := if Settled(s.core.requests[id]) then t.seen else t.seen + {id}))
    case Leave(task, expired) =>
      var t := s.teardowns[task];
      At(s, task, if t.seen == {} || expired then Stopping(t.worker, t.outstanding, t.seen)
                  else Scanning(t.worker, t.outstanding, t.outstanding, {}))
    case StopReturns(task, kill) =>
      var t := s.teardowns[task];
      var (after, ok) := Workers.StopByTermination(t.worker, kill);
      At(s, task, Recording(t.outstanding, t.seen, ok)).(stops := s.stops + [Stop(t.worker, kill, after, ok)])
    case Record(task) => Recorded(s, task)
    case Drop(task) => At(s, task, Dropped)
  }

  /** Phase one: closes admission and takes the worker, or says why not. */
  function Beginning(s: Instance, task: TaskId, outstanding: set<RequestId>): Instance {
    if s.core.phase != Serving then At(s, task, Returned(Refusal(s.core.phase)))
    else
      match s.core.worker
      case None => At(s, task, Orphaned).(core := Closing(s.core))
      case Some(worker) =>
        At(s, task, Telling(worker, outstanding, outstanding)).(core := Closing(s.core), takers := s.takers + [task])
  }

  /** Phase three: records what happened. */
  function Recorded(s: Instance, task: TaskId): Instance
    requires task in s.teardowns && (s.teardowns[task].Recording? || s.teardowns[task].Orphaned?)
  {
    match s.teardowns[task]
    case Orphaned => At(s, task, Returned(AlreadyFailed)).(core := Finishing(s.core, UnloadFailed))
    case Recording(outstanding, seen, stopped) =>
      At(s, task, Returned(if !stopped then StopFailed
                           else if seen == {} then Drained(|outstanding|)
                           else Escalated(|outstanding|, |seen|)))
        .(core := Finishing(s.core, if stopped then Unloaded else UnloadFailed))
  }

  predicate Initial(s: Instance) {
    && s.core.phase == Serving && s.core.active == {} && s.core.requests == map[]
    && s.core.worker == Some(s.built) && s.teardowns == map[] && s.takers == [] && s.stops == []
  }

  /** A run: each state is what an enabled step makes of the one before. */
  predicate IsRun(states: seq<Instance>, steps: seq<Step>) {
    && |states| == |steps| + 1
    && Initial(states[0])
    && forall i :: 0 <= i < |steps| ==> Enabled(states[i], steps[i]) && states[i + 1] == Do(states[i], steps[i])
  }

  // -------------------------------------------------------------- invariant

  /** What a step may change of the requests, whoever takes it. */
  ghost predicate Onward(c: Core, d: Core) {
    && c.requests.Keys <= d.requests.Keys
    && (forall id <- c.requests :: Later(c.requests[id], d.requests[id]))
  }

  ghost predicate Sound(c: Core) {
    && c.active <= c.requests.Keys
    && (forall id <- c.requests :: id < c.nextRequest && Valid(c.requests[id]))
    && (c.worker.Some? <==> c.phase == Serving)
  }

  /** Until teardown clears it, `active` holds every request that has not ended. */
  ghost predicate Tracked(c: Core) {
    c.phase == Serving || c.phase == Unloading ==> Among(c, c.active)
  }

  ghost predicate Among(c: Core, ids: set<RequestId>) {
    forall id <- c.requests :: Settled(c.requests[id]) || id in ids
  }

  ghost predicate AllTold(c: Core) {
    forall id <- c.requests :: SettledOrTold(c.requests[id])
  }

  predicate TurnedAway(t: Teardown) {
    t.Returned? && (t.outcome.AlreadyUnloading? || t.outcome.AlreadyUnloaded? || t.outcome.AlreadyFailed?)
  }

  /** How far the one teardown that took the worker is, and what it has established. */
  ghost predicate Stage(s: Instance, t: Teardown) {
    match t
    case Telling(worker, outstanding, toTell) =>
      && worker == s.built && s.core.phase == Unloading && s.stops == []
      && toTell <= outstanding <= s.core.requests.Keys
      && Among(s.core, outstanding)
      && (forall id <- outstanding :: id in toTell || SettledOrTold(s.core.requests[id]))
    case Scanning(worker, outstanding, toLook, seen) =>
      && worker == s.built && s.core.phase == Unloading && s.stops == []
      && toLook <= outstanding <= s.core.requests.Keys && seen <= outstanding
      && Among(s.core, toLook + seen) && AllTold(s.core)
    case Stopping(worker, outstanding, seen) =>
      && worker == s.built && s.core.phase == Unloading && s.stops == []
      && seen <= outstanding && Among(s.core, seen) && AllTold(s.core)
    case Recording(outstanding, seen, stopped) =>
      && s.core.phase == Unloading && |s.stops| == 1 && s.stops[0].ok == stopped
      && seen <= outstanding && Among(s.core, seen) && AllTold(s.core)
    case Orphaned => false
    case Dropped => s.core.phase == Unloading && s.stops == []
    case Returned(outcome) =>
      && |s.stops| == 1
      && match outcome
         case Drained(_) => s.core.phase == Unloaded && s.stops[0].ok && Among(s.core, {})
         case Escalated(cancelled, unsettled) =>
           && s.core.phase == Unloaded && s.stops[0].ok && AllTold(s.core)
           && 0 < unsettled <= cancelled && |Unsettled(s.core)| <= unsettled
         case StopFailed => s.core.phase == UnloadFailed && !s.stops[0].ok
         case _ => false
  }

  /** The stop left what stopping by termination leaves. */
  predicate StopOf(stop: Stop) {
    (stop.after, stop.ok) == Workers.StopByTermination(stop.before, stop.kill)
  }

  function Unsettled(c: Core): set<RequestId> {
    set id <- c.requests | !Settled(c.requests[id])
  }

  ghost predicate Inv(s: Instance) {
    && Sound(s.core) && Tracked(s.core)
    && (s.core.worker.Some? ==> s.core.worker.value == s.built)
    && (forall i :: 0 <= i < |s.stops| ==> s.stops[i].before == s.built && StopOf(s.stops[i]))
    && (s.core.phase == Serving ==> s.takers == [] && s.stops == [])
    && (s.core.phase != Serving ==>
          |s.takers| == 1 && s.takers[0] in s.teardowns && Stage(s, s.teardowns[s.takers[0]]))
    && (forall t <- s.teardowns :: TurnedAway(s.teardowns[t]) || t in s.takers)
  }
}
