/**
 * The whole runtime: the ledger, every instance ever built, and any number of loads and
 * unloads in flight. A step is one ledger section, one instance step, or one look at a
 * phase.
 *
 * Instance identifiers are taken never to repeat, and reservations to be fewer than the
 * counter can number.
 */
module Runtimes {
  import opened Wrappers
  import opened Bytes
  import opened Resources
  import Workers
  import opened Instances

  type LoadId = nat
  type UnloadId = nat

  datatype Load =
    | Claimed(reservation: U64, footprint: U64)
    | Built(reservation: U64, footprint: U64, instance: string)
    | Resides(instance: string, footprint: U64)
    | Rejected(instance: string)
    | Over

  datatype Unload = Waiting(instance: string, task: TaskId) | Approved(instance: string) | Done

  /** `claimants` and `builders` record which load made each reservation and built each instance. */
  datatype Runtime = Runtime(
    limits: Limits,
    ledger: Ledger<()>,
    instances: map<string, Instance>,
    loads: map<LoadId, Load>,
    unloads: map<UnloadId, Unload>,
    claimants: map<U64, LoadId>,
    builders: map<string, LoadId>)

  datatype Move =
    | Claim(load: LoadId, footprint: U64)
    | Fail(load: LoadId)
    | Build(load: LoadId, instance: string, worker: Workers.Worker)
    | Settle(load: LoadId)
    | OnInstance(instance: string, step: Step)
    | Ask(unload: UnloadId, instance: string, task: TaskId)
    | Approve(unload: UnloadId)
    | Remove(unload: UnloadId)
    | Abandon(unload: UnloadId)

  predicate Holds(l: Load) {
    l.Claimed? || l.Built?
  }

  predicate CanMove(s: Runtime, m: Move) {
    match m
    case Claim(load, _) => load !in s.loads && s.ledger.nextReservation < U64_MAX
    case Fail(load) => load in s.loads && Holds(s.loads[load])
    case Build(load, instance, _) => load in s.loads && s.loads[load].Claimed? && instance !in s.instances
    case Settle(load) => load in s.loads && s.loads[load].Built?
    case OnInstance(instance, step) => instance in s.instances && Enabled(s.instances[instance], step)
    case Ask(unload, instance, _) => unload !in s.unloads && instance in s.ledger.resident
    case Approve(unload) =>
      && unload in s.unloads && s.unloads[unload].Waiting?
      && var w := s.unloads[unload];
         && w.instance in s.instances && w.task in s.instances[w.instance].teardowns
         && s.instances[w.instance].teardowns[w.task].Returned?
         && s.instances[w.instance].teardowns[w.task].outcome != StopFailed
         && s.instances[w.instance].core.phase == Unloaded
    case Remove(unload) => unload in s.unloads && s.unloads[unload].Approved?
    case Abandon(unload) => unload in s.unloads
  }

  /** A model just brought up. */
  function Serves(worker: Workers.Worker): Instance {
    Instance(Core(Serving, {}, map[], 1, Some(worker)), map[], worker, [], [])
  }

  ghost function Moved(s: Runtime, m: Move): Runtime
    requires CanMove(s, m)
  {
    match m
    case Claim(load, footprint) =>
      var (ledger, admission) := Reserve(s.ledger, s.limits, footprint);
      if admission.Admitted? then
        s.(ledger := ledger,
           loads := s.loads[load := Claimed(NextId(s.ledger), footprint)],
           claimants := s.claimants[NextId(s.ledger) := load])
      else s.(loads := s.loads[load := Over])
    case Fail(load) =>
      s.(ledger := Release(s.ledger, s.loads[load].reservation), loads := s.loads[load := Over])
    case Build(load, instance, worker) =>
      var l := s.loads[load];
      s.(instances := s.instances[instance := Serves(worker)],
         loads := s.loads[load := Built(l.reservation, l.footprint, instance)],
         builders := s.builders[instance := load])
    case Settle(load) =>
      var l := s.loads[load];
      var (ledger, settlement) := Fulfilled(s.ledger, l.reservation, l.instance, ());
      s.(ledger := ledger,
         loads := s.loads[load := if settlement == Kept then Resides(l.instance, l.footprint)
                                  else Rejected(l.instance)])
    case OnInstance(instance, step) =>
      s.(instances := s.instances[instance := Do(s.instances[instance], step)])
    case Ask(unload, instance, task) => s.(unloads := s.unloads[unload := Waiting(instance, task)])
    case Approve(unload) => s.(unloads := s.unloads[unload := Approved(s.unloads[unload].instance)])
    case Remove(unload) =>
      s.(ledger := Evict(s.ledger, s.unloads[unload].instance), unloads := s.unloads[unload := Done])
    case Abandon(unload) => s.(unloads := s.unloads[unload := Done])
  }

  ghost predicate Begun(s: Runtime) {
    s.ledger == Ledger(map[], map[], 0) && s.instances == map[] && s.loads == map[] && s.unloads == map[]
    && s.claimants == map[] && s.builders == map[]
  }

  ghost predicate IsHistory(states: seq<Runtime>, moves: seq<Move>) {
    && |states| == |moves| + 1
    && Begun(states[0])
    && forall i :: 0 <= i < |moves| ==> CanMove(states[i], moves[i]) && states[i + 1] == Moved(states[i], moves[i])
  }

  /** The reservation a move settles, by an entry or by removal. */
  function Ends(s: Runtime, m: Move): Option<U64> {
    if (m.Settle? || m.Fail?) && m.load in s.loads && Holds(s.loads[m.load]) then Some(s.loads[m.load].reservation)
    else None
  }

  // -------------------------------------------------------------- invariant

  /** The pending entries are the claims of the loads in flight, one each. */
  ghost predicate ClaimsMatch(s: Runtime) {
    && (forall l <- s.loads :: Holds(s.loads[l]) ==> ClaimOf(s, s.loads[l].reservation, l))
    && (forall r <- s.ledger.pending ::
          && r <= s.ledger.nextReservation
          && r in s.claimants && s.claimants[r] in s.loads
          && Holds(s.loads[s.claimants[r]]) && s.loads[s.claimants[r]].reservation == r)
    && (forall r <- s.claimants :: r <= s.ledger.nextReservation)
  }

  /** Load `l` holds reservation `r`, and nothing else does. */
  ghost predicate ClaimOf(s: Runtime, r: U64, l: LoadId)
    requires l in s.loads && Holds(s.loads[l])
  {
    r in s.ledger.pending && s.ledger.pending[r] == s.loads[l].footprint && r in s.claimants && s.claimants[r] == l
  }

  /** The resident entries are models some load built, one each, under the footprint it claimed. */
  ghost predicate ResidentsMatch(s: Runtime) {
    && s.builders.Keys == s.instances.Keys
    && (forall l <- s.loads :: LoadPlaced(s, l))
    && (forall id <- s.ledger.resident ::
          && id in s.builders && s.builders[id] in s.loads
          && s.loads[s.builders[id]] == Resides(id, s.ledger.resident[id].footprint))
  }

  ghost predicate LoadPlaced(s: Runtime, l: LoadId)
    requires l in s.loads
  {
    match s.loads[l]
    case Built(_, _, id) => id in s.builders && s.builders[id] == l && id !in s.ledger.resident
    case Resides(id, _) => id in s.builders && s.builders[id] == l
    case Rejected(_) => false
    case _ => true
  }

  ghost predicate InstancesSound(s: Runtime) {
    && (forall id <- s.instances :: Inv(s.instances[id]))
    && (forall u <- s.unloads :: s.unloads[u].Approved? ==>
          s.unloads[u].instance in s.instances && s.instances[s.unloads[u].instance].core.phase == Unloaded)
  }

  ghost predicate Keeps(s: Runtime) {
    Within(s.ledger, s.limits) && ClaimsMatch(s) && ResidentsMatch(s) && InstancesSound(s)
  }
}
