/** What every run of the runtime keeps, whatever loads and unloads overlap. */
module RuntimeProofs {
  import opened Wrappers
  import opened Bytes
  import Workers
  import opened Resources
  import opened Instances
  import opened InstanceProofs
  import opened Runtimes

  // ------------------------------------------------------- the ledger's part

  lemma NextIdIsFree(s: Runtime)
    requires ClaimsMatch(s) && s.ledger.nextReservation < U64_MAX
    ensures NextId(s.ledger) !in s.ledger.pending
  {
  }

  lemma LimitsKept(s: Runtime, m: Move)
    requires Keeps(s) && CanMove(s, m)
    ensures Within(Moved(s, m).ledger, s.limits) && Moved(s, m).limits == s.limits
  {
    hide Within, ResidentsMatch, InstancesSound, Reserve, Fulfilled, Release, Evict;
    match m
    case Claim(load, footprint) =>
      NextIdIsFree(s);
      ReserveWithin(s.ledger, s.limits, footprint);
    case Fail(load) => ReleaseWithin(s.ledger, s.limits, s.loads[load].reservation);
    case Settle(load) =>
      FulfilWithin(s.ledger, s.limits, s.loads[load].reservation, s.loads[load].instance, ());
    case Remove(unload) => EvictWithin(s.ledger, s.limits, s.unloads[unload].instance);
    case _ =>
  }

  // ------------------------------------------------------- the claims' part

  lemma ClaimKeepsClaims(s: Runtime, load: LoadId, footprint: U64)
    requires Keeps(s) && CanMove(s, Claim(load, footprint))
    ensures ClaimsMatch(Moved(s, Claim(load, footprint)))
  {
    hide Within, ResidentsMatch, InstancesSound, Reserve, ClaimOf, Enabled, Do, Serves, Fulfilled;
    ReserveClaims(s.ledger, s.limits, footprint);
    NextIdIsFree(s);
    var n := Moved(s, Claim(load, footprint));
    forall l <- n.loads | Holds(n.loads[l]) ensures ClaimOf(n, n.loads[l].reservation, l) {
      if l == load {
        NewClaim(n, load);
      } else {
        assert l in s.loads && ClaimOf(s, s.loads[l].reservation, l);
        OldClaim(s, n, l);
      }
    }
  }

  /** A reservation that is admitted is entered under the next number, and a refused one is not entered at all. */
  lemma ReserveClaims(l: Ledger<()>, limits: Limits, footprint: U64)
    ensures var (after, admission) := Reserve(l, limits, footprint);
            && (admission.Admitted? ==>
                  after.pending == l.pending[NextId(l) := footprint] && after.nextReservation == NextId(l))
            && (!admission.Admitted? ==> after == l)
            && after.resident == l.resident
  {
    hide Admits, Committed;
  }

  lemma NewClaim(n: Runtime, load: LoadId)
    requires load in n.loads && n.loads[load].Claimed?
    requires var r := n.loads[load].reservation;
             r in n.ledger.pending && n.ledger.pending[r] == n.loads[load].footprint
             && r in n.claimants && n.claimants[r] == load
    ensures ClaimOf(n, n.loads[load].reservation, load)
  {
  }

  lemma OldClaim(s: Runtime, n: Runtime, l: LoadId)
    requires l in s.loads && Holds(s.loads[l]) && ClaimOf(s, s.loads[l].reservation, l)
    requires l in n.loads && n.loads[l] == s.loads[l]
    requires forall r <- s.ledger.pending :: r in n.ledger.pending && n.ledger.pending[r] == s.ledger.pending[r]
    requires var r := s.loads[l].reservation;
             r in s.ledger.pending ==> (r in s.claimants ==> r in n.claimants && n.claimants[r] == s.claimants[r])
    ensures ClaimOf(n, n.loads[l].reservation, l)
  {
  }

  /** A load that stops holding its claim takes exactly that claim with it. */
  lemma ReleasedClaim(s: Runtime, n: Runtime, load: LoadId)
    requires ClaimsMatch(s) && load in s.loads && Holds(s.loads[load])
    requires n.ledger.pending == s.ledger.pending - {s.loads[load].reservation}
    requires n.ledger.nextReservation == s.ledger.nextReservation && n.claimants == s.claimants
    requires load in n.loads && n.loads == s.loads[load := n.loads[load]] && !Holds(n.loads[load])
    ensures ClaimsMatch(n)
  {
    forall l <- n.loads | Holds(n.loads[l]) ensures ClaimOf(n, n.loads[l].reservation, l) {
      assert ClaimOf(s, s.loads[l].reservation, l);
      assert ClaimOf(s, s.loads[load].reservation, load);
    }
  }

  lemma ClaimIsPending(s: Runtime, load: LoadId)
    requires ClaimsMatch(s) && load in s.loads && Holds(s.loads[load])
    ensures ClaimOf(s, s.loads[load].reservation, load)
  {
  }

  lemma ClaimsKept(s: Runtime, m: Move)
    requires Keeps(s) && CanMove(s, m)
    ensures ClaimsMatch(Moved(s, m))
  {
    hide Within, ResidentsMatch, InstancesSound, Reserve, Enabled, Do, Serves;
    match m
    case Claim(load, footprint) => ClaimKeepsClaims(s, load, footprint);
    case Fail(load) => ReleasedClaim(s, Moved(s, m), load);
    case Settle(load) => ReleasedClaim(s, Moved(s, m), load);
    case _ =>
  }

  // ---------------------------------------------------- the residents' part

  lemma SettleKeepsResidents(s: Runtime, load: LoadId)
    requires Keeps(s) && CanMove(s, Settle(load))
    ensures ResidentsMatch(Moved(s, Settle(load)))
  {
    hide Within, InstancesSound;
    ClaimIsPending(s, load);
    hide ClaimsMatch;
    assert LoadPlaced(s, load);
    var n := Moved(s, Settle(load));
    forall l <- n.loads ensures LoadPlaced(n, l) {
      assert l in s.loads && LoadPlaced(s, l);
    }
  }

  /** A load that names no instance before or after changes nothing for those that do. */
  lemma NamelessLoad(s: Runtime, n: Runtime, load: LoadId)
    requires ResidentsMatch(s) && n.ledger.resident == s.ledger.resident
    requires n.instances == s.instances && n.builders == s.builders
    requires load in n.loads && n.loads == s.loads[load := n.loads[load]]
    requires load in s.loads ==> !s.loads[load].Resides?
    requires n.loads[load].Claimed? || n.loads[load].Over?
    ensures ResidentsMatch(n)
  {
    forall l <- n.loads ensures LoadPlaced(n, l) {
      assert l in s.loads ==> LoadPlaced(s, l);
    }
  }

  lemma BuildKeepsResidents(s: Runtime, load: LoadId, instance: string, worker: Workers.Worker)
    requires ResidentsMatch(s) && CanMove(s, Build(load, instance, worker))
    ensures ResidentsMatch(Moved(s, Build(load, instance, worker)))
  {
    var n := Moved(s, Build(load, instance, worker));
    forall l <- n.loads ensures LoadPlaced(n, l) {
      assert l in s.loads && LoadPlaced(s, l);
    }
  }

  lemma FewerResidents(s: Runtime, n: Runtime, ids: set<string>)
    requires ResidentsMatch(s) && n.loads == s.loads && n.builders == s.builders
    requires n.ledger.resident == s.ledger.resident - ids && n.instances.Keys == s.instances.Keys
    ensures ResidentsMatch(n)
  {
    forall l <- n.loads ensures LoadPlaced(n, l) {
      assert LoadPlaced(s, l);
    }
  }

  lemma ResidentsKept(s: Runtime, m: Move)
    requires Keeps(s) && CanMove(s, m)
    ensures ResidentsMatch(Moved(s, m))
  {
    hide Within, InstancesSound, ClaimsMatch, ResidentsMatch, Admits, Committed, Enabled, Do, Serves;
    match m
    case Claim(load, footprint) => NamelessLoad(s, Moved(s, m), load);
    case Fail(load) => NamelessLoad(s, Moved(s, m), load);
    case Build(load, instance, worker) => BuildKeepsResidents(s, load, instance, worker);
    case Settle(load) => SettleKeepsResidents(s, load);
    case Remove(unload) => FewerResidents(s, Moved(s, m), {s.unloads[unload].instance});
    case _ =>
      assert s.ledger.resident - {} == s.ledger.resident;
      FewerResidents(s, Moved(s, m), {});
  }

  // ---------------------------------------------------- the instances' part

  lemma FreshIsSound(worker: Workers.Worker)
    ensures Initial(Serves(worker)) && Inv(Serves(worker))
  {
  }

  lemma StepInInstance(s: Runtime, instance: string, step: Step)
    requires InstancesSound(s) && CanMove(s, OnInstance(instance, step))
    ensures InstancesSound(Moved(s, OnInstance(instance, step)))
    ensures After(s.instances[instance], Moved(s, OnInstance(instance, step)).instances[instance])
  {
    hide Inv, Enabled, Do;
    StepKeeps(s.instances[instance], step);
    StepAfter(s.instances[instance], step);
  }

  lemma InstancesKept(s: Runtime, m: Move)
    requires Keeps(s) && CanMove(s, m)
    ensures InstancesSound(Moved(s, m))
  {
    hide Within, ResidentsMatch, ClaimsMatch, Reserve, Fulfilled, Inv, Enabled, Do, Serves;
    match m
    case Build(_, _, worker) => FreshIsSound(worker);
    case OnInstance(instance, step) => StepInInstance(s, instance, step);
    case _ =>
  }

  lemma MoveKeeps(s: Runtime, m: Move)
    requires Keeps(s) && CanMove(s, m)
    ensures Keeps(Moved(s, m))
  {
    hide Within, ResidentsMatch, ClaimsMatch, InstancesSound, CanMove, Moved;
    LimitsKept(s, m);
    ClaimsKept(s, m);
    ResidentsKept(s, m);
    InstancesKept(s, m);
  }

  // ------------------------------------------------------------- main results

  lemma HistoryMoves(states: seq<Runtime>, moves: seq<Move>, i: nat)
    requires IsHistory(states, moves) && (i < |moves| || i + 1 < |states|)
    ensures |states| == |moves| + 1
    ensures CanMove(states[i], moves[i]) && states[i + 1] == Moved(states[i], moves[i])
  {
    hide CanMove, Moved, Begun;
  }

  lemma {:induction false} HistoryKeeps(states: seq<Runtime>, moves: seq<Move>, i: nat)
    requires IsHistory(states, moves) && i < |states|
    ensures Keeps(states[i]) && states[i].limits == states[0].limits
  {
    hide Keeps, Moved, CanMove, Begun, IsHistory;
    if i == 0 {
      BegunKeeps(states, moves);
    } else {
      HistoryMoves(states, moves, i - 1);
      HistoryKeeps(states, moves, i - 1);
      MoveKeeps(states[i - 1], moves[i - 1]);
      LimitsKept(states[i - 1], moves[i - 1]);
    }
  }

  lemma BegunKeeps(states: seq<Runtime>, moves: seq<Move>)
    requires IsHistory(states, moves)
    ensures Keeps(states[0])
  {
    hide Moved, CanMove;
    var s := states[0];
    SumNothing<U64>();
    SumNothing<string>();
    assert Footprints(s.ledger.resident) == map[];
  }

  /** Reservation `r` is held by `l`, at the footprint entered for it, and by no other load. */
  ghost predicate HeldByOne(s: Runtime, r: U64, l: LoadId)
    requires r in s.ledger.pending
  {
    && l in s.loads && Holds(s.loads[l])
    && s.loads[l].reservation == r && s.loads[l].footprint == s.ledger.pending[r]
    && forall k <- s.loads :: Holds(s.loads[k]) && s.loads[k].reservation == r ==> k == l
  }

  /** Resident `id` is what load `l` brought, at the footprint it claimed, and no other load did. */
  ghost predicate BroughtByOne(s: Runtime, id: string, l: LoadId)
    requires id in s.ledger.resident
  {
    && l in s.loads && s.loads[l] == Resides(id, s.ledger.resident[id].footprint)
    && forall k <- s.loads :: s.loads[k].Resides? && s.loads[k].instance == id ==> k == l
  }

  /**
   * In every state of every run the entries never outnumber the instance limit, and under
   * a byte budget the exact sum of every footprint never exceeds it. The saturating total
   * is then the exact one, and every entry is one load's and no other's: a pending one is
   * held by the load that claimed it, a resident one stands at the footprint its load
   * claimed.
   */
  lemma LimitsHold(states: seq<Runtime>, moves: seq<Move>, i: nat)
    requires IsHistory(states, moves) && i < |states|
    ensures var (s, limits) := (states[i], states[0].limits);
            && |s.ledger.pending| + |s.ledger.resident| <= limits.maxInstances
            && (limits.maxWeightBytes.AtMost? ==>
                  && Sum(s.ledger.pending) + Sum(Footprints(s.ledger.resident)) <= limits.maxWeightBytes.bytes
                  && Committed(s.ledger).weightBytes == Sum(s.ledger.pending) + Sum(Footprints(s.ledger.resident)))
            && (forall r <- s.ledger.pending :: exists l :: HeldByOne(s, r, l))
            && (forall id <- s.ledger.resident :: exists l :: BroughtByOne(s, id, l))
  {
    hide Sum, InstancesSound, IsHistory, HeldByOne, BroughtByOne;
    HistoryKeeps(states, moves, i);
    var s := states[i];
    forall r <- s.ledger.pending ensures exists l :: HeldByOne(s, r, l) {
      PendingIsHeld(s, r);
    }
    forall id <- s.ledger.resident ensures exists l :: BroughtByOne(s, id, l) {
      ResidentWasBrought(s, id);
    }
  }

  lemma PendingIsHeld(s: Runtime, r: U64)
    requires ClaimsMatch(s) && r in s.ledger.pending
    ensures r in s.claimants && HeldByOne(s, r, s.claimants[r])
  {
    forall k <- s.loads | Holds(s.loads[k]) && s.loads[k].reservation == r ensures k == s.claimants[r] {
      assert ClaimOf(s, s.loads[k].reservation, k);
    }
    ClaimIsPending(s, s.claimants[r]);
  }

  lemma ResidentWasBrought(s: Runtime, id: string)
    requires ResidentsMatch(s) && id in s.ledger.resident
    ensures id in s.builders && BroughtByOne(s, id, s.builders[id])
  {
    forall k <- s.loads | s.loads[k].Resides? && s.loads[k].instance == id ensures k == s.builders[id] {
      assert LoadPlaced(s, k);
    }
  }

  /**
   * A load that settles turns exactly its own claim into an entry, and is never refused;
   * one that fails gives back exactly its own claim, and all else stays as it was.
   */
  lemma SettlingMovesOneClaim(states: seq<Runtime>, moves: seq<Move>, i: nat)
    requires IsHistory(states, moves) && i < |moves|
    ensures var (s, n) := (states[i], states[i + 1]);
            match moves[i]
            case Settle(load) =>
              var l := s.loads[load];
              && n.loads[load] == Resides(l.instance, l.footprint)
              && l.reservation in s.ledger.pending
              && n.ledger.pending == s.ledger.pending - {l.reservation}
              && n.ledger.resident == s.ledger.resident[l.instance := Resident((), l.footprint)]
              && l.instance !in s.ledger.resident
              && Weight(n.ledger) == Weight(s.ledger)
            case Fail(load) =>
              var l := s.loads[load];
              && l.reservation in s.ledger.pending
              && n.ledger.pending == s.ledger.pending - {l.reservation}
              && n.ledger.resident == s.ledger.resident
              && Weight(n.ledger) + l.footprint == Weight(s.ledger)
            case _ => true
  {
    hide Weight, InstancesSound, Within, Reserve, IsHistory, Enabled, Do, Serves;
    HistoryMoves(states, moves, i);
    HistoryKeeps(states, moves, i);
    var s, m := states[i], moves[i];
    if m.Settle? {
      ClaimIsPending(s, m.load);
      assert LoadPlaced(s, m.load);
      FulfilMoves(s.ledger, s.loads[m.load].reservation, s.loads[m.load].instance, ());
    } else if m.Fail? {
      ClaimIsPending(s, m.load);
      ReleaseGivesBack(s.ledger, s.loads[m.load].reservation);
    }
  }

  /** What one move does to reservation `r`: once made it stays made, and it is pending until a move ends it. */
  lemma MoveOnReservation(s: Runtime, m: Move, r: U64)
    requires Keeps(s) && CanMove(s, m)
    ensures var n := Moved(s, m);
            && (r in s.claimants ==> r in n.claimants) && (r in n.ledger.pending ==> r in n.claimants)
            && (Ends(s, m) == Some(r) ==> r in s.ledger.pending && r in s.claimants && r !in n.ledger.pending)
            && (r in s.ledger.pending && Ends(s, m) != Some(r) ==> r in n.ledger.pending)
            && (r in n.claimants && r !in s.claimants ==> r in n.ledger.pending)
            && (r in s.claimants && r !in s.ledger.pending ==> r !in n.ledger.pending)
  {
    hide Within, ResidentsMatch, InstancesSound, Reserve, Enabled, Do, Serves;
    ClaimsKept(s, m);
    match m
    case Claim(load, footprint) => ReserveClaims(s.ledger, s.limits, footprint);
    case Fail(load) => ClaimIsPending(s, load);
    case Settle(load) => ClaimIsPending(s, load);
    case _ =>
  }

  /**
   * Over every run each reservation is settled exactly once: it is pending exactly until
   * the one move, a settling load's or a failing one's, that ends it, and never again.
   */
  lemma {:induction false} ClaimsSettleOnce(states: seq<Runtime>, moves: seq<Move>, j: nat, r: U64)
    requires IsHistory(states, moves) && j < |states|
    ensures r in states[j].ledger.pending <==>
              r in states[j].claimants && forall i :: 0 <= i < j ==> Ends(states[i], moves[i]) != Some(r)
    ensures forall i :: 0 <= i < j && Ends(states[i], moves[i]) == Some(r) ==> r in states[j].claimants
    ensures forall i, k :: 0 <= i < k < j ==>
              !(Ends(states[i], moves[i]) == Some(r) && Ends(states[k], moves[k]) == Some(r))
    decreases j
  {
    hide IsHistory, Keeps, CanMove, Moved, Begun, Ends;
    if j == 0 {
      NothingClaimedYet(states, moves);
    } else {
      HistoryMoves(states, moves, j - 1);
      HistoryKeeps(states, moves, j - 1);
      ClaimsSettleOnce(states, moves, j - 1, r);
      MoveOnReservation(states[j - 1], moves[j - 1], r);
    }
  }

  lemma NothingClaimedYet(states: seq<Runtime>, moves: seq<Move>)
    requires IsHistory(states, moves)
    ensures states[0].ledger.pending == map[] && states[0].claimants == map[]
  {
    hide CanMove, Moved;
  }

  /**
   * A resident entry never changes while it stays, and goes only when its instance is
   * unloaded: its one stop has succeeded, and the handle holds no process.
   */
  lemma ReleasedOnlyAfterStop(states: seq<Runtime>, moves: seq<Move>, i: nat, id: string)
    requires IsHistory(states, moves) && i < |moves|
    requires id in states[i].ledger.resident
    ensures id in states[i + 1].ledger.resident ==>
              states[i + 1].ledger.resident[id] == states[i].ledger.resident[id]
    ensures id !in states[i + 1].ledger.resident ==>
              && id in states[i].instances
              && var s := states[i].instances[id];
                 s.core.phase == Unloaded && |s.stops| == 1 && s.stops[0].before == s.built && Stopped(s.stops[0])
  {
    hide Within, Reserve, Inv, IsHistory, Enabled, Do, Serves, ClaimsMatch;
    HistoryMoves(states, moves, i);
    HistoryKeeps(states, moves, i);
    var s, m := states[i], moves[i];
    if m.Settle? {
      assert LoadPlaced(s, m.load);
    } else if m.Claim? {
      ReserveClaims(s.ledger, s.limits, m.footprint);
    } else if id !in states[i + 1].ledger.resident {
      UnloadedMeansStopped(s.instances[id]);
    }
  }

  lemma UnloadedMeansStopped(s: Instance)
    requires Inv(s) && s.core.phase == Unloaded
    ensures |s.stops| == 1 && s.stops[0].before == s.built && Stopped(s.stops[0])
  {
    StopsEnd(s.stops[0]);
  }

  lemma MoveAfter(s: Runtime, m: Move, id: string)
    requires Keeps(s) && CanMove(s, m) && id in s.instances
    ensures id in Moved(s, m).instances && After(s.instances[id], Moved(s, m).instances[id])
  {
    hide After, Inv, Enabled, Do, Within, ClaimsMatch, ResidentsMatch, Reserve, Fulfilled;
    AfterSelf(s.instances[id]);
    if m.OnInstance? && m.instance == id {
      StepInInstance(s, id, m.step);
    }
  }

  lemma {:induction false} InstanceAfter(states: seq<Runtime>, moves: seq<Move>, i: nat, j: nat, id: string)
    requires IsHistory(states, moves) && i <= j < |states| && id in states[i].instances
    ensures id in states[j].instances && After(states[i].instances[id], states[j].instances[id])
    decreases j
  {
    hide After, Inv, Moved, CanMove, Keeps, Begun, IsHistory;
    if i == j {
      AfterSelf(states[i].instances[id]);
    } else {
      HistoryMoves(states, moves, j - 1);
      InstanceAfter(states, moves, i, j - 1, id);
      var s, m := states[j - 1], moves[j - 1];
      HistoryKeeps(states, moves, j - 1);
      MoveAfter(s, m, id);
      AfterTransitive(states[i].instances[id], s.instances[id], states[j].instances[id]);
    }
  }

  /** An instance whose teardown failed keeps its entry, at its footprint, for the rest of the run. */
  lemma {:induction false} FailedTeardownStaysAccounted(states: seq<Runtime>, moves: seq<Move>, i: nat, j: nat,
                                                        id: string)
    requires IsHistory(states, moves) && i <= j < |states|
    requires id in states[i].ledger.resident && id in states[i].instances
    requires states[i].instances[id].core.phase == UnloadFailed
    ensures id in states[j].ledger.resident
    ensures states[j].ledger.resident[id] == states[i].ledger.resident[id]
    decreases j
  {
    hide After, Moved, CanMove;
    if i < j {
      FailedTeardownStaysAccounted(states, moves, i, j - 1, id);
      InstanceAfter(states, moves, i, j - 1, id);
      FailedStaysFailed(states[i].instances[id], states[j - 1].instances[id]);
      ReleasedOnlyAfterStop(states, moves, j - 1, id);
      assert states[j - 1 + 1] == states[j];
    }
  }

  lemma FailedStaysFailed(s: Instance, n: Instance)
    requires After(s, n) && s.core.phase == UnloadFailed
    ensures n.core.phase == UnloadFailed
  {
  }
}
