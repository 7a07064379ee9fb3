/**
 * An instance as it runs: the fields the lifecycle lock guards, one method per section
 * run under it, and the teardown that strings them together with the lock released.
 * Between sections other callers act, which `Interfere` and `Meanwhile` stand for.
 */
module LoadedModels {
  import opened Wrappers
  import opened Requests
  import opened Handles
  import opened Instances
  import Sets
  import Workers

  datatype NotUsable = NotServing(phase: Phase) | NotReady

  datatype CancelError = Unknown(id: RequestId)

  /** The active requests found to have ended. */
  function EndedIn(c: Core): set<RequestId> {
    set id <- c.active | id in c.requests && Settled(c.requests[id])
  }

  /** Requests are kept under their own identifiers, all below the next one, and what is active was admitted. */
  ghost predicate Indexed(active: map<RequestId, RequestHandle>, admitted: map<RequestId, RequestHandle>,
                          handles: set<RequestHandle>, nextRequest: RequestId)
  {
    && active.Keys <= admitted.Keys
    && (forall id <- active :: active[id] == admitted[id])
    && (forall id <- admitted :: id < nextRequest && admitted[id].id == id && admitted[id] in handles)
    && (forall h <- handles :: h.id in admitted && admitted[h.id] == h)
  }

  lemma IndexedWith(active: map<RequestId, RequestHandle>, admitted: map<RequestId, RequestHandle>,
                    handles: set<RequestHandle>, h: RequestHandle)
    requires Indexed(active, admitted, handles, h.id)
    ensures h.id !in admitted && h !in handles && forall id <- admitted :: admitted[id] in handles
    ensures Indexed(active[h.id := h], admitted[h.id := h], handles + {h}, h.id + 1)
  {
  }

  lemma IndexedWithout(active: map<RequestId, RequestHandle>, fewer: map<RequestId, RequestHandle>,
                       admitted: map<RequestId, RequestHandle>, handles: set<RequestHandle>, nextRequest: RequestId)
    requires Indexed(active, admitted, handles, nextRequest)
    requires forall id <- fewer :: id in active && fewer[id] == active[id]
    ensures Indexed(fewer, admitted, handles, nextRequest)
    ensures forall id <- active :: id in admitted && active[id] == admitted[id] && active[id] in handles
    ensures forall h <- handles :: h.id in active ==> active[h.id] == h
  {
  }

  /** Each handle in `found` is an active one, and none is there twice. */
  ghost predicate OnceEach(found: seq<RequestHandle>, active: map<RequestId, RequestHandle>) {
    && (forall h <- found :: h.id in active && active[h.id] == h)
    && (forall i, j :: 0 <= i < j < |found| ==> found[i] != found[j])
  }

  lemma NoneYet(active: map<RequestId, RequestHandle>)
    ensures OnceEach([], active)
  {
  }

  lemma OnceMore(found: seq<RequestHandle>, active: map<RequestId, RequestHandle>, id: RequestId)
    requires OnceEach(found, active) && id in active && active[id].id == id
    requires forall h <- found :: h.id != id
    ensures OnceEach(found + [active[id]], active)
  {
  }

  class LoadedModel {
    const usable: bool
    var phase: Phase
    var active: map<RequestId, RequestHandle>
    var nextRequest: RequestId
    /** Given up to the first unload, so that a later one has none to stop. */
    var worker: Workers.WorkerHandle?
    /** Every request ever admitted, and the handles they are seen through. */
    ghost var admitted: map<RequestId, RequestHandle>
    ghost var handles: set<RequestHandle>

    constructor (worker: Workers.WorkerHandle, usable: bool)
      requires worker.stop == Workers.Terminate
      ensures Valid() && this.worker == worker && this.usable == usable
      ensures Value() == Core(Serving, {}, map[], 1, Some(worker.Value()))
    {
      this.usable := usable;
      phase, active, nextRequest, this.worker := Serving, map[], 1, worker;
      admitted, handles := map[], {};
    }

    ghost predicate Valid()
      reads this, handles
    {
      && Indexed(active, admitted, handles, nextRequest)
      && (forall h <- handles :: Requests.Valid(h.Value()))
      && (worker != null <==> phase == Serving)
      && (worker != null ==> worker.stop == Workers.Terminate)
      && (phase == Serving || phase == Unloading ==> Tracked())
    }

    /** Requests that have not ended are active; so it is until teardown lets go of them. */
    ghost predicate Tracked()
      reads `active, `handles, handles
    {
      forall h <- handles :: Settled(h.Value()) || h.id in active
    }

    /** What the handles show of the requests ever admitted. */
    ghost function Shown(): map<RequestId, Request>
      reads `admitted, `handles, handles
    {
      map id <- admitted | admitted[id] in handles :: admitted[id].Value()
    }

    lemma Known(id: RequestId)
      requires Valid() && id in active
      ensures active[id] in handles && active[id].id == id && id in admitted && admitted[id] == active[id]
    {
    }

    /** Acting on requests cannot break what the instance keeps of them. */
    twostate lemma StaysValid()
      requires old(Valid()) && old(handles) == handles && Evolved(old(handles)) && old(admitted) == admitted
      requires old(phase) == phase && old(worker) == worker && old(nextRequest) == nextRequest
      requires active == old(active)
      ensures Valid()
    {
      forall h <- handles ensures phase == Serving || phase == Unloading ==> Settled(h.Value()) || h.id in active {
        assert Later(old(h.Value()), h.Value());
      }
    }

    ghost function Value(): Core
      reads this, handles, worker
    {
      Core(phase, active.Keys, Shown(), nextRequest, if worker == null then None else Some(worker.Value()))
    }

    /** Lets go of active requests that have ended. */
    method Retain()
      requires Valid()
      modifies this`active
      ensures Valid() && Value() == Forgetting(old(Value()), EndedIn(old(Value())))
      ensures forall id :: id in active <==> id in old(active) && old(id in active && !Settled(active[id].Value()))
      ensures forall id <- active :: active[id] == old(active)[id]
    {
      hide Indexed;
      ghost var before := active;
      active := map id <- active | !Terminal(active[id].state) :: active[id];
      IndexedWithout(before, active, admitted, handles, nextRequest);
      assert active.Keys == old(active).Keys - EndedIn(old(Value()));
    }

    /** The check and the registration are one section, so nothing is admitted once admission closed. */
    method Admit() returns (r: Result<RequestHandle, NotUsable>)
      requires Valid()
      modifies this`active, this`nextRequest, this`admitted, this`handles
      ensures Valid()
      ensures old(phase) != Serving ==> r == Failure(NotServing(old(phase))) && Value() == old(Value())
      ensures old(phase) == Serving && !usable ==> r == Failure(NotReady) && Value() == old(Value())
      ensures r.Failure? ==> handles == old(handles) && admitted == old(admitted)
      ensures old(phase) == Serving && usable ==>
                && r.Success? && fresh(r.value) && r.value.id == old(nextRequest)
                && handles == old(handles) + {r.value} && r.value.Value() == NEW
                && Value() == Admitting(old(Value()), EndedIn(old(Value())))
                && admitted == old(admitted)[r.value.id := r.value]
    {
      hide LoadedModel.Shown, EndedIn;
      if phase != Serving {
        return Failure(NotServing(phase));
      }
      if !usable {
        return Failure(NotReady);
      }
      Retain();
      var handle := new RequestHandle(nextRequest);
      Register(handle);
      r := Success(handle);
    }

    method Register(handle: RequestHandle)
      requires Valid() && phase == Serving && handle.id == nextRequest && handle.Value() == NEW
      modifies this`active, this`nextRequest, this`admitted, this`handles
      ensures Valid() && Value() == Admitting(old(Value()), {})
      ensures admitted == old(admitted)[handle.id := handle] && handles == old(handles) + {handle}
    {
      hide Indexed, Settled;
      IndexedWith(active, admitted, handles, handle);
      ghost var shown := Shown();
      active := active[handle.id := handle];
      admitted := admitted[handle.id := handle];
      handles := handles + {handle};
      nextRequest := nextRequest + 1;
      assert Shown() == shown[handle.id := NEW];
      assert active.Keys == old(active).Keys - {} + {handle.id};
    }

    method ActiveRequests() returns (count: nat)
      requires Valid()
      modifies this`active
      ensures Valid() && Value() == Forgetting(old(Value()), EndedIn(old(Value())))
      ensures count == |Value().active|
    {
      Retain();
      count := |active|;
    }

    /**
     * Addressed by identifier; a request this instance does not know, or has let go of, is
     * unknown. `at` is the request as the cancellation met it.
     */
    method Cancel(id: RequestId, ghost quiet: bool) returns (r: Result<CancelOutcome, CancelError>, ghost at: Request)
      requires Valid()
      modifies this`active, handles
      ensures Valid()
      ensures r == Failure(Unknown(id)) <==> old(id !in active || Settled(active[id].Value()))
      ensures r.Failure? ==> r.error == Unknown(id) && Value() == Forgetting(old(Value()), EndedIn(old(Value())))
      ensures r.Success? ==>
                && id in admitted
                && Later(old(active[id].Value()), at) && Later(at, admitted[id].Value())
                && (r.value == Requested <==> !Settled(at) && at.cause.None?)
                && (quiet ==> at == old(active[id].Value()))
                && match r.value
                   case Requested => admitted[id].slot == Some(User)
                   case AlreadyStopping(cause) => admitted[id].slot == Some(cause) && at.cause == Some(cause)
                   case AlreadyFinished(state) => Terminal(state) && admitted[id].state == state
    {
      hide Indexed, LoadedModel.Shown, EndedIn;
      Retain();
      at := NEW;
      if id !in active {
        return Failure(Unknown(id)), at;
      }
      Known(id);
      var handle := active[id];
      var outcome, _, met := AskToStop(handle, quiet);
      r, at := Success(outcome), met;
    }

    /** Everything active that had not ended when it was looked at; others act between looks. */
    method Outstanding(ghost quiet: bool) returns (found: seq<RequestHandle>)
      requires Valid()
      modifies handles
      ensures Valid() && Evolved(handles) && (quiet ==> Same(handles))
      ensures OnceEach(found, active)
      ensures forall h <- found :: h in handles && !old(Settled(h.Value()))
      ensures forall id <- active :: !Settled(active[id].Value()) ==> active[id] in found
    {
      hide LoadedModel.Valid, OnceEach;
      NoneYet(active);
      found := [];
      var rest := active.Keys;
      while rest != {}
        invariant rest <= active.Keys
        invariant Valid() && Evolved(handles) && (quiet ==> Same(handles))
        invariant OnceEach(found, active) && forall h <- found :: h.id !in rest
        invariant forall h <- found :: h in handles && !old(Settled(h.Value()))
        invariant forall id <- active.Keys - rest :: !Settled(active[id].Value()) ==> active[id] in found
        decreases |rest|
      {
        label looked:
        Interfere(handles, quiet);
        StaysValid@looked();
        var id :| id in rest;
        Known(id);
        if !Terminal(active[id].state) {
          assert Later(old(active[id].Value()), active[id].Value());
          OnceMore(found, active, id);
          found := found + [active[id]];
        }
        rest := rest - {id};
      }
    }

    /** What others may do once admission is closed: act on requests, and let go of ended ones. */
    method Meanwhile(ghost quiet: bool)
      requires Valid() && phase != Serving
      modifies this`active, handles
      ensures Valid() && active.Keys <= old(active).Keys
      ensures Evolved(handles) && (quiet ==> Same(handles))
    {
    }

    method Finish(phase: Phase)
      requires Valid() && this.phase != Serving
      requires phase == Unloaded || phase == UnloadFailed
      modifies this`phase, this`active
      ensures Valid() && Value() == Finishing(old(Value()), phase)
    {
      this.phase := phase;
      active := map[];
      assert active.Keys == {};
    }

    /**
     * Takes the instance down. A call that does not find it serving is told why and
     * changes nothing. The one that does ends with every request ever admitted ended or
     * told to, nothing tracked, and a phase that says whether the worker was stopped.
     * `told` are the requests it told to stop: those found active that had not ended.
     * `began` is the instance as it was when the stop began: what the result says of
     * requests is true of that moment. When nobody else does anything, it tells exactly
     * those that are live, that their instance is going, and counts them.
     */
    method UnloadWithin(polls: nat, outlasted: Option<nat>, kill: Workers.Kill, ghost quiet: bool)
      returns (r: Outcome, ghost told: seq<RequestHandle>, ghost began: Core)
      requires Valid()
      modifies this, handles, worker
      ensures Valid() && admitted == old(admitted) && handles == old(handles)
      ensures old(phase) != Serving ==> Value() == old(Value())
      ensures match old(phase)
              case Serving => r.Drained? || r.Escalated? || r == StopFailed
              case Unloading => r == AlreadyUnloading
              case Unloaded => r == AlreadyUnloaded
              case UnloadFailed => r == AlreadyFailed
      ensures old(phase) == Serving ==>
                && active == map[]
                && Onward(old(Value()), began) && Onward(began, Value())
                && began.phase == Unloading && AllTold(began) && AllTold(Value())
                && (phase == UnloadFailed || phase == Unloaded)
                && (phase == UnloadFailed <==> old(worker).child)
                && (phase == UnloadFailed <==>
                      old(worker.child) && kill.before != Workers.Exited && !kill.accepted
                      && kill.after != Workers.Exited && !kill.endsInTime)
                && (r == StopFailed <==> phase == UnloadFailed)
                && OnceEach(told, old(active)) && Covered(told)
                && (forall h <- told :: h in handles && !old(Settled(h.Value())))
                && (r.Drained? ==> r.cancelled == |told| && Unsettled(began) == Unsettled(Value()) == {})
                && (r.Escalated? ==>
                      r.cancelled == |told| && 0 < r.unsettled <= |told| && |Unsettled(began)| <= r.unsettled)
      ensures old(phase) == Serving && phase == Unloaded && InTime(outlasted, polls) ==> r == Drained(|told|)
      ensures old(phase) == Serving && quiet ==> forall h <- handles :: h in told <==> !old(Settled(h.Value()))
      ensures old(phase) == Serving && quiet && !InTime(outlasted, polls) ==>
                && (forall h <- handles ::
                      h.Value() == if old(Settled(h.Value()) || h.slot.Some?) then old(h.Value())
                                   else Request(Cancelling, Some(InstanceUnloading)))
                && (phase == Unloaded ==> r == if |told| == 0 then Drained(0) else Escalated(|told|, |told|))
    {
      hide LoadedModel.Valid, LoadedModel.Shown, Onward, AllTold, Unsettled;
      if phase != Serving {
        return Refusal(phase), [], Value();
      }
      var taken, outstanding, unsettled := Release(polls, outlasted, quiet);
      began := Value();
      var stopped := Stop(taken, unsettled, kill, quiet);
      ghost var returned := Value();
      Finish(if stopped.Success? then Unloaded else UnloadFailed);
      FinishedOnward(began, returned, if stopped.Success? then Unloaded else UnloadFailed);
      r := if stopped.Failure? then StopFailed
           else if unsettled == 0 then Drained(|outstanding|)
           else Escalated(|outstanding|, unsettled);
      told := outstanding;
    }

    /** Recording a phase changes nothing of the requests. */
    static lemma FinishedOnward(c: Core, d: Core, phase: Phase)
      requires Onward(c, d) && c.requests.Keys == d.requests.Keys
      ensures Onward(c, Finishing(d, phase))
      ensures AllTold(c) ==> AllTold(Finishing(d, phase))
      ensures Unsettled(Finishing(d, phase)) <= Unsettled(c)
    {
    }

    /** Stops the worker; by then all have been told, and no more are live than were counted. */
    method Stop(taken: Workers.WorkerHandle, ghost unsettled: nat, kill: Workers.Kill, ghost quiet: bool)
      returns (stopped: Result<Workers.ExitCause, Workers.WorkerError>)
      requires Valid() && phase == Unloading && taken.stop == Workers.Terminate
      requires AllTold(Value()) && |Unsettled(Value())| <= unsettled
      modifies this`active, handles, taken
      ensures Valid() && Onward(old(Value()), Value()) && Evolved(handles) && (quiet ==> Same(handles))
      ensures Value().requests.Keys == old(Value()).requests.Keys
      ensures (taken.Value(), stopped.Success?) == Workers.StopByTermination(old(taken.Value()), kill)
      ensures stopped.Success? <==> !taken.child
    {
      ghost var before := Value();
      stopped := taken.Shutdown(Workers.Ended, kill);
      StaysValid();
      Meanwhile(quiet);
      EvolvedOnward(before);
    }

    /** What the handles show moves on as they do. */
    twostate lemma EvolvedOnward(before: Core)
      requires old(Valid()) && Valid() && old(handles) == handles && old(admitted) == admitted
      requires Evolved(handles) && before == old(Value())
      ensures Onward(before, Value()) && before.requests.Keys == Value().requests.Keys
    {
    }

    /** Phase one and two: closes admission, tells what is outstanding to stop, and waits for it. */
    method Release(polls: nat, outlasted: Option<nat>, ghost quiet: bool)
      returns (taken: Workers.WorkerHandle, outstanding: seq<RequestHandle>, unsettled: nat)
      requires Valid() && phase == Serving
      modifies this`phase, this`worker, this`active, handles
      ensures Valid() && Onward(old(Value()), Value()) && phase == Unloading
      ensures taken == old(worker) && taken.stop == Workers.Terminate
      ensures OnceEach(outstanding, old(active)) && Covered(outstanding)
      ensures forall h <- outstanding :: h in handles && !old(Settled(h.Value()))
      ensures AllTold(Value()) && |Unsettled(Value())| <= unsettled <= |outstanding|
      ensures InTime(outlasted, polls) ==> unsettled == 0
      ensures quiet ==> forall h <- handles :: h in outstanding <==> !old(Settled(h.Value()))
      ensures quiet && !InTime(outlasted, polls) ==> ToldAll(outstanding) && unsettled == |outstanding|
    {
      hide LoadedModel.Valid, LoadedModel.Awaited, LoadedModel.Shown, Onward;
      taken, outstanding := Close(quiet);
      unsettled := WindDown(outstanding, polls, outlasted, quiet);
      EvolvedOnward(old(Value()));
      ShownTold();
      if quiet && !InTime(outlasted, polls) {
        AllLive(outstanding);
      }
    }

    /** Left to themselves, exactly the live requests were told, and of no other reason than had been recorded. */
    twostate predicate ToldAll(new outstanding: seq<RequestHandle>)
      reads `handles, handles
    {
      forall h <- handles :: old(allocated(h)) ==>
        && (h in outstanding <==> !old(Settled(h.Value())))
        && h.Value() == if old(Settled(h.Value()) || h.slot.Some?) then old(h.Value())
                        else Request(Cancelling, Some(InstanceUnloading))
    }

    /** What is so of every handle is so of every request it is seen through. */
    lemma ShownTold()
      requires Valid()
      ensures (forall h <- handles :: SettledOrTold(h.Value())) ==> AllTold(Value())
      ensures Unsettled(Value()) == LiveIds()
    {
    }

    ghost function LiveIds(): set<RequestId>
      reads `handles, handles
    {
      set h <- handles | !Settled(h.Value()) :: h.id
    }

    /** Phase one: closes admission, and takes the worker and what has to be waited for. */
    method Close(ghost quiet: bool) returns (taken: Workers.WorkerHandle, outstanding: seq<RequestHandle>)
      requires Valid() && phase == Serving
      modifies this`phase, this`worker, handles
      ensures Valid() && Evolved(handles) && phase == Unloading && (quiet ==> Same(handles))
      ensures taken == old(worker) && taken.stop == Workers.Terminate
      ensures Awaited(outstanding) && OnceEach(outstanding, old(active))
      ensures forall h <- outstanding :: !old(Settled(h.Value()))
      ensures quiet ==> forall h <- handles :: h in outstanding <==> !old(Settled(h.Value()))
    {
      phase := Unloading;
      taken := worker;
      worker := null;
      outstanding := Outstanding(quiet);
      assert quiet ==> forall h <- handles :: h.Value() == old(h.Value());
    }

    /** Every request that has not ended is among `outstanding`. */
    ghost predicate Awaited(outstanding: seq<RequestHandle>)
      reads `handles, handles
    {
      (forall h <- outstanding :: h in handles) && Covered(outstanding)
    }

    ghost predicate Covered(outstanding: seq<RequestHandle>)
      reads `handles, handles
    {
      forall h <- handles :: Settled(h.Value()) || h in outstanding
    }

    /** Phase two, with the lock released, up to the stop. */
    method WindDown(outstanding: seq<RequestHandle>, polls: nat, outlasted: Option<nat>, ghost quiet: bool)
      returns (unsettled: nat)
      requires Valid() && phase == Unloading && Awaited(outstanding)
      modifies this`active, handles
      ensures Valid() && Evolved(handles) && Covered(outstanding)
      ensures forall h <- handles :: SettledOrTold(h.Value())
      ensures |LiveIds()| <= unsettled <= |outstanding|
      ensures InTime(outlasted, polls) ==> unsettled == 0
      ensures quiet && !InTime(outlasted, polls) ==> QuietlyTold(outstanding) && |Live(outstanding)| == unsettled
    {
      hide LoadedModel.Valid;
      TellOutstanding(outstanding, quiet);
      unsettled := AwaitOutstanding(outstanding, polls, outlasted, quiet);
      ghost var live, waited := LiveIds(), Live(outstanding);
      Meanwhile(quiet);
      Sets.NoMoreIn(LiveIds(), live);
      assert quiet && !InTime(outlasted, polls) ==> Live(outstanding) == waited;
    }

    twostate predicate QuietlyTold(new outstanding: seq<RequestHandle>)
      reads `handles, handles
    {
      forall h <- handles :: old(allocated(h)) ==>
        if h in outstanding then ToldQuietly(h) else h.Value() == old(h.Value())
    }

    /** Tells each outstanding request to stop. */
    method TellOutstanding(outstanding: seq<RequestHandle>, ghost quiet: bool)
      requires Valid() && phase == Unloading && Awaited(outstanding)
      modifies handles
      ensures Valid() && Evolved(handles) && Awaited(outstanding)
      ensures forall h <- handles :: SettledOrTold(h.Value())
      ensures quiet ==> QuietlyTold(outstanding)
    {
      TellAll(outstanding, handles, quiet);
      StaysValid();
    }

    /** And waits for them. */
    method AwaitOutstanding(outstanding: seq<RequestHandle>, polls: nat, outlasted: Option<nat>, ghost quiet: bool)
      returns (unsettled: nat)
      requires Valid() && phase == Unloading && Awaited(outstanding)
      modifies handles
      ensures Valid() && Evolved(handles) && Covered(outstanding)
      ensures |LiveIds()| <= |Live(outstanding)| <= unsettled <= |outstanding|
      ensures InTime(outlasted, polls) ==> unsettled == 0
      ensures quiet && !InTime(outlasted, polls) ==> Same(handles) && unsettled == |Live(outstanding)|
    {
      unsettled := Drain(outstanding, polls, outlasted, handles, quiet);
      StaysValid();
      LiveAreOutstanding(outstanding);
      assert quiet && !InTime(outlasted, polls) ==> Live(outstanding) == old(Live(outstanding));
    }

    /** Requests that are live are live among those waited for. */
    lemma LiveAreOutstanding(outstanding: seq<RequestHandle>)
      requires Covered(outstanding)
      ensures |LiveIds()| <= |Live(outstanding)|
    {
      var ids := (j: int) => if 0 <= j < |outstanding| then outstanding[j].id else 0;
      Sets.ImageIsNoLarger(Live(outstanding), ids);
      forall id <- LiveIds() ensures id in Sets.Image(Live(outstanding), ids) {
        var h :| h in handles && !Settled(h.Value()) && h.id == id;
        var j :| 0 <= j < |outstanding| && outstanding[j] == h;
        assert j in Live(outstanding) && ids(j) == id;
      }
      Sets.NoMoreIn(LiveIds(), Sets.Image(Live(outstanding), ids));
    }
  }
}
