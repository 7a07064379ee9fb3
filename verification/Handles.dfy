/**
 * The shared handle as the runtime holds it, with other callers acting on it between
 * any two of a method's own steps.
 */
module Handles {
  import opened Wrappers
  import opened Requests
  import Sets

  class RequestHandle {
    const id: nat
    var state: RequestState
    /** The token's slot. */
    var slot: Option<Cause>

    constructor (id: nat)
      ensures this.id == id && Value() == NEW
    {
      this.id, state, slot := id, Starting, None;
    }

    ghost function Value(): Request
      reads this
    {
      Request(state, slot)
    }

    /** The token's own `cancel`: the first cause wins. */
    method CancelToken(cause: Cause) returns (claimed: bool)
      modifies this`slot
      ensures (Value(), claimed) == Apply(old(Value()), WriteToken(cause))
    {
      claimed := false;
      if slot == None {
        slot := Some(cause);
        claimed := true;
      }
    }

    method MarkRunning()
      modifies this`state
      ensures Value() == Apply(old(Value()), Action.MarkRunning).0
    {
      if state == Starting {
        state := Running;
      }
    }

    method RequestCancellation(cause: Cause) returns (claimed: bool)
      modifies this
      ensures (Value(), claimed) == Apply(old(Value()), Action.RequestCancellation(cause))
    {
      if Terminal(state) {
        return false;
      }
      claimed := CancelToken(cause);
      if claimed {
        state := Cancelling;
      }
    }

    method Finish(outcome: RequestState) returns (first: bool)
      requires Terminal(outcome)
      modifies this`state
      ensures (Value(), first) == Apply(old(Value()), Action.Finish(outcome))
    {
      if Terminal(state) {
        return false;
      }
      state := outcome;
      first := true;
    }
  }

  twostate predicate Evolved(handles: set<RequestHandle>)
    reads handles
  {
    forall h <- handles :: Later(old(h.Value()), h.Value()) && (old(Valid(h.Value())) ==> Valid(h.Value()))
  }

  twostate predicate Same(handles: set<RequestHandle>)
    reads handles
  {
    forall h <- handles :: h.Value() == old(h.Value())
  }

  /** Whatever other callers do while this one holds no lock; when all is `quiet`, nothing. */
  method Interfere(ghost handles: set<RequestHandle>, ghost quiet: bool)
    modifies handles
    ensures Evolved(handles)
    ensures quiet ==> Same(handles)
  {
  }

  datatype CancelOutcome = Requested | AlreadyStopping(cause: Cause) | AlreadyFinished(state: RequestState)

  /**
   * What a caller asking for a stop is told. Between any two looks at the handle others
   * may act on it, and still: `at` being the request as this caller's own cancellation, or
   * the look that made it needless, met it, the caller is told it was the one exactly when
   * there was nothing before it; the cause reported is the one recorded, so the fallback
   * is never taken, and the state reported is the one the request ended in.
   */
  method AskToStop(handle: RequestHandle, ghost quiet: bool)
    returns (outcome: CancelOutcome, ghost fellBack: bool, ghost at: Request)
    requires Valid(handle.Value())
    modifies handle
    ensures Later(old(handle.Value()), at) && Later(at, handle.Value()) && Valid(handle.Value())
    ensures Later(old(handle.Value()), handle.Value())
    ensures !fellBack
    ensures outcome == Requested <==> !Settled(at) && at.cause.None?
    ensures match outcome
            case Requested => handle.slot == Some(User)
            case AlreadyStopping(cause) => handle.slot == Some(cause) && at.cause == Some(cause) && !Settled(at)
            case AlreadyFinished(state) => Terminal(state) && handle.state == state
    ensures Settled(at) ==> outcome == AlreadyFinished(at.state)
    ensures old(Settled(handle.Value())) ==> outcome == AlreadyFinished(old(handle.state))
    ensures old(handle.slot.Some?) ==> outcome != Requested
    ensures old(handle.slot.Some?) && !Settled(handle.Value()) ==> outcome == AlreadyStopping(old(handle.slot.value))
    ensures quiet ==> at == old(handle.Value())
    ensures quiet && old(!Settled(handle.Value()) && handle.slot.None?) ==>
              outcome == Requested && handle.Value() == Request(Cancelling, Some(User))
    ensures quiet && old(Settled(handle.Value()) || handle.slot.Some?) ==> handle.Value() == old(handle.Value())
  {
    fellBack := false;
    at := handle.Value();
    var terminal := Terminal(handle.state);
    Interfere({handle}, quiet);
    if terminal {
      return AlreadyFinished(handle.state), false, at;
    }

    at := handle.Value();
    var claimed := handle.RequestCancellation(User);
    Interfere({handle}, quiet);
    if claimed {
      return Requested, false, at;
    }
    terminal := Terminal(handle.state);
    Interfere({handle}, quiet);
    if terminal {
      return AlreadyFinished(handle.state), false, at;
    }
    match handle.slot {
      case Some(cause) => outcome := AlreadyStopping(cause);
      case None =>
        outcome := AlreadyStopping(User);
        fellBack := true;
    }
  }

  /** Where in `handles` are those that have not settled. */
  ghost function Live(handles: seq<RequestHandle>): set<int>
    reads handles
  {
    set j | 0 <= j < |handles| && !Settled(handles[j].Value())
  }

  lemma AllLive(handles: seq<RequestHandle>)
    requires forall h <- handles :: !Settled(h.Value())
    ensures |Live(handles)| == |handles|
  {
    forall j | 0 <= j < |handles| ensures j in Live(handles) {
      assert handles[j] in handles;
    }
    assert Live(handles) == Sets.Below(|handles|);
  }

  lemma LiveBounds(handles: seq<RequestHandle>)
    ensures (forall h <- handles :: Settled(h.Value())) ==> Live(handles) == {}
    ensures |Live(handles)| <= |handles|
  {
    Sets.NoMoreIn(Live(handles), Sets.Below(|handles|));
  }

  lemma NoneLive(handles: seq<RequestHandle>)
    ensures |Live(handles)| == 0 ==> forall h <- handles :: Settled(h.Value())
  {
    if |Live(handles)| == 0 {
      forall h <- handles ensures Settled(h.Value()) {
        var j :| 0 <= j < |handles| && handles[j] == h;
        assert j !in Live(handles);
      }
    }
  }

  /**
   * Looks at each handle once, while others act on any in `shared`; never reports fewer
   * than are live at the end, nor more than were at the start.
   */
  method Scan(handles: seq<RequestHandle>, ghost shared: set<RequestHandle>, ghost quiet: bool)
    returns (unsettled: nat)
    requires forall h <- handles :: h in shared
    modifies shared
    ensures Evolved(shared) && (quiet ==> Same(shared))
    ensures |Live(handles)| <= unsettled <= old(|Live(handles)|)
    ensures unsettled <= |handles|
  {
    unsettled := 0;
    ghost var counted: set<int> := {};
    for i := 0 to |handles|
      invariant Evolved(shared) && (quiet ==> Same(shared))
      invariant |counted| == unsettled <= i
      invariant forall j <- counted :: 0 <= j < i && j in old(Live(handles))
      invariant forall j :: 0 <= j < i ==> Settled(handles[j].Value()) || j in counted
    {
      Interfere(shared, quiet);
      if !Terminal(handles[i].state) {
        assert Later(old(handles[i].Value()), handles[i].Value());
        unsettled := unsettled + 1;
        counted := counted + {i};
      }
    }
    Sets.NoMoreIn(Live(handles), counted);
    Sets.NoMoreIn(counted, old(Live(handles)));
  }

  /** A scan, after what happens before it. */
  method Look(handles: seq<RequestHandle>, ending: bool, ghost shared: set<RequestHandle>, ghost quiet: bool)
    returns (unsettled: nat)
    requires forall h <- handles :: h in shared
    modifies shared
    ensures Evolved(shared)
    ensures |Live(handles)| <= unsettled <= old(|Live(handles)|)
    ensures unsettled <= |handles|
    ensures unsettled == 0 ==> forall h <- handles :: Settled(h.Value())
    ensures ending ==> unsettled == 0
    ensures quiet && !ending ==> Same(shared) && |Live(handles)| == unsettled == old(|Live(handles)|)
  {
    Pause(handles, ending, shared, quiet);
    LiveBounds(handles);
    ghost var live := Live(handles);
    unsettled := Scan(handles, shared, quiet);
    NoneLive(handles);
    assert quiet ==> Live(handles) == live;
  }

  /** What happens before a scan: others act, and if `ending` they have ended all of `handles` by then. */
  method Pause(handles: seq<RequestHandle>, ending: bool, ghost shared: set<RequestHandle>, ghost quiet: bool)
    requires forall h <- handles :: h in shared
    modifies shared
    ensures Evolved(shared) && (quiet && !ending ==> Same(shared) && Live(handles) == old(Live(handles)))
    ensures ending ==> forall h <- handles :: Settled(h.Value())
    ensures |Live(handles)| <= old(|Live(handles)|)
  {
    Ends(handles, ending, shared, quiet);
    forall j <- Live(handles) ensures j in old(Live(handles)) {
      assert Later(old(handles[j].Value()), handles[j].Value());
    }
    Sets.NoMoreIn(Live(handles), old(Live(handles)));
    assert quiet && !ending ==> Live(handles) == old(Live(handles));
  }

  method Ends(handles: seq<RequestHandle>, ending: bool, ghost shared: set<RequestHandle>, ghost quiet: bool)
    requires forall h <- handles :: h in shared
    modifies shared
    ensures Evolved(shared) && (quiet && !ending ==> Same(shared))
    ensures ending ==> forall h <- handles :: Settled(h.Value())
  {
    Interfere(shared, quiet);
    if ending {
      for i := 0 to |handles|
        invariant Evolved(shared)
        invariant forall h <- handles[..i] :: Settled(h.Value())
      {
        var _ := handles[i].Finish(Failed);
        assert handles[..i + 1] == handles[..i] + [handles[i]];
      }
      assert handles[..|handles|] == handles;
    }
  }

  /** Requests that all end by the scan numbered `outlasted` do so while it is still made. */
  predicate InTime(outlasted: Option<nat>, polls: nat) {
    outlasted.Some? && outlasted.value <= polls
  }

  /**
   * Waits for handles that change while they are scanned, one look at a time, until a
   * scan finds none unsettled or `polls` further scans have been made. What it returns
   * is never less than what is still live, so zero means all had settled; and never more
   * than was live when the wait began. Requests that have all ended by the scan numbered
   * `outlasted` are seen to have, exactly if that scan is still made.
   */
  method Drain(handles: seq<RequestHandle>, polls: nat, outlasted: Option<nat>, ghost shared: set<RequestHandle>,
               ghost quiet: bool)
    returns (unsettled: nat)
    requires forall h <- handles :: h in shared
    modifies shared
    ensures Evolved(shared)
    ensures |Live(handles)| <= unsettled <= old(|Live(handles)|)
    ensures unsettled <= |handles|
    ensures unsettled == 0 ==> forall h <- handles :: Settled(h.Value())
    ensures InTime(outlasted, polls) ==> unsettled == 0
    ensures quiet && !InTime(outlasted, polls) ==> Same(shared) && unsettled == old(|Live(handles)|)
  {
    var made := 0;
    while true
      invariant made <= polls
      invariant Evolved(shared)
      invariant quiet ==> Same(shared) && |Live(handles)| == old(|Live(handles)|)
      invariant |Live(handles)| <= old(|Live(handles)|)
      invariant outlasted.Some? ==> made <= outlasted.value
      decreases polls - made
    {
      unsettled := Look(handles, outlasted == Some(made), shared, quiet);
      if unsettled == 0 || made == polls {
        return;
      }
      made := made + 1;
    }
  }

  /**
   * Tells each of `handles` that its instance is going; afterwards each has ended or been
   * told to, and for that reason unless there was one before.
   */
  method TellAll(handles: seq<RequestHandle>, ghost shared: set<RequestHandle>, ghost quiet: bool)
    requires forall h <- handles :: h in shared
    modifies shared
    ensures Evolved(shared)
    ensures forall h <- handles :: SettledOrTold(h.Value())
    ensures quiet ==> forall h <- handles ::
              h.Value() == if old(Settled(h.Value()) || h.slot.Some?) then old(h.Value())
                           else Request(Cancelling, Some(InstanceUnloading))
    ensures quiet ==> forall h <- shared :: h in handles || h.Value() == old(h.Value())
  {
    for i := 0 to |handles|
      invariant Evolved(shared)
      invariant forall h <- handles[..i] :: SettledOrTold(h.Value())
      invariant quiet ==> forall h <- handles[..i] :: ToldQuietly(h)
      invariant quiet ==> forall h <- shared :: h in handles[..i] || h.Value() == old(h.Value())
    {
      Interfere(shared, quiet);
      var _ := handles[i].RequestCancellation(InstanceUnloading);
      assert handles[..i + 1] == handles[..i] + [handles[i]];
    }
    assert handles[..|handles|] == handles;
  }

  /** What telling a request does when nobody else does anything. */
  twostate predicate ToldQuietly(h: RequestHandle)
    reads h
  {
    h.Value() == if old(Settled(h.Value()) || h.slot.Some?) then old(h.Value())
                 else Request(Cancelling, Some(InstanceUnloading))
  }
}
