/**
 * A supervised worker process: its states, and what stopping it establishes. The
 * operating system is a report of what each call to it came back with.
 */
module Workers {

  import opened Wrappers

  datatype WorkerState = Absent | Starting | Ready | Draining | Stopping | Failed

  datatype WorkerError =
    | StartupTimeout
    | ExitedDuringStartup
    | ProbeError
    | ShutdownTimeout
    | InvalidState(from: WorkerState, to: WorkerState)
    | Io

  datatype ExitCause = Requested | Unexpected

  datatype StopProtocol = ShutdownLine | Terminate

  predicate CanTransition(from: WorkerState, to: WorkerState) {
    match from
    case Absent => to == Starting
    case Starting => to == Ready || to == Failed
    case Ready => to == Draining || to == Failed
    case Draining => to == Stopping || to == Failed
    case Stopping => to == Absent || to == Failed
    case Failed => false
  }

  /**
   * A worker comes up through every state in order and goes down through every state in
   * order; it can fail from any of them but `Absent`, and from failure nothing leads on.
   */
  lemma TransitionsLead(from: WorkerState, to: WorkerState)
    ensures CanTransition(Absent, Starting) && CanTransition(Starting, Ready) && CanTransition(Ready, Draining)
    ensures CanTransition(Draining, Stopping) && CanTransition(Stopping, Absent)
    ensures !CanTransition(Failed, to) && !CanTransition(from, from)
    ensures CanTransition(from, Failed) <==> from != Absent && from != Failed
    ensures CanTransition(from, Starting) ==> from == Absent
    ensures CanTransition(from, Ready) ==> from == Starting
    ensures CanTransition(from, Draining) ==> from == Ready
    ensures CanTransition(from, Stopping) ==> from == Draining
    ensures CanTransition(from, Absent) ==> from == Stopping
  {
  }

  function TransitionTo(from: WorkerState, to: WorkerState): Result<WorkerState, WorkerError> {
    if CanTransition(from, to) then Success(to) else Failure(InvalidState(from, to))
  }

  /** What asking after a process found. */
  datatype Look = Exited | StillThere | Unknown

  /** What a kill met with: looks before and after, and whether the process ended within the deadline anyway. */
  datatype Kill = Kill(before: Look, accepted: bool, after: Look, endsInTime: bool)

  predicate Refused(k: Kill) {
    k.before != Exited && !k.accepted && k.after != Exited && !k.endsInTime
  }

  datatype Wait = Ended | WaitFailed | TimedOut

  /** What one round of watching a starting worker found. */
  datatype Round = Died | LookFailed | ProbeFailed | ProbeReady | NotYet

  /** The first round that settles a startup. */
  function Decisive(rounds: seq<Round>): Option<Round> {
    if rounds == [] then None else if rounds[0] != NotYet then Some(rounds[0]) else Decisive(rounds[1..])
  }

  lemma {:induction false} DecisiveAfter(rounds: seq<Round>, i: nat)
    requires i < |rounds| && forall j :: 0 <= j < i ==> rounds[j] == NotYet
    requires rounds[i] != NotYet
    ensures Decisive(rounds) == Some(rounds[i])
  {
    if i > 0 {
      DecisiveAfter(rounds[1..], i - 1);
    }
  }

  lemma {:induction false} NeverDecisive(rounds: seq<Round>)
    requires forall j :: 0 <= j < |rounds| ==> rounds[j] == NotYet
    ensures Decisive(rounds) == None
  {
    if rounds != [] {
      NeverDecisive(rounds[1..]);
    }
  }

  /** Where a worker stands while it is being stopped. */
  function Winding(s: WorkerState): WorkerState {
    if s == Ready || s == Draining then Stopping else s
  }

  function Wound(s: WorkerState): WorkerState {
    if Winding(s) == Stopping then Absent else s
  }

  datatype Worker = Worker(state: WorkerState, child: bool)

  /** Stopping a worker whose stop is termination: what it leaves, and whether it reports success. */
  function StopByTermination(w: Worker, k: Kill): (r: (Worker, bool))
    ensures r.1 <==> !r.0.child
    ensures w.child && r.1 ==> k.before == Exited || k.accepted || k.after == Exited || k.endsInTime
    ensures w.child && !r.1 ==> k.before != Exited && !k.accepted && k.after != Exited && !k.endsInTime
    ensures !w.child ==> r.1
    ensures r.1 && w.state in {Ready, Draining, Stopping} ==> r.0.state == Absent
    ensures !r.1 && w.state in {Ready, Draining, Stopping} ==> r.0.state == Stopping
    ensures w.state !in {Ready, Draining, Stopping} ==> r.0.state == w.state
  {
    if w.child && Refused(k) then (Worker(Winding(w.state), true), false)
    else (Worker(Wound(w.state), false), true)
  }

  class WorkerHandle {
    var state: WorkerState
    /** Whether the handle still holds a process. */
    var child: bool
    const stop: StopProtocol

    /** A spawned worker: a process exists and has not reported readiness. */
    constructor (stop: StopProtocol)
      ensures Value() == Worker(Starting, true) && this.stop == stop
    {
      state, child, this.stop := Starting, true, stop;
    }

    function Value(): Worker
      reads this
    {
      Worker(state, child)
    }

    method Mark(to: WorkerState) returns (r: Result<(), WorkerError>)
      modifies this`state
      ensures r.Success? <==> CanTransition(old(state), to)
      ensures r.Success? ==> r == Success(())
      ensures state == if r.Success? then to else old(state)
      ensures r.Failure? ==> r.error == InvalidState(old(state), to)
    {
      var next := TransitionTo(state, to);
      if next.Failure? {
        return Failure(next.error);
      }
      state := next.value;
      r := Success(());
    }

    /**
     * Succeeds exactly when the handle no longer holds a process; and it lets go of one
     * only if the process was seen to have exited, took the kill, or ended anyway.
     */
    method Kills(k: Kill) returns (r: Result<(), WorkerError>)
      modifies this`child
      ensures child <==> old(child) && Refused(k)
      ensures old(child) && !child ==> k.before == Exited || k.accepted || k.after == Exited || k.endsInTime
      ensures old(child) && child ==> k.before != Exited && !k.accepted && k.after != Exited && !k.endsInTime
      ensures r == if child then Failure(Io) else Success(())
    {
      var refused := false;
      if child {
        var alreadyGone := k.before == Exited;
        if !alreadyGone {
          if !k.accepted {
            if k.after != Exited {
              refused := true;
            }
          }
        }
        if refused {
          if k.endsInTime {
            refused := false;
            child := false;
          }
        } else {
          child := false;
        }
      }
      r := if refused then Failure(Io) else Success(());
    }

    /**
     * Whatever the protocol, a success means the handle holds no process, a timeout
     * means the worker had to be killed and was, and any other error means the handle
     * keeps the process it could not stop. The state machine refuses nothing here.
     */
    method Shutdown(w: Wait, k: Kill) returns (r: Result<ExitCause, WorkerError>)
      modifies this
      ensures r.Success? ==> r.value == Requested && !child
      ensures r.Failure? ==> r.error == ShutdownTimeout || r.error == Io
      ensures r == Failure(ShutdownTimeout) ==> !child && stop == ShutdownLine && w == TimedOut
      ensures r == Failure(Io) ==> child && old(child)
      ensures old(child) && !child ==>
                || (stop == ShutdownLine && w == Ended)
                || ((stop == Terminate || w == TimedOut)
                    && (k.before == Exited || k.accepted || k.after == Exited || k.endsInTime))
      ensures child ==>
                || (stop == ShutdownLine && w == WaitFailed)
                || ((stop == Terminate || w == TimedOut)
                    && k.before != Exited && !k.accepted && k.after != Exited && !k.endsInTime)
      ensures r.Success? && (old(child) || stop == Terminate) && old(state) in {Ready, Draining, Stopping} ==>
                state == Absent
      ensures r.Failure? && old(state) in {Ready, Draining, Stopping} ==> state == Stopping
      ensures old(state) !in {Ready, Draining, Stopping} ==> state == old(state)
      ensures stop == Terminate ==> (Value(), r.Success?) == StopByTermination(old(Value()), k)
      ensures stop == ShutdownLine ==>
                && (r.Success? <==> !old(child) || w == Ended)
                && (child <==> old(child) && (w == WaitFailed || (w == TimedOut && Refused(k))))
                && state == if old(child) && r.Success? then Wound(old(state)) else Winding(old(state))
    {
      if state == Ready {
        var moved := Mark(Draining);
        assert moved.Success?;
      }
      if state == Draining {
        var moved := Mark(Stopping);
        assert moved.Success?;
      }

      if stop == Terminate {
        var killed := Kills(k);
        if killed.Failure? {
          return Failure(killed.error);
        }
        if state == Stopping {
          var moved := Mark(Absent);
          assert moved.Success?;
        }
        return Success(Requested);
      }

      if !child {
        return Success(Requested);
      }
      match w {
        case Ended =>
          child := false;
          if state == Stopping {
            var moved := Mark(Absent);
            assert moved.Success?;
          }
          r := Success(Requested);
        case WaitFailed =>
          r := Failure(Io);
        case TimedOut =>
          var killed := Kills(k);
          r := if killed.Failure? then Failure(killed.error) else Failure(ShutdownTimeout);
      }
    }

    /** Waits for an exit nobody asked for, which is a failure wherever the machine allows one. */
    method WaitForExit(w: Wait) returns (r: Result<ExitCause, WorkerError>)
      modifies this
      ensures r == if !old(child) then Success(Requested) else if w == Ended then Success(Unexpected) else Failure(Io)
      ensures child <==> old(child) && w != Ended
      ensures state == if old(child) && w == Ended && old(state) != Absent then Failed else old(state)
    {
      if !child {
        return Success(Requested);
      }
      if w != Ended {
        return Failure(Io);
      }
      child := false;
      if CanTransition(state, Failed) {
        var moved := Mark(Failed);
        assert moved.Success?;
      }
      r := Success(Unexpected);
    }

    /**
     * Watches a starting worker until a round settles it, or the deadline passes. A
     * worker that is not reported ready is failed, and one that never answered is
     * killed as well.
     */
    method WaitReady(rounds: seq<Round>, k: Kill) returns (r: Result<(), WorkerError>)
      modifies this
      ensures !old(child) ==> r == Failure(Io) && Value() == old(Value())
      ensures old(child) && Decisive(rounds) == Some(ProbeReady) ==>
                if old(state) == Starting then r == Success(()) && Value() == Worker(Ready, true)
                else r == Failure(InvalidState(old(state), Ready)) && Value() == old(Value())
      ensures old(child) && Decisive(rounds) != Some(ProbeReady) ==>
                if !CanTransition(old(state), Failed)
                then r == Failure(InvalidState(old(state), Failed)) && Value() == old(Value())
                else match Decisive(rounds)
                     case Some(Died) => r == Failure(ExitedDuringStartup) && Value() == Worker(Failed, true)
                     case Some(LookFailed) => r == Failure(Io) && Value() == Worker(Failed, true)
                     case Some(_) => r == Failure(ProbeError) && Value() == Worker(Failed, true)
                     case None => r == Failure(StartupTimeout) && Value() == Worker(Failed, Refused(k))
    {
      if !child {
        return Failure(Io);
      }
      var i := 0;
      while i < |rounds| && rounds[i] == NotYet
        invariant i <= |rounds| && forall j :: 0 <= j < i ==> rounds[j] == NotYet
      {
        i := i + 1;
      }
      if i < |rounds| {
        DecisiveAfter(rounds, i);
      } else {
        NeverDecisive(rounds);
      }

      if i < |rounds| && rounds[i] == ProbeReady {
        var moved := Mark(Ready);
        return moved;
      }
      var moved := Mark(Failed);
      if moved.Failure? {
        return moved;
      }
      if i == |rounds| {
        var _ := Kills(k);
        return Failure(StartupTimeout);
      }
      match rounds[i] {
        case Died => r := Failure(ExitedDuringStartup);
        case LookFailed => r := Failure(Io);
        case _ => r := Failure(ProbeError);
      }
    }
  }
}
