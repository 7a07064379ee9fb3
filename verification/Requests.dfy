/**
 * One request: its state, the token that carries why it was stopped, and everything
 * that any number of callers may do to the two, in any order.
 */
module Requests {

  import opened Wrappers

  datatype Cause = User | StreamIdleTimeout | ConsumerGone | InstanceUnloading

  datatype RequestState = Starting | Running | Cancelling | Completed | Cancelled | Failed

  predicate Terminal(s: RequestState) {
    s.Completed? || s.Cancelled? || s.Failed?
  }

  /** The state behind the lock, and the token's slot, which is written on its own. */
  datatype Request = Request(state: RequestState, cause: Option<Cause>)

  const NEW := Request(Starting, None)

  predicate Settled(r: Request) {
    Terminal(r.state)
  }

  /** Nothing of the request can still be waited for without anyone knowing it must stop. */
  predicate SettledOrTold(r: Request) {
    Settled(r) || r.cause.Some?
  }

  datatype Action =
    | MarkRunning
    | RequestCancellation(cause: Cause)
    | WriteToken(cause: Cause)
    | Finish(outcome: RequestState)

  predicate Allowed(a: Action) {
    a.Finish? ==> Terminal(a.outcome)
  }

  /** What one action leaves, and what it reports; the first cause and the first outcome win. */
  function Apply(r: Request, a: Action): (Request, bool) {
    match a
    case MarkRunning => (if r.state == Starting then r.(state := Running) else r, false)
    case RequestCancellation(cause) =>
      if Settled(r) || r.cause.Some? then (r, false) else (Request(Cancelling, Some(cause)), true)
    case WriteToken(cause) => if r.cause.Some? then (r, false) else (r.(cause := Some(cause)), true)
    case Finish(outcome) => if Settled(r) then (r, false) else (r.(state := outcome), true)
  }

  predicate Valid(r: Request) {
    r.state == Cancelling ==> r.cause.Some?
  }

  function Progress(s: RequestState): nat {
    match s
    case Starting => 0
    case Running => 1
    case Cancelling => 2
    case _ => 3
  }

  /** Everything that can have happened to a request seen as `a` by the time it is seen as `b`. */
  predicate Later(a: Request, b: Request) {
    && Progress(a.state) <= Progress(b.state)
    && (Settled(a) ==> b.state == a.state)
    && (a.cause.Some? ==> b.cause == a.cause)
    && (b.state == Cancelling && a.state != Cancelling ==> a.cause.None? && b.cause.Some?)
  }

  function Run(r: Request, actions: seq<Action>): Request
    decreases |actions|
  {
    if actions == [] then r else Run(Apply(r, actions[0]).0, actions[1..])
  }

  predicate AllAllowed(actions: seq<Action>) {
    forall i :: 0 <= i < |actions| ==> Allowed(actions[i])
  }

  /** How often a `Finish` reported having decided the outcome. */
  function Outcomes(r: Request, actions: seq<Action>): nat
    decreases |actions|
  {
    if actions == [] then 0
    else
      var (next, claimed) := Apply(r, actions[0]);
      (if actions[0].Finish? && claimed then 1 else 0) + Outcomes(next, actions[1..])
  }

  /** How often a cancellation, through the handle or the token, reported having been the one. */
  function Claims(r: Request, actions: seq<Action>): nat
    decreases |actions|
  {
    if actions == [] then 0
    else
      var (next, claimed) := Apply(r, actions[0]);
      (if !actions[0].Finish? && claimed then 1 else 0) + Claims(next, actions[1..])
  }

  lemma LaterTransitive(a: Request, b: Request, c: Request)
    requires Later(a, b) && Later(b, c)
    ensures Later(a, c)
  {
  }

  lemma {:induction false} RunIsLater(r: Request, actions: seq<Action>)
    requires Valid(r) && AllAllowed(actions)
    ensures Later(r, Run(r, actions)) && Valid(Run(r, actions))
    decreases |actions|
  {
    if actions != [] {
      assert Allowed(actions[0]);
      var next := Apply(r, actions[0]).0;
      RunIsLater(next, actions[1..]);
      LaterTransitive(r, next, Run(r, actions));
    }
  }

  /** `Later` is exactly what runs can do: nothing it allows is out of reach. */
  lemma LaterIsReachable(a: Request, b: Request)
    requires Valid(a)
    ensures Later(a, b) && Valid(b) <==> exists actions :: AllAllowed(actions) && Run(a, actions) == b
  {
    if Later(a, b) && Valid(b) {
      var actions := Path(a, b);
      PathLeads(a, b);
      assert AllAllowed(actions) && Run(a, actions) == b;
    }
    forall actions | AllAllowed(actions) && Run(a, actions) == b
      ensures Later(a, b) && Valid(b)
    {
      RunIsLater(a, actions);
    }
  }

  function Path(a: Request, b: Request): seq<Action> {
    if b.state == Cancelling && a.state != Cancelling && b.cause.Some? then [RequestCancellation(b.cause.value)]
    else
      (if a.cause != b.cause && b.cause.Some? then [WriteToken(b.cause.value)] else [])
      + (if a.state == b.state then []
         else if b.state == Running then [MarkRunning]
         else if Terminal(b.state) then [Finish(b.state)] else [])
  }

  lemma PathLeads(a: Request, b: Request)
    requires Valid(a) && Valid(b) && Later(a, b)
    ensures AllAllowed(Path(a, b)) && Run(a, Path(a, b)) == b
  {
    var actions := Path(a, b);
    if |actions| == 1 {
      assert actions[1..] == [];
    } else if |actions| == 2 {
      assert actions[1..] == [actions[1]] && [actions[1]][1..] == [];
      assert Run(Apply(a, actions[0]).0, [actions[1]]) == Apply(Apply(a, actions[0]).0, actions[1]).0;
    }
  }

  /**
   * Over any run exactly one `Finish` decides a request that gets decided, and exactly
   * one cancellation is the one that gets recorded.
   */
  lemma {:induction false} DecidedOnce(r: Request, actions: seq<Action>)
    requires Valid(r) && AllAllowed(actions)
    ensures Outcomes(r, actions) == if !Settled(r) && Settled(Run(r, actions)) then 1 else 0
    ensures Claims(r, actions) == if r.cause.None? && Run(r, actions).cause.Some? then 1 else 0
    decreases |actions|
  {
    if actions != [] {
      assert Allowed(actions[0]);
      var next := Apply(r, actions[0]).0;
      RunIsLater(next, actions[1..]);
      DecidedOnce(next, actions[1..]);
    }
  }
}
