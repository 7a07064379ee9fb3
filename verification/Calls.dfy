/**
 * The calls that wait for one whole answer: a request is admitted, raced against being
 * told to stop, and its outcome recorded before the caller learns it.
 */
module Calls {
  import opened Wrappers
  import opened Requests
  import opened Handles
  import opened Instances
  import opened LoadedModels
  import Embeddings
  import Streams

  datatype Refusal<+D> =
    | NotUsable(why: NotUsable)
    | Stopped(cause: Cause)
    | Inference
    | UnusableResult(defect: D)

  /** An instance as others leave it: requests may have been added and acted on, and none is forgotten. */
  twostate predicate Grown(model: LoadedModel)
    reads model, model.handles
  {
    && old(model.handles) <= model.handles && fresh(model.handles - old(model.handles))
    && (forall id <- old(model.admitted) :: id in model.admitted && model.admitted[id] == old(model.admitted)[id])
    && Onwards(old(model.Shown()), model.Shown())
  }

  ghost predicate Onwards(before: map<RequestId, Request>, after: map<RequestId, Request>) {
    forall id <- before :: id in after && Later(before[id], after[id])
  }

  lemma OnwardsTwice(a: map<RequestId, Request>, b: map<RequestId, Request>, c: map<RequestId, Request>)
    requires Onwards(a, b) && Onwards(b, c)
    ensures Onwards(a, c)
  {
  }

  lemma OnwardsSelf(a: map<RequestId, Request>)
    ensures Onwards(a, a)
  {
  }

  /**
   * What others do to the instance and its requests while this call holds no lock: admit,
   * act, let go, take the instance down. They do not end a request they do not carry out;
   * and when all is `quiet`, they leave it alone.
   */
  method Elsewhere(model: LoadedModel, handle: RequestHandle, ghost quiet: bool)
    requires model.Valid() && handle in model.handles
    modifies model, model.handles
    ensures model.Valid() && handle in model.handles && Grown(model)
    ensures Later(old(handle.Value()), handle.Value()) && (Settled(handle.Value()) <==> old(Settled(handle.Value())))
    ensures quiet ==> handle.Value() == old(handle.Value())
  {
  }

  /** One action of this call's own on its request; the instance knows the request as before, but for what it did. */
  lemma ActedOn(model: LoadedModel, handle: RequestHandle, before: map<RequestId, Request>, was: Request)
    requires model.Valid() && handle in model.handles && Later(was, handle.Value())
    requires model.Shown().Keys == before.Keys && handle.id in before && before[handle.id] == was
    requires forall id <- before :: id != handle.id ==> model.Shown()[id] == before[id]
    ensures Onwards(before, model.Shown())
  {
  }

  method MarkRunning(model: LoadedModel, handle: RequestHandle)
    requires model.Valid() && handle in model.handles && !Settled(handle.Value())
    modifies handle
    ensures model.Valid() && Grown(model)
    ensures Later(old(handle.Value()), handle.Value()) && !Settled(handle.Value())
    ensures handle.slot == old(handle.slot)
    ensures handle.state == if old(handle.state) == Starting then Running else old(handle.state)
  {
    handle.MarkRunning();
    ActedOn(model, handle, old(model.Shown()), old(handle.Value()));
  }

  method Record(model: LoadedModel, handle: RequestHandle, outcome: RequestState)
    requires model.Valid() && handle in model.handles && !Settled(handle.Value()) && Terminal(outcome)
    modifies handle
    ensures model.Valid() && Grown(model)
    ensures handle.Value() == old(handle.Value()).(state := outcome)
  {
    var _ := handle.Finish(outcome);
    ActedOn(model, handle, old(model.Shown()), old(handle.Value()));
  }

  /** Records the outcome, with others acting up to then. */
  method Conclude(model: LoadedModel, handle: RequestHandle, outcome: RequestState, ghost quiet: bool)
    requires model.Valid() && handle in model.handles && !Settled(handle.Value()) && Terminal(outcome)
    modifies model, model.handles
    ensures model.Valid() && handle in model.handles && Grown(model)
    ensures handle.state == outcome && (old(handle.slot.Some?) ==> handle.slot == old(handle.slot))
  {
    hide LoadedModel.Valid, LoadedModel.Shown, Onwards;
    Elsewhere(model, handle, quiet);
    ghost var now := model.Shown();
    Record(model, handle, outcome);
    OnwardsTwice(old(model.Shown()), now, model.Shown());
  }

  /**
   * Waits for the backend unless the request is told to stop first. Only with an answer
   * in hand is the outcome still open.
   */
  method Await<R, D>(model: LoadedModel, handle: RequestHandle, sent: Option<R>, ghost quiet: bool)
    returns (r: Result<R, Refusal<D>>)
    requires model.Valid() && handle in model.handles && !Settled(handle.Value())
    modifies model, model.handles
    ensures model.Valid() && handle in model.handles && Grown(model)
    ensures old(handle.slot.Some?) ==> r == Failure(Stopped(old(handle.slot.value)))
    ensures match r
            case Success(result) => sent == Some(result) && !Settled(handle.Value()) && handle.state != Starting
            case Failure(Stopped(cause)) => handle.Value() == Request(Cancelled, Some(cause))
            case Failure(Inference) => sent.None? && handle.state == Failed
            case _ => false
    ensures quiet && old(handle.slot.None?) ==> r == if sent.Some? then Success(sent.value) else Failure(Inference)
  {
    hide LoadedModel.Valid, LoadedModel.Shown, Onwards;
    Elsewhere(model, handle, quiet);
    ghost var now := model.Shown();
    MarkRunning(model, handle);
    OnwardsTwice(old(model.Shown()), now, model.Shown());
    now := model.Shown();
    Elsewhere(model, handle, quiet);
    OnwardsTwice(old(model.Shown()), now, model.Shown());
    now := model.Shown();
    if handle.slot.Some? {
      var cause := handle.slot.value;
      Conclude(model, handle, Cancelled, quiet);
      OnwardsTwice(old(model.Shown()), now, model.Shown());
      return Failure(Stopped(cause));
    }
    if sent.None? {
      Conclude(model, handle, Failed, quiet);
      OnwardsTwice(old(model.Shown()), now, model.Shown());
      return Failure(Inference);
    }
    r := Success(sent.value);
  }

  /** Admission, as far as a call waiting for one answer is concerned. */
  method Admitted(model: LoadedModel) returns (r: Result<RequestHandle, NotUsable>)
    requires model.Valid()
    modifies model
    ensures model.Valid() && Grown(model)
    ensures r.Failure? <==> old(model.phase) != Serving || !model.usable
    ensures r.Failure? ==>
              && model.Value() == old(model.Value())
              && r.error == if old(model.phase) != Serving then NotServing(old(model.phase)) else NotReady
    ensures r.Success? ==>
              && r.value in model.handles && fresh(r.value) && r.value.Value() == NEW
              && old(model.nextRequest) in model.admitted && model.admitted[old(model.nextRequest)] == r.value
  {
    hide LoadedModel.Shown, EndedIn;
    ghost var before := model.Value();
    OnwardsSelf(before.requests);
    NextIsNew(model);
    r := model.Admit();
    assert model.Value().requests == model.Shown();
  }

  lemma NextIsNew(model: LoadedModel)
    requires model.Valid()
    ensures model.nextRequest !in model.admitted && model.nextRequest !in model.Shown()
  {
  }

  /** How a request ended, told by what its caller was told. */
  ghost predicate Reported<R, D>(q: Request, r: Result<R, Refusal<D>>) {
    match r
    case Success(_) => q.state == Completed
    case Failure(Stopped(cause)) => q.state == Cancelled && q.cause == Some(cause)
    case Failure(Inference) => q.state == Failed
    case Failure(UnusableResult(_)) => q.state == Failed
    case Failure(NotUsable(_)) => false
  }

  /**
   * Embeds some inputs. Unless it is turned away, the call leaves a request that has
   * ended the way the caller is told, and an answer is handed back only if it can be
   * trusted for the inputs that were given.
   */
  method Embed<F>(model: LoadedModel, inputs: nat, sent: Option<seq<Embeddings.Embedding<F>>>, usable: F -> bool,
                  ghost quiet: bool)
    returns (r: Result<seq<Embeddings.Embedding<F>>, Refusal<Embeddings.Defect>>)
    requires model.Valid()
    modifies model, model.handles
    ensures model.Valid() && Grown(model)
    ensures r.Failure? && r.error.NotUsable? ==> model.Value() == old(model.Value())
    ensures r.Failure? && r.error.NotUsable? <==> old(model.phase) != Serving || !model.usable
    ensures r.Failure? && r.error.NotUsable? ==>
              r.error.why == if old(model.phase) != Serving then NotServing(old(model.phase)) else NotReady
    ensures !(r.Failure? && r.error.NotUsable?) ==>
              && old(model.nextRequest) in model.admitted && fresh(model.admitted[old(model.nextRequest)])
              && Reported(model.admitted[old(model.nextRequest)].Value(), r)
    ensures r.Success? ==> sent == Some(r.value) && Embeddings.Trustworthy(inputs, r.value, usable)
    ensures r.Failure? && r.error.UnusableResult? ==>
              && sent.Some? && !Embeddings.Trustworthy(inputs, sent.value, usable)
              && Embeddings.Explains(inputs, sent.value, usable, r.error.defect)
    ensures quiet && old(model.phase) == Serving && model.usable ==>
              if sent.None? then r == Failure(Inference)
              else if Embeddings.Trustworthy(inputs, sent.value, usable) then r == Success(sent.value)
              else r.Failure? && r.error.UnusableResult?
  {
    hide Embeddings.Trustworthy, Embeddings.Explains, Embeddings.SoundUpto, Embeddings.Dimension;
    hide LoadedModel.Valid, LoadedModel.Shown, Onwards, EndedIn;
    var admitted := Admitted(model);
    if admitted.Failure? {
      return Failure(NotUsable(admitted.error));
    }
    var handle := admitted.value;
    ghost var now := model.Shown();
    r := Await(model, handle, sent, quiet);
    OnwardsTwice(old(model.Shown()), now, model.Shown());
    now := model.Shown();
    if r.Success? {
      var defect := Embeddings.Validate(inputs, r.value, usable);
      if defect.Some? {
        r := Failure(UnusableResult(defect.value));
      }
      Conclude(model, handle, if r.Success? then Completed else Failed, quiet);
      OnwardsTwice(old(model.Shown()), now, model.Shown());
    }
  }

  datatype Generated = Generated(text: Streams.Text, finishReason: Streams.FinishReason, usage: Option<Streams.Usage>)

  datatype GenerationDefect = NoContent | ImplausibleUsage

  /** An answer with no text is not generation, and neither is text that no token accounts for. */
  function DefectOf(g: Generated): (d: Option<GenerationDefect>)
    ensures d.None? <==> g.text != [] && (g.usage.Some? ==> g.usage.value.outputTokens != 0)
  {
    if g.text == [] then Some(NoContent)
    else if g.usage.Some? && g.usage.value.outputTokens == 0 then Some(ImplausibleUsage)
    else None
  }

  /** Generates text in one answer. */
  method GenerateText(model: LoadedModel, sent: Option<Generated>, ghost quiet: bool)
    returns (r: Result<Generated, Refusal<GenerationDefect>>)
    requires model.Valid()
    modifies model, model.handles
    ensures model.Valid() && Grown(model)
    ensures r.Failure? && r.error.NotUsable? ==> model.Value() == old(model.Value())
    ensures r.Failure? && r.error.NotUsable? <==> old(model.phase) != Serving || !model.usable
    ensures r.Failure? && r.error.NotUsable? ==>
              r.error.why == if old(model.phase) != Serving then NotServing(old(model.phase)) else NotReady
    ensures !(r.Failure? && r.error.NotUsable?) ==>
              && old(model.nextRequest) in model.admitted && fresh(model.admitted[old(model.nextRequest)])
              && Reported(model.admitted[old(model.nextRequest)].Value(), r)
    ensures r.Success? ==>
              && sent == Some(r.value) && r.value.text != []
              && (r.value.usage.Some? ==> r.value.usage.value.outputTokens != 0)
    ensures r.Failure? && r.error.UnusableResult? ==>
              && sent.Some?
              && (r.error.defect == NoContent <==> sent.value.text == [])
              && (r.error.defect == ImplausibleUsage ==>
                    sent.value.usage.Some? && sent.value.usage.value.outputTokens == 0)
    ensures quiet && old(model.phase) == Serving && model.usable ==>
              if sent.None? then r == Failure(Inference)
              else if sent.value.text == [] then r == Failure(UnusableResult(NoContent))
              else if sent.value.usage.Some? && sent.value.usage.value.outputTokens == 0
              then r == Failure(UnusableResult(ImplausibleUsage))
              else r == Success(sent.value)
  {
    hide LoadedModel.Valid, LoadedModel.Shown, Onwards, EndedIn;
    var admitted := Admitted(model);
    if admitted.Failure? {
      return Failure(NotUsable(admitted.error));
    }
    var handle := admitted.value;
    ghost var now := model.Shown();
    r := Await(model, handle, sent, quiet);
    OnwardsTwice(old(model.Shown()), now, model.Shown());
    now := model.Shown();
    if r.Success? {
      var defect := DefectOf(r.value);
      if defect.Some? {
        r := Failure(UnusableResult(defect.value));
      }
      Conclude(model, handle, if r.Success? then Completed else Failed, quiet);
      OnwardsTwice(old(model.Shown()), now, model.Shown());
    }
  }
}
