/** What a runtime will hold, what it holds, and the ledger that keeps the two apart. */
module Resources {
  import opened Bytes

  datatype Limits = Limits(maxInstances: U64, maxWeightBytes: Budget)

  datatype Budget = Unbounded | AtMost(bytes: U64)

  datatype Usage = Usage(instances: nat, loading: nat, weightBytes: U64)

  datatype Refusal = Instances(capacity: U64) | WeightBytes(requested: U64, committed: U64, limit: U64)

  datatype Admission = Admitted | Refused(refusal: Refusal)

  function SaturatingAdd(a: U64, b: U64): U64 {
    if a + b <= U64_MAX then a + b else U64_MAX
  }

  function Min(a: nat, b: nat): nat {
    if a <= b then a else b
  }

  /** The count is checked first; a sum that cannot be represented fits no budget. */
  function Admits(limits: Limits, committed: Usage, footprint: U64): Admission {
    if committed.instances >= limits.maxInstances then Refused(Instances(limits.maxInstances))
    else match limits.maxWeightBytes
         case Unbounded => Admitted
         case AtMost(limit) =>
           if committed.weightBytes + footprint <= U64_MAX && committed.weightBytes + footprint <= limit
           then Admitted
           else Refused(WeightBytes(footprint, committed.weightBytes, limit))
  }

  // ------------------------------------------------------------ exact totals

  /** The sum of all footprints, as a number without width. */
  ghost function Sum<K>(footprints: map<K, U64>): nat
    decreases |footprints|
  {
    if footprints == map[] then 0
    else
      var k :| k in footprints;
      footprints[k] + Sum(footprints - {k})
  }

  lemma SumNothing<K>()
    ensures Sum<K>(map[]) == 0
  {
  }

  lemma {:induction false} SumRemove<K>(m: map<K, U64>, k: K)
    requires k in m
    ensures Sum(m) == m[k] + Sum(m - {k})
    decreases |m|
  {
    var j :| j in m && Sum(m) == m[j] + Sum(m - {j});
    if j != k {
      SumRemove(m - {j}, k);
      SumRemove(m - {k}, j);
      assert (m - {j}) - {k} == (m - {k}) - {j};
    }
  }

  lemma SumInsert<K>(m: map<K, U64>, k: K, v: U64)
    requires k !in m
    ensures Sum(m[k := v]) == Sum(m) + v
    ensures |m[k := v]| == |m| + 1
  {
    SumRemove(m[k := v], k);
    assert m[k := v] - {k} == m;
  }

  /** Adding up footprints in whatever order a map yields them saturates at the exact sum or the largest value. */
  method SaturatingFold<K>(start: U64, footprints: map<K, U64>) returns (total: U64)
    ensures total == Min(start + Sum(footprints), U64_MAX)
  {
    hide Sum;
    SumNothing<K>();
    total := start;
    var rest := footprints;
    while rest != map[]
      invariant Sum(rest) <= Sum(footprints)
      invariant total == Min(start + Sum(footprints) - Sum(rest), U64_MAX)
      decreases |rest|
    {
      var k :| k in rest;
      SumRemove(rest, k);
      total := SaturatingAdd(total, rest[k]);
      rest := rest - {k};
    }
  }

  // ---------------------------------------------------------------- ledger

  datatype Ledger<M> = Ledger(pending: map<U64, U64>, resident: map<string, Resident<M>>, nextReservation: U64)

  datatype Resident<M> = Resident(model: M, footprint: U64)

  function Footprints<M>(resident: map<string, Resident<M>>): map<string, U64> {
    map id <- resident :: resident[id].footprint
  }

  /** What is committed exactly, loads in flight included. */
  ghost function Weight<M>(l: Ledger<M>): nat {
    Sum(l.pending) + Sum(Footprints(l.resident))
  }

  ghost function Committed<M>(l: Ledger<M>): Usage {
    Usage(|l.pending| + |l.resident|, |l.pending|, Min(Weight(l), U64_MAX))
  }

  /** The ledger holds no more than the limits say, counted exactly. */
  ghost predicate Within<M>(l: Ledger<M>, limits: Limits) {
    && |l.pending| + |l.resident| <= limits.maxInstances
    && (limits.maxWeightBytes.AtMost? ==> Weight(l) <= limits.maxWeightBytes.bytes)
  }

  /** The identifier the next reservation gets; the counter wraps. */
  function NextId<M>(l: Ledger<M>): U64 {
    if l.nextReservation == U64_MAX then 0 else l.nextReservation + 1
  }

  ghost function Reserve<M>(l: Ledger<M>, limits: Limits, footprint: U64): (Ledger<M>, Admission) {
    match Admits(limits, Committed(l), footprint)
    case Refused(refusal) => (l, Refused(refusal))
    case Admitted => (Ledger(l.pending[NextId(l) := footprint], l.resident, NextId(l)), Admitted)
  }

  function Release<M>(l: Ledger<M>, reservation: U64): Ledger<M> {
    l.(pending := l.pending - {reservation})
  }

  datatype Settlement = Kept | AlreadyReleased | AlreadyResident

  function Fulfilled<M>(l: Ledger<M>, reservation: U64, instance: string, model: M): (Ledger<M>, Settlement) {
    if reservation !in l.pending then (l, AlreadyReleased)
    else if instance in l.resident then (Release(l, reservation), AlreadyResident)
    else (Release(l, reservation).(resident := l.resident[instance := Resident(model, l.pending[reservation])]), Kept)
  }

  function Evict<M>(l: Ledger<M>, instance: string): Ledger<M> {
    l.(resident := l.resident - {instance})
  }

  // ------------------------------------------------------------- properties

  /**
   * The decision taken on the saturated total is the decision the exact total calls
   * for, but for one case: nothing asked for, the largest budget, and more than that
   * already committed.
   */
  lemma SaturationDecidesRightly<M>(limits: Limits, l: Ledger<M>, footprint: U64)
    requires limits.maxWeightBytes.AtMost?
    requires |l.pending| + |l.resident| < limits.maxInstances
    ensures (Admits(limits, Committed(l), footprint).Admitted?
             <==> Weight(l) + footprint <= limits.maxWeightBytes.bytes)
       <==> !(Weight(l) > U64_MAX && footprint == 0 && limits.maxWeightBytes.bytes == U64_MAX)
  {
  }

  /**
   * A refusal says which limit stands in the way, the count before the bytes, and in what
   * numbers: the capacity, or what was asked for, what is committed and the budget.
   */
  lemma RefusalsSayWhy<M>(l: Ledger<M>, limits: Limits, footprint: U64)
    ensures var (after, admission) := Reserve(l, limits, footprint);
            var exact := Sum(l.pending) + Sum(Footprints(l.resident));
            && (admission.Refused? ==> after == l)
            && (admission.Refused? && admission.refusal.Instances? <==>
                  |l.pending| + |l.resident| >= limits.maxInstances)
            && (admission.Refused? && admission.refusal.Instances? ==>
                  admission.refusal.capacity == limits.maxInstances)
            && (admission.Refused? && admission.refusal.WeightBytes? ==>
                  && admission.refusal.requested == footprint
                  && admission.refusal.committed == (if exact <= U64_MAX then exact else U64_MAX)
                  && limits.maxWeightBytes == AtMost(admission.refusal.limit)
                  && (exact + footprint > admission.refusal.limit))
  {
    hide Sum, Footprints;
  }

  lemma FootprintsOf<M>(resident: map<string, Resident<M>>, instance: string, r: Resident<M>)
    ensures Footprints(resident[instance := r]) == Footprints(resident)[instance := r.footprint]
    ensures Footprints(resident - {instance}) == Footprints(resident) - {instance}
  {
  }

  /** Reserving keeps the exact totals within the limits, and commits exactly what was asked for. */
  lemma ReserveWithin<M>(l: Ledger<M>, limits: Limits, footprint: U64)
    requires Within(l, limits) && NextId(l) !in l.pending
    ensures var (after, admission) := Reserve(l, limits, footprint);
            && Within(after, limits)
            && (admission.Admitted? ==>
                  && Weight(after) == Weight(l) + footprint
                  && |after.pending| == |l.pending| + 1 && after.resident == l.resident
                  && exists id: U64 :: id !in l.pending && after.pending == l.pending[id := footprint])
            && (admission.Admitted? <==>
                  && |l.pending| + |l.resident| < limits.maxInstances
                  && (limits.maxWeightBytes.AtMost? ==> Weight(l) + footprint <= limits.maxWeightBytes.bytes))
  {
    hide Sum;
    SumInsert(l.pending, NextId(l), footprint);
  }

  /** Releasing gives back exactly what the reservation claimed, and nothing when it is gone already. */
  lemma ReleaseGivesBack<M>(l: Ledger<M>, reservation: U64)
    ensures var after := Release(l, reservation);
            && (reservation in l.pending ==>
                  Weight(l) == Weight(after) + l.pending[reservation] && |l.pending| == |after.pending| + 1)
            && (reservation !in l.pending ==> after == l)
  {
    hide Sum;
    if reservation in l.pending {
      SumRemove(l.pending, reservation);
      assert |(l.pending - {reservation}).Keys| == |l.pending.Keys - {reservation}|;
    } else {
      assert l.pending - {reservation} == l.pending;
    }
  }

  /** Fulfilling moves the claim without changing what is committed; a model that is not kept gives its claim back. */
  lemma FulfilMoves<M>(l: Ledger<M>, reservation: U64, instance: string, model: M)
    requires reservation in l.pending
    ensures var (after, settlement) := Fulfilled(l, reservation, instance, model);
            && (settlement == Kept <==> instance !in l.resident)
            && settlement != AlreadyReleased
            && after.pending == l.pending - {reservation}
            && (settlement == Kept ==>
                  && Weight(after) == Weight(l)
                  && after.resident == l.resident[instance := Resident(model, l.pending[reservation])]
                  && |after.pending| + |after.resident| == |l.pending| + |l.resident|)
            && (settlement == AlreadyResident ==> after == Release(l, reservation))
  {
    hide Sum;
    ReleaseGivesBack(l, reservation);
    if instance !in l.resident {
      var r := Resident(model, l.pending[reservation]);
      FootprintsOf(l.resident, instance, r);
      SumInsert(Footprints(l.resident), instance, r.footprint);
      assert |l.resident[instance := r].Keys| == |l.resident.Keys + {instance}|;
    }
  }

  lemma FulfilNothing<M>(l: Ledger<M>, reservation: U64, instance: string, model: M)
    requires reservation !in l.pending
    ensures Fulfilled(l, reservation, instance, model) == (l, AlreadyReleased)
  {
  }

  lemma EvictGivesBack<M>(l: Ledger<M>, instance: string)
    requires instance in l.resident
    ensures var after := Evict(l, instance);
            && Weight(l) == Weight(after) + l.resident[instance].footprint
            && |l.resident| == |after.resident| + 1
            && after.resident == l.resident - {instance} && after.pending == l.pending
  {
    hide Sum;
    FootprintsOf(l.resident, instance, l.resident[instance]);
    SumRemove(Footprints(l.resident), instance);
    assert |(l.resident - {instance}).Keys| == |l.resident.Keys - {instance}|;
  }

  lemma ReleaseWithin<M>(l: Ledger<M>, limits: Limits, reservation: U64)
    requires Within(l, limits)
    ensures Within(Release(l, reservation), limits)
  {
    hide Weight;
    ReleaseGivesBack(l, reservation);
  }

  /** However a claim is settled, the ledger stays within its limits. */
  lemma FulfilWithin<M>(l: Ledger<M>, limits: Limits, reservation: U64, instance: string, model: M)
    requires Within(l, limits)
    ensures Within(Fulfilled(l, reservation, instance, model).0, limits)
  {
    hide Weight, Fulfilled, Release;
    if reservation in l.pending {
      FulfilMoves(l, reservation, instance, model);
      ReleaseWithin(l, limits, reservation);
    } else {
      FulfilNothing(l, reservation, instance, model);
    }
  }

  lemma EvictWithin<M>(l: Ledger<M>, limits: Limits, instance: string)
    requires Within(l, limits)
    ensures Within(Evict(l, instance), limits)
  {
    hide Weight;
    if instance in l.resident {
      EvictGivesBack(l, instance);
    } else {
      assert l.resident - {instance} == l.resident;
    }
  }

  // ---------------------------------------------------- the ledger as it runs

  /** The ledger behind its lock; each method is one lock-held section. */
  class Books<M(==)> {
    var pending: map<U64, U64>
    var resident: map<string, Resident<M>>
    var nextReservation: U64
    const limits: Limits

    constructor (limits: Limits)
      ensures Value() == Ledger(map[], map[], 0) && this.limits == limits
    {
      pending, resident, nextReservation := map[], map[], 0;
      this.limits := limits;
    }

    function Value(): Ledger<M>
      reads this
    {
      Ledger(pending, resident, nextReservation)
    }

    method CommittedUsage() returns (usage: Usage)
      ensures usage == Committed(Value())
      ensures usage.instances == |pending| + |resident| && usage.loading == |pending|
      ensures var exact := Sum(pending) + Sum(Footprints(resident));
              usage.weightBytes == if exact <= U64_MAX then exact else U64_MAX
    {
      var bytes := SaturatingFold(0, pending);
      bytes := SaturatingFold(bytes, Footprints(resident));
      usage := Usage(|pending| + |resident|, |pending|, bytes);
    }

    method Allocate() returns (id: U64)
      modifies this`nextReservation
      ensures id == NextId(old(Value())) == nextReservation
      ensures id == if old(nextReservation) == 0xFFFF_FFFF_FFFF_FFFF then 0 else old(nextReservation) + 1
    {
      nextReservation := if nextReservation == U64_MAX then 0 else nextReservation + 1;
      id := nextReservation;
    }

    /** Deciding and recording happen in one section. */
    method Claim(footprint: U64) returns (id: U64, r: Admission)
      modifies this
      ensures (Value(), r) == Reserve(old(Value()), limits, footprint)
      ensures r.Admitted? ==> id == nextReservation && id in pending && pending[id] == footprint
    {
      id := 0;
      var usage := CommittedUsage();
      r := Admits(limits, usage, footprint);
      if r.Admitted? {
        id := Allocate();
        pending := pending[id := footprint];
      }
    }

    /** What dropping an unsettled claim does. */
    method Unclaim(id: U64)
      modifies this`pending
      ensures Value() == Release(old(Value()), id)
    {
      pending := pending - {id};
    }

    method Settle(id: U64, instance: string, model: M) returns (r: Settlement)
      modifies this`pending, this`resident
      ensures (Value(), r) == Fulfilled(old(Value()), id, instance, model)
    {
      if id !in pending {
        return AlreadyReleased;
      }
      var footprint := pending[id];
      pending := pending - {id};
      if instance in resident {
        return AlreadyResident;
      }
      resident := resident[instance := Resident(model, footprint)];
      r := Kept;
    }

    method Remove(instance: string)
      modifies this`resident
      ensures Value() == Evict(old(Value()), instance)
    {
      resident := resident - {instance};
    }
  }

  /** A claim held for the whole of one load; it is given back when it goes, unless it was settled. */
  class Reserved<M(==)> {
    const books: Books<M>
    const id: U64
    var settled: bool

    constructor (books: Books<M>, id: U64)
      ensures this.books == books && this.id == id && !settled
    {
      this.books, this.id, settled := books, id, false;
    }

    /** Settles the claim; what follows, the claim going away, gives nothing back twice. */
    method Fulfil(instance: string, model: M) returns (r: Settlement)
      requires !settled
      modifies this, books
      ensures settled
      ensures (books.Value(), r) == Fulfilled(old(books.Value()), id, instance, model)
    {
      r := books.Settle(id, instance, model);
      settled := true;
      Drop();
    }

    method Drop()
      modifies books
      ensures books.Value() == if settled then old(books.Value()) else Release(old(books.Value()), id)
    {
      if !settled {
        books.Unclaim(id);
      }
    }
  }
}
