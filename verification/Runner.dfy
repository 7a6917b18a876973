/**
  Whole runs: a client of an unreliable server, and the runner that observes,
  plans, applies, verifies and retries. The server may fail any call, may list
  records in any order, and may carry out any prefix of a batch and still
  report an error. The ghost history holds the zone after every single change.
*/
module Runner {
  import opened Wrappers
  import Ordering
  import opened Names
  import opened Provider
  import opened Planner
  import opened Reconcile
  import opened Guarantees
  import opened Retry
  import opened Collect
  import opened Minimality
  import C = Cloudflare

  // ----- the client and the server behind it -----

  datatype Listed = Listed(id: Id, stored: C.ApiRecord)

  /** The server's answer to a listing by name: at least the records of that name, each once. */
  ghost predicate Answers(zone: C.Zone, name: string, records: seq<Listed>) {
    && (forall i, j :: 0 <= i < j < |records| ==> records[i].id != records[j].id)
    && (forall r :: r in records ==> C.At(zone, r.id) == Some(r.stored))
    && (forall id :: C.Managed(zone, id, name) ==> Listed(id, zone[id]) in records)
  }

  /** The zones passed when the first k steps are carried out one at a time. */
  ghost function Passed(zone: C.Zone, steps: seq<C.Step>, k: nat): (zones: seq<C.Zone>)
    requires k <= |steps|
    ensures |zones| == k && forall i :: 0 <= i < k ==> zones[i] == C.Commit(zone, steps[..i + 1])
  {
    seq(k, i requires 0 <= i < k => C.Commit(zone, steps[..i + 1]))
  }

  function Fault(failed: bool): nat {
    if failed then 1 else 0
  }

  /** The records read so far are those listed so far that belong to the host, each once. */
  ghost predicate Filtered(zone: C.Zone, name: string, listed: seq<Listed>, records: seq<Record>) {
    && DistinctIds(records)
    && (forall r :: r in records ==>
          C.Managed(zone, r.id, name) && r == C.ToRecord(r.id, zone[r.id]) && Listed(r.id, zone[r.id]) in listed)
    && (forall l :: l in listed && C.Managed(zone, l.id, name) ==> C.ToRecord(l.id, l.stored) in records)
  }

  lemma FilteredExtends(zone: C.Zone, name: string, listed: seq<Listed>, i: nat, records: seq<Record>)
    requires i < |listed| && Filtered(zone, name, listed[..i], records)
    requires forall l :: l in listed ==> C.At(zone, l.id) == Some(l.stored)
    requires forall j, k :: 0 <= j < k < |listed| ==> listed[j].id != listed[k].id
    ensures Filtered(zone, name, listed[..i + 1],
      if NormalizeApiName(listed[i].stored.name) != NormalizeApiName(name) then records
      else records + [C.ToRecord(listed[i].id, listed[i].stored)])
  {
    hide NormalizeApiName;
    var l := listed[i];
    assert l in listed && C.At(zone, l.id) == Some(l.stored);
    assert listed[..i + 1] == listed[..i] + [l];
    forall r | r in records ensures r.id != l.id {
      var j :| 0 <= j < i && listed[j] == Listed(r.id, zone[r.id]);
    }
  }

  class Client {
    var zone: C.Zone
    ghost var history: seq<C.Zone>
    /** How many calls the server has failed, and with what error the last time. */
    ghost var faults: nat
    ghost var lastFault: Error

    constructor (zone: C.Zone)
      ensures this.zone == zone && history == [] && faults == 0
    {
      this.zone := zone;
      history := [];
      faults := 0;
      lastFault := Leaf("");
    }

    method ListRecords(name: string) returns (r: Result<seq<Listed>, Error>)
      modifies this`faults, this`lastFault
      ensures r.Ok? ==> Answers(zone, name, r.value)
      ensures faults == old(faults) + Fault(r.Err?) && (r.Err? ==> r.error == lastFault)
    {
      if * {
        var err: Error := *;
        faults, lastFault := faults + 1, err;
        return Err(err);
      }
      var records: seq<Listed> := [];
      var left := zone.Keys;
      while left != {}
        invariant left <= zone.Keys
        invariant forall i, j :: 0 <= i < j < |records| ==> records[i].id != records[j].id
        invariant forall r :: r in records ==> r.id !in left && C.At(zone, r.id) == Some(r.stored)
        invariant forall id :: C.Managed(zone, id, name) && id !in left ==> Listed(id, zone[id]) in records
        decreases left
      {
        var id :| id in left;
        left := left - {id};
        var extra: bool := *;
        if extra || C.Managed(zone, id, name) {
          records := records + [Listed(id, zone[id])];
        }
      }
      return Ok(records);
    }

    /** The records whose normalised name is that asked for, under their provider name. */
    method ReadState(name: string) returns (r: Result<State, Error>)
      requires Canonical(name)
      modifies this`faults, this`lastFault
      ensures r.Ok? ==> C.Reads(zone, name, r.value)
      ensures faults == old(faults) + Fault(r.Err?) && (r.Err? ==> r.error == lastFault)
    {
      NameRoundTrip(name);
      var listed := ListRecords(NormalizeApiName(name));
      if listed.Err? {
        return Err(listed.error);
      }
      var records: seq<Record> := [];
      for i := 0 to |listed.value|
        invariant Filtered(zone, name, listed.value[..i], records)
        invariant faults == old(faults)
      {
        var record := listed.value[i];
        FilteredExtends(zone, name, listed.value, i, records);
        if NormalizeApiName(record.stored.name) != NormalizeApiName(name) {
          continue;
        }
        records := records + [C.ToRecord(record.id, record.stored)];
      }
      assert listed.value[..|listed.value|] == listed.value;
      return Ok(State(name, records));
    }

    /**
      The server mints ids for the posts and carries out deletes, patches and
      posts in that order, as far as it gets; it may report an error wherever it
      stops, even at the end, and success only at the end.
    */
    method SendBatch(batch: C.Batch) returns (err: Option<Error>, ghost minted: seq<Id>, ghost done: nat)
      modifies this
      ensures |minted| == |batch.posts| && C.Mintable(old(zone), minted)
      ensures var steps := C.BatchSteps(batch, minted);
        && done <= |steps|
        && (err.None? ==> done == |steps|)
        && zone == C.Commit(old(zone), steps[..done])
        && history == old(history) + Passed(old(zone), steps, done)
      ensures faults == old(faults) + Fault(err.Some?) && (err.Some? ==> err.value == lastFault)
    {
      hide C.BatchSteps, C.Advance, C.Mintable;
      ghost var before := zone;
      ghost var available := C.MintableExists(zone, |batch.posts|);
      var ids: seq<Id> :| |ids| == |batch.posts| && C.Mintable(zone, ids);
      minted := ids;
      var steps := C.BatchSteps(batch, ids);
      var stop: nat :| stop <= |steps|;
      for i := 0 to stop
        invariant zone == C.Commit(before, steps[..i])
        invariant history == old(history) + Passed(before, steps, i)
        invariant faults == old(faults)
      {
        assert steps[..i + 1][..i] == steps[..i];
        zone := C.Advance(zone, steps[i]);
        history := history + [zone];
      }
      done := stop;
      var failure: Error := *;
      var fails: bool := *;
      err := if fails || stop < |steps| then Some(failure) else None;
      faults := faults + Fault(err.Some?);
      if err.Some? {
        lastFault := err.value;
      }
    }

    method Apply(plan: Plan) returns (err: Option<Error>, ghost minted: seq<Id>, ghost done: nat)
      modifies this
      ensures plan == [] ==> err.None?
      ensures plan == [] || C.BatchOf(plan).Err? ==> zone == old(zone) && history == old(history)
      ensures C.BatchOf(plan).Err? ==> err.Some? || plan == []
      ensures plan != [] && C.BatchOf(plan).Ok? ==>
        var batch := C.BatchOf(plan).value;
        && |minted| == |batch.posts| && C.Mintable(old(zone), minted)
        && var steps := C.BatchSteps(batch, minted);
        && done <= |steps|
        && (err.None? ==> done == |steps|)
        && zone == C.Commit(old(zone), steps[..done])
        && history == old(history) + Passed(old(zone), steps, done)
      ensures C.BatchOf(plan).Ok? ==>
        faults == old(faults) + Fault(err.Some?) && (err.Some? ==> err.value == lastFault)
      ensures C.BatchOf(plan).Err? ==> faults == old(faults)
    {
      minted, done := [], 0;
      if |plan| == 0 {
        return None, [], 0;
      }
      var batch := C.BuildBatchParams(plan);
      if batch.Err? {
        return Some(Wrap("build Cloudflare batch request", Leaf("unsupported"))), [], 0;
      }
      err, minted, done := SendBatch(batch.value);
    }
  }

  // ----- what an attempt may do -----

  /**
    The answers of an attempt's probes, why it was cancelled if it was, and
    whether it went on to plan; a deletion probes nothing.
  */
  datatype Attempt =
    | Probed(ipv4: ProbeResult, ipv6: ProbeResult, cause: Option<Error>, collected: bool)
    | Deleting

  ghost function Answer(a: Attempt, t: RecordType): Option<ProbeResult> {
    if a.Deleting? then None else if t == A then Some(a.ipv4) else if t == AAAA then Some(a.ipv6) else None
  }

  /** The attempt went on to plan, and the probe of the family had succeeded. */
  ghost predicate Succeeded(a: Attempt, t: RecordType) {
    Answer(a, t).Some? && Answer(a, t).value.Ok? && a.collected
  }

  /** Moreover the probe had said that there is no address. */
  ghost predicate SaidNone(a: Attempt, t: RecordType) {
    Succeeded(a, t) && Answer(a, t).value.value.None?
  }

  /** The family's records. */
  ghost function Slice(zone: C.Zone, name: string, t: RecordType): C.Zone {
    map id | id in C.Family(zone, name, t) :: zone[id]
  }

  const BOTH := Families(true, true, false)

  ghost predicate FamilyFailClosed(start: C.Zone, now: C.Zone, name: string, t: RecordType, log: seq<Attempt>) {
    && ((forall a :: a in log ==> !Succeeded(a, t)) ==> Slice(now, name, t) == Slice(start, name, t))
    && (C.Family(start, name, t) != {} && (forall a :: a in log ==> !SaidNone(a, t)) ==> C.Family(now, name, t) != {})
  }

  /**
    A zone that a run with these attempts may pass, seen from where the run
    began: nothing outside the two address families of the host has changed, a
    family whose probe never succeeded has not changed, and a family that had
    records still has some unless a probe said that there is no address.
  */
  ghost predicate FailClosed(start: C.Zone, now: C.Zone, name: string, log: seq<Attempt>) {
    && Rest(now, name, BOTH) == Rest(start, name, BOTH)
    && forall t :: t == A || t == AAAA ==> FamilyFailClosed(start, now, name, t, log)
  }

  lemma SliceDecidesFamily(one: C.Zone, other: C.Zone, name: string, t: RecordType)
    requires Slice(one, name, t) == Slice(other, name, t)
    ensures C.Family(one, name, t) == C.Family(other, name, t)
  {
    assert Slice(one, name, t).Keys == C.Family(one, name, t);
    assert Slice(other, name, t).Keys == C.Family(other, name, t);
  }

  lemma FailClosedChains(
    start: C.Zone, middle: C.Zone, now: C.Zone, name: string, log: seq<Attempt>, a: Attempt)
    requires FailClosed(start, middle, name, log) && FailClosed(middle, now, name, [a])
    ensures FailClosed(start, now, name, log + [a])
  {
    forall t | t == A || t == AAAA ensures FamilyFailClosed(start, now, name, t, log + [a]) {
      assert FamilyFailClosed(start, middle, name, t, log) && FamilyFailClosed(middle, now, name, t, [a]);
      assert a in log + [a] && forall b :: b in log ==> b in log + [a];
      assert forall b :: b in [a] ==> b == a;
    }
  }

  lemma FailClosedWeakens(start: C.Zone, now: C.Zone, name: string, log: seq<Attempt>, a: Attempt)
    requires FailClosed(start, now, name, log)
    ensures FailClosed(start, now, name, log + [a])
  {
    forall t | t == A || t == AAAA ensures FamilyFailClosed(start, now, name, t, log + [a]) {
      assert FamilyFailClosed(start, now, name, t, log);
      assert forall b :: b in log ==> b in log + [a];
    }
  }

  lemma FailClosedRefl(zone: C.Zone, name: string, log: seq<Attempt>)
    ensures FailClosed(zone, zone, name, log)
  {
    forall t | t == A || t == AAAA ensures FamilyFailClosed(zone, zone, name, t, log) {}
  }

  // ----- a part of a reconciling batch is fail-closed -----

  ghost function DesiredOf(name: string, ttl: uint32, options: RecordOptions, a: Attempt): DesiredState
    requires a.Probed?
  {
    var o := Observation(a.ipv4, a.ipv6);
    DesiredState(name, ttl, o.ipv4, o.ipv6, options)
  }

  ghost function ObservedOf(a: Attempt): Families
    requires a.Probed?
  {
    Observation(a.ipv4, a.ipv6).Families()
  }

  lemma RestRefines(one: C.Zone, other: C.Zone, name: string, observed: Families, t: RecordType)
    requires Rest(one, name, observed) == Rest(other, name, observed) && (t == A || t == AAAA)
    ensures Rest(one, name, BOTH) == Rest(other, name, BOTH)
    ensures !Includes(observed, t) ==> Slice(one, name, t) == Slice(other, name, t)
  {
    forall id ensures C.At(Rest(one, name, BOTH), id) == C.At(Rest(other, name, BOTH), id) {
      assert C.At(Rest(one, name, observed), id) == C.At(Rest(other, name, observed), id);
      assert id in Rest(one, name, BOTH) ==> id in Rest(one, name, observed);
      assert id in Rest(other, name, BOTH) ==> id in Rest(other, name, observed);
    }
    C.SameZone(Rest(one, name, BOTH), Rest(other, name, BOTH));
    if !Includes(observed, t) {
      forall id ensures C.At(Slice(one, name, t), id) == C.At(Slice(other, name, t), id) {
        assert C.At(Rest(one, name, observed), id) == C.At(Rest(other, name, observed), id);
        assert id in Slice(one, name, t) ==> id in Rest(one, name, observed);
        assert id in Slice(other, name, t) ==> id in Rest(other, name, observed);
      }
      C.SameZone(Slice(one, name, t), Slice(other, name, t));
    }
  }

  /** What the two kinds of reconciling batch have in common at every point. */
  ghost predicate SafePart(zone: C.Zone, now: C.Zone, desired: DesiredState, observed: Families) {
    && Rest(now, desired.name, observed) == Rest(zone, desired.name, observed)
    && forall t | (t == A || t == AAAA) && Includes(observed, t) && desired.Address(t).Some? ::
         C.Family(zone, desired.name, t) == {} || C.Family(now, desired.name, t) != {}
  }

  lemma SafePartFailClosed(
    zone: C.Zone, now: C.Zone, name: string, ttl: uint32, options: RecordOptions, a: Attempt)
    requires a.Probed? && a.collected && SafePart(zone, now, DesiredOf(name, ttl, options, a), ObservedOf(a))
    ensures FailClosed(zone, now, name, [a])
  {
    var observed := ObservedOf(a);
    forall t | t == A || t == AAAA ensures FamilyFailClosed(zone, now, name, t, [a]) {
      assert a in [a];
      RestRefines(now, zone, name, observed, t);
      assert Includes(observed, t) <==> Succeeded(a, t);
      if !Succeeded(a, t) {
        SliceDecidesFamily(now, zone, name, t);
      }
    }
    RestRefines(now, zone, name, observed, A);
  }

  lemma BatchPostsCreates(plan: Plan)
    requires C.BatchOf(plan).Ok?
    ensures |C.BatchOf(plan).value.posts| == C.Creates(plan)
  {
    C.BatchHoldsPlan(plan, seq(C.Creates(plan), _ => Id("")));
  }

  lemma PlanPartSafe(
    zone: C.Zone, read: State, desired: DesiredState, observed: Families, plan: Plan, minted: seq<Id>, k: nat)
    requires Canonical(desired.name) && C.Reads(zone, desired.name, read)
    requires ObservedPlan(read, desired, observed) == Ok(plan) && C.BatchOf(plan).Ok?
    requires |minted| == |C.BatchOf(plan).value.posts| && C.Mintable(zone, minted)
    requires k <= |C.BatchSteps(C.BatchOf(plan).value, minted)|
    ensures SafePart(zone, C.Commit(zone, C.BatchSteps(C.BatchOf(plan).value, minted)[..k]), desired, observed)
  {
    var steps := C.BatchSteps(C.BatchOf(plan).value, minted);
    BatchPostsCreates(plan);
    BatchRepairsZone(zone, read, desired, observed, plan, minted);
    PrefixIsPart(steps, k);
    RestStays(zone, desired, observed, steps[..k]);
    forall t | (t == A || t == AAAA) && Includes(observed, t) && desired.Address(t).Some? &&
         C.Family(zone, desired.name, t) != {}
      ensures C.Family(C.Commit(zone, steps[..k]), desired.name, t) != {}
    {
      NoGap(zone, desired, observed, steps, steps[..k], t);
    }
  }

  lemma ForcePartSafe(
    zone: C.Zone, read: State, desired: DesiredState, observed: Families, k: nat)
    requires Canonical(desired.name) && C.Reads(zone, desired.name, read)
    requires ObservedPlan(read, desired, observed) == Ok([])
    ensures var batch := C.BatchOf(ForcePushPlan(read, desired, observed));
      && batch.Ok? && batch.value.posts == []
      && (k <= |C.BatchSteps(batch.value, [])| ==>
           SafePart(zone, C.Commit(zone, C.BatchSteps(batch.value, [])[..k]), desired, observed))
  {
    ForcePushSafe(zone, read, desired, observed, []);
    var steps := C.BatchSteps(C.BatchOf(ForcePushPlan(read, desired, observed)).value, []);
    if k <= |steps| {
      PrefixIsPart(steps, k);
      ForcePushSafe(zone, read, desired, observed, steps[..k]);
      assert forall s :: s in steps[..k] ==> s in steps && Refresh(zone, desired, observed, s);
      RestStays(zone, desired, observed, steps[..k]);
      var now := C.Commit(zone, steps[..k]);
      SameFamily(now, zone, desired, A);
      SameFamily(now, zone, desired, AAAA);
    }
  }

  /** The provider accepts every plan of an attempt, forced or not. */
  lemma PlanAccepted(
    zone: C.Zone, read: State, desired: DesiredState, observed: Families, planned: Plan)
    requires Canonical(desired.name) && C.Reads(zone, desired.name, read)
    requires ObservedPlan(read, desired, observed) == Ok(planned)
    ensures C.BatchOf(if planned == [] then ForcePushPlan(read, desired, observed) else planned).Ok?
  {
    if planned == [] {
      ForcePushSafe(zone, read, desired, observed, []);
    } else {
      var minted := C.MintableExists(zone, C.Creates(planned));
      PlanRepairsZone(zone, read, desired, observed, planned, minted);
    }
  }

  /** Carried out in full, it leaves the goal. */
  lemma PlanFulfils(
    zone: C.Zone, read: State, desired: DesiredState, observed: Families, planned: Plan, minted: seq<Id>)
    requires Canonical(desired.name) && C.Reads(zone, desired.name, read)
    requires desired.options.proxy.Some? && C.Family(zone, desired.name, CNAME) == {}
    requires ObservedPlan(read, desired, observed) == Ok(planned)
    requires var batch := C.BatchOf(if planned == [] then ForcePushPlan(read, desired, observed) else planned);
      batch.Ok? && |minted| == |batch.value.posts| && C.Mintable(zone, minted)
    ensures var plan := if planned == [] then ForcePushPlan(read, desired, observed) else planned;
      Satisfied(C.Commit(zone, C.BatchSteps(C.BatchOf(plan).value, minted)), desired, observed)
  {
    hide NormalizeApiName, C.Commit, C.Reads;
    if planned == [] {
      ForcePushSafe(zone, read, desired, observed, []);
      ForcePushSafe(zone, read, desired, observed,
                    C.BatchSteps(C.BatchOf(ForcePushPlan(read, desired, observed)).value, []));
    } else {
      BatchPostsCreates(planned);
      BatchRepairsZone(zone, read, desired, observed, planned, minted);
      Converges(zone, desired, observed, C.BatchSteps(C.BatchOf(planned).value, minted));
    }
  }

  // ----- the runner -----

  datatype RunOptions = RunOptions(dryRun: bool, forcePush: bool, delete: Families)

  datatype Config = Config(
    name: string, ttl: uint32, allowPartialFailure: bool, options: RecordOptions, retries: Policy)

  /** Not cancelled, and some probe succeeded, and both did unless partial failure is allowed. */
  ghost predicate Ready(cfg: Config, a: Attempt) {
    a.Deleting? || (a.cause.None? && Enough(a.ipv4, a.ipv6, cfg.allowPartialFailure))
  }

  /** An attempt plans only when it is ready to. */
  ghost predicate MayAct(cfg: Config, a: Attempt) {
    a.Probed? && a.collected ==> Ready(cfg, a)
  }

  /** Nothing outside the program stands in the way of a reconciliation. */
  ghost predicate Unobstructed(cfg: Config, zone: C.Zone, delete: Families) {
    delete == FAMILIES_NONE ==> cfg.options.proxy.Some? && C.Family(zone, cfg.name, CNAME) == {}
  }

  ghost function FaultSince(before: nat, now: nat, lastFault: Error): Option<Error> {
    if now > before then Some(lastFault) else None
  }

  /** What a failed attempt asks for: what the server's error asks for, or else the probes' errors. */
  ghost function Reason(cfg: Config, a: Attempt, fault: Option<Error>): Option<Duration> {
    if fault.Some? then MarkKept(fault.value)
    else if a.Deleting? then None
    else AskedByProbes(a.cause, a.ipv4, a.ipv6, cfg.allowPartialFailure)
  }

  /** The error asks for what the failure asks for. */
  ghost predicate RightReason(cfg: Config, a: Attempt, err: Option<Error>, fault: Option<Error>) {
    err.Some? ==> MarkKept(err.value) == Reason(cfg, a, fault)
  }

  /** Of each family that was probed, the host has just the address answered, or nothing; and it has no alias. */
  ghost predicate Answered(zone: C.Zone, cfg: Config, a: Attempt)
    requires a.Probed?
  {
    && (a.ipv4.Ok? || a.ipv6.Ok?)
    && (forall id :: !HostRecord(zone, id, cfg.name, CNAME))
    && (a.ipv4.Ok? ==> HoldsExactly(zone, cfg.name, A, cfg.ttl, cfg.options, a.ipv4.value))
    && (a.ipv6.Ok? ==> HoldsExactly(zone, cfg.name, AAAA, cfg.ttl, cfg.options, a.ipv6.value))
  }

  lemma AnsweredMeans(zone: C.Zone, cfg: Config, a: Attempt)
    requires Canonical(cfg.name) && a.Probed?
    ensures Satisfied(zone, DesiredOf(cfg.name, cfg.ttl, cfg.options, a), ObservedOf(a)) <==> Answered(zone, cfg, a)
  {
    hide HoldsExactly, Satisfied;
    SatisfiedMeans(zone, DesiredOf(cfg.name, cfg.ttl, cfg.options, a), ObservedOf(a));
  }

  /** How many addresses the probes have answered. */
  ghost function Addresses(a: Attempt): nat
    requires a.Probed?
  {
    (if a.ipv4.Ok? && a.ipv4.value.Some? then 1 else 0) + if a.ipv6.Ok? && a.ipv6.value.Some? then 1 else 0
  }

  /**
    The changes an attempt may make: a deletion, one for each selected record; a
    reconciliation, its cost; and where nothing is to be done, none at all, or by
    force one for each address.
  */
  ghost function Due(zone: C.Zone, cfg: Config, options: RunOptions, a: Attempt): nat {
    if a.Deleting? then
      (if options.delete.a then |C.Family(zone, cfg.name, A)| else 0) +
        if options.delete.aaaa then |C.Family(zone, cfg.name, AAAA)| else 0
    else if Answered(zone, cfg, a) then if options.forcePush then Addresses(a) else 0
    else TotalCost(zone, DesiredOf(cfg.name, cfg.ttl, cfg.options, a), ObservedOf(a))
  }

  /** So many changes are right: all that are due after a success, none in a dry run or before planning. */
  ghost predicate RightNumber(
    zone: C.Zone, cfg: Config, options: RunOptions, a: Attempt, err: Option<Error>, sent: nat)
  {
    && sent <= Due(zone, cfg, options, a)
    && (err.None? && !options.dryRun ==> sent == Due(zone, cfg, options, a))
    && (options.dryRun || (a.Probed? && !a.collected) ==> sent == 0)
  }

  /** One attempt of a run: the zone before and after it, the changes between, the server's error, its own. */
  datatype Event = Event(
    begun: C.Zone, ended: C.Zone, sent: nat, fault: Option<Error>, error: Option<Error>)

  ghost predicate RightAttempt(cfg: Config, options: RunOptions, a: Attempt, e: Event) {
    && RightNumber(e.begun, cfg, options, a, e.error, e.sent)
    && RightReason(cfg, a, e.error, e.fault)
    && (e.sent == 0 ==> e.ended == e.begun)
    && (a.Probed? && e.error.None? && !options.dryRun ==> Answered(e.ended, cfg, a))
    && (a.Probed? && !options.forcePush && Answered(e.begun, cfg, a) ==> e.sent == 0)
  }

  /** The server's error is recorded exactly for the attempts in which it failed a call. */
  ghost predicate Blamed(events: seq<Event>, faults: seq<nat>) {
    |events| == |faults| && forall k :: 0 <= k < |faults| ==> (events[k].fault.Some? <==> faults[k] > 0)
  }

  lemma BlamedAdd(events: seq<Event>, faults: seq<nat>, e: Event, more: nat)
    requires Blamed(events, faults) && (e.fault.Some? <==> more > 0)
    ensures Blamed(events + [e], faults + [more])
  {
  }

  ghost function Changes(events: seq<Event>): nat {
    if events == [] then 0 else Changes(events[..|events| - 1]) + events[|events| - 1].sent
  }

  ghost function Reached(start: C.Zone, events: seq<Event>): C.Zone {
    if events == [] then start else events[|events| - 1].ended
  }

  /** The attempts follow each other from one zone to the other, and each is right. */
  ghost predicate Recorded(
    cfg: Config, options: RunOptions, start: C.Zone, zone: C.Zone, attempts: seq<Attempt>, events: seq<Event>)
  {
    && |events| == |attempts|
    && (forall k :: 0 <= k < |events| ==> RightAttempt(cfg, options, attempts[k], events[k]))
    && (forall k :: 0 <= k < |events| ==> events[k].begun == Reached(start, events[..k]))
    && zone == Reached(start, events)
  }

  lemma AttemptAnswers(cfg: Config, options: RunOptions, a: Attempt, e: Event)
    requires RightAttempt(cfg, options, a, e)
    ensures a.Probed? && e.error.None? && !options.dryRun ==> Answered(e.ended, cfg, a)
  {
  }

  /** The host has no record of a selected type. */
  ghost predicate Gone(zone: C.Zone, name: string, delete: Families) {
    && (delete.a ==> forall id :: !HostRecord(zone, id, name, A))
    && (delete.aaaa ==> forall id :: !HostRecord(zone, id, name, AAAA))
  }

  lemma RecordedLength(
    cfg: Config, options: RunOptions, start: C.Zone, zone: C.Zone, attempts: seq<Attempt>, events: seq<Event>)
    requires Recorded(cfg, options, start, zone, attempts, events)
    ensures |events| == |attempts|
  {
  }

  lemma RecordedChains(
    cfg: Config, options: RunOptions, start: C.Zone, attempts: seq<Attempt>, events: seq<Event>, a: Attempt, e: Event)
    requires Recorded(cfg, options, start, e.begun, attempts, events) && RightAttempt(cfg, options, a, e)
    ensures Recorded(cfg, options, start, e.ended, attempts + [a], events + [e])
  {
    hide RightAttempt;
    var n, all, more := |events|, attempts + [a], events + [e];
    forall k | 0 <= k < |more| ensures RightAttempt(cfg, options, all[k], more[k]) {
      if k < n {
        assert all[k] == attempts[k] && more[k] == events[k];
      }
    }
    forall k | 0 <= k < |more| ensures more[k].begun == Reached(start, more[..k]) {
      assert more[..k] == events[..k];
      if k < n {
        assert more[k] == events[k];
      } else {
        assert events[..k] == events;
      }
    }
  }

  ghost predicate SomeRightWait(p: Policy, attempt: int, asked: Duration, wait: Duration)
    requires attempt >= 1
  {
    exists random :: RightWait(p, attempt, asked, wait, random)
  }

  ghost predicate RightPause(p: Policy, attempt: int, err: Option<Error>, wait: Duration)
    requires attempt >= 1
  {
    && err.Some? && Marks(err.value) != []
    && SomeRightWait(p, attempt, Marks(err.value)[0], wait)
  }

  /** Each wait follows a failed attempt whose error holds a mark, and is right for the attempt and the mark. */
  ghost predicate RightWaits(p: Policy, events: seq<Event>, slept: seq<Duration>) {
    && |slept| <= |events|
    && forall k :: 0 <= k < |slept| ==> RightPause(p, k + 1, events[k].error, slept[k])
  }

  lemma PauseIsRight(p: Policy, attempt: int, err: Option<Error>, asked: Duration, wait: Duration)
    requires attempt >= 1 && err.Some? && Marks(err.value) != [] && asked == Marks(err.value)[0]
    requires SomeRightWait(p, attempt, asked, wait)
    ensures RightPause(p, attempt, err, wait)
  {
  }

  ghost function Sum(counts: seq<nat>): nat {
    if counts == [] then 0 else Sum(counts[..|counts| - 1]) + counts[|counts| - 1]
  }

  /** An attempt that had to be given up met a fault of the server, or was not ready. */
  ghost predicate Excused(cfg: Config, attempts: seq<Attempt>, faults: seq<nat>) {
    |faults| == |attempts| && forall k :: 0 <= k < |attempts| ==> faults[k] > 0 || !Ready(cfg, attempts[k])
  }

  /** Each wait is within the policy's limits. */
  ghost predicate WaitsWithin(p: Policy, waits: seq<Duration>) {
    forall w :: w in waits ==>
      Normalized(p).initialDelay as int / 2 <= w as int && w <= Normalized(p).maxDelay
  }

  lemma NothingExcused(cfg: Config)
    ensures WaitsWithin(cfg.retries, []) && Blamed([], [])
    ensures forall options, zone :: Recorded(cfg, options, zone, zone, [], [])
    ensures Excused(cfg, [], []) && Sum([]) == 0 && Changes([]) == 0 && RightWaits(cfg.retries, [], [])
  {
  }

  lemma RightWaitsAdd(p: Policy, events: seq<Event>, slept: seq<Duration>, e: Event)
    requires RightWaits(p, events, slept) && |slept| == |events|
    ensures RightWaits(p, events + [e], slept)
    ensures forall wait :: RightPause(p, |events| + 1, e.error, wait) ==> RightWaits(p, events + [e], slept + [wait])
  {
    hide RightPause;
  }

  lemma ChangesAdd(events: seq<Event>, e: Event)
    ensures Changes(events + [e]) == Changes(events) + e.sent
  {
    assert (events + [e])[..|events|] == events;
  }

  lemma RefreshLength(zone: C.Zone, desired: DesiredState, observed: Families, t: RecordType, ops: Plan)
    requires Refreshes(zone, desired, observed, t, ops)
    ensures |ops| == if Includes(observed, t) && desired.Address(t).Some? then 1 else 0
  {
  }

  lemma ForcePushLength(zone: C.Zone, read: State, cfg: Config, a: Attempt)
    requires Canonical(cfg.name) && C.Reads(zone, cfg.name, read) && a.Probed?
    requires ObservedPlan(read, DesiredOf(cfg.name, cfg.ttl, cfg.options, a), ObservedOf(a)) == Ok([])
    ensures |ForcePushPlan(read, DesiredOf(cfg.name, cfg.ttl, cfg.options, a), ObservedOf(a))| == Addresses(a)
  {
    hide ForcePushFamily, ObservedPlan, Refreshes, C.Reads, Canonical, Refresh;
    var desired, observed := DesiredOf(cfg.name, cfg.ttl, cfg.options, a), ObservedOf(a);
    ForcePushSafe(zone, read, desired, observed, []);
    RefreshLength(zone, desired, observed, A, ForcePushFamily(read, desired, observed, A));
    RefreshLength(zone, desired, observed, AAAA, ForcePushFamily(read, desired, observed, AAAA));
  }

  /** The plan of an attempt, forced or not, makes as many changes as are due. */
  lemma PlanDue(zone: C.Zone, read: State, cfg: Config, options: RunOptions, a: Attempt, planned: Plan)
    requires Canonical(cfg.name) && C.Reads(zone, cfg.name, read) && a.Probed?
    requires ObservedPlan(read, DesiredOf(cfg.name, cfg.ttl, cfg.options, a), ObservedOf(a)) == Ok(planned)
    ensures planned == [] <==> Answered(zone, cfg, a)
    ensures var forced := ForcePushPlan(read, DesiredOf(cfg.name, cfg.ttl, cfg.options, a), ObservedOf(a));
      Due(zone, cfg, options, a) ==
        if planned != [] then |planned| else if options.forcePush then |forced| else 0
  {
    hide ForcePushPlan, ObservedPlan, Answered, Satisfied, TotalCost, C.Reads;
    var desired, observed := DesiredOf(cfg.name, cfg.ttl, cfg.options, a), ObservedOf(a);
    EmptyPlanDecides(zone, read, desired, observed);
    AnsweredMeans(zone, cfg, a);
    if planned == [] {
      ForcePushLength(zone, read, cfg, a);
    } else {
      PlanLength(zone, read, desired, observed, planned);
    }
  }

  lemma DeletePlanLength(zone: C.Zone, name: string, read: State, selection: Families, plan: Plan)
    requires C.Reads(zone, name, read) && DeletePlan(read, selection) == Ok(plan)
    ensures |plan| == (if selection.a then |C.Family(zone, name, A)| else 0) +
      if selection.aaaa then |C.Family(zone, name, AAAA)| else 0
  {
    ReadFamily(zone, name, read, A);
    ReadFamily(zone, name, read, AAAA);
    Ordering.SortMembers(OperationLess,
      Deletes(SelectedRecords(read, selection, A)) + Deletes(SelectedRecords(read, selection, AAAA)));
  }

  lemma StepsLength(plan: Plan, minted: seq<Id>)
    requires C.Creates(plan) <= |minted|
    ensures |C.PlanSteps(plan, minted)| == |plan|
  {
    if plan != [] {
      C.PlanStepAt(plan, minted, 0);
    }
  }

  lemma BatchLength(plan: Plan, minted: seq<Id>)
    requires C.BatchOf(plan).Ok? && |minted| == |C.BatchOf(plan).value.posts|
    ensures |C.BatchSteps(C.BatchOf(plan).value, minted)| == |plan|
  {
    hide C.BatchOf, C.BatchSteps, C.PlanSteps;
    BatchPostsCreates(plan);
    C.BatchHoldsPlan(plan, minted);
    Ordering.SameMembers(C.BatchSteps(C.BatchOf(plan).value, minted), C.PlanSteps(plan, minted));
    StepsLength(plan, minted);
  }

  lemma NothingCommitted(zone: C.Zone, steps: seq<C.Step>)
    ensures C.Commit(zone, steps[..0]) == zone
  {
  }

  lemma ExcusedChains(cfg: Config, attempts: seq<Attempt>, faults: seq<nat>, last: Attempt, more: nat)
    requires |faults| == |attempts|
    ensures Sum(faults + [more]) == Sum(faults) + more
    ensures (attempts + [last])[..|attempts|] == attempts && (faults + [more])[..|faults|] == faults
    ensures Excused(cfg, attempts, faults) && Excused(cfg, [last], [more]) ==>
      Excused(cfg, attempts + [last], faults + [more])
  {
    assert (faults + [more])[..|faults|] == faults;
    if Excused(cfg, [last], [more]) {
      assert [more][0] > 0 || !Ready(cfg, [last][0]);
    }
  }

  lemma AliasesStay(start: C.Zone, now: C.Zone, name: string)
    requires Rest(now, name, BOTH) == Rest(start, name, BOTH)
    ensures C.Family(now, name, CNAME) == C.Family(start, name, CNAME)
  {
    var one, other := Rest(now, name, BOTH), Rest(start, name, BOTH);
    forall id ensures id in C.Family(now, name, CNAME) <==> id in C.Family(start, name, CNAME) {
      assert C.At(one, id) == C.At(other, id);
      assert id in C.Family(now, name, CNAME) ==> id in one;
      assert id in C.Family(start, name, CNAME) ==> id in other;
    }
  }

  /** A reconciliation leaves aliases alone, so an attempt meets one only if the run did. */
  lemma StaysUnobstructed(cfg: Config, start: C.Zone, now: C.Zone, log: seq<Attempt>)
    requires FailClosed(start, now, cfg.name, log)
    ensures forall delete :: Unobstructed(cfg, now, delete) <==> Unobstructed(cfg, start, delete)
  {
    AliasesStay(start, now, cfg.name);
  }

  ghost function Total(waits: seq<Duration>): int {
    if waits == [] then 0 else Total(waits[..|waits| - 1]) + waits[|waits| - 1] as int
  }

  lemma {:induction false} TotalBounded(p: Policy, waits: seq<Duration>)
    requires WaitsWithin(p, waits)
    ensures Total(waits) <= |waits| * Normalized(p).maxDelay as int
  {
    if waits != [] {
      var front := waits[..|waits| - 1];
      forall w | w in front ensures w in waits {}
      TotalBounded(p, front);
      assert waits[|waits| - 1] in waits;
      assert |waits| * Normalized(p).maxDelay as int
        == (|waits| - 1) * Normalized(p).maxDelay as int + Normalized(p).maxDelay as int;
    }
  }

  lemma WaitsWithinAdd(p: Policy, waits: seq<Duration>, wait: Duration)
    requires WaitsWithin(p, waits) && WaitsWithin(p, [wait])
    ensures WaitsWithin(p, waits + [wait])
  {
    assert wait in [wait];
  }

  /** Every zone held since the given point of the history satisfies what the attempts allow. */
  ghost predicate HistoryFailClosed(
    start: C.Zone, history: seq<C.Zone>, from: nat, name: string, log: seq<Attempt>)
  {
    from <= |history| && forall i :: from <= i < |history| ==> FailClosed(start, history[i], name, log)
  }

  ghost predicate HistoryKeepsRest(start: C.Zone, history: seq<C.Zone>, from: nat, name: string, selection: Families) {
    && from <= |history|
    && forall i :: from <= i < |history| ==> Rest(history[i], name, selection) == Rest(start, name, selection)
  }

  lemma ProductGrows(a: nat, b: nat, d: nat)
    requires a <= b
    ensures a * d <= b * d
  {
    assert b * d == a * d + (b - a) * d;
  }

  lemma TotalWithin(p: Policy, waits: seq<Duration>)
    requires WaitsWithin(p, waits) && |waits| < Normalized(p).maxAttempts as int
    ensures Total(waits) <= (Normalized(p).maxAttempts as int - 1) * Normalized(p).maxDelay as int
  {
    TotalBounded(p, waits);
    ProductGrows(|waits|, Normalized(p).maxAttempts as int - 1, Normalized(p).maxDelay as int);
  }

  class Runner {
    const cfg: Config
    const client: Client
    ghost var log: seq<Attempt>
    ghost var waits: seq<Duration>

    constructor (cfg: Config, client: Client)
      requires Canonical(cfg.name)
      ensures Valid() && this.cfg == cfg && this.client == client && log == [] && waits == []
    {
      this.cfg := cfg;
      this.client := client;
      log := [];
      waits := [];
    }

    /** The configuration holds a name that its own normalisation has accepted. */
    ghost predicate Valid() {
      Canonical(cfg.name)
    }

    /** A probe may answer anything at any time. */
    method Lookup() returns (r: ProbeResult)
    {
      r := *;
    }

    /** One round of observation; by Collect.CollectIgnoresInterleaving its parts may be run in this order. */
    method Observe() returns (outcome: Outcome, ghost attempt: Attempt)
      requires Valid()
      modifies client`faults, client`lastFault
      ensures attempt.Probed? && attempt.collected == outcome.Collected?
      ensures client.faults >= old(client.faults)
      ensures attempt.collected <==> Ready(cfg, attempt) && client.faults == old(client.faults)
      ensures outcome.Failed? ==>
        MarkKept(outcome.error) == Reason(cfg, attempt, FaultSince(old(client.faults), client.faults, client.lastFault))
      ensures outcome.Collected? ==>
        && outcome.observed == Observation(attempt.ipv4, attempt.ipv6)
        && C.Reads(client.zone, cfg.name, outcome.current)
    {
      var ipv4 := Lookup();
      var ipv6 := Lookup();
      var read := client.ReadState(cfg.name);
      var cancelled: bool := *;
      var parentCause: Error := *;
      var inputs := Inputs(ipv4, ipv6, read, parentCause, cfg.allowPartialFailure);
      outcome := CollectOutcome(inputs, cancelled);
      FailureMeans(inputs, cancelled);
      attempt := Probed(ipv4, ipv6, if cancelled then Some(parentCause) else None, outcome.Collected?);
    }

    /** The apply call of a reconciliation, with what it leaves of the zone at every point. */
    method ApplyPlan(
      plan: Plan, ghost planned: Plan, ghost current: State, ghost desired: DesiredState, ghost families: Families,
      ghost attempt: Attempt) returns (err: Option<Error>)
      requires Valid() && attempt.Probed? && attempt.collected && plan != []
      requires desired == DesiredOf(cfg.name, cfg.ttl, cfg.options, attempt) && families == ObservedOf(attempt)
      requires C.Reads(client.zone, cfg.name, current) && ObservedPlan(current, desired, families) == Ok(planned)
      requires plan == if planned == [] then ForcePushPlan(current, desired, families) else planned
      modifies client
      ensures |client.history| >= |old(client.history)|
      ensures client.history[..|old(client.history)|] == old(client.history)
      ensures HistoryFailClosed(old(client.zone), client.history, |old(client.history)|, cfg.name, [attempt])
      ensures FailClosed(old(client.zone), client.zone, cfg.name, [attempt])
      ensures client.faults == old(client.faults) + Fault(err.Some?) && (err.Some? ==> err.value == client.lastFault)
      ensures |client.history| <= |old(client.history)| + |plan|
      ensures |client.history| == |old(client.history)| ==> client.zone == old(client.zone)
      ensures err.None? ==> |client.history| == |old(client.history)| + |plan|
      ensures err.None? && Unobstructed(cfg, old(client.zone), FAMILIES_NONE) ==>
        Satisfied(client.zone, desired, families)
    {
      hide C.Commit, C.BatchOf, FailClosed, ObservedPlan, ForcePushPlan, C.Mintable;
      ghost var before, n := client.zone, |client.history|;
      FailClosedRefl(before, cfg.name, [attempt]);
      PlanAccepted(before, current, desired, families, planned);
      ghost var minted, done;
      err, minted, done := client.Apply(plan);
      ghost var steps := C.BatchSteps(C.BatchOf(plan).value, minted);
      BatchLength(plan, minted);
      NothingCommitted(before, steps);
      forall k: nat | k <= |steps| ensures FailClosed(before, C.Commit(before, steps[..k]), cfg.name, [attempt]) {
        if planned == [] {
          ForcePartSafe(before, current, desired, families, k);
        } else {
          PlanPartSafe(before, current, desired, families, plan, minted, k);
        }
        SafePartFailClosed(before, C.Commit(before, steps[..k]), cfg.name, cfg.ttl, cfg.options, attempt);
      }
      forall i | n <= i < |client.history| ensures FailClosed(before, client.history[i], cfg.name, [attempt]) {
        assert client.history[i] == C.Commit(before, steps[..i - n + 1]);
      }
      if err.None? && Unobstructed(cfg, before, FAMILIES_NONE) {
        assert steps[..|steps|] == steps;
        PlanFulfils(before, current, desired, families, planned, minted);
      }
    }

    /** Applies a plan, reads the records again and verifies them. */
    method Update(
      plan: Plan, ghost planned: Plan, ghost current: State, desired: DesiredState, families: Families,
      ghost attempt: Attempt) returns (err: Option<Error>)
      requires Valid() && attempt.Probed? && attempt.collected && plan != []
      requires desired == DesiredOf(cfg.name, cfg.ttl, cfg.options, attempt) && families == ObservedOf(attempt)
      requires C.Reads(client.zone, cfg.name, current) && ObservedPlan(current, desired, families) == Ok(planned)
      requires plan == if planned == [] then ForcePushPlan(current, desired, families) else planned
      modifies client
      ensures |client.history| >= |old(client.history)|
      ensures client.history[..|old(client.history)|] == old(client.history)
      ensures HistoryFailClosed(old(client.zone), client.history, |old(client.history)|, cfg.name, [attempt])
      ensures FailClosed(old(client.zone), client.zone, cfg.name, [attempt])
      ensures err.None? ==> Satisfied(client.zone, desired, families)
      ensures client.faults >= old(client.faults)
      ensures err.Some? ==>
        MarkKept(err.value) == if client.faults > old(client.faults) then MarkKept(client.lastFault) else None
      ensures |client.history| == |old(client.history)| ==> client.zone == old(client.zone)
      ensures Unobstructed(cfg, old(client.zone), FAMILIES_NONE) ==> err.None? || client.faults > old(client.faults)
      ensures |client.history| <= |old(client.history)| + |plan|
      ensures err.None? ==> |client.history| == |old(client.history)| + |plan|
    {
      hide FailClosed, Satisfied, ObservedPlan, ForcePushPlan, C.Reads, Canonical;
      err := ApplyPlan(plan, planned, current, desired, families, attempt);
      if err.Some? {
        WrapKeepsMark("apply update", err.value);
        return Some(Wrap("apply update", err.value));
      }
      var verified := client.ReadState(cfg.name);
      if verified.Err? {
        WrapKeepsMark("verify updated records", verified.error);
        return Some(Wrap("verify updated records", verified.error));
      }
      var problem := VerifyObservedAddressState(verified.value, desired, families);
      VerifierDecides(client.zone, verified.value, desired, families);
      if problem.Some? {
        return Some(Leaf("verification"));
      }
      return None;
    }

    method ReconcileOnce(options: RunOptions) returns (err: Option<Error>)
      requires Valid()
      modifies client, this`log
      ensures |log| == |old(log)| + 1 && log[..|old(log)|] == old(log)
      ensures log[|old(log)|].Probed? && MayAct(cfg, log[|old(log)|])
      ensures |client.history| >= |old(client.history)|
      ensures client.history[..|old(client.history)|] == old(client.history)
      ensures HistoryFailClosed(old(client.zone), client.history, |old(client.history)|, cfg.name, [log[|old(log)|]])
      ensures FailClosed(old(client.zone), client.zone, cfg.name, [log[|old(log)|]])
      ensures options.dryRun ==> client.zone == old(client.zone) && client.history == old(client.history)
      ensures err.None? && !options.dryRun ==>
        Satisfied(client.zone, DesiredOf(cfg.name, cfg.ttl, cfg.options, log[|old(log)|]), ObservedOf(log[|old(log)|]))
      ensures client.faults >= old(client.faults)
      ensures Unobstructed(cfg, old(client.zone), FAMILIES_NONE) ==>
        err.None? || Excused(cfg, [log[|old(log)|]], [client.faults - old(client.faults)])
      ensures err.None? && !options.dryRun ==> Answered(client.zone, cfg, log[|old(log)|])
      ensures Answered(old(client.zone), cfg, log[|old(log)|]) && !options.forcePush ==>
        client.history == old(client.history)
      ensures RightNumber(old(client.zone), cfg, options, log[|old(log)|], err,
        |client.history| - |old(client.history)|)
      ensures |client.history| == |old(client.history)| ==> client.zone == old(client.zone)
      ensures RightReason(cfg, log[|old(log)|], err, FaultSince(old(client.faults), client.faults, client.lastFault))
    {
      hide Answered, Satisfied, FailClosed, C.Reads, VerifyObservedAddressState, CnameTargets, Due, ForcePushPlan;
      var outcome, attempt := Observe();
      log := log + [attempt];
      FailClosedRefl(client.zone, cfg.name, [attempt]);
      if outcome.Failed? {
        return Some(outcome.error);
      }
      var observed := outcome.observed;
      var current := outcome.current;
      var desired := DesiredState(cfg.name, cfg.ttl, observed.ipv4, observed.ipv6, cfg.options);
      var families := observed.Families();
      var planned := BuildObservedAddressPlan(current, desired, families);
      CnameRead(client.zone, cfg.name, current);
      if planned.Err? {
        return Some(Leaf("plan"));
      }
      var plan := planned.value;
      EmptyPlanDecides(client.zone, current, desired, families);
      AnsweredMeans(client.zone, cfg, attempt);
      PlanDue(client.zone, current, cfg, options, attempt, plan);
      if |plan| == 0 {
        if options.forcePush {
          plan := ForcePushPlan(current, desired, families);
          if |plan| == 0 {
            return None;
          }
        } else {
          return None;
        }
      }
      if options.dryRun {
        return None;
      }
      err := Update(plan, planned.value, current, desired, families, attempt);
      AnsweredMeans(client.zone, cfg, attempt);
    }

    /** The apply call of a deletion, with what it leaves of the zone at every point. */
    method ApplyDeletion(plan: Plan, ghost current: State, ghost delete: Families) returns (err: Option<Error>)
      requires C.Reads(client.zone, cfg.name, current) && DeletePlan(current, delete) == Ok(plan) && plan != []
      modifies client
      ensures |client.history| >= |old(client.history)|
      ensures client.history[..|old(client.history)|] == old(client.history)
      ensures HistoryKeepsRest(old(client.zone), client.history, |old(client.history)|, cfg.name, delete)
      ensures Rest(client.zone, cfg.name, delete) == Rest(old(client.zone), cfg.name, delete)
      ensures err.None? ==> Emptied(client.zone, cfg.name, delete)
      ensures client.faults == old(client.faults) + Fault(err.Some?) && (err.Some? ==> err.value == client.lastFault)
      ensures |client.history| <= |old(client.history)| + |plan|
      ensures |client.history| == |old(client.history)| ==> client.zone == old(client.zone)
      ensures err.None? ==> |client.history| == |old(client.history)| + |plan|
    {
      hide C.Managed, C.Commit, C.BatchSteps, C.BatchOf, Ordering.Sort, Deletes;
      ghost var before, n := client.zone, |client.history|;
      ghost var minted, done;
      err, minted, done := client.Apply(plan);
      DeletePlanClears(before, cfg.name, current, delete, plan);
      ghost var steps := C.BatchSteps(C.BatchOf(plan).value, minted);
      BatchLength(plan, minted);
      NothingCommitted(before, steps);
      assert steps[..|steps|] == steps;
      DeletionClears(before, cfg.name, delete, steps, []);
      forall k: nat | k <= |steps|
        ensures Rest(C.Commit(before, steps[..k]), cfg.name, delete) == Rest(before, cfg.name, delete)
      {
        PrefixIsPart(steps, k);
        DeletionClears(before, cfg.name, delete, steps, steps[..k]);
      }
      forall i | n <= i < |client.history|
        ensures Rest(client.history[i], cfg.name, delete) == Rest(before, cfg.name, delete)
      {
        assert client.history[i] == C.Commit(before, steps[..i - n + 1]);
      }
    }

    method DeleteOnce(options: RunOptions) returns (err: Option<Error>)
      requires Valid()
      modifies client, this`log
      ensures log == old(log) + [Deleting]
      ensures |client.history| >= |old(client.history)|
      ensures client.history[..|old(client.history)|] == old(client.history)
      ensures HistoryKeepsRest(old(client.zone), client.history, |old(client.history)|, cfg.name, options.delete)
      ensures Rest(client.zone, cfg.name, options.delete) == Rest(old(client.zone), cfg.name, options.delete)
      ensures options.dryRun ==> client.zone == old(client.zone) && client.history == old(client.history)
      ensures err.None? && !options.dryRun ==> Emptied(client.zone, cfg.name, options.delete)
      ensures client.faults >= old(client.faults)
      ensures client.faults == old(client.faults) && options.delete != FAMILIES_NONE ==> err.None?
      ensures options.delete != FAMILIES_NONE ==>
        RightNumber(old(client.zone), cfg, options, Deleting, err, |client.history| - |old(client.history)|)
      ensures |client.history| == |old(client.history)| ==> client.zone == old(client.zone)
      ensures RightReason(cfg, Deleting, err, FaultSince(old(client.faults), client.faults, client.lastFault))
    {
      hide C.Managed, C.Commit, C.BatchSteps, C.BatchOf, Ordering.Sort, Deletes, VerifyDeletedTypes, C.Family, Emptied;
      hide C.Reads, SelectedRecords, TotalCost, Answered;
      log := log + [Deleting];
      var current := client.ReadState(cfg.name);
      if current.Err? {
        WrapKeepsMark("read current provider state", current.error);
        return Some(Wrap("read current provider state", current.error));
      }
      var planned := BuildDeletePlan(current.value, options.delete);
      if planned.Err? {
        return Some(Leaf("plan"));
      }
      var plan := planned.value;
      DeletedDecides(client.zone, cfg.name, current.value, options.delete);
      DeletePlanLength(client.zone, cfg.name, current.value, options.delete, plan);
      if |plan| == 0 {
        return None;
      }
      if options.dryRun {
        return None;
      }
      err := ApplyDeletion(plan, current.value, options.delete);
      if err.Some? {
        WrapKeepsMark("apply update", err.value);
        return Some(Wrap("apply update", err.value));
      }
      var verified := client.ReadState(cfg.name);
      if verified.Err? {
        WrapKeepsMark("verify updated records", verified.error);
        return Some(Wrap("verify updated records", verified.error));
      }
      DeletedDecides(client.zone, cfg.name, verified.value, options.delete);
      var problem := VerifyDeletedTypes(verified.value, options.delete);
      if problem.Some? {
        return Some(Leaf("verification"));
      }
      return None;
    }

    method RunOnce(options: RunOptions) returns (err: Option<Error>)
      requires Valid()
      modifies client, this`log
      ensures |log| == |old(log)| + 1 && log[..|old(log)|] == old(log) && MayAct(cfg, log[|old(log)|])
      ensures |client.history| >= |old(client.history)|
      ensures client.history[..|old(client.history)|] == old(client.history)
      ensures options.dryRun ==> client.zone == old(client.zone) && client.history == old(client.history)
      ensures options.delete == FAMILIES_NONE ==>
        && log[|old(log)|].Probed?
        && HistoryFailClosed(old(client.zone), client.history, |old(client.history)|, cfg.name, [log[|old(log)|]])
        && FailClosed(old(client.zone), client.zone, cfg.name, [log[|old(log)|]])
        && (err.None? && !options.dryRun ==>
              var last := log[|old(log)|];
              Satisfied(client.zone, DesiredOf(cfg.name, cfg.ttl, cfg.options, last), ObservedOf(last)))
      ensures options.delete != FAMILIES_NONE ==>
        && HistoryKeepsRest(old(client.zone), client.history, |old(client.history)|, cfg.name, options.delete)
        && Rest(client.zone, cfg.name, options.delete) == Rest(old(client.zone), cfg.name, options.delete)
        && (err.None? && !options.dryRun ==> Emptied(client.zone, cfg.name, options.delete))
      ensures client.faults >= old(client.faults)
      ensures Unobstructed(cfg, old(client.zone), options.delete) ==>
        err.None? || Excused(cfg, [log[|old(log)|]], [client.faults - old(client.faults)])
      ensures log[|old(log)|].Probed? <==> options.delete == FAMILIES_NONE
      ensures RightAttempt(cfg, options, log[|old(log)|], Event(old(client.zone), client.zone,
        |client.history| - |old(client.history)|, FaultSince(old(client.faults), client.faults, client.lastFault), err))
    {
      hide Answered, Satisfied, FailClosed, Emptied, Rest, Due, Reason;
      if options.delete != FAMILIES_NONE {
        err := DeleteOnce(options);
      } else {
        err := ReconcileOnce(options);
      }
    }

    /** Sleeps for the delay, or fails when the context is cancelled first; a delay of zero is no sleep at all. */
    method Wait(delay: Duration) returns (err: Option<Error>)
      modifies this`waits
      ensures waits == old(waits) + [delay]
      ensures delay <= 0 ==> err.None?
    {
      waits := waits + [delay];
      var cancelled: bool := *;
      var cause: Error := *;
      err := if cancelled && delay > 0 then Some(Wrap("wait before retry", cause)) else None;
    }

    /** What a run promises of the zone and its history, from where it began. */
    ghost predicate Promised(
      options: RunOptions, start: C.Zone, from: nat, history: seq<C.Zone>, zone: C.Zone, attempts: seq<Attempt>)
    {
      && (options.dryRun ==> zone == start && |history| == from)
      && (options.delete == FAMILIES_NONE ==>
           HistoryFailClosed(start, history, from, cfg.name, attempts) && FailClosed(start, zone, cfg.name, attempts))
      && (options.delete != FAMILIES_NONE ==>
           HistoryKeepsRest(start, history, from, cfg.name, options.delete)
           && Rest(zone, cfg.name, options.delete) == Rest(start, cfg.name, options.delete))
    }

    lemma PromisedRefl(options: RunOptions, start: C.Zone, history: seq<C.Zone>)
      ensures Promised(options, start, |history|, history, start, [])
    {
      FailClosedRefl(start, cfg.name, []);
    }

    lemma PromisedChains(
      options: RunOptions, start: C.Zone, from: nat, history: seq<C.Zone>, middle: C.Zone, attempts: seq<Attempt>,
      more: seq<C.Zone>, zone: C.Zone, attempt: Attempt)
      requires Promised(options, start, from, history, middle, attempts)
      requires Promised(options, middle, |history|, more, zone, [attempt])
      requires |more| >= |history| && more[..|history|] == history
      ensures Promised(options, start, from, more, zone, attempts + [attempt])
    {
      if options.delete == FAMILIES_NONE {
        FailClosedChains(start, middle, zone, cfg.name, attempts, attempt);
        forall i | from <= i < |more| ensures FailClosed(start, more[i], cfg.name, attempts + [attempt]) {
          if i < |history| {
            assert more[i] == history[i];
            FailClosedWeakens(start, more[i], cfg.name, attempts, attempt);
          } else {
            FailClosedChains(start, middle, more[i], cfg.name, attempts, attempt);
          }
        }
      } else {
        forall i | from <= i < |more|
          ensures Rest(more[i], cfg.name, options.delete) == Rest(start, cfg.name, options.delete)
        {
          if i < |history| {
            assert more[i] == history[i];
          }
        }
      }
    }

    /** One attempt of a run, added to what the attempts before it have left. */
    method Try(
      options: RunOptions, ghost start: C.Zone, ghost from: nat, ghost attempts: seq<Attempt>, ghost faults: seq<nat>,
      ghost events: seq<Event>)
      returns (err: Option<Error>, ghost last: Attempt, ghost more: nat, ghost event: Event)
      requires Valid() && |faults| == |attempts|
      requires Recorded(cfg, options, start, client.zone, attempts, events)
      requires Promised(options, start, from, client.history, client.zone, attempts)
      requires Unobstructed(cfg, start, options.delete) ==> Excused(cfg, attempts, faults)
      modifies client, this`log
      ensures Recorded(cfg, options, start, client.zone, attempts + [last], events + [event]) && event.error == err
      ensures |events| == |attempts| && (event.fault.Some? <==> more > 0)
      ensures |client.history| == |old(client.history)| + event.sent
      ensures last.Probed? <==> options.delete == FAMILIES_NONE
      ensures err.None? && !options.dryRun && last.Probed? ==> Answered(client.zone, cfg, last)
      ensures err.None? && !options.dryRun && last.Deleting? ==> Gone(client.zone, cfg.name, options.delete)
      ensures log == old(log) + [last] && MayAct(cfg, last) && client.faults == old(client.faults) + more
      ensures Promised(options, start, from, client.history, client.zone, attempts + [last])
      ensures Unobstructed(cfg, start, options.delete) && err.Some? ==>
        Excused(cfg, attempts + [last], faults + [more])
      ensures err.None? && !options.dryRun && options.delete != FAMILIES_NONE ==>
        Emptied(client.zone, cfg.name, options.delete)
      ensures err.None? && !options.dryRun && options.delete == FAMILIES_NONE ==>
        last.Probed? && Satisfied(client.zone, DesiredOf(cfg.name, cfg.ttl, cfg.options, last), ObservedOf(last))
    {
      hide FailClosed, Satisfied, Emptied, Rest, Excused, RightAttempt, Answered, HostRecord;
      hide Recorded, Reached, HoldsExactly, Marks, Canonical, MayAct;
      ghost var middle, history, seen, failed := client.zone, client.history, log, client.faults;
      if options.delete == FAMILIES_NONE {
        StaysUnobstructed(cfg, start, middle, attempts);
      }
      err := RunOnce(options);
      last, more := log[|seen|], client.faults - failed;
      event := Event(middle, client.zone, |client.history| - |history|,
        FaultSince(failed, client.faults, client.lastFault), err);
      RecordedLength(cfg, options, start, middle, attempts, events);
      RecordedChains(cfg, options, start, attempts, events, last, event);
      AttemptAnswers(cfg, options, last, event);
      EmptiedMeans(client.zone, cfg.name, options.delete);
      assert log == seen + [last];
      PromisedChains(options, start, from, history, middle, attempts, client.history, client.zone, last);
      ExcusedChains(cfg, attempts, faults, last, more);
    }

    method Pause(attempt: int64, retryAfter: Duration) returns (err: Option<Error>, ghost delay: Duration)
      modifies this`waits
      ensures waits == old(waits) + [delay] && WaitsWithin(cfg.retries, [delay])
      ensures delay as int >= Min(retryAfter as int, Normalized(cfg.retries).maxDelay as int)
      ensures attempt >= 1 ==> SomeRightWait(cfg.retries, attempt as int, retryAfter, delay)
    {
      var random: real :| 0.0 <= random <= 1.0;
      var wait := Delay(cfg.retries, attempt, retryAfter, random);
      delay := wait;
      if attempt >= 1 {
        WaitIsRight(cfg.retries, attempt, retryAfter, wait, random);
      }
      err := Wait(wait);
    }

    /** The pace of a run: attempts within the policy's limit, one wait between two of them, bounded in all. */
    ghost predicate Paced(attempts: seq<Attempt>, slept: seq<Duration>, cancelled: bool) {
      var p := Normalized(cfg.retries);
      && 1 <= |attempts| <= p.maxAttempts as int
      && |slept| == |attempts| - (if cancelled then 0 else 1)
      && |slept| < p.maxAttempts as int
      && WaitsWithin(cfg.retries, slept)
      && Total(slept) <= (p.maxAttempts as int - 1) * p.maxDelay as int
    }

    /**
      A whole run. It ends after at most the policy's number of attempts, with
      one wait between two attempts; every zone it passes is fail-closed; success
      means that the zone holds what the last attempt observed, or that the
      selected families are gone; and no attempt fails without an excuse.
    */
    method Run(options: RunOptions)
      returns (err: Option<Error>, ghost attempts: seq<Attempt>, ghost slept: seq<Duration>, ghost cancelled: bool,
        ghost faults: seq<nat>, ghost events: seq<Event>)
      requires Valid()
      modifies client, this`log, this`waits
      ensures Paced(attempts, slept, cancelled)
      ensures Recorded(cfg, options, old(client.zone), client.zone, attempts, events)
      ensures |client.history| == |old(client.history)| + Changes(events)
      ensures RightWaits(cfg.retries, events, slept)
      ensures !cancelled ==> err == events[|attempts| - 1].error
      ensures err.Some? && !cancelled ==>
        || Marks(err.value) == []
        || |attempts| == if cfg.retries.maxAttempts > 0 then cfg.retries.maxAttempts as int else 5
      ensures err.None? && !options.dryRun && options.delete == FAMILIES_NONE ==>
        attempts[|attempts| - 1].Probed? && Answered(client.zone, cfg, attempts[|attempts| - 1])
      ensures err.None? && !options.dryRun && options.delete != FAMILIES_NONE ==>
        attempts[|attempts| - 1].Deleting? && Gone(client.zone, cfg.name, options.delete)
      ensures log == old(log) + attempts && waits == old(waits) + slept
      ensures forall a :: a in attempts ==> MayAct(cfg, a)
      ensures cancelled ==> err.Some?
      ensures err.Some? && !cancelled ==> CanRetry(cfg.retries, |attempts| as int64, err.value).None?
      ensures Promised(options, old(client.zone), |old(client.history)|, client.history, client.zone, attempts)
      ensures err.None? && !options.dryRun && options.delete != FAMILIES_NONE ==>
        Emptied(client.zone, cfg.name, options.delete)
      ensures err.None? && !options.dryRun && options.delete == FAMILIES_NONE ==>
        var last := attempts[|attempts| - 1];
        last.Probed? && Satisfied(client.zone, DesiredOf(cfg.name, cfg.ttl, cfg.options, last), ObservedOf(last))
      ensures |faults| == |attempts| && client.faults == old(client.faults) + Sum(faults)
      ensures Blamed(events, faults)
      ensures Unobstructed(cfg, old(client.zone), options.delete) ==>
        var failed := |attempts| - if err.None? then 1 else 0;
        Excused(cfg, attempts[..failed], faults[..failed])
    {
      hide FailClosed, Satisfied, Emptied, Rest, Total, After, Excused, Unobstructed, Sum;
      hide RightAttempt, RightPause, RightWaits, Changes, CanRetry, Marks, Answered, Gone;
      hide Recorded, Reached, RightWait, SomeRightWait, MarkedAt, FirstMarkAt, Canonical, MayAct;
      hide HistoryFailClosed, Promised, Blamed, WaitsWithin;
      ghost var start, from := client.zone, |client.history|;
      attempts, slept, cancelled, faults, events := [], [], false, [], [];
      PromisedRefl(options, start, client.history);
      NothingExcused(cfg);
      var attempt: int64 := 1;
      while true
        invariant 1 <= attempt <= Normalized(cfg.retries).maxAttempts
        invariant |attempts| == |slept| == attempt as int - 1 && !cancelled
        invariant log == old(log) + attempts && waits == old(waits) + slept
        invariant WaitsWithin(cfg.retries, slept)
        invariant forall a :: a in attempts ==> MayAct(cfg, a)
        invariant Promised(options, start, from, client.history, client.zone, attempts)
        invariant Recorded(cfg, options, start, client.zone, attempts, events)
        invariant |client.history| == from + Changes(events) && RightWaits(cfg.retries, events, slept)
        invariant |events| == |attempts| && Blamed(events, faults)
        invariant |faults| == |attempts| && client.faults == old(client.faults) + Sum(faults)
        invariant Unobstructed(cfg, start, options.delete) ==> Excused(cfg, attempts, faults)
        decreases Normalized(cfg.retries).maxAttempts - attempt
      {
        ghost var last, more, event;
        err, last, more, event := Try(options, start, from, attempts, faults, events);
        ExcusedChains(cfg, attempts, faults, last, more);
        ChangesAdd(events, event);
        BlamedAdd(events, faults, event, more);
        RightWaitsAdd(cfg.retries, events, slept, event);
        attempts, faults, events := attempts + [last], faults + [more], events + [event];
        assert attempts[..|attempts|] == attempts && faults[..|faults|] == faults;
        TotalWithin(cfg.retries, slept);
        if err.None? {
          return;
        }
        RetriedMeans(cfg.retries, attempt, err.value);
        var retryAfter := CanRetry(cfg.retries, attempt, err.value);
        if retryAfter.None? {
          return;
        }
        ghost var delay;
        var waitErr;
        waitErr, delay := Pause(attempt, retryAfter.value);
        PauseIsRight(cfg.retries, attempt as int, err, retryAfter.value, delay);
        WaitsWithinAdd(cfg.retries, slept, delay);
        slept := slept + [delay];
        if waitErr.Some? {
          cancelled := true;
          TotalWithin(cfg.retries, slept);
          return waitErr, attempts, slept, cancelled, faults, events;
        }
        attempt := attempt + 1;
      }
    }
  }
}
