/**
  What a reconciliation or a deletion guarantees of the zone: after all of its
  steps, after any part of them, in plan order and in batch order.
*/
module Guarantees {
  import opened Wrappers
  import opened Ordering
  import opened Names
  import opened Provider
  import opened Planner
  import opened Reconcile
  import C = Cloudflare

  // ----- one step, seen at its id -----

  /** The record a body leaves belongs to the desired host and has the body's type. */
  lemma BodyManaged(desired: DesiredState, t: RecordType, proxied: bool)
    requires Canonical(desired.name) && desired.Address(t).Some?
    ensures var stored := C.Stored(C.BodyOf(desired.Want(t)), proxied);
      && NormalizeApiName(stored.name) == NormalizeApiName(desired.name)
      && stored.rtype == t
      && (desired.options.proxy.Some? ==> Carries(stored, desired, t))
  {
    NameRoundTrip(desired.name);
  }

  /** Where a record is after separate, allowed steps. */
  lemma CommitCases(zone: C.Zone, desired: DesiredState, observed: Families, steps: seq<C.Step>, id: Id)
    returns (step: Option<C.Step>)
    requires Canonical(desired.name) && C.Separate(steps)
    requires forall s :: s in steps ==> Allowed(zone, desired, observed, s)
    ensures step.None? ==> (forall s :: s in steps ==> s.id != id) && C.At(C.Commit(zone, steps), id) == C.At(zone, id)
    ensures step.Some? ==> step.value in steps && step.value.id == id
    ensures step.Some? && step.value.Remove? ==> id !in C.Commit(zone, steps)
    ensures step.Some? && step.value.Patch? ==>
      var after := C.Commit(zone, steps);
      && id in zone && C.Managed(after, id, desired.name) && after[id].rtype == zone[id].rtype
      && (desired.options.proxy.Some? ==> Carries(after[id], desired, after[id].rtype))
    ensures step.Some? && step.value.Post? ==>
      var after := C.Commit(zone, steps);
      C.Managed(after, id, desired.name) && after[id].rtype == step.value.body.rtype &&
      (desired.options.proxy.Some? ==> Carries(after[id], desired, after[id].rtype))
  {
    hide NormalizeApiName, C.Commit, Carries;
    C.CommitAt(zone, steps, id);
    if s :| s in steps && s.id == id {
      step := Some(s);
      assert Allowed(zone, desired, observed, s);
      if s.Patch? {
        BodyManaged(desired, zone[id].rtype, zone[id].proxied);
      } else if s.Post? {
        BodyManaged(desired, s.body.rtype, false);
      }
    } else {
      step := None;
    }
  }

  // ----- everything else stays -----

  /** The records outside the given families of the host: other families, other types, other hosts. */
  ghost function Rest(zone: C.Zone, name: string, families: Families): C.Zone {
    map id | id in zone && !(C.Managed(zone, id, name) && Includes(families, zone[id].rtype)) :: zone[id]
  }

  lemma RestStays(zone: C.Zone, desired: DesiredState, observed: Families, part: seq<C.Step>)
    requires Canonical(desired.name) && C.Separate(part)
    requires forall s :: s in part ==> Allowed(zone, desired, observed, s)
    ensures Rest(C.Commit(zone, part), desired.name, observed) == Rest(zone, desired.name, observed)
  {
    var after := C.Commit(zone, part);
    var before, now := Rest(zone, desired.name, observed), Rest(after, desired.name, observed);
    forall id ensures C.At(now, id) == C.At(before, id) {
      var step := CommitCases(zone, desired, observed, part, id);
      if step.Some? {
        assert Allowed(zone, desired, observed, step.value);
      }
    }
    C.SameZone(now, before);
  }

  // ----- no gap -----

  /** Part of the steps: what has been carried out when the rest has not. */
  ghost predicate PartOf(part: seq<C.Step>, steps: seq<C.Step>) {
    C.Separate(part) && forall s :: s in part ==> s in steps
  }

  lemma PrefixIsPart(steps: seq<C.Step>, k: nat)
    requires C.Separate(steps) && k <= |steps|
    ensures PartOf(steps[..k], steps)
  {
  }

  lemma KeptNotRemoved(zone: C.Zone, desired: DesiredState, t: RecordType, steps: seq<C.Step>, keep: Id)
    requires C.Separate(steps) && desired.Address(t).Some? && Keeps(zone, desired, t, steps, keep)
    ensures C.Remove(keep) !in steps
  {
  }

  /** The kept record of a family survives any part of the steps, untouched if it carries the goal. */
  lemma KeptStays(
    zone: C.Zone, desired: DesiredState, observed: Families, steps: seq<C.Step>, part: seq<C.Step>,
    t: RecordType, keep: Id)
    requires Canonical(desired.name) && RepairsZone(zone, desired, observed, steps) && PartOf(part, steps)
    requires desired.Address(t).Some? && Keeps(zone, desired, t, steps, keep)
    ensures keep in C.Family(C.Commit(zone, part), desired.name, t)
    ensures (exists id :: id in C.Family(zone, desired.name, t) && Carries(zone[id], desired, t)) ==>
      Carries(zone[keep], desired, t) && C.At(C.Commit(zone, part), keep) == Some(zone[keep])
  {
    var after := C.Commit(zone, part);
    var step := CommitCases(zone, desired, observed, part, keep);
    KeptNotRemoved(zone, desired, t, steps, keep);
    assert C.Managed(after, keep, desired.name) && after[keep].rtype == t;
    if id :| id in C.Family(zone, desired.name, t) && Carries(zone[id], desired, t) {
      assert Carries(zone[keep], desired, t);
    }
  }

  /**
    A family with records and an address to carry is never without records
    between the steps; a record that carries the goal is kept as it is.
  */
  lemma NoGap(
    zone: C.Zone, desired: DesiredState, observed: Families, steps: seq<C.Step>, part: seq<C.Step>, t: RecordType)
    requires Canonical(desired.name) && RepairsZone(zone, desired, observed, steps) && PartOf(part, steps)
    requires Includes(observed, t) && desired.Address(t).Some? && C.Family(zone, desired.name, t) != {}
    ensures C.Family(C.Commit(zone, part), desired.name, t) != {}
    ensures (exists id :: id in C.Family(zone, desired.name, t) && Carries(zone[id], desired, t)) ==>
      exists id :: id in C.Family(zone, desired.name, t) && Carries(zone[id], desired, t) &&
        C.At(C.Commit(zone, part), id) == Some(zone[id])
  {
    var keep :| Keeps(zone, desired, t, steps, keep);
    KeptStays(zone, desired, observed, steps, part, t, keep);
  }

  lemma SeparateSame(steps: seq<C.Step>, s: C.Step, t: C.Step)
    requires C.Separate(steps) && s in steps && t in steps && s.id == t.id
    ensures s == t
  {
    var i :| 0 <= i < |steps| && steps[i] == s;
    var j :| 0 <= j < |steps| && steps[j] == t;
  }

  // ----- convergence -----

  /** The steps leave the kept or posted record, and it carries the goal. */
  lemma SurvivorCarries(zone: C.Zone, desired: DesiredState, t: RecordType, steps: seq<C.Step>, id: Id)
    requires Canonical(desired.name) && desired.options.proxy.Some? && desired.Address(t).Some?
    requires C.Separate(steps) && (Posts(desired, t, steps, id) || Keeps(zone, desired, t, steps, id))
    ensures var after := C.Commit(zone, steps);
      id in C.Family(after, desired.name, t) && Carries(after[id], desired, t)
  {
    hide NormalizeApiName, C.Commit, Carries;
    C.CommitAt(zone, steps, id);
    BodyManaged(desired, t, false);
    BodyManaged(desired, t, if id in zone then zone[id].proxied else false);
  }

  /** Nothing else of the family survives. */
  lemma OthersGone(
    zone: C.Zone, desired: DesiredState, observed: Families, t: RecordType, steps: seq<C.Step>, only: Option<Id>)
    requires Canonical(desired.name) && C.Separate(steps)
    requires forall s :: s in steps ==> Allowed(zone, desired, observed, s)
    requires forall id :: id in C.Family(zone, desired.name, t) && only != Some(id) ==> C.Remove(id) in steps
    requires forall s :: s in steps && s.Post? && s.body.rtype == t ==> only == Some(s.id)
    ensures forall id :: id in C.Family(C.Commit(zone, steps), desired.name, t) ==> only == Some(id)
  {
    forall id | id in C.Family(C.Commit(zone, steps), desired.name, t) ensures only == Some(id) {
      var step := CommitCases(zone, desired, observed, steps, id);
      if step.Some? {
        assert Allowed(zone, desired, observed, step.value);
      }
      if only != Some(id) && id in C.Family(zone, desired.name, t) {
        SeparateSame(steps, C.Remove(id), step.value);
      }
    }
  }

  lemma FamilyConverges(zone: C.Zone, desired: DesiredState, observed: Families, steps: seq<C.Step>, t: RecordType)
    requires Canonical(desired.name) && desired.options.proxy.Some?
    requires RepairsZone(zone, desired, observed, steps) && FamilyRepaired(zone, desired, t, steps)
    ensures FamilySatisfied(C.Commit(zone, steps), desired, t)
  {
    hide NormalizeApiName, C.Commit, Carries;
    var family, left := C.Family(zone, desired.name, t), C.Family(C.Commit(zone, steps), desired.name, t);
    if desired.Address(t).None? {
      forall s | s in steps && s.Post? ensures s.body.rtype != t {
        assert Allowed(zone, desired, observed, s);
      }
      OthersGone(zone, desired, observed, t, steps, None);
      assert left == {};
    } else if family == {} {
      var id :| Posts(desired, t, steps, id);
      SurvivorCarries(zone, desired, t, steps, id);
      OthersGone(zone, desired, observed, t, steps, Some(id));
      assert left == {id};
    } else {
      var keep :| Keeps(zone, desired, t, steps, keep);
      SurvivorCarries(zone, desired, t, steps, keep);
      forall s | s in steps && s.Post? ensures s.body.rtype != t {
        assert Allowed(zone, desired, observed, s);
      }
      OthersGone(zone, desired, observed, t, steps, Some(keep));
      assert left == {keep};
    }
  }

  /** Carrying out a plan, in any order its ids allow, reaches the goal from any zone free of aliases. */
  lemma Converges(zone: C.Zone, desired: DesiredState, observed: Families, steps: seq<C.Step>)
    requires Canonical(desired.name) && desired.options.proxy.Some? && observed != FAMILIES_NONE
    requires C.Family(zone, desired.name, CNAME) == {}
    requires RepairsZone(zone, desired, observed, steps)
    ensures Satisfied(C.Commit(zone, steps), desired, observed)
  {
    var after := C.Commit(zone, steps);
    forall id | id in after ensures id !in C.Family(after, desired.name, CNAME) {
      var step := CommitCases(zone, desired, observed, steps, id);
      assert id !in C.Family(zone, desired.name, CNAME);
      if step.Some? {
        assert Allowed(zone, desired, observed, step.value);
      }
    }
    assert C.Family(after, desired.name, CNAME) == {};
    if Includes(observed, A) {
      FamilyConverges(zone, desired, observed, steps, A);
    }
    if Includes(observed, AAAA) {
      FamilyConverges(zone, desired, observed, steps, AAAA);
    }
  }

  // ----- a fault-free attempt -----

  /** The batch of a plan repairs the zone as the plan does. */
  lemma BatchRepairsZone(
    zone: C.Zone, read: State, desired: DesiredState, observed: Families, plan: Plan, minted: seq<Id>)
    requires Canonical(desired.name) && C.Reads(zone, desired.name, read)
    requires ObservedPlan(read, desired, observed) == Ok(plan)
    requires C.Creates(plan) <= |minted| && C.Mintable(zone, minted)
    ensures C.BatchOf(plan).Ok? && |C.BatchOf(plan).value.posts| == C.Creates(plan)
    ensures var steps := C.BatchSteps(C.BatchOf(plan).value, minted);
      RepairsZone(zone, desired, observed, steps) && C.Commit(zone, steps) == C.Commit(zone, C.PlanSteps(plan, minted))
  {
    PlanRepairsZone(zone, read, desired, observed, plan, minted);
    C.RegroupingPreservesMeaning(zone, plan, minted);
    C.BatchHoldsPlan(plan, minted);
    RepairsPermuted(zone, desired, observed, C.PlanSteps(plan, minted),
                    C.BatchSteps(C.BatchOf(plan).value, minted));
  }

  /**
    From any zone free of aliases, with whatever listing order and whatever ids
    the server mints, the plan's batch is accepted, reaches the goal, and leaves
    nothing to plan: the verification of a fault-free attempt never fails.
  */
  lemma FaultFreeAttempt(
    zone: C.Zone, read: State, desired: DesiredState, observed: Families, minted: seq<Id>, reread: State)
    requires Canonical(desired.name) && desired.options.proxy.Some? && observed != FAMILIES_NONE
    requires C.Family(zone, desired.name, CNAME) == {}
    requires C.Reads(zone, desired.name, read)
    ensures ObservedPlan(read, desired, observed).Ok?
    ensures var plan := ObservedPlan(read, desired, observed).value;
      C.BatchOf(plan).Ok? && |C.BatchOf(plan).value.posts| == C.Creates(plan) &&
      (C.Creates(plan) <= |minted| && C.Mintable(zone, minted) ==>
        var after := C.Commit(zone, C.BatchSteps(C.BatchOf(plan).value, minted));
        && after == C.Commit(zone, C.PlanSteps(plan, minted))
        && Satisfied(after, desired, observed)
        && (C.Reads(after, desired.name, reread) ==>
             && VerifyObservedAddressState(reread, desired, observed).None?
             && ObservedPlan(reread, desired, observed) == Ok([])))
  {
    CnameRead(zone, desired.name, read);
    var plan := ObservedPlan(read, desired, observed).value;
    PlanHasParts(zone, read, desired, observed);
    PartsTarget(zone, desired, observed,
                FamilyPlan(read, desired, observed, A), FamilyPlan(read, desired, observed, AAAA));
    var enough := seq(C.Creates(plan), _ => Id(""));
    C.BatchHoldsPlan(plan, enough);
    if C.Creates(plan) <= |minted| && C.Mintable(zone, minted) {
      BatchRepairsZone(zone, read, desired, observed, plan, minted);
      var steps := C.BatchSteps(C.BatchOf(plan).value, minted);
      var after := C.Commit(zone, steps);
      Converges(zone, desired, observed, steps);
      if C.Reads(after, desired.name, reread) {
        VerifierDecides(after, reread, desired, observed);
        EmptyPlanDecides(after, reread, desired, observed);
      }
    }
  }

  /**
    While a plan is applied, in plan order or in batch order, one and the same
    record of the family is there after every step; if any record of the
    family carried the goal, that one does, and no step touches it.
  */
  lemma NoGapWhileApplying(
    zone: C.Zone, read: State, desired: DesiredState, observed: Families, plan: Plan, minted: seq<Id>, t: RecordType)
    returns (keep: Id)
    requires Canonical(desired.name) && C.Reads(zone, desired.name, read)
    requires ObservedPlan(read, desired, observed) == Ok(plan)
    requires C.Creates(plan) <= |minted| && C.Mintable(zone, minted)
    requires Includes(observed, t) && desired.Address(t).Some? && C.Family(zone, desired.name, t) != {}
    ensures C.BatchOf(plan).Ok? && |C.BatchOf(plan).value.posts| == C.Creates(plan)
    ensures keep in C.Family(zone, desired.name, t)
    ensures forall steps, k ::
      steps in {C.PlanSteps(plan, minted), C.BatchSteps(C.BatchOf(plan).value, minted)} && 0 <= k <= |steps| ==>
        var after := C.Commit(zone, steps[..k]);
        && keep in C.Family(after, desired.name, t)
        && ((exists id :: id in C.Family(zone, desired.name, t) && Carries(zone[id], desired, t)) ==>
             Carries(zone[keep], desired, t) && after[keep] == zone[keep])
  {
    PlanRepairsZone(zone, read, desired, observed, plan, minted);
    BatchRepairsZone(zone, read, desired, observed, plan, minted);
    C.BatchHoldsPlan(plan, minted);
    var planned, batched := C.PlanSteps(plan, minted), C.BatchSteps(C.BatchOf(plan).value, minted);
    SameMembers(planned, batched);
    keep :| Keeps(zone, desired, t, planned, keep);
    forall steps, k | steps in {planned, batched} && 0 <= k <= |steps|
      ensures var after := C.Commit(zone, steps[..k]);
        && keep in C.Family(after, desired.name, t)
        && ((exists id :: id in C.Family(zone, desired.name, t) && Carries(zone[id], desired, t)) ==>
             Carries(zone[keep], desired, t) && after[keep] == zone[keep])
    {
      PrefixIsPart(steps, k);
      assert Keeps(zone, desired, t, steps, keep);
      KeptStays(zone, desired, observed, steps, steps[..k], t, keep);
    }
  }

  // ----- deletion -----

  ghost predicate Selected(zone: C.Zone, name: string, selection: Families, s: C.Step) {
    s == C.Remove(s.id) && C.Managed(zone, s.id, name) && Includes(selection, zone[s.id].rtype)
  }

  /** The steps remove exactly the selected families of the host. */
  ghost predicate ClearsZone(zone: C.Zone, name: string, selection: Families, steps: seq<C.Step>) {
    && C.Separate(steps)
    && forall s :: s in steps <==> Selected(zone, name, selection, s)
  }

  lemma {:induction false} DeletesBatch(plan: Plan)
    requires forall o :: o in plan ==> o.kind.Delete?
    ensures C.Creates(plan) == 0
    ensures C.BatchOf(plan).Ok? && C.BatchOf(plan).value.posts == []
  {
    if plan != [] {
      assert plan[|plan| - 1] in plan;
      DeletesBatch(plan[..|plan| - 1]);
    }
  }

  lemma DeletePlanMembers(read: State, selection: Families, plan: Plan)
    requires DistinctIds(read.records) && DeletePlan(read, selection) == Ok(plan)
    ensures Planner.DistinctTargets(plan)
    ensures forall o :: o in plan <==>
      o == DeleteOf(o.current) && o.current in read.records && Includes(selection, o.current.rtype)
  {
    var unsorted := Deletes(SelectedRecords(read, selection, A)) + Deletes(SelectedRecords(read, selection, AAAA));
    DeletePlanTargets(read, selection);
    SortMembers(OperationLess, unsorted);
    DistinctTargetsPermuted(unsorted, plan);
  }

  lemma DeleteStepsSelected(zone: C.Zone, name: string, read: State, selection: Families, plan: Plan)
    requires C.Reads(zone, name, read) && C.Creates(plan) == 0
    requires forall o :: o in plan <==>
      o == DeleteOf(o.current) && o.current in read.records && Includes(selection, o.current.rtype)
    ensures forall s :: s in C.PlanSteps(plan, []) <==> Selected(zone, name, selection, s)
  {
    var steps := C.PlanSteps(plan, []);
    StepMembers(plan, []);
    forall s | Selected(zone, name, selection, s) ensures s in steps {
      var o := DeleteOf(C.ToRecord(s.id, zone[s.id]));
      assert o == DeleteOf(o.current) && o.current in read.records;
      assert o in plan && C.StepOf(o, Id("")) == s;
    }
    forall s | s in steps ensures Selected(zone, name, selection, s) {
      var o :| o in plan && s == C.StepOf(o, s.id);
    }
  }

  /** The delete plan of any read clears the selected families in one batch. */
  lemma DeletePlanClears(zone: C.Zone, name: string, read: State, selection: Families, plan: Plan)
    requires C.Reads(zone, name, read) && DeletePlan(read, selection) == Ok(plan)
    ensures C.BatchOf(plan).Ok? && C.BatchOf(plan).value.posts == []
    ensures ClearsZone(zone, name, selection, C.BatchSteps(C.BatchOf(plan).value, []))
  {
    DeletePlanMembers(read, selection, plan);
    DeletesBatch(plan);
    var steps, batch := C.PlanSteps(plan, []), C.BatchSteps(C.BatchOf(plan).value, []);
    C.BatchHoldsPlan(plan, []);
    C.PlanStepsSeparate(zone, plan, []);
    DeleteStepsSelected(zone, name, read, selection, plan);
    C.SeparatePermuted(steps, batch);
    SameMembers(steps, batch);
  }

  /** A deletion empties the selected families; no part of it touches anything else. */
  lemma DeletionClears(zone: C.Zone, name: string, selection: Families, steps: seq<C.Step>, part: seq<C.Step>)
    requires selection != FAMILIES_NONE && ClearsZone(zone, name, selection, steps) && PartOf(part, steps)
    ensures Emptied(C.Commit(zone, steps), name, selection)
    ensures Rest(C.Commit(zone, part), name, selection) == Rest(zone, name, selection)
  {
    var after, partly := C.Commit(zone, steps), C.Commit(zone, part);
    forall id ensures C.Managed(after, id, name) ==> !Includes(selection, after[id].rtype) {
      C.CommitAt(zone, steps, id);
      if C.Managed(zone, id, name) && Includes(selection, zone[id].rtype) {
        assert C.Remove(id) in steps;
      } else {
        assert forall s :: s in steps ==> s.id != id;
      }
    }
    forall id ensures C.At(Rest(partly, name, selection), id) == C.At(Rest(zone, name, selection), id) {
      C.CommitAt(zone, part, id);
      if s :| s in part && s.id == id {
        assert s in steps;
      }
    }
    C.SameZone(Rest(partly, name, selection), Rest(zone, name, selection));
  }

  // ----- force push -----

  function ForcePushOperation(records: seq<Record>, want: Option<Record>): Plan {
    if want.None? || |records| == 0 then [] else [UpdateOf(records[0], want.value)]
  }

  function ForcePushFamily(state: State, desired: DesiredState, observed: Families, t: RecordType): Plan {
    if Includes(observed, t) then ForcePushOperation(ByType(state.records, t), WantOf(desired, t)) else []
  }

  function ForcePushPlan(state: State, desired: DesiredState, observed: Families): Plan {
    ForcePushFamily(state, desired, observed, A) + ForcePushFamily(state, desired, observed, AAAA)
  }

  /** Equal in everything but the spelling of the name. */
  ghost predicate SameButName(one: C.Zone, other: C.Zone) {
    && one.Keys == other.Keys
    && forall id :: id in one ==>
         && one[id] == other[id].(name := one[id].name)
         && NormalizeApiName(one[id].name) == NormalizeApiName(other[id].name)
  }

  /** The operations refresh, each, the only record of a family that has an address. */
  ghost predicate Refreshes(zone: C.Zone, desired: DesiredState, observed: Families, t: RecordType, ops: Plan) {
    if Includes(observed, t) && desired.Address(t).Some? then
      && |ops| == 1 && ops[0].kind.Update? && ops[0].desired == desired.Want(t)
      && C.Family(zone, desired.name, t) == {ops[0].current.id}
    else ops == []
  }

  lemma ForcePushRefreshes(zone: C.Zone, read: State, desired: DesiredState, observed: Families, t: RecordType)
    requires C.Reads(zone, desired.name, read) && (Includes(observed, t) ==> FamilySatisfied(zone, desired, t))
    ensures Refreshes(zone, desired, observed, t, ForcePushFamily(read, desired, observed, t))
  {
    ReadFamily(zone, desired.name, read, t);
    var rs := ByType(read.records, t);
    if Includes(observed, t) && desired.Address(t).Some? {
      var id :| C.Family(zone, desired.name, t) == {id};
      assert C.ToRecord(id, zone[id]) in rs;
      assert rs[0] in rs;
    }
  }

  /** Each step refreshes a record that carries the goal already. */
  ghost predicate Refresh(zone: C.Zone, desired: DesiredState, observed: Families, s: C.Step) {
    Allowed(zone, desired, observed, s) && s.Patch? && Carries(zone[s.id], desired, zone[s.id].rtype)
  }

  lemma ForcePushParts(zone: C.Zone, desired: DesiredState, observed: Families, pa: Plan, pq: Plan)
    requires Refreshes(zone, desired, observed, A, pa) && Refreshes(zone, desired, observed, AAAA, pq)
    ensures PlanParts(zone, desired, observed, pa, pq)
    ensures forall o :: o in pa + pq ==> o.kind.Update?
  {
    hide C.Managed;
  }

  lemma RefreshStep(
    zone: C.Zone, desired: DesiredState, observed: Families, t: RecordType, ops: Plan, o: Operation, s: C.Step)
    requires Includes(observed, t) ==> FamilySatisfied(zone, desired, t)
    requires Refreshes(zone, desired, observed, t, ops) && o in ops && s == C.StepOf(o, s.id)
    ensures Refresh(zone, desired, observed, s)
  {
    assert s == C.Patch(o.current.id, C.BodyOf(desired.Want(t)));
    assert s.id in C.Family(zone, desired.name, t);
  }

  lemma {:induction false} RefreshSteps(zone: C.Zone, desired: DesiredState, observed: Families, pa: Plan, pq: Plan)
    requires Satisfied(zone, desired, observed) && C.Creates(pa + pq) == 0
    requires Refreshes(zone, desired, observed, A, pa) && Refreshes(zone, desired, observed, AAAA, pq)
    ensures forall s :: s in C.PlanSteps(pa + pq, []) ==> Refresh(zone, desired, observed, s)
  {
    StepMembers(pa + pq, []);
    forall s | s in C.PlanSteps(pa + pq, []) ensures Refresh(zone, desired, observed, s) {
      var o :| o in pa + pq && s == C.StepOf(o, s.id) && (o.kind.Create? ==> s.id in []);
      if o in pa {
        RefreshStep(zone, desired, observed, A, pa, o, s);
      } else {
        RefreshStep(zone, desired, observed, AAAA, pq, o, s);
      }
    }
  }

  lemma {:induction false} UpdatesBatch(plan: Plan)
    requires forall o :: o in plan ==> o.kind.Update?
    ensures C.Creates(plan) == 0
  {
    if plan != [] {
      assert plan[|plan| - 1] in plan;
      UpdatesBatch(plan[..|plan| - 1]);
    }
  }

  lemma {:induction false} ForcePushSteps(zone: C.Zone, desired: DesiredState, observed: Families, pa: Plan, pq: Plan)
    requires Canonical(desired.name) && Satisfied(zone, desired, observed)
    requires Refreshes(zone, desired, observed, A, pa) && Refreshes(zone, desired, observed, AAAA, pq)
    ensures C.BatchOf(pa + pq).Ok? && C.BatchOf(pa + pq).value.posts == []
    ensures C.Separate(C.BatchSteps(C.BatchOf(pa + pq).value, []))
    ensures forall s :: s in C.BatchSteps(C.BatchOf(pa + pq).value, []) ==> Refresh(zone, desired, observed, s)
  {
    hide C.BatchOf, C.BatchSteps, C.PlanSteps, C.Separate, Satisfied, Refreshes, Refresh, PlanParts;
    var plan := pa + pq;
    ForcePushParts(zone, desired, observed, pa, pq);
    PartsTarget(zone, desired, observed, pa, pq);
    UpdatesBatch(plan);
    C.BatchHoldsPlan(plan, []);
    C.PlanStepsSeparate(zone, plan, []);
    RefreshSteps(zone, desired, observed, pa, pq);
    C.SeparatePermuted(C.PlanSteps(plan, []), C.BatchSteps(C.BatchOf(plan).value, []));
    SameMembers(C.PlanSteps(plan, []), C.BatchSteps(C.BatchOf(plan).value, []));
  }

  lemma RefreshKeeps(zone: C.Zone, desired: DesiredState, observed: Families, part: seq<C.Step>)
    requires Canonical(desired.name) && C.Separate(part)
    requires forall s :: s in part ==> Refresh(zone, desired, observed, s)
    ensures SameButName(C.Commit(zone, part), zone)
  {
    var after := C.Commit(zone, part);
    forall id ensures id in after <==> id in zone
      ensures id in zone ==> after[id] == zone[id].(name := after[id].name)
      ensures id in zone ==> NormalizeApiName(after[id].name) == NormalizeApiName(zone[id].name)
    {
      C.CommitAt(zone, part, id);
      if s :| s in part && s.id == id {
        assert Refresh(zone, desired, observed, s);
        BodyManaged(desired, zone[id].rtype, zone[id].proxied);
      } else {
        assert C.At(after, id) == C.At(zone, id);
      }
    }
  }

  lemma SameFamily(one: C.Zone, other: C.Zone, desired: DesiredState, t: RecordType)
    requires SameButName(one, other)
    ensures C.Family(one, desired.name, t) == C.Family(other, desired.name, t)
    ensures FamilySatisfied(other, desired, t) ==> FamilySatisfied(one, desired, t)
  {
    forall id ensures id in C.Family(one, desired.name, t) <==> id in C.Family(other, desired.name, t) {
      assert id in one <==> id in other;
    }
  }

  /** A refresh leaves the goal as it was. */
  lemma SameButNameSatisfied(one: C.Zone, other: C.Zone, desired: DesiredState, observed: Families)
    requires SameButName(one, other) && Satisfied(other, desired, observed)
    ensures Satisfied(one, desired, observed)
  {
    SameFamily(one, other, desired, A);
    SameFamily(one, other, desired, AAAA);
    SameFamily(one, other, desired, CNAME);
  }

  /** With nothing to plan, a force push holds one update per observed address and is safe at every point. */
  lemma ForcePushSafe(zone: C.Zone, read: State, desired: DesiredState, observed: Families, part: seq<C.Step>)
    requires Canonical(desired.name) && C.Reads(zone, desired.name, read)
    requires ObservedPlan(read, desired, observed) == Ok([])
    ensures Refreshes(zone, desired, observed, A, ForcePushFamily(read, desired, observed, A))
    ensures Refreshes(zone, desired, observed, AAAA, ForcePushFamily(read, desired, observed, AAAA))
    ensures var batch := C.BatchOf(ForcePushPlan(read, desired, observed));
      && batch.Ok? && batch.value.posts == []
      && var steps := C.BatchSteps(batch.value, []);
      && C.Separate(steps) && (forall s :: s in steps ==> Refresh(zone, desired, observed, s))
      && (PartOf(part, steps) ==>
           SameButName(C.Commit(zone, part), zone) && Satisfied(C.Commit(zone, part), desired, observed))
  {
    EmptyPlanDecides(zone, read, desired, observed);
    ForcePushRefreshes(zone, read, desired, observed, A);
    ForcePushRefreshes(zone, read, desired, observed, AAAA);
    var pa, pq := ForcePushFamily(read, desired, observed, A), ForcePushFamily(read, desired, observed, AAAA);
    ForcePushSteps(zone, desired, observed, pa, pq);
    if PartOf(part, C.BatchSteps(C.BatchOf(pa + pq).value, [])) {
      RefreshKeeps(zone, desired, observed, part);
      SameButNameSatisfied(C.Commit(zone, part), zone, desired, observed);
    }
  }
}
