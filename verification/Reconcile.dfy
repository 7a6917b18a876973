/**
  What one reconciliation does to the zone: the verifier decides a property of
  the zone, and the planner's operations establish it, in any order the ids
  allow and without a gap on the way.
*/
module Reconcile {
  import opened Wrappers
  import opened Ordering
  import opened Names
  import opened Provider
  import opened Planner
  import C = Cloudflare

  // ----- the goal, stated on the zone -----

  ghost predicate Carries(stored: C.ApiRecord, desired: DesiredState, t: RecordType) {
    && desired.Address(t) == Some(stored.content)
    && stored.ttl == desired.ttl
    && desired.options.proxy == Some(stored.proxied)
  }

  ghost function Carriers(zone: C.Zone, desired: DesiredState, t: RecordType): set<Id> {
    set id | id in C.Family(zone, desired.name, t) && Carries(zone[id], desired, t)
  }

  ghost predicate FamilySatisfied(zone: C.Zone, desired: DesiredState, t: RecordType) {
    if desired.Address(t).None? then C.Family(zone, desired.name, t) == {}
    else exists id :: C.Family(zone, desired.name, t) == {id} && Carries(zone[id], desired, t)
  }

  /** The zone holds exactly the desired records of the observed families, and no alias. */
  ghost predicate Satisfied(zone: C.Zone, desired: DesiredState, observed: Families) {
    && observed != FAMILIES_NONE
    && C.Family(zone, desired.name, CNAME) == {}
    && (Includes(observed, A) ==> FamilySatisfied(zone, desired, A))
    && (Includes(observed, AAAA) ==> FamilySatisfied(zone, desired, AAAA))
  }

  ghost predicate Emptied(zone: C.Zone, name: string, selection: Families) {
    && selection != FAMILIES_NONE
    && (Includes(selection, A) ==> C.Family(zone, name, A) == {})
    && (Includes(selection, AAAA) ==> C.Family(zone, name, AAAA) == {})
  }

  // ----- the goal in plain terms -----

  /** A record of the type under some spelling of the name. */
  ghost predicate HostRecord(zone: C.Zone, id: Id, name: string, t: RecordType) {
    id in zone && zone[id].rtype == t && Spells(zone[id].name, name)
  }

  /** The host's one record of the type, with the content, the lifetime and the proxy flag. */
  ghost predicate HoldsAlone(
    zone: C.Zone, id: Id, name: string, t: RecordType, ttl: uint32, options: RecordOptions, content: string)
  {
    && HostRecord(zone, id, name, t)
    && zone[id].content == content && zone[id].ttl == ttl && options.proxy == Some(zone[id].proxied)
    && forall other :: HostRecord(zone, other, name, t) ==> other == id
  }

  ghost predicate HoldsExactly(
    zone: C.Zone, name: string, t: RecordType, ttl: uint32, options: RecordOptions, content: Option<string>)
  {
    if content.None? then forall id :: !HostRecord(zone, id, name, t)
    else exists id :: HoldsAlone(zone, id, name, t, ttl, options, content.value)
  }

  lemma FamilyMeans(zone: C.Zone, name: string, t: RecordType)
    requires Canonical(name)
    ensures forall id :: id in C.Family(zone, name, t) <==> HostRecord(zone, id, name, t)
    ensures C.Family(zone, name, t) == {} <==> forall id :: !HostRecord(zone, id, name, t)
  {
    hide NormalizeApiName, Spells;
    forall id ensures id in C.Family(zone, name, t) <==> HostRecord(zone, id, name, t) {
      if id in zone {
        FilterMeans(zone[id].name, name);
      }
    }
    if C.Family(zone, name, t) != {} {
      var id :| id in C.Family(zone, name, t);
      assert HostRecord(zone, id, name, t);
    }
  }

  lemma FamilySatisfiedMeans(zone: C.Zone, desired: DesiredState, t: RecordType)
    requires Canonical(desired.name) && (t == A || t == AAAA)
    ensures FamilySatisfied(zone, desired, t) <==>
      HoldsExactly(zone, desired.name, t, desired.ttl, desired.options, if t == A then desired.ipv4 else desired.ipv6)
  {
    FamilyMeans(zone, desired.name, t);
    hide Spells, NormalizeApiName;
    var content := if t == A then desired.ipv4 else desired.ipv6;
    if content.Some? && HoldsExactly(zone, desired.name, t, desired.ttl, desired.options, content) {
      var id :| HoldsAlone(zone, id, desired.name, t, desired.ttl, desired.options, content.value);
      assert C.Family(zone, desired.name, t) == {id};
    }
    if content.Some? && FamilySatisfied(zone, desired, t) {
      var id :| C.Family(zone, desired.name, t) == {id} && Carries(zone[id], desired, t);
      assert id in C.Family(zone, desired.name, t);
      assert HoldsAlone(zone, id, desired.name, t, desired.ttl, desired.options, content.value);
    }
  }

  /** The goal: no alias, and of each observed family just the desired address, or nothing. */
  lemma SatisfiedMeans(zone: C.Zone, desired: DesiredState, observed: Families)
    requires Canonical(desired.name)
    ensures Satisfied(zone, desired, observed) <==>
      && observed != Families(false, false, false)
      && (forall id :: !HostRecord(zone, id, desired.name, CNAME))
      && (observed.a ==> HoldsExactly(zone, desired.name, A, desired.ttl, desired.options, desired.ipv4))
      && (observed.aaaa ==> HoldsExactly(zone, desired.name, AAAA, desired.ttl, desired.options, desired.ipv6))
  {
    hide HoldsExactly, FamilySatisfied;
    FamilyMeans(zone, desired.name, CNAME);
    FamilySatisfiedMeans(zone, desired, A);
    FamilySatisfiedMeans(zone, desired, AAAA);
  }

  lemma EmptiedMeans(zone: C.Zone, name: string, selection: Families)
    requires Canonical(name)
    ensures Emptied(zone, name, selection) <==>
      && selection != Families(false, false, false)
      && (selection.a ==> forall id :: !HostRecord(zone, id, name, A))
      && (selection.aaaa ==> forall id :: !HostRecord(zone, id, name, AAAA))
  {
    FamilyMeans(zone, name, A);
    FamilyMeans(zone, name, AAAA);
  }

  // ----- reading a family -----

  /** The records are those of the family, one for one. */
  ghost predicate Lists(zone: C.Zone, name: string, t: RecordType, records: seq<Record>) {
    && DistinctIds(records)
    && (forall r :: r in records ==> r.id in C.Family(zone, name, t) && r == C.ToRecord(r.id, zone[r.id]))
    && (forall id :: id in C.Family(zone, name, t) ==> C.ToRecord(id, zone[id]) in records)
  }

  ghost function IdsOf(records: seq<Record>): set<Id> {
    set r | r in records :: r.id
  }

  lemma {:induction false} IdsCounted(records: seq<Record>)
    requires DistinctIds(records)
    ensures |IdsOf(records)| == |records|
  {
    if records != [] {
      IdsCounted(records[1..]);
      assert records == [records[0]] + records[1..];
      assert IdsOf(records) == {records[0].id} + IdsOf(records[1..]);
      assert records[0].id !in IdsOf(records[1..]);
    }
  }

  /** The records of a type that a read yields are those of the family, one for one. */
  lemma ReadFamily(zone: C.Zone, name: string, state: State, t: RecordType)
    requires C.Reads(zone, name, state)
    ensures var rs := ByType(state.records, t);
      && Lists(zone, name, t, rs)
      && (forall r :: r in rs <==> r.id in C.Family(zone, name, t) && r == C.ToRecord(r.id, zone[r.id]))
      && |rs| == |C.Family(zone, name, t)|
      && (rs == [] <==> C.Family(zone, name, t) == {})
  {
    ByTypeFacts(state.records, t);
    var rs := ByType(state.records, t);
    forall r ensures r in rs <==> r.id in C.Family(zone, name, t) && r == C.ToRecord(r.id, zone[r.id]) {}
    forall id | id in C.Family(zone, name, t) ensures C.ToRecord(id, zone[id]) in rs {
      assert C.Managed(zone, id, name);
    }
    IdsCounted(rs);
    assert IdsOf(rs) == C.Family(zone, name, t) by {
      forall id | id in C.Family(zone, name, t) ensures id in IdsOf(rs) {
        assert C.ToRecord(id, zone[id]) in rs;
      }
    }
  }

  lemma MatchesMeansCarries(zone: C.Zone, desired: DesiredState, t: RecordType, id: Id)
    requires Canonical(desired.name) && desired.Address(t).Some? && id in C.Family(zone, desired.name, t)
    ensures Matches(C.ToRecord(id, zone[id]), desired.Want(t)) <==> Carries(zone[id], desired, t)
    ensures Matches(C.ToRecord(id, zone[id]), desired.Want(t).(name := "")) <==> Carries(zone[id], desired, t)
  {
    ReadBackName(zone[id].name, desired.name);
  }

  // ----- the verifier decides the goal -----

  lemma OneElement<T>(s: set<T>, x: T)
    requires x in s && |s| == 1
    ensures s == {x}
  {
    assert |s - {x}| == 0;
    assert s == (s - {x}) + {x};
  }

  lemma VerifyFamilyDecides(zone: C.Zone, state: State, desired: DesiredState, t: RecordType)
    requires Canonical(desired.name) && C.Reads(zone, desired.name, state)
    ensures VerifyTypeState(ByType(state.records, t), WantOf(desired, t)).None? <==> FamilySatisfied(zone, desired, t)
  {
    var rs, family := ByType(state.records, t), C.Family(zone, desired.name, t);
    ReadFamily(zone, desired.name, state, t);
    if desired.Address(t).Some? {
      if |rs| == 1 {
        assert rs[0] in rs;
        OneElement(family, rs[0].id);
        MatchesMeansCarries(zone, desired, t, rs[0].id);
      } else {
        forall id ensures family != {id} {
          assert |{id}| == 1;
        }
      }
    }
  }

  lemma CnameRead(zone: C.Zone, name: string, state: State)
    requires C.Reads(zone, name, state)
    ensures CnameTargets(state) == [] <==> C.Family(zone, name, CNAME) == {}
  {
    ReadFamily(zone, name, state, CNAME);
  }

  /** The verifier accepts a state read from the zone exactly when the zone satisfies the goal. */
  lemma VerifierDecides(zone: C.Zone, state: State, desired: DesiredState, observed: Families)
    requires Canonical(desired.name) && C.Reads(zone, desired.name, state)
    ensures VerifyObservedAddressState(state, desired, observed).None? <==> Satisfied(zone, desired, observed)
  {
    CnameRead(zone, desired.name, state);
    VerifyFamilyDecides(zone, state, desired, A);
    VerifyFamilyDecides(zone, state, desired, AAAA);
  }

  /** So does the planner, by planning nothing: the exit without an update is sound. */
  lemma EmptyPlanDecides(zone: C.Zone, state: State, desired: DesiredState, observed: Families)
    requires Canonical(desired.name) && C.Reads(zone, desired.name, state)
    ensures ObservedPlan(state, desired, observed) == Ok([]) <==> Satisfied(zone, desired, observed)
  {
    VerifierDecides(zone, state, desired, observed);
    PlannerAgreesWithVerifier(state, desired, observed);
    forall r | r in state.records ensures NormalizeName(r.name) == NormalizeName(desired.name) {
      ReadBackName(zone[r.id].name, desired.name);
    }
  }

  lemma DeletedDecides(zone: C.Zone, name: string, state: State, selection: Families)
    requires C.Reads(zone, name, state)
    ensures VerifyDeletedTypes(state, selection).None? <==> Emptied(zone, name, selection)
    ensures DeletePlan(state, selection) == Ok([]) <==> Emptied(zone, name, selection)
  {
    ReadFamily(zone, name, state, A);
    ReadFamily(zone, name, state, AAAA);
    DeletePlannerAgreesWithVerifier(state, selection);
  }

  // ----- what a plan does to the zone -----

  /** A change of the server that reconciling may cause. */
  ghost predicate Allowed(zone: C.Zone, desired: DesiredState, observed: Families, s: C.Step) {
    match s
    case Remove(id) => C.Managed(zone, id, desired.name) && Includes(observed, zone[id].rtype)
    case Patch(id, body) =>
      && C.Managed(zone, id, desired.name) && Includes(observed, zone[id].rtype)
      && desired.Address(zone[id].rtype).Some? && body == C.BodyOf(desired.Want(zone[id].rtype))
    case Post(id, body) =>
      && id !in zone && Includes(observed, body.rtype)
      && desired.Address(body.rtype).Some? && body == C.BodyOf(desired.Want(body.rtype))
      && C.Family(zone, desired.name, body.rtype) == {}
  }

  /** The kept record: untouched if it carries the goal, else patched, and then no other record carried it. */
  ghost predicate Keeps(zone: C.Zone, desired: DesiredState, t: RecordType, steps: seq<C.Step>, keep: Id)
    requires desired.Address(t).Some?
  {
    && keep in C.Family(zone, desired.name, t)
    && (forall id :: id in C.Family(zone, desired.name, t) && id != keep ==> C.Remove(id) in steps)
    && if Carries(zone[keep], desired, t) then forall s :: s in steps ==> s.id != keep
       else
         && C.Patch(keep, C.BodyOf(desired.Want(t))) in steps
         && forall id :: id in C.Family(zone, desired.name, t) ==> !Carries(zone[id], desired, t)
  }

  ghost predicate Posts(desired: DesiredState, t: RecordType, steps: seq<C.Step>, id: Id)
    requires desired.Address(t).Some?
  {
    && C.Post(id, C.BodyOf(desired.Want(t))) in steps
    && forall s :: s in steps && s.Post? && s.body.rtype == t ==> s.id == id
  }

  ghost predicate FamilyRepaired(zone: C.Zone, desired: DesiredState, t: RecordType, steps: seq<C.Step>) {
    var family := C.Family(zone, desired.name, t);
    if desired.Address(t).None? then forall id :: id in family ==> C.Remove(id) in steps
    else if family == {} then exists id :: Posts(desired, t, steps, id)
    else exists keep :: Keeps(zone, desired, t, steps, keep)
  }

  ghost predicate RepairsZone(zone: C.Zone, desired: DesiredState, observed: Families, steps: seq<C.Step>) {
    && C.Separate(steps)
    && (forall s :: s in steps ==> Allowed(zone, desired, observed, s))
    && (Includes(observed, A) ==> FamilyRepaired(zone, desired, A, steps))
    && (Includes(observed, AAAA) ==> FamilyRepaired(zone, desired, AAAA, steps))
  }

  lemma FamilyRepairedBySame(zone: C.Zone, desired: DesiredState, f: RecordType, s: seq<C.Step>, t: seq<C.Step>)
    requires forall x :: x in s <==> x in t
    ensures FamilyRepaired(zone, desired, f, s) ==> FamilyRepaired(zone, desired, f, t)
  {
    if FamilyRepaired(zone, desired, f, s) && desired.Address(f).Some? {
      if C.Family(zone, desired.name, f) == {} {
        var id :| Posts(desired, f, s, id);
        assert Posts(desired, f, t, id);
      } else {
        var keep :| Keeps(zone, desired, f, s, keep);
        assert Keeps(zone, desired, f, t, keep);
      }
    }
  }

  lemma RepairsPermuted(zone: C.Zone, desired: DesiredState, observed: Families, s: seq<C.Step>, t: seq<C.Step>)
    requires RepairsZone(zone, desired, observed, s) && multiset(s) == multiset(t)
    ensures RepairsZone(zone, desired, observed, t)
  {
    C.SeparatePermuted(s, t);
    SameMembers(s, t);
    FamilyRepairedBySame(zone, desired, A, s, t);
    FamilyRepairedBySame(zone, desired, AAAA, s, t);
  }

  // ----- the planner repairs the zone -----

  /** The shape of a family's plan in terms of the zone. */
  ghost predicate FamilyOperation(zone: C.Zone, desired: DesiredState, t: RecordType, o: Operation) {
    match o.kind
    case Delete => o.current.id in C.Family(zone, desired.name, t)
    case Update =>
      o.current.id in C.Family(zone, desired.name, t) && desired.Address(t).Some? && o.desired == desired.Want(t)
    case Create =>
      && desired.Address(t).Some? && o.desired == desired.Want(t)
      && C.Family(zone, desired.name, t) == {}
    case Unsupported(_) => false
  }

  lemma FamilyPlanShape(
    zone: C.Zone, desired: DesiredState, t: RecordType, records: seq<Record>, ops: Plan)
    requires forall r :: r in records ==> r.id in C.Family(zone, desired.name, t)
    requires records == [] ==> C.Family(zone, desired.name, t) == {}
    requires Repairs(ops, records, WantOf(desired, t))
    ensures forall o :: o in ops ==> FamilyOperation(zone, desired, t, o)
    ensures (exists o :: o in ops && o.kind.Create?) ==> |ops| == 1
  {
    if desired.Address(t).Some? && records != [] {
      var keep :| keep in records && RepairsAround(ops, records, desired.Want(t), keep);
    }
  }

  /** Operations become steps position by position. */
  lemma StepMembers(plan: Plan, minted: seq<Id>)
    requires C.Creates(plan) <= |minted|
    ensures forall o :: o in plan && !o.kind.Create? ==> C.StepOf(o, Id("")) in C.PlanSteps(plan, minted)
    ensures forall s :: s in C.PlanSteps(plan, minted) ==>
      (exists o :: o in plan && s == C.StepOf(o, s.id) && (o.kind.Create? ==> s.id in minted))
    ensures forall o :: o in plan && o.kind.Create? ==>
      exists s :: s in C.PlanSteps(plan, minted) && s.Post? && s.body == C.BodyOf(o.desired)
  {
    var steps := C.PlanSteps(plan, minted);
    forall i | 0 <= i < |plan| ensures |steps| == |plan|
      && exists id :: steps[i] == C.StepOf(plan[i], id) && (plan[i].kind.Create? ==> id in minted) {
      C.PlanStepAt(plan, minted, i);
    }
    forall o | o in plan && !o.kind.Create? ensures C.StepOf(o, Id("")) in steps {
      var i :| 0 <= i < |plan| && plan[i] == o;
      assert steps[i] in steps;
    }
    forall o | o in plan && o.kind.Create? ensures exists s :: s in steps && s.Post? && s.body == C.BodyOf(o.desired) {
      var i :| 0 <= i < |plan| && plan[i] == o;
      assert steps[i] in steps;
    }
    forall s | s in steps
      ensures exists o :: o in plan && s == C.StepOf(o, s.id) && (o.kind.Create? ==> s.id in minted)
    {
      var i :| 0 <= i < |steps| && steps[i] == s;
      assert plan[i] in plan;
    }
  }

  /** A step on a record that was there comes from an operation of one of the two families. */
  ghost predicate FromPlans(zone: C.Zone, mine: Plan, others: Plan, s: C.Step) {
    s.id in zone ==> exists o :: (o in mine || o in others) && !o.kind.Create? && s == C.StepOf(o, s.id)
  }

  lemma DeletedSteps(
    zone: C.Zone, name: string, t: RecordType, records: seq<Record>, plan: Plan, steps: seq<C.Step>,
    kept: Option<Record>)
    requires Lists(zone, name, t, records)
    requires forall r :: r in records && kept != Some(r) ==> DeleteOf(r) in plan
    requires forall o :: o in plan && !o.kind.Create? ==> C.StepOf(o, Id("")) in steps
    ensures forall id :: id in C.Family(zone, name, t) && (kept.None? || id != kept.value.id) ==> C.Remove(id) in steps
  {
    forall id | id in C.Family(zone, name, t) && (kept.None? || id != kept.value.id) ensures C.Remove(id) in steps {
      var r := C.ToRecord(id, zone[id]);
      assert r in records && DeleteOf(r) in plan;
      assert C.StepOf(DeleteOf(r), Id("")) == C.Remove(id);
    }
  }

  lemma UntouchedKept(
    zone: C.Zone, desired: DesiredState, t: RecordType, u: RecordType, records: seq<Record>, keep: Record,
    mine: Plan, others: Plan, steps: seq<C.Step>)
    requires t != u && Lists(zone, desired.name, t, records) && keep in records
    requires forall o :: o in mine ==> o.kind.Delete? && o.current in records && o.current != keep
    requires forall o :: o in others ==> FamilyOperation(zone, desired, u, o)
    requires forall s :: s in steps ==> FromPlans(zone, mine, others, s)
    ensures forall s :: s in steps ==> s.id != keep.id
  {
    forall s | s in steps ensures s.id != keep.id {
      assert FromPlans(zone, mine, others, s);
      if s.id in zone {
        var o :| (o in mine || o in others) && !o.kind.Create? && s == C.StepOf(o, s.id);
        if o in mine && o.current.id == keep.id {
          SameId(records, o.current, keep);
        }
      }
    }
  }

  lemma CarriersListed(zone: C.Zone, desired: DesiredState, t: RecordType, records: seq<Record>)
    requires Canonical(desired.name) && desired.Address(t).Some? && Lists(zone, desired.name, t, records)
    ensures (forall r :: r in records ==> !Matches(r, desired.Want(t))) ==>
      forall id :: id in C.Family(zone, desired.name, t) ==> !Carries(zone[id], desired, t)
  {
    forall id | id in C.Family(zone, desired.name, t) && Carries(zone[id], desired, t)
      ensures exists r :: r in records && Matches(r, desired.Want(t))
    {
      MatchesMeansCarries(zone, desired, t, id);
      assert C.ToRecord(id, zone[id]) in records;
    }
  }

  /** A family is repaired by steps that come from its plan and from operations on another family. */
  lemma FamilyStepsRepair(
    zone: C.Zone, desired: DesiredState, t: RecordType, u: RecordType, records: seq<Record>,
    mine: Plan, others: Plan, steps: seq<C.Step>)
    requires Canonical(desired.name) && t != u && Lists(zone, desired.name, t, records)
    requires Repairs(mine, records, WantOf(desired, t))
    requires forall o :: o in others ==> FamilyOperation(zone, desired, u, o)
    requires forall o :: o in mine && !o.kind.Create? ==> C.StepOf(o, Id("")) in steps
    requires forall s :: s in steps ==> FromPlans(zone, mine, others, s)
    requires records != [] || desired.Address(t).None?
    ensures FamilyRepaired(zone, desired, t, steps)
  {
    hide Matches, C.Managed, C.BodyOf;
    if desired.Address(t).None? {
      DeletedSteps(zone, desired.name, t, records, mine, steps, None);
    } else {
      var want := desired.Want(t);
      var keep :| keep in records && RepairsAround(mine, records, want, keep);
      DeletedSteps(zone, desired.name, t, records, mine, steps, Some(keep));
      MatchesMeansCarries(zone, desired, t, keep.id);
      if Matches(keep, want) {
        UntouchedKept(zone, desired, t, u, records, keep, mine, others, steps);
      } else {
        assert UpdateOf(keep, want) in mine;
        assert C.StepOf(UpdateOf(keep, want), Id("")) == C.Patch(keep.id, C.BodyOf(want));
        CarriersListed(zone, desired, t, records);
      }
      assert Keeps(zone, desired, t, steps, keep.id);
    }
  }

  /** The one create of a family becomes the one post of its type. */
  lemma FamilyPost(zone: C.Zone, desired: DesiredState, plan: Plan, p: nat, t: RecordType, minted: seq<Id>)
    requires C.Creates(plan) <= |minted| && p < |plan| && desired.Address(t).Some?
    requires plan[p] == CreateOf(desired.Want(t))
    requires forall i :: 0 <= i < |plan| && plan[i].kind.Create? && plan[i].desired.rtype == t ==> i == p
    ensures exists id :: Posts(desired, t, C.PlanSteps(plan, minted), id)
  {
    var steps := C.PlanSteps(plan, minted);
    C.PlanStepAt(plan, minted, p);
    assert steps[p] in steps;
    forall s | s in steps && s.Post? && s.body.rtype == t ensures s.id == steps[p].id {
      var i :| 0 <= i < |steps| && steps[i] == s;
      C.PlanStepAt(plan, minted, i);
    }
    assert Posts(desired, t, steps, steps[p].id);
  }

  /** All that the two family plans need to know about each other. */
  ghost predicate PlanParts(zone: C.Zone, desired: DesiredState, observed: Families, pa: Plan, pq: Plan) {
    && (forall o :: o in pa ==> Includes(observed, A) && FamilyOperation(zone, desired, A, o))
    && (forall o :: o in pq ==> Includes(observed, AAAA) && FamilyOperation(zone, desired, AAAA, o))
    && Planner.DistinctTargets(pa) && Planner.DistinctTargets(pq)
    && ((exists o :: o in pa && o.kind.Create?) ==> |pa| == 1)
    && ((exists o :: o in pq && o.kind.Create?) ==> |pq| == 1)
  }

  lemma FamilyPlanParts(zone: C.Zone, state: State, desired: DesiredState, observed: Families, t: RecordType)
    requires C.Reads(zone, desired.name, state)
    ensures var ops := FamilyPlan(state, desired, observed, t);
      && (forall o :: o in ops ==> Includes(observed, t) && FamilyOperation(zone, desired, t, o))
      && Planner.DistinctTargets(ops)
      && ((exists o :: o in ops && o.kind.Create?) ==> |ops| == 1)
  {
    var rs := ByType(state.records, t);
    ReadFamily(zone, desired.name, state, t);
    TypePlanRepairs(rs, WantOf(desired, t));
    FamilyPlanShape(zone, desired, t, rs, TypePlan(rs, WantOf(desired, t)));
  }

  lemma PlanHasParts(zone: C.Zone, state: State, desired: DesiredState, observed: Families)
    requires Canonical(desired.name) && C.Reads(zone, desired.name, state)
    ensures PlanParts(zone, desired, observed,
      FamilyPlan(state, desired, observed, A), FamilyPlan(state, desired, observed, AAAA))
  {
    FamilyPlanParts(zone, state, desired, observed, A);
    FamilyPlanParts(zone, state, desired, observed, AAAA);
  }

  lemma {:induction false} BatchAccepts(plan: Plan)
    requires forall o :: o in plan ==> !o.kind.Unsupported? && (o.kind.Delete? || o.desired.rtype in {A, AAAA})
    ensures C.BatchOf(plan).Ok?
  {
    if plan != [] {
      BatchAccepts(plan[..|plan| - 1]);
      assert plan[|plan| - 1] in plan;
    }
  }

  lemma PartsTarget(zone: C.Zone, desired: DesiredState, observed: Families, pa: Plan, pq: Plan)
    requires PlanParts(zone, desired, observed, pa, pq)
    ensures C.TargetsApart(pa + pq) && C.TargetsIn(zone, pa + pq) && C.BatchOf(pa + pq).Ok?
  {
    var ops := pa + pq;
    forall i, j | 0 <= i < j < |ops| && !ops[i].kind.Create? && !ops[j].kind.Create?
      ensures ops[i].current.id != ops[j].current.id
    {
      if i < |pa| <= j {
        assert ops[i] in pa && ops[j] in pq;
      }
    }
    forall o | o in ops ensures !o.kind.Unsupported? && (o.kind.Delete? || o.desired.rtype in {A, AAAA}) {
      assert o in pa || o in pq;
    }
    BatchAccepts(ops);
  }

  lemma PartsAllowed(
    zone: C.Zone, desired: DesiredState, observed: Families, pa: Plan, pq: Plan, minted: seq<Id>)
    requires PlanParts(zone, desired, observed, pa, pq)
    requires C.Creates(pa + pq) <= |minted| && C.Mintable(zone, minted)
    ensures forall s :: s in C.PlanSteps(pa + pq, minted) ==> Allowed(zone, desired, observed, s)
    ensures forall s :: s in C.PlanSteps(pa + pq, minted) ==> FromPlans(zone, pa, pq, s)
  {
    hide C.PlanSteps, NormalizeApiName;
    StepMembers(pa + pq, minted);
    forall s | s in C.PlanSteps(pa + pq, minted)
      ensures Allowed(zone, desired, observed, s)
      ensures FromPlans(zone, pa, pq, s)
    {
      var o :| o in pa + pq && s == C.StepOf(o, s.id) && (o.kind.Create? ==> s.id in minted);
      assert o in pa || o in pq;
    }
  }

  lemma CreatedRepairs(
    zone: C.Zone, desired: DesiredState, t: RecordType, u: RecordType, others: Plan, plan: Plan, start: nat,
    minted: seq<Id>)
    requires t != u && C.Creates(plan) <= |minted| && start < |plan|
    requires desired.Address(t).Some? && C.Family(zone, desired.name, t) == {}
    requires plan[start] == CreateOf(desired.Want(t))
    requires forall i :: 0 <= i < |plan| && i != start ==> plan[i] in others
    requires forall o :: o in others ==> FamilyOperation(zone, desired, u, o)
    ensures FamilyRepaired(zone, desired, t, C.PlanSteps(plan, minted))
  {
    FamilyPost(zone, desired, plan, start, t, minted);
  }

  lemma PlannedRepairs(
    zone: C.Zone, desired: DesiredState, t: RecordType, u: RecordType, records: seq<Record>, mine: Plan, others: Plan,
    plan: Plan, minted: seq<Id>)
    requires Canonical(desired.name) && t != u && Lists(zone, desired.name, t, records)
    requires C.Creates(plan) <= |minted| && (forall o :: o in mine ==> o in plan)
    requires Repairs(mine, records, WantOf(desired, t)) && (records != [] || desired.Address(t).None?)
    requires forall o :: o in others ==> FamilyOperation(zone, desired, u, o)
    requires forall s :: s in C.PlanSteps(plan, minted) ==> FromPlans(zone, mine, others, s)
    ensures FamilyRepaired(zone, desired, t, C.PlanSteps(plan, minted))
  {
    StepMembers(plan, minted);
    FamilyStepsRepair(zone, desired, t, u, records, mine, others, C.PlanSteps(plan, minted));
  }

  lemma PlanRepairsFamily(
    zone: C.Zone, state: State, desired: DesiredState, observed: Families, t: RecordType, u: RecordType,
    mine: Plan, others: Plan, plan: Plan, start: nat, minted: seq<Id>)
    requires Canonical(desired.name) && C.Reads(zone, desired.name, state) && t != u
    requires C.Creates(plan) <= |minted| && C.Mintable(zone, minted)
    requires mine == TypePlan(ByType(state.records, t), WantOf(desired, t))
    requires (start == 0 && plan == mine + others) || (start == |others| && plan == others + mine)
    requires forall o :: o in others ==> FamilyOperation(zone, desired, u, o)
    requires forall s :: s in C.PlanSteps(plan, minted) ==> FromPlans(zone, mine, others, s)
    ensures FamilyRepaired(zone, desired, t, C.PlanSteps(plan, minted))
  {
    var records := ByType(state.records, t);
    ReadFamily(zone, desired.name, state, t);
    TypePlanRepairs(records, WantOf(desired, t));
    if desired.Address(t).Some? && records == [] {
      assert forall i :: 0 <= i < |plan| && i != start ==> plan[i] in others;
      CreatedRepairs(zone, desired, t, u, others, plan, start, minted);
    } else {
      PlannedRepairs(zone, desired, t, u, records, mine, others, plan, minted);
    }
  }

  /** The plan built from any read repairs the zone it was read from. */
  lemma PlanRepairsZone(
    zone: C.Zone, state: State, desired: DesiredState, observed: Families, plan: Plan, minted: seq<Id>)
    requires Canonical(desired.name) && C.Reads(zone, desired.name, state)
    requires ObservedPlan(state, desired, observed) == Ok(plan)
    requires C.Creates(plan) <= |minted| && C.Mintable(zone, minted)
    ensures C.TargetsApart(plan) && C.TargetsIn(zone, plan) && C.BatchOf(plan).Ok?
    ensures RepairsZone(zone, desired, observed, C.PlanSteps(plan, minted))
  {
    var pa, pq := FamilyPlan(state, desired, observed, A), FamilyPlan(state, desired, observed, AAAA);
    assert plan == pa + pq;
    PlanHasParts(zone, state, desired, observed);
    PartsTarget(zone, desired, observed, pa, pq);
    PartsAllowed(zone, desired, observed, pa, pq, minted);
    C.PlanStepsSeparate(zone, plan, minted);
    if Includes(observed, A) {
      PlanRepairsFamily(zone, state, desired, observed, A, AAAA, pa, pq, plan, 0, minted);
    }
    if Includes(observed, AAAA) {
      assert forall s :: FromPlans(zone, pa, pq, s) ==> FromPlans(zone, pq, pa, s);
      PlanRepairsFamily(zone, state, desired, observed, AAAA, A, pq, pa, plan, |pa|, minted);
    }
  }

  // ----- which record is kept -----

  /** Of two records read for the host, of one type, the one with the smaller id is listed first. */
  lemma ListedById(zone: C.Zone, name: string, t: RecordType, rs: seq<Record>, i: nat, j: nat)
    requires Canonical(name) && Lists(zone, name, t, rs) && Ordered(RecordLess, rs) && i < j < |rs|
    ensures StringLess(rs[i].id.text, rs[j].id.text)
  {
    hide NormalizeName, StringLess;
    assert rs[i] in rs && rs[j] in rs;
    ReadBackName(zone[rs[i].id].name, name);
    ReadBackName(zone[rs[j].id].name, name);
    OrderedAt(RecordLess, rs, i, j);
    StringLessTotal();
    assert TotalAt(StringLess, rs[i].id.text, rs[j].id.text, rs[i].id.text);
  }

  /** The record comes before all others of the given ids. */
  ghost predicate Least(keep: Id, ids: set<Id>) {
    keep in ids && forall id :: id in ids && id != keep ==> StringLess(keep.text, id.text)
  }

  lemma KeptIndexLeast(zone: C.Zone, desired: DesiredState, t: RecordType, rs: seq<Record>, k: nat, i: nat)
    requires Canonical(desired.name) && desired.Address(t).Some?
    requires Lists(zone, desired.name, t, rs) && Ordered(RecordLess, rs)
    requires k < |rs| && k == KeepIndex(rs, desired.Want(t)) && i < |rs| && i != k
    ensures Carries(zone[rs[i].id], desired, t) || !Carries(zone[rs[k].id], desired, t) ==>
      StringLess(rs[k].id.text, rs[i].id.text)
    ensures Carries(zone[rs[i].id], desired, t) ==> Carries(zone[rs[k].id], desired, t)
  {
    hide Matches, Carries, StringLess, Ordered, C.Managed;
    assert rs[i] in rs && rs[k] in rs;
    MatchesMeansCarries(zone, desired, t, rs[i].id);
    MatchesMeansCarries(zone, desired, t, rs[k].id);
    if k < i {
      ListedById(zone, desired.name, t, rs, k, i);
    }
  }

  lemma KeptBefore(zone: C.Zone, desired: DesiredState, t: RecordType, rs: seq<Record>, k: nat, id: Id)
    requires Canonical(desired.name) && desired.Address(t).Some?
    requires Lists(zone, desired.name, t, rs) && Ordered(RecordLess, rs)
    requires k < |rs| && k == KeepIndex(rs, desired.Want(t)) && id in C.Family(zone, desired.name, t)
    ensures rs[k].id in C.Family(zone, desired.name, t)
    ensures id != rs[k].id && (Carries(zone[id], desired, t) || !Carries(zone[rs[k].id], desired, t)) ==>
      StringLess(rs[k].id.text, id.text)
    ensures Carries(zone[id], desired, t) ==> Carries(zone[rs[k].id], desired, t)
  {
    hide Matches, Carries, StringLess, Ordered, C.Managed, KeepIndex;
    assert rs[k] in rs && C.ToRecord(id, zone[id]) in rs;
    var i :| 0 <= i < |rs| && rs[i] == C.ToRecord(id, zone[id]);
    if i != k {
      KeptIndexLeast(zone, desired, t, rs, k, i);
    }
  }

  lemma KeptInFamily(zone: C.Zone, name: string, t: RecordType, rs: seq<Record>, k: nat)
    requires Lists(zone, name, t, rs) && k < |rs|
    ensures rs[k].id in C.Family(zone, name, t)
  {
    assert rs[k] in rs;
  }

  lemma LeastKept(zone: C.Zone, desired: DesiredState, t: RecordType, rs: seq<Record>, k: nat)
    requires Canonical(desired.name) && desired.Address(t).Some?
    requires Lists(zone, desired.name, t, rs) && Ordered(RecordLess, rs)
    requires k < |rs| && k == KeepIndex(rs, desired.Want(t))
    ensures var carriers := Carriers(zone, desired, t);
      Least(rs[k].id, if carriers == {} then C.Family(zone, desired.name, t) else carriers)
  {
    hide Matches, Carries, StringLess, Ordered, C.Managed, KeepIndex, Lists, Canonical;
    var keep := rs[k].id;
    KeptInFamily(zone, desired.name, t, rs, k);
    forall id | id in C.Family(zone, desired.name, t)
      ensures id != keep && (Carries(zone[id], desired, t) || !Carries(zone[keep], desired, t)) ==>
        StringLess(keep.text, id.text)
      ensures Carries(zone[id], desired, t) ==> Carries(zone[keep], desired, t)
    {
      KeptBefore(zone, desired, t, rs, k, id);
    }
    if Carries(zone[keep], desired, t) {
      assert keep in Carriers(zone, desired, t);
    } else {
      assert Carriers(zone, desired, t) == {};
    }
  }

  lemma ReadRecordHasId(id: Id, stored: C.ApiRecord)
    ensures C.ToRecord(id, stored).id == id
  {
  }

  lemma TypePlanDeletes(zone: C.Zone, name: string, t: RecordType, rs: seq<Record>, want: Record, k: nat)
    requires Lists(zone, name, t, rs) && k < |rs| && k == KeepIndex(rs, want)
    ensures forall o :: o in TypePlan(rs, Some(want)) && o.kind.Delete? ==> o.current.id != rs[k].id
    ensures forall id :: id in C.Family(zone, name, t) && id != rs[k].id ==>
      DeleteOf(C.ToRecord(id, zone[id])) in TypePlan(rs, Some(want))
  {
    hide Matches, Sort, C.Managed, C.ToRecord;
    KeptPlanMembers(rs, k, want);
    SortMembers(OperationLess, KeptPlan(rs, k, want));
    assert rs[k] in rs;
    forall o | o in TypePlan(rs, Some(want)) && o.kind.Delete? ensures o.current.id != rs[k].id {
      if o.current.id == rs[k].id {
        SameId(rs, o.current, rs[k]);
      }
    }
    forall id | id in C.Family(zone, name, t) && id != rs[k].id
      ensures DeleteOf(C.ToRecord(id, zone[id])) in TypePlan(rs, Some(want))
    {
      ReadRecordHasId(id, zone[id]);
      assert C.ToRecord(id, zone[id]) in rs;
    }
  }

  ghost predicate Deleted(plan: Plan, id: Id) {
    exists o :: o in plan && o.kind.Delete? && o.current.id == id
  }

  lemma ByTypeOrdered(records: seq<Record>, t: RecordType)
    ensures Ordered(RecordLess, ByType(records, t))
  {
    RecordOrder();
    SortOrdered(RecordLess, OfType(records, t));
  }

  /** A family's deletions are the operations of its own part of the plan. */
  lemma OnlyOwnFamily(zone: C.Zone, read: State, desired: DesiredState, observed: Families, plan: Plan, t: RecordType)
    requires C.Reads(zone, desired.name, read) && ObservedPlan(read, desired, observed) == Ok(plan)
    requires t == A || t == AAAA
    ensures forall o :: o in FamilyPlan(read, desired, observed, t) ==> o in plan
    ensures forall o :: o in plan && o.kind.Delete? && o.current.id in C.Family(zone, desired.name, t) ==>
      o in FamilyPlan(read, desired, observed, t)
  {
    hide FamilyPlan, C.Reads, CnameTargets;
    FamilyPlanParts(zone, read, desired, observed, A);
    FamilyPlanParts(zone, read, desired, observed, AAAA);
  }

  /**
    Of the records that carry the goal, the plan keeps the one with the smallest
    id; if there is none, of all the family's records. It deletes all others.
  */
  lemma KeptIsLeast(zone: C.Zone, read: State, desired: DesiredState, observed: Families, plan: Plan, t: RecordType)
    returns (keep: Id)
    requires Canonical(desired.name) && C.Reads(zone, desired.name, read)
    requires ObservedPlan(read, desired, observed) == Ok(plan)
    requires Includes(observed, t) && desired.Address(t).Some? && C.Family(zone, desired.name, t) != {}
    ensures var carriers := Carriers(zone, desired, t);
      Least(keep, if carriers == {} then C.Family(zone, desired.name, t) else carriers)
    ensures forall id :: id in C.Family(zone, desired.name, t) ==> (id != keep <==> Deleted(plan, id))
  {
    hide Matches, Carries, Sort, C.Managed, C.Reads, TypePlan, ByType, CnameTargets, Least, Carriers;
    var rs, want := ByType(read.records, t), desired.Want(t);
    ReadFamily(zone, desired.name, read, t);
    ByTypeOrdered(read.records, t);
    var k := KeepIndex(rs, want);
    keep := rs[k].id;
    LeastKept(zone, desired, t, rs, k);
    TypePlanDeletes(zone, desired.name, t, rs, want, k);
    OnlyOwnFamily(zone, read, desired, observed, plan, t);
    var mine := FamilyPlan(read, desired, observed, t);
    forall id | id in C.Family(zone, desired.name, t) ensures id != keep <==> Deleted(plan, id) {
      ReadRecordHasId(id, zone[id]);
      if id != keep {
        assert DeleteOf(C.ToRecord(id, zone[id])) in mine;
      }
    }
  }

  /** The body holds the host's name without its final dot, and the given content. */
  ghost predicate Sends(desired: DesiredState, t: RecordType, content: Option<string>, body: C.Body) {
    && desired.name != "" && content.Some?
    && body.name == desired.name[..|desired.name| - 1] && body.rtype == t && body.content == content.value
    && body.ttl == desired.ttl && body.proxied == desired.options.proxy
  }

  /** The host's records of the type may go or be given the content; a record may come where there is none. */
  ghost predicate RightChange(zone: C.Zone, desired: DesiredState, t: RecordType, content: Option<string>, s: C.Step) {
    match s
    case Remove(id) => HostRecord(zone, id, desired.name, t)
    case Patch(id, body) => HostRecord(zone, id, desired.name, t) && Sends(desired, t, content, body)
    case Post(id, body) =>
      id !in zone && Sends(desired, t, content, body) && forall i :: !HostRecord(zone, i, desired.name, t)
  }

  /** A change to the records of an observed family, with that family's own address. */
  ghost predicate RightStep(zone: C.Zone, desired: DesiredState, observed: Families, s: C.Step) {
    || (observed.a && RightChange(zone, desired, A, desired.ipv4, s))
    || (observed.aaaa && RightChange(zone, desired, AAAA, desired.ipv6, s))
  }

  lemma ChangeMeans(zone: C.Zone, desired: DesiredState, t: RecordType, s: C.Step)
    requires Canonical(desired.name) && (t == A || t == AAAA)
    ensures RightChange(zone, desired, t, if t == A then desired.ipv4 else desired.ipv6, s) <==>
      match s
      case Remove(id) => id in C.Family(zone, desired.name, t)
      case Patch(id, body) =>
        id in C.Family(zone, desired.name, t) && desired.Address(t).Some? && body == C.BodyOf(desired.Want(t))
      case Post(id, body) =>
        && id !in zone && desired.Address(t).Some? && body == C.BodyOf(desired.Want(t))
        && C.Family(zone, desired.name, t) == {}
  {
    assert desired.name != "" by {
      CanonicalFacts(desired.name);
    }
    FamilyMeans(zone, desired.name, t);
    hide HostRecord, C.Family, C.BodyOf, Canonical;
    if desired.Address(t).Some? {
      C.BodyMeans(desired.Want(t));
    }
  }

  /** The changes that a reconciliation may cause are exactly these. */
  lemma AllowedMeans(zone: C.Zone, desired: DesiredState, observed: Families, s: C.Step)
    requires Canonical(desired.name)
    ensures Allowed(zone, desired, observed, s) <==> RightStep(zone, desired, observed, s)
  {
    hide RightChange, NormalizeApiName, Canonical;
    ChangeMeans(zone, desired, A, s);
    ChangeMeans(zone, desired, AAAA, s);
  }
}
