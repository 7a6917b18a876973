/**
  How short a plan can be. Every change of the server lowers the cost of at
  most one family by one, save a patch that turns a surplus record of one
  address family into the missing record of the other. The planner never emits
  such a patch, so its plan is a shortest one exactly when there is no
  opportunity for one.
*/
module Minimality {
  import opened Wrappers
  import opened Names
  import opened Provider
  import opened Planner
  import opened Reconcile
  import opened Guarantees
  import C = Cloudflare

  // ----- runs of the server -----

  /** The server carries out a step on a record it has, and mints ids it has not. */
  ghost predicate LegalStep(zone: C.Zone, s: C.Step) {
    s.Post? <==> s.id !in zone
  }

  ghost predicate Legal(zone: C.Zone, steps: seq<C.Step>) {
    forall k :: 0 <= k < |steps| ==> LegalStep(C.Commit(zone, steps[..k]), steps[k])
  }

  /** Any sequence of changes, by any plan, that ends where the verifier accepts. */
  ghost predicate Reaches(zone: C.Zone, desired: DesiredState, observed: Families, steps: seq<C.Step>) {
    Legal(zone, steps) && Satisfied(C.Commit(zone, steps), desired, observed)
  }

  // ----- cost -----

  /** The changes a family of n records, m of them as desired, needs on its own. */
  function Cost(n: nat, m: nat, wanted: bool): nat {
    if !wanted then n else if n == 0 then 1 else if m > 0 then n - 1 else n
  }

  function Paid(n: nat, m: nat, wanted: bool, seen: bool): nat {
    if seen then Cost(n, m, wanted) else 0
  }

  ghost function FamilyCost(zone: C.Zone, desired: DesiredState, observed: Families, t: RecordType): nat {
    Paid(|C.Family(zone, desired.name, t)|, |Carriers(zone, desired, t)|,
         desired.Address(t).Some?, Includes(observed, t))
  }

  lemma SubsetSize<T>(a: set<T>, b: set<T>)
    requires a <= b
    ensures |a| <= |b|
  {
    assert b == a + (b - a);
  }

  lemma CarriersWithin(zone: C.Zone, desired: DesiredState, t: RecordType)
    ensures |Carriers(zone, desired, t)| <= |C.Family(zone, desired.name, t)|
  {
    SubsetSize(Carriers(zone, desired, t), C.Family(zone, desired.name, t));
  }

  ghost function TotalCost(zone: C.Zone, desired: DesiredState, observed: Families): nat {
    FamilyCost(zone, desired, observed, A) + FamilyCost(zone, desired, observed, AAAA)
  }

  predicate Surplus(n: nat, wanted: bool) {
    n >= if wanted then 2 else 1
  }

  ghost predicate Spare(zone: C.Zone, desired: DesiredState, observed: Families, t: RecordType, u: RecordType) {
    && Includes(observed, t) && Includes(observed, u)
    && Surplus(|C.Family(zone, desired.name, t)|, desired.Address(t).Some?)
    && desired.Address(u).Some? && C.Family(zone, desired.name, u) == {}
  }

  /** One observed family has a record to spare and the other lacks its only one. */
  ghost predicate Opportunity(zone: C.Zone, desired: DesiredState, observed: Families) {
    Spare(zone, desired, observed, A, AAAA) || Spare(zone, desired, observed, AAAA, A)
  }

  ghost function Potential(zone: C.Zone, desired: DesiredState, observed: Families): int {
    TotalCost(zone, desired, observed) - if Opportunity(zone, desired, observed) then 1 else 0
  }

  lemma RepairsLength(
    zone: C.Zone, desired: DesiredState, t: RecordType, records: seq<Record>, ops: Plan)
    requires Canonical(desired.name) && Lists(zone, desired.name, t, records)
    requires |records| == |C.Family(zone, desired.name, t)| && Repairs(ops, records, WantOf(desired, t))
    ensures |Carriers(zone, desired, t)| <= |records|
    ensures |ops| == Cost(|records|, |Carriers(zone, desired, t)|, desired.Address(t).Some?)
  {
    CarriersWithin(zone, desired, t);
    if desired.Address(t).Some? && records != [] {
      var keep :| keep in records && RepairsAround(ops, records, desired.Want(t), keep);
      MatchesMeansCarries(zone, desired, t, keep.id);
      CarriersListed(zone, desired, t, records);
      if Matches(keep, desired.Want(t)) {
        assert keep.id in Carriers(zone, desired, t);
      } else {
        assert Carriers(zone, desired, t) == {};
      }
    }
  }

  lemma FamilyPlanLength(
    zone: C.Zone, read: State, desired: DesiredState, observed: Families, t: RecordType)
    requires Canonical(desired.name) && C.Reads(zone, desired.name, read)
    ensures |FamilyPlan(read, desired, observed, t)| == FamilyCost(zone, desired, observed, t)
  {
    var records := ByType(read.records, t);
    ReadFamily(zone, desired.name, read, t);
    TypePlanRepairs(records, WantOf(desired, t));
    RepairsLength(zone, desired, t, records, TypePlan(records, WantOf(desired, t)));
  }

  /** The planner's plan is as long as the cost says. */
  lemma PlanLength(
    zone: C.Zone, read: State, desired: DesiredState, observed: Families, plan: Plan)
    requires Canonical(desired.name) && C.Reads(zone, desired.name, read)
    requires ObservedPlan(read, desired, observed) == Ok(plan)
    ensures |plan| == TotalCost(zone, desired, observed)
  {
    FamilyPlanLength(zone, read, desired, observed, A);
    FamilyPlanLength(zone, read, desired, observed, AAAA);
  }

  lemma FamilySatisfiedCost(
    zone: C.Zone, desired: DesiredState, observed: Families, t: RecordType)
    requires Includes(observed, t) ==> FamilySatisfied(zone, desired, t)
    ensures FamilyCost(zone, desired, observed, t) == 0
    ensures Includes(observed, t) && desired.Address(t).Some? ==> C.Family(zone, desired.name, t) != {}
  {
    if Includes(observed, t) && desired.Address(t).Some? {
      var id :| C.Family(zone, desired.name, t) == {id} && Carries(zone[id], desired, t);
      assert Carriers(zone, desired, t) == {id};
    }
  }

  lemma SatisfiedCostsNothing(zone: C.Zone, desired: DesiredState, observed: Families)
    requires Satisfied(zone, desired, observed)
    ensures Potential(zone, desired, observed) == TotalCost(zone, desired, observed) == 0
  {
    FamilySatisfiedCost(zone, desired, observed, A);
    FamilySatisfiedCost(zone, desired, observed, AAAA);
  }

  // ----- one step -----

  function Bit(b: bool): nat { if b then 1 else 0 }

  lemma Without<T>(f: set<T>, g: set<T>, x: T)
    requires f - {x} == g - {x}
    ensures |f| == |f - {x}| + Bit(x in f) && |g| == |f - {x}| + Bit(x in g)
  {
    assert x in f ==> f == (f - {x}) + {x};
    assert x !in f ==> f == f - {x};
    assert x in g ==> g == (g - {x}) + {x};
    assert x !in g ==> g == g - {x};
  }

  ghost predicate AgreeBut<T(!new)>(f: set<T>, g: set<T>, x: T) {
    forall y :: y != x ==> (y in f <==> y in g)
  }

  lemma SameElsewhere(one: C.Zone, other: C.Zone, x: Id, desired: DesiredState, t: RecordType)
    requires C.SameBut(one, other, x)
    ensures AgreeBut(C.Family(one, desired.name, t), C.Family(other, desired.name, t), x)
    ensures AgreeBut(Carriers(one, desired, t), Carriers(other, desired, t), x)
  {
    forall id | id != x ensures C.At(one, id) == C.At(other, id) {
      assert C.At(one - {x}, id) == C.At(other - {x}, id);
    }
    forall id | id != x ensures id in C.Family(one, desired.name, t) <==> id in C.Family(other, desired.name, t) {
      assert C.At(one, id) == C.At(other, id);
    }
    forall id | id != x ensures id in Carriers(one, desired, t) <==> id in Carriers(other, desired, t) {
      assert C.At(one, id) == C.At(other, id);
    }
  }

  lemma SetMoves<T(!new)>(f: set<T>, g: set<T>, m: set<T>, k: set<T>, x: T) returns (r: nat, q: nat)
    requires AgreeBut(f, g, x) && AgreeBut(m, k, x) && m <= f
    ensures q <= r
    ensures |f| == r + Bit(x in f) && |g| == r + Bit(x in g)
    ensures |m| == q + Bit(x in m) && |k| == q + Bit(x in k)
  {
    assert f - {x} == g - {x} && m - {x} == k - {x};
    r, q := |f - {x}|, |m - {x}|;
    Without(f, g, x);
    Without(m, k, x);
    SubsetSize(m - {x}, f - {x});
  }

  /** The step moves a record straight from one address family to the other. */
  ghost predicate Crosses(zone: C.Zone, s: C.Step, desired: DesiredState) {
    var after := C.Advance(zone, s);
    || (s.id in C.Family(zone, desired.name, A) && s.id in C.Family(after, desired.name, AAAA))
    || (s.id in C.Family(zone, desired.name, AAAA) && s.id in C.Family(after, desired.name, A))
  }

  /**
    A change of one record, seen from one family: r records are left without
    it, q of them as desired; the record is in the family before (F) or after
    (G) the change, and among the desired before (M) or after (K).
  */
  datatype Move = Move(r: nat, q: nat, inF: bool, inM: bool, inG: bool, inK: bool) {
    predicate Valid() { q <= r && (inM ==> inF) && (inK ==> inG) }

    function Size(): nat { r + Bit(inF) }

    function SizeAfter(): nat { r + Bit(inG) }

    function Price(wanted: bool, seen: bool): nat { Paid(Size(), q + Bit(inM), wanted, seen) }

    function PriceAfter(wanted: bool, seen: bool): nat { Paid(SizeAfter(), q + Bit(inK), wanted, seen) }
  }

  predicate Chance(na: nat, wa: bool, oa: bool, nq: nat, wq: bool, oq: bool) {
    oa && oq && ((Surplus(na, wa) && wq && nq == 0) || (Surplus(nq, wq) && wa && na == 0))
  }

  /** One record moves: the two prices drop by one at most, or by two and the chance is gone. */
  lemma PotentialMove(a: Move, wa: bool, oa: bool, q: Move, wq: bool, oq: bool)
    requires a.Valid() && q.Valid() && !(a.inF && q.inF) && !(a.inG && q.inG)
    ensures !(a.inF && q.inG) && !(q.inF && a.inG) ==>
      a.Price(wa, oa) + q.Price(wq, oq) <= a.PriceAfter(wa, oa) + q.PriceAfter(wq, oq) + 1
    ensures a.Price(wa, oa) + q.Price(wq, oq) - Bit(Chance(a.Size(), wa, oa, q.Size(), wq, oq)) <=
      a.PriceAfter(wa, oa) + q.PriceAfter(wq, oq) - Bit(Chance(a.SizeAfter(), wa, oa, q.SizeAfter(), wq, oq)) + 1
  {
  }

  ghost predicate Moved(
    zone: C.Zone, after: C.Zone, x: Id, desired: DesiredState, observed: Families, t: RecordType, v: Move)
  {
    && v.Valid()
    && (v.inF <==> x in C.Family(zone, desired.name, t)) && (v.inG <==> x in C.Family(after, desired.name, t))
    && |C.Family(zone, desired.name, t)| == v.Size() && |C.Family(after, desired.name, t)| == v.SizeAfter()
    && FamilyCost(zone, desired, observed, t) == v.Price(desired.Address(t).Some?, Includes(observed, t))
    && FamilyCost(after, desired, observed, t) == v.PriceAfter(desired.Address(t).Some?, Includes(observed, t))
  }

  /** A change at one id moves its record in or out of a family and nothing else. */
  lemma FamilyMoved(
    zone: C.Zone, after: C.Zone, x: Id, desired: DesiredState, observed: Families, t: RecordType) returns (v: Move)
    requires C.SameBut(zone, after, x)
    ensures Moved(zone, after, x, desired, observed, t, v)
  {
    var f, g := C.Family(zone, desired.name, t), C.Family(after, desired.name, t);
    var m, k := Carriers(zone, desired, t), Carriers(after, desired, t);
    SameElsewhere(zone, after, x, desired, t);
    assert m <= f && k <= g;
    var r, q := SetMoves(f, g, m, k, x);
    v := Move(r, q, x in f, x in m, x in g, x in k);
  }

  lemma OpportunityCounted(zone: C.Zone, desired: DesiredState, observed: Families)
    ensures Opportunity(zone, desired, observed) <==>
      Chance(|C.Family(zone, desired.name, A)|, desired.Address(A).Some?, Includes(observed, A),
             |C.Family(zone, desired.name, AAAA)|, desired.Address(AAAA).Some?, Includes(observed, AAAA))
  {
  }

  lemma MovesLower(
    zone: C.Zone, after: C.Zone, x: Id, desired: DesiredState, observed: Families, a: Move, q: Move)
    requires Moved(zone, after, x, desired, observed, A, a) && Moved(zone, after, x, desired, observed, AAAA, q)
    ensures !(a.inF && q.inG) && !(q.inF && a.inG) ==>
      TotalCost(zone, desired, observed) <= TotalCost(after, desired, observed) + 1
    ensures Potential(zone, desired, observed) <= Potential(after, desired, observed) + 1
  {
    PotentialMove(a, desired.Address(A).Some?, Includes(observed, A),
                  q, desired.Address(AAAA).Some?, Includes(observed, AAAA));
    OpportunityCounted(zone, desired, observed);
    OpportunityCounted(after, desired, observed);
  }

  lemma StepLowersByOne(zone: C.Zone, s: C.Step, desired: DesiredState, observed: Families)
    ensures !Crosses(zone, s, desired) ==>
      TotalCost(zone, desired, observed) <= TotalCost(C.Advance(zone, s), desired, observed) + 1
    ensures Potential(zone, desired, observed) <= Potential(C.Advance(zone, s), desired, observed) + 1
  {
    var after := C.Advance(zone, s);
    C.AdvanceElsewhere(zone, s);
    var a := FamilyMoved(zone, after, s.id, desired, observed, A);
    var q := FamilyMoved(zone, after, s.id, desired, observed, AAAA);
    MovesLower(zone, after, s.id, desired, observed, a, q);
  }

  // ----- whole runs -----

  /** No run that reaches the goal is shorter than the potential. */
  lemma {:induction false} RunAtLeastPotential(
    zone: C.Zone, desired: DesiredState, observed: Families, steps: seq<C.Step>)
    ensures Potential(zone, desired, observed) <= Potential(C.Commit(zone, steps), desired, observed) + |steps|
    decreases |steps|
  {
    if steps != [] {
      var front := steps[..|steps| - 1];
      RunAtLeastPotential(zone, desired, observed, front);
      StepLowersByOne(C.Commit(zone, front), steps[|steps| - 1], desired, observed);
    }
  }

  ghost predicate StaysInFamilies(zone: C.Zone, desired: DesiredState, steps: seq<C.Step>) {
    forall k :: 0 <= k < |steps| ==> !Crosses(C.Commit(zone, steps[..k]), steps[k], desired)
  }

  lemma {:induction false} RunAtLeastCost(
    zone: C.Zone, desired: DesiredState, observed: Families, steps: seq<C.Step>)
    requires StaysInFamilies(zone, desired, steps)
    ensures TotalCost(zone, desired, observed) <= TotalCost(C.Commit(zone, steps), desired, observed) + |steps|
    decreases |steps|
  {
    if steps != [] {
      var front := steps[..|steps| - 1];
      forall k | 0 <= k < |front| ensures !Crosses(C.Commit(zone, front[..k]), front[k], desired) {
        assert front[..k] == steps[..k] && front[k] == steps[k];
      }
      RunAtLeastCost(zone, desired, observed, front);
      assert !Crosses(C.Commit(zone, steps[..|steps| - 1]), steps[|steps| - 1], desired);
      StepLowersByOne(C.Commit(zone, front), steps[|steps| - 1], desired, observed);
    }
  }

  // ----- the planner's own run -----

  lemma RepairsLegal(
    zone: C.Zone, desired: DesiredState, observed: Families, steps: seq<C.Step>)
    requires RepairsZone(zone, desired, observed, steps)
    ensures Legal(zone, steps)
  {
    forall k | 0 <= k < |steps| ensures LegalStep(C.Commit(zone, steps[..k]), steps[k]) {
      C.CommitAt(zone, steps[..k], steps[k].id);
      assert C.At(C.Commit(zone, steps[..k]), steps[k].id) == C.At(zone, steps[k].id);
      assert Allowed(zone, desired, observed, steps[k]);
    }
  }

  /** The planner's operations are a legal run to the goal, as long as the cost. */
  lemma PlanReaches(zone: C.Zone, desired: DesiredState, observed: Families)
    returns (steps: seq<C.Step>)
    requires Canonical(desired.name) && desired.options.proxy.Some? && observed != FAMILIES_NONE
    requires C.Family(zone, desired.name, CNAME) == {}
    ensures Reaches(zone, desired, observed, steps) && |steps| == TotalCost(zone, desired, observed)
  {
    var read := C.ReadExists(zone, desired.name);
    CnameRead(zone, desired.name, read);
    var plan := ObservedPlan(read, desired, observed).value;
    var minted := C.MintableExists(zone, C.Creates(plan));
    steps := C.PlanSteps(plan, minted);
    PlanRepairsZone(zone, read, desired, observed, plan, minted);
    Converges(zone, desired, observed, steps);
    RepairsLegal(zone, desired, observed, steps);
    PlanLength(zone, read, desired, observed, plan);
    if plan != [] {
      C.PlanStepAt(plan, minted, 0);
    }
  }

  // ----- the one saving the planner does not make -----

  lemma {:induction false} CommitAfter(zone: C.Zone, s: C.Step, rest: seq<C.Step>)
    ensures C.Commit(zone, [s] + rest) == C.Commit(C.Advance(zone, s), rest)
    decreases |rest|
  {
    if rest == [] {
      assert [s] + rest == [s] && [s][..0] == [];
      assert C.Commit(zone, []) == zone;
    } else {
      var front := rest[..|rest| - 1];
      CommitAfter(zone, s, front);
      assert ([s] + rest)[..|rest|] == [s] + front;
    }
  }

  lemma LegalAfter(zone: C.Zone, s: C.Step, rest: seq<C.Step>)
    requires LegalStep(zone, s) && Legal(C.Advance(zone, s), rest)
    ensures Legal(zone, [s] + rest)
  {
    var steps := [s] + rest;
    forall k | 0 <= k < |steps| ensures LegalStep(C.Commit(zone, steps[..k]), steps[k]) {
      if k > 0 {
        assert steps[..k] == [s] + rest[..k - 1];
        CommitAfter(zone, s, rest[..k - 1]);
        assert LegalStep(C.Commit(C.Advance(zone, s), rest[..k - 1]), rest[k - 1]);
      }
    }
  }

  /** What turning a spare record of one family into the missing one of the other does to the families. */
  lemma CrossingMoves(
    zone: C.Zone, desired: DesiredState, t: RecordType, u: RecordType, x: Id, s: C.Step)
    requires Canonical(desired.name) && desired.options.proxy.Some? && desired.Address(u).Some?
    requires t != u && u != CNAME && x in C.Family(zone, desired.name, t) && C.Family(zone, desired.name, u) == {}
    requires s == C.Patch(x, C.BodyOf(desired.Want(u)))
    ensures var after := C.Advance(zone, s);
      && C.Family(after, desired.name, t) == C.Family(zone, desired.name, t) - {x}
      && Carriers(after, desired, t) == Carriers(zone, desired, t) - {x}
      && C.Family(after, desired.name, u) == Carriers(after, desired, u) == {x}
      && (C.Family(zone, desired.name, CNAME) == {} ==> C.Family(after, desired.name, CNAME) == {})
  {
    var after := C.Advance(zone, s);
    BodyManaged(desired, u, zone[x].proxied);
    assert C.At(after, x) == Some(C.Stored(s.body, zone[x].proxied));
    C.AdvanceElsewhere(zone, s);
    SameElsewhere(zone, after, x, desired, t);
    SameElsewhere(zone, after, x, desired, u);
    SameElsewhere(zone, after, x, desired, CNAME);
    assert C.Family(after, desired.name, CNAME) == C.Family(zone, desired.name, CNAME) - {x};
  }

  /** A record to spare: without it the family's cost is one less. */
  lemma SpareRecord(zone: C.Zone, desired: DesiredState, t: RecordType) returns (x: Id)
    requires Surplus(|C.Family(zone, desired.name, t)|, desired.Address(t).Some?)
    ensures x in C.Family(zone, desired.name, t)
    ensures var f, m := C.Family(zone, desired.name, t), Carriers(zone, desired, t);
      Cost(|f|, |m|, desired.Address(t).Some?) == Cost(|f - {x}|, |m - {x}|, desired.Address(t).Some?) + 1
  {
    var f, m := C.Family(zone, desired.name, t), Carriers(zone, desired, t);
    var c :| c in f && (m != {} ==> c in m);
    if desired.Address(t).Some? {
      assert |f - {c}| == |f| - 1;
      x :| x in f - {c};
      assert m != {} ==> c in m - {x};
    } else {
      x := c;
    }
  }

  /** With a record to spare, some run is one step shorter than the planner's. */
  lemma ShorterByCrossing(
    zone: C.Zone, desired: DesiredState, observed: Families, t: RecordType, u: RecordType)
    returns (steps: seq<C.Step>)
    requires Canonical(desired.name) && desired.options.proxy.Some?
    requires C.Family(zone, desired.name, CNAME) == {}
    requires (t == A && u == AAAA) || (t == AAAA && u == A)
    requires Spare(zone, desired, observed, t, u)
    ensures Reaches(zone, desired, observed, steps) && |steps| == TotalCost(zone, desired, observed) - 1
  {
    var x := SpareRecord(zone, desired, t);
    var s := C.Patch(x, C.BodyOf(desired.Want(u)));
    var after := C.Advance(zone, s);
    CrossingMoves(zone, desired, t, u, x, s);
    var rest := PlanReaches(after, desired, observed);
    steps := [s] + rest;
    CommitAfter(zone, s, rest);
    LegalAfter(zone, s, rest);
  }

  // ----- the theorem -----

  /** One A record that is to go and one AAAA record that is to come: one patch does for two changes. */
  lemma OpportunityArises()
    ensures var record := C.ApiRecord("a.", A, "192.0.2.1", 60, true);
      var desired := DesiredState("a.", 60, None, Some("2001:db8::1"), RecordOptions(Some(true)));
      Opportunity(map[Id("one") := record], desired, ObservedFamilies(true, true))
  {
    var zone := map[Id("one") := C.ApiRecord("a.", A, "192.0.2.1", 60, true)];
    assert Id("one") in C.Family(zone, "a.", A);
  }

  /**
    The plan is a shortest run to the goal exactly when no record to spare could
    become a missing one of the other family; otherwise it is one step longer
    than a shortest run. Among runs that keep records in their family it is
    always a shortest one.
  */
  lemma PlanIsShortest(
    zone: C.Zone, read: State, desired: DesiredState, observed: Families, plan: Plan)
    requires Canonical(desired.name) && desired.options.proxy.Some? && C.Reads(zone, desired.name, read)
    requires ObservedPlan(read, desired, observed) == Ok(plan)
    ensures (forall steps :: Reaches(zone, desired, observed, steps) ==> |plan| <= |steps|) <==>
      !Opportunity(zone, desired, observed)
    ensures forall steps :: Reaches(zone, desired, observed, steps) ==> |plan| - 1 <= |steps|
    ensures forall steps :: Reaches(zone, desired, observed, steps) && StaysInFamilies(zone, desired, steps) ==>
      |plan| <= |steps|
    ensures exists steps :: Reaches(zone, desired, observed, steps) && |steps| == |plan|
  {
    CnameRead(zone, desired.name, read);
    PlanLength(zone, read, desired, observed, plan);
    forall steps | Reaches(zone, desired, observed, steps)
      ensures |plan| - (if Opportunity(zone, desired, observed) then 1 else 0) <= |steps|
      ensures StaysInFamilies(zone, desired, steps) ==> |plan| <= |steps|
    {
      RunAtLeastPotential(zone, desired, observed, steps);
      SatisfiedCostsNothing(C.Commit(zone, steps), desired, observed);
      if StaysInFamilies(zone, desired, steps) {
        RunAtLeastCost(zone, desired, observed, steps);
      }
    }
    var own := PlanReaches(zone, desired, observed);
    if Spare(zone, desired, observed, A, AAAA) {
      var shorter := ShorterByCrossing(zone, desired, observed, A, AAAA);
      assert Reaches(zone, desired, observed, shorter);
    } else if Spare(zone, desired, observed, AAAA, A) {
      var shorter := ShorterByCrossing(zone, desired, observed, AAAA, A);
      assert Reaches(zone, desired, observed, shorter);
    }
  }
}
