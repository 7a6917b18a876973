/**
  The planner and the verifier, and what they owe each other: the plan does not
  depend on listing order, and it is empty exactly when the verifier accepts.
*/
module Planner {
  import opened Wrappers
  import opened Ordering
  import opened Names
  import Text
  import opened Provider

  // ----- matching -----

  predicate Matches(current: Record, desired: Record) {
    && (desired.name == "" || NormalizeName(current.name) == NormalizeName(desired.name))
    && current.rtype == desired.rtype
    && current.content == desired.content
    && current.ttl == desired.ttl
    && current.options == desired.options
  }

  // ----- planning one family -----

  function Deletes(records: seq<Record>): (ops: Plan)
    ensures |ops| == |records| && forall i :: 0 <= i < |ops| ==> ops[i] == DeleteOf(records[i])
  {
    seq(|records|, i requires 0 <= i < |records| => DeleteOf(records[i]))
  }

  function FirstMatch(records: seq<Record>, want: Record, from: nat): (k: nat)
    requires records != [] && from <= |records|
    requires forall i :: 0 <= i < from ==> !Matches(records[i], want)
    ensures k < |records|
    ensures Matches(records[k], want) || (k == 0 && forall r :: r in records ==> !Matches(r, want))
    ensures from <= k || k == 0
    ensures forall i :: 0 <= i < k ==> !Matches(records[i], want)
    decreases |records| - from
  {
    if from == |records| then 0
    else if Matches(records[from], want) then from
    else FirstMatch(records, want, from + 1)
  }

  /** The index kept: the first match, or the first record when none matches. */
  function KeepIndex(records: seq<Record>, want: Record): (k: nat)
    requires records != []
    ensures k < |records|
    ensures Matches(records[k], want) || forall r :: r in records ==> !Matches(r, want)
    ensures forall i :: 0 <= i < k ==> !Matches(records[i], want)
    ensures !Matches(records[k], want) ==> k == 0
  {
    FirstMatch(records, want, 0)
  }

  function KeptPlan(records: seq<Record>, keep: nat, want: Record): Plan
    requires keep < |records|
  {
    Deletes(records[..keep]) + Deletes(records[keep + 1..]) +
      if Matches(records[keep], want) then [] else [UpdateOf(records[keep], want)]
  }

  function TypePlan(records: seq<Record>, want: Option<Record>): Plan {
    match want
    case None => Deletes(records)
    case Some(w) =>
      if records == [] then [CreateOf(w)]
      else
        Sort(OperationLess, KeptPlan(records, KeepIndex(records, w), w))
  }

  function WantOf(desired: DesiredState, t: RecordType): Option<Record> {
    if desired.Address(t).Some? then Some(desired.Want(t)) else None
  }

  ghost predicate RepairsAround(ops: Plan, records: seq<Record>, want: Record, keep: Record) {
    && (forall o :: o in ops <==>
         || (o == DeleteOf(o.current) && o.current in records && o.current != keep)
         || (o == UpdateOf(keep, want) && !Matches(keep, want)))
    && (Matches(keep, want) || forall r :: r in records ==> !Matches(r, want))
    && |ops| == |records| - if Matches(keep, want) then 1 else 0
  }

  /**
    What a family's plan is, whatever the order of its operations: without an
    address everything goes; with one, a missing record is created, else one
    record is kept, and it is updated only when nothing matched.
  */
  ghost predicate Repairs(ops: Plan, records: seq<Record>, want: Option<Record>) {
    match want
    case None => |ops| == |records| && forall o :: o in ops <==> o == DeleteOf(o.current) && o.current in records
    case Some(w) =>
      if records == [] then ops == [CreateOf(w)]
      else exists keep :: keep in records && RepairsAround(ops, records, w, keep)
  }

  ghost predicate DistinctTargets(ops: Plan) {
    forall i, j :: 0 <= i < j < |ops| ==> ops[i].current.id != ops[j].current.id
  }

  lemma KeptPlanMembers(records: seq<Record>, k: nat, w: Record)
    requires DistinctIds(records) && k < |records|
    ensures DistinctTargets(KeptPlan(records, k, w))
    ensures forall o :: o in KeptPlan(records, k, w) <==>
      || (o == DeleteOf(o.current) && o.current in records && o.current != records[k])
      || (o == UpdateOf(records[k], w) && !Matches(records[k], w))
  {
    hide Matches;
    var ops := KeptPlan(records, k, w);
    forall o: Operation | o == DeleteOf(o.current) && o.current in records && o.current != records[k] ensures o in ops {
      var i :| 0 <= i < |records| && records[i] == o.current;
      assert ops[if i < k then i else i - 1] == o;
    }
    if !Matches(records[k], w) {
      assert ops[|ops| - 1] == UpdateOf(records[k], w);
    }
  }

  lemma DistinctTargetsPermuted(s: Plan, t: Plan)
    requires multiset(s) == multiset(t) && DistinctTargets(s)
    ensures DistinctTargets(t)
  {
    assert forall i, j :: 0 <= i < j < |s| ==> s[i] != s[j];
    NoRepeatsPermuted(s, t);
    SameMembers(s, t);
    forall i, j | 0 <= i < j < |t| ensures t[i].current.id != t[j].current.id {
      assert t[i] in s && t[j] in s;
      var k :| 0 <= k < |s| && s[k] == t[i];
      var l :| 0 <= l < |s| && s[l] == t[j];
    }
  }

  lemma TypePlanRepairs(records: seq<Record>, want: Option<Record>)
    requires DistinctIds(records)
    ensures var ops := TypePlan(records, want); Repairs(ops, records, want) && DistinctTargets(ops)
  {
    hide Matches, Sort;
    if want.Some? && records != [] {
      var w := want.value;
      var k := KeepIndex(records, w);
      var unsorted := KeptPlan(records, k, w);
      KeptPlanMembers(records, k, w);
      SortMembers(OperationLess, unsorted);
      DistinctTargetsPermuted(unsorted, TypePlan(records, want));
      assert RepairsAround(TypePlan(records, want), records, w, records[k]);
    }
  }

  lemma NoTiedOperations(ops: Plan)
    requires DistinctTargets(ops)
    ensures NoTies(OperationLess, ops)
  {
    OperationOrder();
  }

  /** The scan for a matching record, with its fallback to the first one. */
  method FindKept(current: seq<Record>, desired: Record) returns (keepIndex: int)
    requires current != []
    ensures keepIndex == KeepIndex(current, desired)
  {
    hide Matches;
    keepIndex := -1;
    for index := 0 to |current|
      invariant forall i :: 0 <= i < index ==> !Matches(current[i], desired)
      invariant FirstMatch(current, desired, index) == KeepIndex(current, desired)
      invariant keepIndex == -1
    {
      if Matches(current[index], desired) {
        keepIndex := index;
        break;
      }
    }
    if keepIndex < 0 {
      keepIndex := 0;
    }
  }

  lemma DeletesNext(records: seq<Record>, from: nat, i: nat)
    requires from <= i < |records|
    ensures Deletes(records[from..i + 1]) == Deletes(records[from..i]) + [DeleteOf(records[i])]
  {
  }

  lemma DeletesNone(records: seq<Record>, i: nat)
    requires i <= |records|
    ensures Deletes(records[i..i]) == []
  {
  }

  /** The loop that deletes every record except the kept one. */
  method DeleteAllBut(records: seq<Record>, keep: nat) returns (operations: Plan)
    requires keep < |records|
    ensures operations == Deletes(records[..keep]) + Deletes(records[keep + 1..])
  {
    hide Deletes;
    DeletesNone(records, 0);
    DeletesNone(records, keep + 1);
    operations := [];
    for i := 0 to |records|
      invariant operations == if i <= keep then Deletes(records[0..i])
        else Deletes(records[0..keep]) + Deletes(records[keep + 1..i])
    {
      if i == keep {
        continue;
      }
      DeletesNext(records, if i < keep then 0 else keep + 1, i);
      operations := operations + [DeleteOf(records[i])];
    }
    assert records[keep + 1..|records|] == records[keep + 1..] && records[0..keep] == records[..keep];
  }

  /** The loop that appends one deletion for every record. */
  method DeleteAll(records: seq<Record>) returns (operations: Plan)
    ensures operations == Deletes(records)
  {
    hide Deletes;
    DeletesNone(records, 0);
    operations := [];
    for i := 0 to |records|
      invariant operations == Deletes(records[0..i])
    {
      DeletesNext(records, 0, i);
      operations := operations + [DeleteOf(records[i])];
    }
    assert records[0..|records|] == records;
  }

  method Sorted(operations: Plan) returns (sorted: Plan)
    ensures multiset(sorted) == multiset(operations) && Ordered(OperationLess, sorted)
    ensures DistinctTargets(operations) ==> sorted == Sort(OperationLess, operations)
  {
    var a := new Operation[|operations|](i requires 0 <= i < |operations| => operations[i]);
    assert a[..] == operations;
    SortOperations(a);
    sorted := a[..];
    if DistinctTargets(operations) {
      OperationOrder();
      SortMembers(OperationLess, operations);
      SortOrdered(OperationLess, operations);
      DistinctTargetsPermuted(operations, sorted);
      NoTiedOperations(sorted);
      OrderedUnique(OperationLess, sorted, Sort(OperationLess, operations));
    }
  }

  method BuildTypePlan(current: seq<Record>, want: Option<Record>) returns (operations: Plan)
    ensures multiset(operations) == multiset(TypePlan(current, want))
    ensures want.Some? ==> Ordered(OperationLess, operations)
    ensures DistinctIds(current) ==> operations == TypePlan(current, want)
  {
    hide Matches, Sort, OperationLess;
    if want.None? {
      operations := DeleteAll(current);
      return;
    }
    var desired := want.value;
    if |current| == 0 {
      return [CreateOf(desired)];
    }

    var keepIndex := FindKept(current, desired);
    operations := DeleteAllBut(current, keepIndex);
    var keep := current[keepIndex];
    if !Matches(keep, desired) {
      operations := operations + [UpdateOf(keep, desired)];
    }
    assert operations == KeptPlan(current, keepIndex, desired);
    SortMembers(OperationLess, operations);
    if DistinctIds(current) {
      KeptPlanMembers(current, keepIndex, desired);
    }
    operations := Sorted(operations);
  }

  // ----- planning a run -----

  function Contents(records: seq<Record>): seq<string> {
    seq(|records|, i requires 0 <= i < |records| => records[i].content)
  }

  function CnameTargets(state: State): seq<string> {
    Contents(ByType(state.records, CNAME))
  }

  /** The part of the plan that belongs to one family, however its records are listed. */
  function FamilyPlanOf(listed: seq<Record>, desired: DesiredState, observed: Families, t: RecordType): Plan {
    if Includes(observed, t) then TypePlan(listed, WantOf(desired, t)) else []
  }

  /** The same for the listing of a state with distinct ids. */
  function FamilyPlan(state: State, desired: DesiredState, observed: Families, t: RecordType): Plan {
    FamilyPlanOf(ByType(state.records, t), desired, observed, t)
  }

  function ObservedPlan(state: State, desired: DesiredState, observed: Families): Result<Plan, PlanError> {
    if observed == FAMILIES_NONE then Err(NothingSelected)
    else if CnameTargets(state) != [] then Err(HasCname(CnameTargets(state)))
    else Ok(FamilyPlan(state, desired, observed, A) + FamilyPlan(state, desired, observed, AAAA))
  }

  function SelectedRecords(state: State, selection: Families, t: RecordType): seq<Record> {
    if Includes(selection, t) then ByType(state.records, t) else []
  }

  function DeletePlan(state: State, selection: Families): Result<Plan, PlanError> {
    if selection == FAMILIES_NONE then Err(NothingSelected)
    else Ok(Sort(OperationLess,
                 Deletes(SelectedRecords(state, selection, A)) + Deletes(SelectedRecords(state, selection, AAAA))))
  }

  ghost function RecordWith(desired: DesiredState, t: RecordType, content: string): Record {
    Record(Id(""), desired.name, t, content, desired.ttl, desired.options)
  }

  /** What each operation is for, in terms of the two addresses. */
  ghost predicate RightOperation(state: State, desired: DesiredState, observed: Families, o: Operation) {
    match o.kind
    case Create =>
      || (observed.a && desired.ipv4.Some? && o.desired == RecordWith(desired, A, desired.ipv4.value))
      || (observed.aaaa && desired.ipv6.Some? && o.desired == RecordWith(desired, AAAA, desired.ipv6.value))
    case Update => o.current in state.records && (
      || (observed.a && desired.ipv4.Some? && o.current.rtype == A
          && o.desired == RecordWith(desired, A, desired.ipv4.value))
      || (observed.aaaa && desired.ipv6.Some? && o.current.rtype == AAAA
          && o.desired == RecordWith(desired, AAAA, desired.ipv6.value)))
    case Delete =>
      o.current in state.records && ((observed.a && o.current.rtype == A) || (observed.aaaa && o.current.rtype == AAAA))
    case Unsupported(_) => false
  }

  ghost function Aim(o: Operation): RecordType {
    if o.kind.Create? then o.desired.rtype else o.current.rtype
  }

  /** Every operation is for an observed family and carries that family's own address; A comes before AAAA. */
  ghost predicate RightPlan(state: State, desired: DesiredState, observed: Families, plan: Plan) {
    && (forall o :: o in plan ==> RightOperation(state, desired, observed, o))
    && forall i, j :: 0 <= i < j < |plan| && Aim(plan[i]) == AAAA ==> Aim(plan[j]) == AAAA
  }

  /** The operations of one family's plan, for any listing. */
  lemma TypePlanMembers(listed: seq<Record>, want: Option<Record>)
    ensures forall o :: o in TypePlan(listed, want) ==>
      || (o == DeleteOf(o.current) && o.current in listed)
      || (want.Some? && o == UpdateOf(o.current, want.value) && o.current in listed)
      || (want.Some? && o == CreateOf(want.value))
  {
    hide Matches, Sort;
    if want.Some? && listed != [] {
      SortMembers(OperationLess, KeptPlan(listed, KeepIndex(listed, want.value), want.value));
    }
  }

  lemma ListingMembers(records: seq<Record>, t: RecordType, listed: seq<Record>)
    requires Listing(records, t, listed)
    ensures forall r :: r in listed <==> r in records && r.rtype == t
  {
    OfTypeMembers(records, t);
    SameMembers(listed, OfType(records, t));
  }

  lemma FamilyPlanRight(state: State, desired: DesiredState, observed: Families, t: RecordType, listed: seq<Record>)
    requires Listing(state.records, t, listed) && (t == A || t == AAAA)
    ensures forall o :: o in FamilyPlanOf(listed, desired, observed, t) ==>
      RightOperation(state, desired, observed, o) && Aim(o) == t
  {
    hide TypePlan;
    ListingMembers(state.records, t, listed);
    TypePlanMembers(listed, WantOf(desired, t));
  }

  lemma PartsRight(
    state: State, desired: DesiredState, observed: Families, a: seq<Record>, q: seq<Record>, four: Plan, six: Plan)
    requires Listing(state.records, A, a) && Listing(state.records, AAAA, q)
    requires multiset(four) == multiset(FamilyPlanOf(a, desired, observed, A))
    requires multiset(six) == multiset(FamilyPlanOf(q, desired, observed, AAAA))
    ensures RightPlan(state, desired, observed, four + six)
  {
    hide FamilyPlanOf, RightOperation, Listing;
    FamilyPlanRight(state, desired, observed, A, a);
    FamilyPlanRight(state, desired, observed, AAAA, q);
    SameMembers(four, FamilyPlanOf(a, desired, observed, A));
    SameMembers(six, FamilyPlanOf(q, desired, observed, AAAA));
    var plan := four + six;
    forall i | 0 <= i < |plan| ensures Aim(plan[i]) == if i < |four| then A else AAAA {
      if i < |four| {
        assert plan[i] in four;
      } else {
        assert plan[i] in six;
      }
    }
  }

  /** Some listing of each family by the filter and an unstable sort leads to these operations. */
  ghost predicate PlansSomeListing(state: State, desired: DesiredState, observed: Families, plan: Plan) {
    exists a, q :: Listing(state.records, A, a) && Listing(state.records, AAAA, q) &&
      multiset(plan) == multiset(FamilyPlanOf(a, desired, observed, A) + FamilyPlanOf(q, desired, observed, AAAA))
  }

  lemma SomeListing(records: seq<Record>, t: RecordType) returns (listed: seq<Record>)
    ensures Listing(records, t, listed)
  {
    listed := ByType(records, t);
    RecordOrder();
    SortMembers(RecordLess, OfType(records, t));
    SortOrdered(RecordLess, OfType(records, t));
  }

  lemma DistinctByType(records: seq<Record>, t: RecordType)
    ensures DistinctIds(records) ==> DistinctIds(ByType(records, t))
  {
    if DistinctIds(records) {
      ByTypeFacts(records, t);
    }
  }

  lemma PartsPlanned(
    state: State, desired: DesiredState, observed: Families, a: seq<Record>, q: seq<Record>, four: Plan, six: Plan)
    requires Listing(state.records, A, a) && Listing(state.records, AAAA, q)
    requires multiset(four) == multiset(FamilyPlanOf(a, desired, observed, A))
    requires multiset(six) == multiset(FamilyPlanOf(q, desired, observed, AAAA))
    ensures PlansSomeListing(state, desired, observed, four + six)
  {
    assert multiset(four + six) ==
      multiset(FamilyPlanOf(a, desired, observed, A) + FamilyPlanOf(q, desired, observed, AAAA));
  }

  lemma TargetsMean(current: State, aliases: seq<Record>)
    requires forall r :: r in aliases <==> r in current.records && r.rtype == CNAME
    ensures forall c :: c in Contents(aliases) <==>
      exists x :: x in current.records && x.rtype == CNAME && x.content == c
  {
    var targets := Contents(aliases);
    forall c ensures c in targets <==> exists x :: x in current.records && x.rtype == CNAME && x.content == c {
      if x :| x in current.records && x.rtype == CNAME && x.content == c {
        assert x in aliases;
        var k :| 0 <= k < |aliases| && aliases[k] == x;
        assert targets[k] == c;
      }
      if c in targets {
        var k :| 0 <= k < |targets| && targets[k] == c;
        assert aliases[k] in aliases;
      }
    }
  }

  method BuildObservedAddressPlan(current: State, desired: DesiredState, observed: Families)
    returns (r: Result<Plan, PlanError>)
    ensures DistinctIds(current.records) ==> r == ObservedPlan(current, desired, observed)
    ensures r.Err? <==> observed == FAMILIES_NONE || exists c :: c in current.records && c.rtype == CNAME
    ensures r == Err(NothingSelected) <==> observed == FAMILIES_NONE
    ensures r.Ok? ==> PlansSomeListing(current, desired, observed, r.value)
    ensures r.Ok? ==> RightPlan(current, desired, observed, r.value)
    ensures r.Err? && r.error.HasCname? ==>
      forall c :: c in r.error.targets <==> exists x :: x in current.records && x.rtype == CNAME && x.content == c
  {
    hide TypePlan, Sort, Ordered, ByType, Listing, RightPlan, PlansSomeListing;
    if observed == FAMILIES_NONE {
      return Err(NothingSelected);
    }
    var aliases := RecordsByType(current, CNAME);
    ListingMembers(current.records, CNAME, aliases);
    var targets := Contents(aliases);
    if |targets| > 0 {
      assert aliases[0] in aliases;
      TargetsMean(current, aliases);
      return Err(HasCname(targets));
    }
    ghost var listedA := SomeListing(current.records, A);
    ghost var listedQ := SomeListing(current.records, AAAA);
    ghost var four, six: Plan := [], [];
    var operations: Plan := [];
    if Includes(observed, A) {
      var records := RecordsByType(current, A);
      listedA := records;
      DistinctByType(current.records, A);
      operations := BuildTypePlan(records, WantOf(desired, A));
      four := operations;
    }
    if Includes(observed, AAAA) {
      var records := RecordsByType(current, AAAA);
      listedQ := records;
      DistinctByType(current.records, AAAA);
      var more := BuildTypePlan(records, WantOf(desired, AAAA));
      operations := operations + more;
      six := more;
    }
    assert operations == four + six;
    PartsRight(current, desired, observed, listedA, listedQ, four, six);
    PartsPlanned(current, desired, observed, listedA, listedQ, four, six);
    return Ok(operations);
  }

  lemma DeletesFirst(x: Record, rest: seq<Record>)
    ensures Deletes([x] + rest) == [DeleteOf(x)] + Deletes(rest)
  {
  }

  lemma IsDeletionOf(o: Operation, x: Record)
    ensures o == DeleteOf(x) <==> o == DeleteOf(o.current) && o.current == x
  {
  }

  lemma CountFirst<T>(x: T, rest: seq<T>, y: T)
    ensures multiset([x] + rest)[y] == multiset(rest)[y] + if y == x then 1 else 0
  {
  }

  lemma {:induction false} DeletesCounted(s: seq<Record>, o: Operation)
    ensures multiset(Deletes(s))[o] == if o == DeleteOf(o.current) then multiset(s)[o.current] else 0
    decreases |s|
  {
    hide Deletes, DeleteOf;
    if s == [] {
      assert Deletes(s) == [];
    } else {
      var x, rest := s[0], s[1..];
      DeletesCounted(rest, o);
      assert s == [x] + rest;
      DeletesFirst(x, rest);
      CountFirst(DeleteOf(x), Deletes(rest), o);
      CountFirst(x, rest, o.current);
      IsDeletionOf(o, x);
    }
  }

  lemma DeletesPermuted(s: seq<Record>, t: seq<Record>)
    requires multiset(s) == multiset(t)
    ensures multiset(Deletes(s)) == multiset(Deletes(t))
  {
    forall o ensures multiset(Deletes(s))[o] == multiset(Deletes(t))[o] {
      DeletesCounted(s, o);
      DeletesCounted(t, o);
    }
  }

  lemma ByTypeMembers(records: seq<Record>, t: RecordType, listed: seq<Record>)
    requires Listing(records, t, listed)
    ensures multiset(Deletes(listed)) == multiset(Deletes(ByType(records, t)))
  {
    SortMembers(RecordLess, OfType(records, t));
    DeletesPermuted(listed, ByType(records, t));
  }

  lemma JoinedDeletes(a: seq<Record>, q: seq<Record>)
    requires DistinctIds(a) && DistinctIds(q) && forall r, s :: r in a && s in q ==> r.id != s.id
    ensures DistinctTargets(Deletes(a) + Deletes(q))
    ensures forall o :: o in Deletes(a) + Deletes(q) <==> o == DeleteOf(o.current) && o.current in a + q
  {
    var records, ops := a + q, Deletes(a) + Deletes(q);
    assert |ops| == |records| && forall i :: 0 <= i < |ops| ==> ops[i] == DeleteOf(records[i]);
    forall i, j | 0 <= i < j < |ops| ensures ops[i].current.id != ops[j].current.id {
      if i < |a| <= j {
        assert records[i] in a && records[j] in q;
      }
    }
    forall o: Operation | o == DeleteOf(o.current) && o.current in records ensures o in ops {
      var i :| 0 <= i < |records| && records[i] == o.current;
      assert ops[i] == o;
    }
  }

  lemma DeletePlanTargets(state: State, selection: Families)
    requires DistinctIds(state.records)
    ensures var ops := Deletes(SelectedRecords(state, selection, A)) + Deletes(SelectedRecords(state, selection, AAAA));
      && DistinctTargets(ops)
      && (forall o :: o in ops <==>
           o == DeleteOf(o.current) && o.current in state.records && Includes(selection, o.current.rtype))
  {
    ByTypeFacts(state.records, A);
    ByTypeFacts(state.records, AAAA);
    var a, q := SelectedRecords(state, selection, A), SelectedRecords(state, selection, AAAA);
    forall r, s | r in a && s in q ensures r.id != s.id {
      if r.id == s.id {
        SameId(state.records, r, s);
      }
    }
    JoinedDeletes(a, q);
    forall o: Operation | o == DeleteOf(o.current)
      ensures o.current in a + q <==> o.current in state.records && Includes(selection, o.current.rtype)
    {}
  }

  /** The deletion of a selected record, and of nothing else. */
  ghost predicate RightDeletion(state: State, selection: Families, o: Operation) {
    && o == Operation(Delete, o.current, NO_RECORD) && o.current in state.records
    && ((selection.a && o.current.rtype == A) || (selection.aaaa && o.current.rtype == AAAA))
  }

  lemma DeletesHave(records: seq<Record>)
    ensures forall o :: o in Deletes(records) <==> o == Operation(Delete, o.current, NO_RECORD) && o.current in records
  {
    forall o: Operation | o == Operation(Delete, o.current, NO_RECORD) && o.current in records
      ensures o in Deletes(records)
    {
      var i :| 0 <= i < |records| && records[i] == o.current;
      assert Deletes(records)[i] == o;
    }
  }

  lemma DeletionsRight(state: State, selection: Families, plan: Plan)
    requires multiset(plan) ==
      multiset(Deletes(SelectedRecords(state, selection, A)) + Deletes(SelectedRecords(state, selection, AAAA)))
    ensures forall o :: o in plan <==> RightDeletion(state, selection, o)
  {
    hide Sort, Deletes;
    var a, q := SelectedRecords(state, selection, A), SelectedRecords(state, selection, AAAA);
    SameMembers(plan, Deletes(a) + Deletes(q));
    DeletesHave(a);
    DeletesHave(q);
    OfTypeMembers(state.records, A);
    OfTypeMembers(state.records, AAAA);
    SortMembers(RecordLess, OfType(state.records, A));
    SortMembers(RecordLess, OfType(state.records, AAAA));
    forall o ensures o in plan <==> RightDeletion(state, selection, o) {
      assert o in Deletes(a) + Deletes(q) <==> o in Deletes(a) || o in Deletes(q);
    }
  }

  lemma DeletionsCompared(l: Operation, r: Operation)
    requires l.kind.Delete? && r.kind.Delete? && l.desired == r.desired == NO_RECORD
    ensures l.current.rtype == A && r.current.rtype == AAAA ==> OperationLess(l, r)
    ensures l.current.rtype == r.current.rtype && StringLess(l.current.id.text, r.current.id.text) ==>
      OperationLess(l, r)
  {
    StringLessMeans("A", "AAAA");
    assert PartsAt("A", "AAAA", 1);
    assert |"A"| != |"AAAA"|;
    StringLessTotal();
    assert TotalAt(StringLess, l.current.id.text, l.current.id.text, l.current.id.text);
  }

  lemma KeptCompared(l: Operation, r: Operation)
    requires l.current.rtype == r.current.rtype
    ensures l.kind.Delete? && r.kind.Update? ==> OperationLess(l, r)
    ensures l.kind.Delete? && r.kind.Delete? && StringLess(l.current.id.text, r.current.id.text) ==> OperationLess(l, r)
  {
    StringLessMeans("delete", "update");
    assert PartsAt("delete", "update", 0);
    assert "delete"[0] != "update"[0];
    StringLessTotal();
    assert TotalAt(StringLess, l.current.id.text, l.current.id.text, l.current.id.text);
  }

  lemma KeptPlanKinds(listed: seq<Record>, k: nat, want: Record)
    requires k < |listed|
    ensures forall o :: o in KeptPlan(listed, k, want) ==>
      (o.kind.Delete? || o.kind.Update?) && o.current in listed
  {
    hide Matches;
  }

  /** A family's plan that keeps a record deletes the others by ascending ids, and updates the kept one last. */
  lemma TypePlanInOrder(listed: seq<Record>, want: Record, t: RecordType, i: nat, j: nat)
    requires forall r :: r in listed ==> r.rtype == t
    requires listed != [] && i < j < |TypePlan(listed, Some(want))|
    ensures var plan := TypePlan(listed, Some(want));
      && (plan[i].kind.Update? ==> plan[j].kind.Update?)
      && (plan[i].kind.Delete? && plan[j].kind.Delete? ==>
           !StringLess(plan[j].current.id.text, plan[i].current.id.text))
  {
    hide Matches, Sort, OperationLess, StringLess, Ordered, KeptPlan, Deletes;
    var plan, kept := TypePlan(listed, Some(want)), KeptPlan(listed, KeepIndex(listed, want), want);
    KeptPlanKinds(listed, KeepIndex(listed, want), want);
    OperationOrder();
    SortOrdered(OperationLess, kept);
    SortMembers(OperationLess, kept);
    OrderedAt(OperationLess, plan, i, j);
    assert plan[i] in kept && plan[j] in kept;
    KeptCompared(plan[j], plan[i]);
  }

  /** In a plan of deletions A comes before AAAA, and within a type the ids ascend. */
  lemma DeletionsInOrder(state: State, selection: Families, plan: Plan, i: nat, j: nat)
    requires Ordered(OperationLess, plan) && i < j < |plan|
    requires forall o :: o in plan ==> RightDeletion(state, selection, o)
    ensures plan[i].current.rtype == AAAA ==> plan[j].current.rtype == AAAA
    ensures plan[i].current.rtype == plan[j].current.rtype ==>
      !StringLess(plan[j].current.id.text, plan[i].current.id.text)
  {
    OrderedAt(OperationLess, plan, i, j);
    assert plan[i] in plan && plan[j] in plan;
    DeletionsCompared(plan[j], plan[i]);
  }

  method BuildDeletePlan(current: State, selection: Families) returns (r: Result<Plan, PlanError>)
    ensures DistinctIds(current.records) ==> r == DeletePlan(current, selection)
    ensures r.Err? <==> DeletePlan(current, selection).Err?
    ensures r.Ok? ==>
      Ordered(OperationLess, r.value) && multiset(r.value) == multiset(DeletePlan(current, selection).value)
    ensures r.Ok? ==> forall o :: o in r.value <==> RightDeletion(current, selection, o)
  {
    hide Ordered, Sort, ByType, OperationLess;
    if selection == FAMILIES_NONE {
      return Err(NothingSelected);
    }
    ghost var a, q := SelectedRecords(current, selection, A), SelectedRecords(current, selection, AAAA);
    var operations: Plan := [];
    var types := [A, AAAA];
    for i := 0 to 2
      invariant multiset(operations) == if i == 0 then multiset{} else if i == 1 then multiset(Deletes(a))
        else multiset(Deletes(a) + Deletes(q))
      invariant DistinctIds(current.records) ==>
        operations == if i == 0 then [] else if i == 1 then Deletes(a) else Deletes(a) + Deletes(q)
    {
      if Includes(selection, types[i]) {
        var records := RecordsByType(current, types[i]);
        var more := DeleteAll(records);
        ByTypeMembers(current.records, types[i], records);
        operations := operations + more;
      }
    }
    if DistinctIds(current.records) {
      DeletePlanTargets(current, selection);
    }
    SortMembers(OperationLess, operations);
    SortMembers(OperationLess, Deletes(a) + Deletes(q));
    operations := Sorted(operations);
    DeletionsRight(current, selection, operations);
    return Ok(operations);
  }

  /** The same records listed in another order give the same plan, operation for operation. */
  lemma PlanIgnoresListingOrder(
    one: State, other: State, desired: DesiredState, observed: Families, selection: Families)
    requires DistinctIds(one.records) && multiset(one.records) == multiset(other.records)
    ensures ObservedPlan(one, desired, observed) == ObservedPlan(other, desired, observed)
    ensures DeletePlan(one, selection) == DeletePlan(other, selection)
  {
    DistinctIdsPermuted(one.records, other.records);
    forall t: RecordType ensures ByType(one.records, t) == ByType(other.records, t) {
      RecordOrder();
      SortMembers(RecordLess, OfType(other.records, t));
      SortOrdered(RecordLess, OfType(other.records, t));
      ByTypeUnique(one.records, other.records, t, ByType(other.records, t));
    }
  }

  // ----- verification -----

  datatype VerifyError = NothingToVerify | CnamePresent | ExpectedNone | ExpectedOne | WrongRecord

  /** The expected record of the verifier carries no name, so names are not compared. */
  function VerifyTypeState(records: seq<Record>, want: Option<Record>): Option<VerifyError> {
    match want
    case None => if |records| != 0 then Some(ExpectedNone) else None
    case Some(w) =>
      if |records| != 1 then Some(ExpectedOne)
      else if !Matches(records[0], w.(name := "")) then Some(WrongRecord)
      else None
  }

  function VerifyFamily(state: State, desired: DesiredState, observed: Families, t: RecordType): Option<VerifyError> {
    if Includes(observed, t) then VerifyTypeState(ByType(state.records, t), WantOf(desired, t)) else None
  }

  function VerifyObservedAddressState(state: State, desired: DesiredState, observed: Families): Option<VerifyError> {
    if observed == FAMILIES_NONE then Some(NothingToVerify)
    else if CnameTargets(state) != [] then Some(CnamePresent)
    else
      var a := VerifyFamily(state, desired, observed, A);
      if a.Some? then a else VerifyFamily(state, desired, observed, AAAA)
  }

  function VerifyDeletedTypes(state: State, selection: Families): Option<VerifyError> {
    if selection == FAMILIES_NONE then Some(NothingToVerify)
    else
      var a := VerifyTypeState(SelectedRecords(state, selection, A), None);
      if a.Some? then a else VerifyTypeState(SelectedRecords(state, selection, AAAA), None)
  }

  // ----- planner and verifier agree -----

  /** The name test the planner makes and the verifier does not. */
  ghost predicate NamesAgree(state: State, desired: DesiredState, observed: Families) {
    forall r :: r in state.records && Includes(observed, r.rtype) && desired.Address(r.rtype).Some? ==>
      desired.name == "" || NormalizeName(r.name) == NormalizeName(desired.name)
  }

  lemma NothingToRepair(ops: Plan, records: seq<Record>, want: Option<Record>)
    requires Repairs(ops, records, want)
    ensures ops == [] <==>
      && VerifyTypeState(records, want).None?
      && (want.None? || want.value.name == "" ||
          (forall r :: r in records ==> NormalizeName(r.name) == NormalizeName(want.value.name)))
  {
    hide NormalizeName;
    if want.Some? && records != [] {
      var keep :| keep in records && RepairsAround(ops, records, want.value, keep);
      if |records| == 1 {
        assert keep == records[0];
      }
    }
  }

  ghost predicate FamilyNamesAgree(state: State, desired: DesiredState, observed: Families, t: RecordType) {
    forall r :: r in state.records && r.rtype == t && Includes(observed, t) && desired.Address(t).Some? ==>
      desired.name == "" || NormalizeName(r.name) == NormalizeName(desired.name)
  }

  lemma FamilyPlanAgreement(state: State, desired: DesiredState, observed: Families, t: RecordType)
    requires DistinctIds(state.records)
    ensures FamilyPlan(state, desired, observed, t) == [] <==>
      VerifyFamily(state, desired, observed, t).None? && FamilyNamesAgree(state, desired, observed, t)
  {
    ByTypeFacts(state.records, t);
    TypePlanRepairs(ByType(state.records, t), WantOf(desired, t));
    NothingToRepair(TypePlan(ByType(state.records, t), WantOf(desired, t)),
                    ByType(state.records, t), WantOf(desired, t));
  }

  /** For all states: nothing is planned exactly when the verifier accepts and the names agree. */
  lemma PlannerAgreesWithVerifier(state: State, desired: DesiredState, observed: Families)
    requires DistinctIds(state.records)
    ensures ObservedPlan(state, desired, observed) == Ok([]) <==>
      VerifyObservedAddressState(state, desired, observed).None? && NamesAgree(state, desired, observed)
    ensures ObservedPlan(state, desired, observed).Err? <==>
      observed == FAMILIES_NONE || exists r :: r in state.records && r.rtype == CNAME
  {
    hide NormalizeName, TypePlan, ByType;
    ByTypeFacts(state.records, CNAME);
    var aliases := ByType(state.records, CNAME);
    if aliases != [] {
      assert aliases[0] in aliases;
    }
    FamilyPlanAgreement(state, desired, observed, A);
    FamilyPlanAgreement(state, desired, observed, AAAA);
    var plan := FamilyPlan(state, desired, observed, A) + FamilyPlan(state, desired, observed, AAAA);
    assert plan == [] <==> |plan| == 0;
    assert NamesAgree(state, desired, observed) <==>
      FamilyNamesAgree(state, desired, observed, A) && FamilyNamesAgree(state, desired, observed, AAAA);
  }

  /** Without the name test in common the two part ways. */
  lemma VerifierIgnoresNames()
    ensures exists state: State, desired, observed ::
      && DistinctIds(state.records)
      && VerifyObservedAddressState(state, desired, observed).None?
      && ObservedPlan(state, desired, observed).Ok?
      && ObservedPlan(state, desired, observed) != Ok([])
  {
    var record := Record(Id("id"), "", A, "192.0.2.1", 60, RecordOptions(Some(true)));
    var state := State("a", [record]);
    var desired := DesiredState("a", 60, Some("192.0.2.1"), None, RecordOptions(Some(true)));
    assert NormalizeName("a") == "a" by {
      Text.TrimSpaceFixed("a");
      Text.ToLowerFixed("a");
    }
    ByTypeFacts(state.records, A);
    ByTypeFacts(state.records, CNAME);
    assert |OfType(state.records, A)| == 1 && |OfType(state.records, CNAME)| == 0 by {
      assert state.records[1..] == [];
    }
    assert ByType(state.records, A)[0] in ByType(state.records, A);
    assert ByType(state.records, A)[0] == record;
    assert Matches(record, desired.Want(A).(name := ""));
    assert !Includes(FAMILY_A, AAAA) && Includes(FAMILY_A, A);
    assert VerifyFamily(state, desired, FAMILY_A, A).None?;
    assert VerifyFamily(state, desired, FAMILY_A, AAAA).None?;
    assert record in state.records && !NamesAgree(state, desired, FAMILY_A);
    PlannerAgreesWithVerifier(state, desired, FAMILY_A);
    assert FAMILY_A != FAMILIES_NONE;
  }

  lemma DeletePlannerAgreesWithVerifier(state: State, selection: Families)
    requires DistinctIds(state.records)
    ensures DeletePlan(state, selection) == Ok([]) <==> VerifyDeletedTypes(state, selection).None?
  {
    var a, q := SelectedRecords(state, selection, A), SelectedRecords(state, selection, AAAA);
    SortMembers(OperationLess, Deletes(a) + Deletes(q));
  }
}
