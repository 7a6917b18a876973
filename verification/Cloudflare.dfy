/**
  The Cloudflare back end: the zone as the server holds it, what a batch does to
  it, and the client's read filter and regrouping of a plan into a batch.
*/
module Cloudflare {
  import opened Wrappers
  import opened Ordering
  import opened Names
  import opened Provider

  /** A record as the server holds it. */
  datatype ApiRecord = ApiRecord(name: string, rtype: RecordType, content: string, ttl: uint32, proxied: bool)

  type Zone = map<Id, ApiRecord>

  /** The fields sent with a post or a patch; a proxy flag that is not set is not sent. */
  datatype Body = Body(name: string, rtype: RecordType, content: string, ttl: uint32, proxied: Option<bool>)

  datatype BatchPatch = BatchPatch(id: Id, body: Body)

  datatype Batch = Batch(deletes: seq<Id>, patches: seq<BatchPatch>, posts: seq<Body>)

  datatype BatchError = UnsupportedType(rtype: RecordType) | UnsupportedKind(kind: Kind)

  // ----- what the server does -----

  /** One change the server makes; a post carries the id the server mints for it. */
  datatype Step = Remove(id: Id) | Patch(id: Id, body: Body) | Post(id: Id, body: Body)

  function Stored(body: Body, proxied: bool): ApiRecord {
    ApiRecord(body.name, body.rtype, body.content, body.ttl,
              if body.proxied.Some? then body.proxied.value else proxied)
  }

  function At(zone: Zone, id: Id): Option<ApiRecord> {
    if id in zone then Some(zone[id]) else None
  }

  function StepAt(before: Option<ApiRecord>, step: Step): Option<ApiRecord> {
    match step
    case Remove(_) => None
    case Patch(_, body) => if before.Some? then Some(Stored(body, before.value.proxied)) else None
    case Post(_, body) => Some(Stored(body, false))
  }

  function Advance(zone: Zone, step: Step): (after: Zone)
    ensures forall id :: At(after, id) == if id == step.id then StepAt(At(zone, id), step) else At(zone, id)
  {
    var now := StepAt(At(zone, step.id), step);
    if now.Some? then zone[step.id := now.value] else zone - {step.id}
  }

  /** The zones differ at most at one id. */
  ghost predicate SameBut(one: Zone, other: Zone, x: Id) {
    one - {x} == other - {x}
  }

  lemma AdvanceElsewhere(zone: Zone, step: Step)
    ensures SameBut(zone, Advance(zone, step), step.id)
  {
  }

  function Commit(zone: Zone, steps: seq<Step>): Zone {
    if steps == [] then zone
    else Advance(Commit(zone, steps[..|steps| - 1]), steps[|steps| - 1])
  }

  ghost predicate Separate(steps: seq<Step>) {
    forall i, j :: 0 <= i < j < |steps| ==> steps[i].id != steps[j].id
  }

  lemma SameZone(one: Zone, other: Zone)
    requires forall id :: At(one, id) == At(other, id)
    ensures one == other
  {
    forall id ensures id in one <==> id in other {
      assert At(one, id) == At(other, id);
    }
    forall id | id in one ensures one[id] == other[id] {
      assert At(one, id) == At(other, id);
    }
  }

  /** Steps on separate ids act on each id alone, whatever their order. */
  lemma {:induction false} CommitAt(zone: Zone, steps: seq<Step>, id: Id)
    requires Separate(steps)
    ensures (forall s :: s in steps ==> s.id != id) ==> At(Commit(zone, steps), id) == At(zone, id)
    ensures forall s :: s in steps && s.id == id ==> At(Commit(zone, steps), id) == StepAt(At(zone, id), s)
  {
    if steps != [] {
      var front, last := steps[..|steps| - 1], steps[|steps| - 1];
      CommitAt(zone, front, id);
      assert forall s :: s in steps <==> s in front || s == last;
    }
  }

  lemma SeparatePermuted(s: seq<Step>, t: seq<Step>)
    requires multiset(s) == multiset(t) && Separate(s)
    ensures Separate(t)
  {
    assert NoRepeats(s);
    NoRepeatsPermuted(s, t);
    SameMembers(s, t);
    forall i, j | 0 <= i < j < |t| ensures t[i].id != t[j].id {
      assert t[i] in s && t[j] in s;
      var k :| 0 <= k < |s| && s[k] == t[i];
      var l :| 0 <= l < |s| && s[l] == t[j];
    }
  }

  lemma CommitPermuted(zone: Zone, s: seq<Step>, t: seq<Step>)
    requires multiset(s) == multiset(t) && Separate(s)
    ensures Commit(zone, s) == Commit(zone, t)
  {
    SeparatePermuted(s, t);
    SameMembers(s, t);
    forall id ensures At(Commit(zone, s), id) == At(Commit(zone, t), id) {
      CommitAt(zone, s, id);
      CommitAt(zone, t, id);
      if step :| step in s && step.id == id {
        assert step in t;
      }
    }
    SameZone(Commit(zone, s), Commit(zone, t));
  }

  // ----- from a plan to a batch -----

  function BodyOf(record: Record): Body {
    Body(NormalizeApiName(record.name), record.rtype, record.content, record.ttl, record.options.proxy)
  }

  /** The request body of a record; only address records have one. */
  function ToBody(record: Record): Result<Body, BatchError> {
    match record.rtype
    case A => Ok(BodyOf(record))
    case AAAA => Ok(BodyOf(record))
    case _ => Err(UnsupportedType(record.rtype))
  }

  /** What a batch has no request for. */
  ghost predicate Unsupported(o: Operation) {
    o.kind.Unsupported? || (!o.kind.Delete? && o.desired.rtype != A && o.desired.rtype != AAAA)
  }

  function Grouped(batch: Batch, o: Operation): Result<Batch, BatchError> {
    match o.kind
    case Delete => Ok(batch.(deletes := batch.deletes + [o.current.id]))
    case Update =>
      var body := ToBody(o.desired);
      if body.Err? then Err(body.error)
      else Ok(batch.(patches := batch.patches + [BatchPatch(o.current.id, body.value)]))
    case Create =>
      var body := ToBody(o.desired);
      if body.Err? then Err(body.error) else Ok(batch.(posts := batch.posts + [body.value]))
    case Unsupported(_) => Err(UnsupportedKind(o.kind))
  }

  function BatchOf(plan: Plan): Result<Batch, BatchError> {
    if plan == [] then Ok(Batch([], [], []))
    else
      var front := BatchOf(plan[..|plan| - 1]);
      if front.Err? then front else Grouped(front.value, plan[|plan| - 1])
  }

  lemma {:induction false} BatchErrorStays(plan: Plan, i: nat)
    requires i <= |plan| && BatchOf(plan[..i]).Err?
    ensures BatchOf(plan) == BatchOf(plan[..i])
  {
    if i == |plan| {
      assert plan[..i] == plan;
    } else {
      var front := plan[..|plan| - 1];
      assert front[..i] == plan[..i];
      BatchErrorStays(front, i);
    }
  }

  method BuildBatchParams(plan: Plan) returns (r: Result<Batch, BatchError>)
    ensures r == BatchOf(plan)
  {
    var deletes: seq<Id> := [];
    var patches: seq<BatchPatch> := [];
    var posts: seq<Body> := [];
    for i := 0 to |plan|
      invariant BatchOf(plan[..i]) == Ok(Batch(deletes, patches, posts))
    {
      var operation := plan[i];
      assert plan[..i + 1][..i] == plan[..i];
      match operation.kind {
        case Delete =>
          deletes := deletes + [operation.current.id];
        case Update =>
          var body := ToBody(operation.desired);
          if body.Err? {
            BatchErrorStays(plan, i + 1);
            return Err(body.error);
          }
          patches := patches + [BatchPatch(operation.current.id, body.value)];
        case Create =>
          var body := ToBody(operation.desired);
          if body.Err? {
            BatchErrorStays(plan, i + 1);
            return Err(body.error);
          }
          posts := posts + [body.value];
        case Unsupported(_) =>
          BatchErrorStays(plan, i + 1);
          return Err(UnsupportedKind(operation.kind));
      }
    }
    assert plan[..|plan|] == plan;
    return Ok(Batch(deletes, patches, posts));
  }

  ghost function Blame(o: Operation): BatchError {
    if o.kind.Unsupported? then UnsupportedKind(o.kind) else UnsupportedType(o.desired.rtype)
  }

  lemma GroupedRefused(batch: Batch, o: Operation)
    ensures Unsupported(o) ==> Grouped(batch, o) == Err(Blame(o))
    ensures !Unsupported(o) ==> Grouped(batch, o).Ok?
  {
  }

  /** The first operation that has no request. */
  ghost predicate FirstUnsupported(plan: Plan, k: nat) {
    k < |plan| && Unsupported(plan[k]) && forall i :: 0 <= i < k ==> !Unsupported(plan[i])
  }

  /** A batch is refused exactly for an unsupported operation, and the first one is to blame. */
  lemma {:induction false} RefusedMeans(plan: Plan) returns (k: nat)
    ensures BatchOf(plan).Ok? ==> forall o :: o in plan ==> !Unsupported(o)
    ensures BatchOf(plan).Err? ==> FirstUnsupported(plan, k) && BatchOf(plan).error == Blame(plan[k])
  {
    hide Grouped, Unsupported, Blame;
    k := 0;
    if plan != [] {
      var front, last := plan[..|plan| - 1], plan[|plan| - 1];
      k := RefusedMeans(front);
      assert plan == front + [last];
      if BatchOf(front).Ok? {
        GroupedRefused(BatchOf(front).value, last);
        if Unsupported(last) {
          k := |front|;
          forall i | 0 <= i < |front| ensures !Unsupported(plan[i]) {
            assert front[i] in front;
          }
          assert FirstUnsupported(plan, k);
        }
      } else {
        forall i | 0 <= i <= k ensures plan[i] == front[i] {}
        assert FirstUnsupported(plan, k);
      }
    }
  }

  /** A record is sent as it is, under the name without its final dot. */
  lemma BodyMeans(record: Record)
    requires Canonical(record.name)
    ensures BodyOf(record) ==
      Body(record.name[..|record.name| - 1], record.rtype, record.content, record.ttl, record.options.proxy)
  {
    NameRoundTrip(record.name);
  }

  // ----- the batch means what the plan means -----

  function Creates(plan: Plan): nat {
    if plan == [] then 0
    else Creates(plan[..|plan| - 1]) + if plan[|plan| - 1].kind.Create? then 1 else 0
  }

  /** Ids the server may mint: new to the zone and distinct. */
  predicate Mintable(zone: Zone, minted: seq<Id>) {
    NoRepeats(minted) && forall id :: id in minted ==> id !in zone
  }

  function StepOf(o: Operation, id: Id): Step {
    match o.kind
    case Create => Post(id, BodyOf(o.desired))
    case Update => Patch(o.current.id, BodyOf(o.desired))
    case _ => Remove(o.current.id)
  }

  /** The plan carried out one operation after the other, in plan order. */
  function PlanSteps(plan: Plan, minted: seq<Id>): seq<Step>
    requires Creates(plan) <= |minted|
  {
    if plan == [] then []
    else
      var front, last := plan[..|plan| - 1], plan[|plan| - 1];
      PlanSteps(front, minted) + [StepOf(last, if last.kind.Create? then minted[Creates(front)] else Id(""))]
  }

  function Removes(ids: seq<Id>): seq<Step> {
    seq(|ids|, i requires 0 <= i < |ids| => Remove(ids[i]))
  }

  function Patches(patches: seq<BatchPatch>): seq<Step> {
    seq(|patches|, i requires 0 <= i < |patches| => Patch(patches[i].id, patches[i].body))
  }

  function Posts(posts: seq<Body>, minted: seq<Id>): seq<Step>
    requires |posts| <= |minted|
  {
    seq(|posts|, i requires 0 <= i < |posts| => Post(minted[i], posts[i]))
  }

  /** What the server does with a batch: deletes, then patches, then posts. */
  function BatchSteps(batch: Batch, minted: seq<Id>): seq<Step>
    requires |batch.posts| <= |minted|
  {
    Removes(batch.deletes) + Patches(batch.patches) + Posts(batch.posts, minted)
  }

  lemma Inserted<T>(a: seq<T>, x: T, b: seq<T>)
    ensures multiset(a + [x] + b) == multiset(a + b) + multiset{x}
  {
  }

  lemma GroupedSteps(batch: Batch, o: Operation, minted: seq<Id>)
    requires Grouped(batch, o).Ok?
    requires |batch.posts| + (if o.kind.Create? then 1 else 0) <= |minted|
    ensures multiset(BatchSteps(Grouped(batch, o).value, minted)) == multiset(BatchSteps(batch, minted)) +
      multiset{StepOf(o, if o.kind.Create? then minted[|batch.posts|] else Id(""))}
  {
    var now := Grouped(batch, o).value;
    var removes, patches, posts := Removes(batch.deletes), Patches(batch.patches), Posts(batch.posts, minted);
    match o.kind {
      case Delete =>
        assert Removes(now.deletes) == removes + [Remove(o.current.id)];
        assert removes + patches + posts == removes + (patches + posts);
        assert BatchSteps(now, minted) == removes + [Remove(o.current.id)] + (patches + posts);
        Inserted(removes, Remove(o.current.id), patches + posts);
      case Update =>
        var step := Patch(o.current.id, BodyOf(o.desired));
        assert Patches(now.patches) == patches + [step];
        assert BatchSteps(now, minted) == (removes + patches) + [step] + posts;
        Inserted(removes + patches, step, posts);
      case Create =>
        var step := Post(minted[|batch.posts|], BodyOf(o.desired));
        assert Posts(now.posts, minted) == posts + [step];
        assert BatchSteps(now, minted) == BatchSteps(batch, minted) + [step];
      case Unsupported(_) => assert false;
    }
  }

  /** Every operation lands in exactly one bucket of the batch, with the id it had. */
  lemma {:induction false} BatchHoldsPlan(plan: Plan, minted: seq<Id>)
    requires Creates(plan) <= |minted| && BatchOf(plan).Ok?
    ensures |BatchOf(plan).value.posts| == Creates(plan)
    ensures multiset(BatchSteps(BatchOf(plan).value, minted)) == multiset(PlanSteps(plan, minted))
  {
    if plan != [] {
      var front, last := plan[..|plan| - 1], plan[|plan| - 1];
      BatchHoldsPlan(front, minted);
      GroupedSteps(BatchOf(front).value, last, minted);
    }
  }

  /** Operations other than creates aim at different records. */
  ghost predicate TargetsApart(plan: Plan) {
    forall i, j :: 0 <= i < j < |plan| && !plan[i].kind.Create? && !plan[j].kind.Create? ==>
      plan[i].current.id != plan[j].current.id
  }

  ghost predicate TargetsIn(zone: Zone, plan: Plan) {
    forall o :: o in plan && !o.kind.Create? ==> o.current.id in zone
  }

  lemma {:induction false} PlanStepAt(plan: Plan, minted: seq<Id>, i: nat)
    requires Creates(plan) <= |minted| && i < |plan|
    ensures |PlanSteps(plan, minted)| == |plan|
    ensures Creates(plan[..i]) + (if plan[i].kind.Create? then 1 else 0) <= Creates(plan)
    ensures PlanSteps(plan, minted)[i] ==
      StepOf(plan[i], if plan[i].kind.Create? then minted[Creates(plan[..i])] else Id(""))
  {
    var front := plan[..|plan| - 1];
    if i < |front| {
      assert front[..i] == plan[..i];
      PlanStepAt(front, minted, i);
    } else if front != [] {
      PlanStepAt(front, minted, 0);
    }
  }

  lemma CreatesGrow(plan: Plan, i: nat, j: nat)
    requires i < j <= |plan| && plan[i].kind.Create?
    ensures Creates(plan[..i]) < Creates(plan[..j])
  {
    PlanStepAt(plan[..j], seq(Creates(plan[..j]), _ => Id("")), i);
    assert plan[..j][..i] == plan[..i];
  }

  lemma PlanStepsSeparate(zone: Zone, plan: Plan, minted: seq<Id>)
    requires Creates(plan) <= |minted| && Mintable(zone, minted)
    requires TargetsApart(plan) && TargetsIn(zone, plan)
    ensures Separate(PlanSteps(plan, minted))
  {
    var steps := PlanSteps(plan, minted);
    forall i, j | 0 <= i < j < |steps| ensures steps[i].id != steps[j].id {
      if plan != [] {
        PlanStepAt(plan, minted, 0);
      }
      PlanStepAt(plan, minted, i);
      PlanStepAt(plan, minted, j);
      assert plan[i] in plan && plan[j] in plan;
      if plan[i].kind.Create? && plan[j].kind.Create? {
        CreatesGrow(plan, i, j);
      }
    }
  }

  /** Regrouping: the batch leaves the zone that the operations leave one by one in plan order. */
  lemma RegroupingPreservesMeaning(zone: Zone, plan: Plan, minted: seq<Id>)
    requires Creates(plan) <= |minted| && Mintable(zone, minted)
    requires TargetsApart(plan) && TargetsIn(zone, plan) && BatchOf(plan).Ok?
    ensures |BatchOf(plan).value.posts| == Creates(plan)
    ensures Commit(zone, BatchSteps(BatchOf(plan).value, minted)) == Commit(zone, PlanSteps(plan, minted))
  {
    BatchHoldsPlan(plan, minted);
    PlanStepsSeparate(zone, plan, minted);
    CommitPermuted(zone, PlanSteps(plan, minted), BatchSteps(BatchOf(plan).value, minted));
  }

  // ----- reading -----

  function ToRecord(id: Id, stored: ApiRecord): Record {
    Record(id, NormalizeProviderName(stored.name), stored.rtype, stored.content, stored.ttl,
           RecordOptions(Some(stored.proxied)))
  }

  /** The record belongs to the managed host. */
  predicate Managed(zone: Zone, id: Id, name: string) {
    id in zone && NormalizeApiName(zone[id].name) == NormalizeApiName(name)
  }

  /** A state the client may read: each managed record once, in any order. */
  ghost predicate Reads(zone: Zone, name: string, state: State) {
    && state.name == name
    && DistinctIds(state.records)
    && (forall r :: r in state.records ==> Managed(zone, r.id, name) && r == ToRecord(r.id, zone[r.id]))
    && (forall id :: Managed(zone, id, name) ==> ToRecord(id, zone[id]) in state.records)
  }

  ghost function Family(zone: Zone, name: string, t: RecordType): set<Id> {
    set id | id in zone && Managed(zone, id, name) && zone[id].rtype == t
  }

  // ----- the server's choices exist -----

  lemma {:induction false} Bound(ids: set<Id>) returns (n: nat)
    ensures forall id :: id in ids ==> |id.text| < n
  {
    if ids == {} {
      n := 0;
    } else {
      var id :| id in ids;
      n := Bound(ids - {id});
      n := if n > |id.text| then n else |id.text| + 1;
    }
  }

  lemma {:induction false} MintableExists(zone: Zone, n: nat) returns (minted: seq<Id>)
    ensures |minted| == n && Mintable(zone, minted)
  {
    if n == 0 {
      minted := [];
    } else {
      minted := MintableExists(zone, n - 1);
      var longer := Bound(zone.Keys + set id | id in minted);
      minted := minted + [Id(seq(longer, _ => 'x'))];
    }
  }

  lemma {:induction false} ListingExists(zone: Zone, name: string, ids: set<Id>) returns (records: seq<Record>)
    requires ids <= zone.Keys && forall id :: id in ids ==> Managed(zone, id, name)
    ensures DistinctIds(records)
    ensures forall r :: r in records ==> r.id in ids && r == ToRecord(r.id, zone[r.id])
    ensures forall id :: id in ids ==> ToRecord(id, zone[id]) in records
  {
    if ids == {} {
      records := [];
    } else {
      var id :| id in ids;
      var rest := ListingExists(zone, name, ids - {id});
      records := [ToRecord(id, zone[id])] + rest;
    }
  }

  lemma ReadExists(zone: Zone, name: string) returns (state: State)
    ensures Reads(zone, name, state)
  {
    var records := ListingExists(zone, name, set id | id in zone && Managed(zone, id, name));
    state := State(name, records);
  }
}
