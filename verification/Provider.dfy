/**
  Records, plans and their two sorts. A method with a loop or a sort is proved
  against the function of the same purpose that follows the data.
*/
module Provider {
  import opened Wrappers
  import opened Ordering
  import opened Names

  newtype uint32 = x: int | 0 <= x < 0x1_0000_0000

  datatype RecordType = A | AAAA | CNAME | Other(name: string) {
    function Text(): string {
      match this
      case A => "A"
      case AAAA => "AAAA"
      case CNAME => "CNAME"
      case Other(name) => name
    }
  }

  datatype RecordOptions = RecordOptions(proxy: Option<bool>) {
    function Format(): string {
      match proxy
      case None => ""
      case Some(true) => " proxy=true"
      case Some(false) => " proxy=false"
    }
  }

  /** A provider's record id; the text matters only for sorting. */
  datatype Id = Id(text: string)

  datatype Record = Record(
    id: Id, name: string, rtype: RecordType, content: string, ttl: uint32, options: RecordOptions)

  const NO_RECORD := Record(Id(""), "", Other(""), "", 0, RecordOptions(None))

  datatype State = State(name: string, records: seq<Record>)

  /** The address of a family is None when the probe answered that there is none. */
  datatype DesiredState = DesiredState(
    name: string, ttl: uint32, ipv4: Option<string>, ipv6: Option<string>, options: RecordOptions)
  {
    function Address(t: RecordType): Option<string> {
      if t == A then ipv4 else if t == AAAA then ipv6 else None
    }

    function Want(t: RecordType): Record
      requires Address(t).Some?
    {
      Record(Id(""), name, t, Address(t).value, ttl, options)
    }
  }

  /**
    The flag byte that selects address families, for the delete selection and
    the observed families alike: bit 0, bit 1, and whether any other bit is set.
  */
  datatype Families = Families(a: bool, aaaa: bool, unassigned: bool)

  const FAMILIES_NONE := Families(false, false, false)
  const FAMILY_A := Families(true, false, false)

  predicate Includes(f: Families, t: RecordType) {
    match t
    case A => f.a
    case AAAA => f.aaaa
    case _ => false
  }

  function ObservedFamilies(ipv4: bool, ipv6: bool): Families {
    Families(ipv4, ipv6, false)
  }

  datatype Kind = Create | Update | Delete | Unsupported(text: string) {
    function Text(): string {
      match this
      case Create => "create"
      case Update => "update"
      case Delete => "delete"
      case Unsupported(text) => text
    }
  }

  datatype Operation = Operation(kind: Kind, current: Record, desired: Record)

  function CreateOf(want: Record): Operation { Operation(Create, NO_RECORD, want) }

  function UpdateOf(r: Record, want: Record): Operation { Operation(Update, r, want) }

  function DeleteOf(r: Record): Operation { Operation(Delete, r, NO_RECORD) }

  type Plan = seq<Operation>

  datatype PlanError = NothingSelected | HasCname(targets: seq<string>)

  // ----- comparators -----

  predicate RecordLess(l: Record, r: Record) {
    if l.rtype.Text() != r.rtype.Text() then StringLess(l.rtype.Text(), r.rtype.Text())
    else if NormalizeName(l.name) != NormalizeName(r.name) then
      StringLess(NormalizeName(l.name), NormalizeName(r.name))
    else if l.id != r.id then StringLess(l.id.text, r.id.text)
    else if l.content != r.content then StringLess(l.content, r.content)
    else StringLess(l.options.Format(), r.options.Format())
  }

  predicate OperationLess(l: Operation, r: Operation) {
    if l.kind.Text() != r.kind.Text() then StringLess(l.kind.Text(), r.kind.Text())
    else if l.current.rtype.Text() != r.current.rtype.Text() then
      StringLess(l.current.rtype.Text(), r.current.rtype.Text())
    else if l.current.id != r.current.id then StringLess(l.current.id.text, r.current.id.text)
    else if l.desired.content != r.desired.content then StringLess(l.desired.content, r.desired.content)
    else StringLess(l.desired.options.Format(), r.desired.options.Format())
  }

  function RecordKey(r: Record): seq<string> {
    [r.rtype.Text(), NormalizeName(r.name), r.id.text, r.content, r.options.Format()]
  }

  function OperationKey(o: Operation): seq<string> {
    [o.kind.Text(), o.current.rtype.Text(), o.current.id.text, o.desired.content, o.desired.options.Format()]
  }

  lemma KeyStep(a: seq<string>, b: seq<string>, i: nat)
    requires i < |a| && i < |b|
    ensures KeyLess(a[i..], b[i..]) <==>
      if a[i] != b[i] then StringLess(a[i], b[i]) else KeyLess(a[i + 1..], b[i + 1..])
  {
    assert a[i..][1..] == a[i + 1..] && b[i..][1..] == b[i + 1..];
  }

  lemma FiveKeys(a: seq<string>, b: seq<string>)
    requires |a| == |b| == 5
    ensures KeyLess(a, b) <==>
      if a[0] != b[0] then StringLess(a[0], b[0])
      else if a[1] != b[1] then StringLess(a[1], b[1])
      else if a[2] != b[2] then StringLess(a[2], b[2])
      else if a[3] != b[3] then StringLess(a[3], b[3])
      else StringLess(a[4], b[4])
  {
    KeyStep(a, b, 0);
    KeyStep(a, b, 1);
    KeyStep(a, b, 2);
    KeyStep(a, b, 3);
    KeyStep(a, b, 4);
    StringLessTotal();
    assert TotalAt(StringLess, a[4], b[4], a[4]);
    assert a[5..] == b[5..] == [] && a[0..] == a && b[0..] == b;
  }

  lemma RecordOrder()
    ensures StrictWeak(RecordLess)
    ensures forall l, r :: RecordLess(l, r) || RecordLess(r, l) || l.id == r.id
  {
    forall l, r ensures RecordLess(l, r) <==> KeyLess(RecordKey(l), RecordKey(r)) {
      FiveKeys(RecordKey(l), RecordKey(r));
    }
    KeyedOrder(RecordLess, RecordKey);
    forall l, r ensures RecordLess(l, r) || RecordLess(r, l) || l.id == r.id {
      assert RecordKey(l) == RecordKey(r) ==> RecordKey(l)[2] == RecordKey(r)[2];
    }
  }

  lemma OperationOrder()
    ensures StrictWeak(OperationLess)
    ensures forall l, r :: OperationLess(l, r) || OperationLess(r, l) || l.current.id == r.current.id
  {
    forall l, r ensures OperationLess(l, r) <==> KeyLess(OperationKey(l), OperationKey(r)) {
      FiveKeys(OperationKey(l), OperationKey(r));
    }
    KeyedOrder(OperationLess, OperationKey);
    forall l, r ensures OperationLess(l, r) || OperationLess(r, l) || l.current.id == r.current.id {
      assert OperationKey(l) == OperationKey(r) ==> OperationKey(l)[2] == OperationKey(r)[2];
    }
  }

  method SortRecords(a: array<Record>)
    modifies a
    ensures multiset(a[..]) == multiset(old(a[..])) && Ordered(RecordLess, a[..])
  {
    RecordOrder();
    SortSlice(a, RecordLess);
  }

  method SortOperations(a: array<Operation>)
    modifies a
    ensures multiset(a[..]) == multiset(old(a[..])) && Ordered(OperationLess, a[..])
  {
    OperationOrder();
    SortSlice(a, OperationLess);
  }

  // ----- selection by type -----

  ghost predicate DistinctIds(records: seq<Record>) {
    forall i, j :: 0 <= i < j < |records| ==> records[i].id != records[j].id
  }

  function OfType(records: seq<Record>, t: RecordType): seq<Record> {
    if records == [] then []
    else if records[0].rtype == t then [records[0]] + OfType(records[1..], t)
    else OfType(records[1..], t)
  }

  function ByType(records: seq<Record>, t: RecordType): seq<Record> {
    Sort(RecordLess, OfType(records, t))
  }

  lemma {:induction false} OfTypeMembers(records: seq<Record>, t: RecordType)
    ensures forall r :: r in OfType(records, t) <==> r in records && r.rtype == t
    ensures DistinctIds(records) ==> DistinctIds(OfType(records, t))
  {
    if records != [] {
      OfTypeMembers(records[1..], t);
      if DistinctIds(records) {
        assert DistinctIds(records[1..]);
        forall r | r in records[1..] ensures r.id != records[0].id {}
      }
    }
  }

  lemma {:induction false} OfTypeExtends(records: seq<Record>, r: Record, t: RecordType)
    ensures OfType(records + [r], t) == OfType(records, t) + if r.rtype == t then [r] else []
  {
    if records != [] {
      assert (records + [r])[1..] == records[1..] + [r];
      OfTypeExtends(records[1..], r, t);
    } else {
      assert OfType([r], t) == (if r.rtype == t then [r] else []) + OfType([], t);
    }
  }

  lemma {:induction false} OfTypeCounts(records: seq<Record>, t: RecordType)
    ensures forall r :: multiset(OfType(records, t))[r] == if r.rtype == t then multiset(records)[r] else 0
  {
    if records != [] {
      OfTypeCounts(records[1..], t);
      assert records == [records[0]] + records[1..];
      assert multiset(records) == multiset{records[0]} + multiset(records[1..]);
      assert records[0].rtype == t ==>
        multiset(OfType(records, t)) == multiset{records[0]} + multiset(OfType(records[1..], t));
    }
  }

  /** Two records of a listing with distinct ids that share their id are one. */
  lemma SameId(records: seq<Record>, r: Record, s: Record)
    requires DistinctIds(records) && r in records && s in records && r.id == s.id
    ensures r == s
  {
    var i :| 0 <= i < |records| && records[i] == r;
    var j :| 0 <= j < |records| && records[j] == s;
  }

  lemma DistinctIdsPermuted(s: seq<Record>, t: seq<Record>)
    requires multiset(s) == multiset(t) && DistinctIds(s)
    ensures DistinctIds(t)
  {
    NoRepeatsPermuted(s, t);
    SameMembers(s, t);
    forall i, j | 0 <= i < j < |t| ensures t[i].id != t[j].id {
      assert t[i] in s && t[j] in s;
      if t[i].id == t[j].id {
        SameId(s, t[i], t[j]);
      }
    }
  }

  lemma NoTiedRecords(records: seq<Record>)
    requires DistinctIds(records)
    ensures NoTies(RecordLess, records)
  {
    RecordOrder();
    forall r, s | r in records && s in records && r != s ensures RecordLess(r, s) || RecordLess(s, r) {
      if r.id == s.id {
        SameId(records, r, s);
      }
    }
  }

  lemma ByTypeFacts(records: seq<Record>, t: RecordType)
    requires DistinctIds(records)
    ensures var rs := ByType(records, t);
      && DistinctIds(rs) && Ordered(RecordLess, rs)
      && (forall r :: r in rs <==> r in records && r.rtype == t)
      && |rs| == |OfType(records, t)|
  {
    RecordOrder();
    OfTypeMembers(records, t);
    SortMembers(RecordLess, OfType(records, t));
    SortOrdered(RecordLess, OfType(records, t));
    DistinctIdsPermuted(OfType(records, t), ByType(records, t));
  }

  /** Listing order is irrelevant, whatever rearrangement of tied values a sort may pick. */
  lemma ByTypeUnique(records: seq<Record>, permuted: seq<Record>, t: RecordType, sorted: seq<Record>)
    requires DistinctIds(records) && multiset(records) == multiset(permuted)
    requires multiset(sorted) == multiset(OfType(permuted, t)) && Ordered(RecordLess, sorted)
    ensures sorted == ByType(records, t)
  {
    OfTypeCounts(records, t);
    OfTypeCounts(permuted, t);
    assert multiset(OfType(records, t)) == multiset(OfType(permuted, t));
    SortMembers(RecordLess, OfType(records, t));
    ByTypeFacts(records, t);
    NoTiedRecords(ByType(records, t));
    OrderedUnique(RecordLess, ByType(records, t), sorted);
  }

  /** What the filter and an unstable sort may yield: the records of the type, in some order without inversions. */
  ghost predicate Listing(records: seq<Record>, t: RecordType, listed: seq<Record>) {
    multiset(listed) == multiset(OfType(records, t)) && Ordered(RecordLess, listed)
  }

  method RecordsByType(state: State, t: RecordType) returns (records: seq<Record>)
    ensures Listing(state.records, t, records)
    ensures DistinctIds(state.records) ==> records == ByType(state.records, t)
  {
    var kept: seq<Record> := [];
    for i := 0 to |state.records|
      invariant kept == OfType(state.records[..i], t)
    {
      var record := state.records[i];
      OfTypeExtends(state.records[..i], record, t);
      assert state.records[..i + 1] == state.records[..i] + [record];
      if record.rtype == t {
        kept := kept + [record];
      }
    }
    assert state.records[..|state.records|] == state.records;
    var a := new Record[|kept|](i requires 0 <= i < |kept| => kept[i]);
    assert a[..] == kept;
    SortRecords(a);
    records := a[..];
    if DistinctIds(state.records) {
      ByTypeUnique(state.records, state.records, t, records);
    }
  }
}
