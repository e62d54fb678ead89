/** The snapshots a Copilot reply stores about what it was built from, and how they are read back. */
module Snapshots {
  import opened Orders

  /** A JSON column's value; `Null` is also a missing key. */
  datatype Json =
    | Null
    | Bool(b: bool)
    | Int(n: int)
    | Float(r: real)
    | Text(s: string)
    | List(items: seq<Json>)
    | Dict(fields: map<string, Json>)

  predicate Truthy(v: Json) {
    match v
    case Null => false
    case Bool(b) => b
    case Int(n) => n != 0
    case Float(r) => r != 0.0
    case Text(s) => s != ""
    case List(items) => items != []
    case Dict(fields) => fields != map[]
  }

  function Get(v: Json, key: string): Json
    requires v.Dict?
  {
    if key in v.fields then v.fields[key] else Null
  }

  /** The opportunities, risks or tickets a reply's figures counted. */
  datatype Counted = Counted(accounts: seq<int>, departments: seq<string>)

  /** A record a digest quoted, filed on a customer or on an account. */
  datatype Ref = Ref(kind: string, id: int, companyType: string, companyId: int)

  const NO_PIPELINE := Counted([], [])

  /** How a snapshot with nothing known is stored. */
  const UNKNOWN := Dict(map["unknown" := Bool(true)])

  predicate AllInts(items: seq<Json>) {
    forall i | 0 <= i < |items| :: items[i].Int?
  }

  predicate AllTexts(items: seq<Json>) {
    forall i | 0 <= i < |items| :: items[i].Text?
  }

  function Ints(items: seq<Json>): (r: seq<int>)
    requires AllInts(items)
    ensures |r| == |items| && forall i | 0 <= i < |r| :: items[i].n == r[i]
  {
    seq(|items|, i requires 0 <= i < |items| => items[i].n)
  }

  function Texts(items: seq<Json>): (r: seq<string>)
    requires AllTexts(items)
    ensures |r| == |items| && forall i | 0 <= i < |r| :: items[i].s == r[i]
  {
    seq(|items|, i requires 0 <= i < |items| => items[i].s)
  }

  function IntList(xs: seq<int>): (r: Json)
    ensures r.List? && AllInts(r.items) && Ints(r.items) == xs
  {
    List(seq(|xs|, i requires 0 <= i < |xs| => Int(xs[i])))
  }

  function TextList(xs: seq<string>): (r: Json)
    ensures r.List? && AllTexts(r.items) && Texts(r.items) == xs
  {
    List(seq(|xs|, i requires 0 <= i < |xs| => Text(xs[i])))
  }

  /** Customer ids: a list of whole numbers, or unknown. */
  function StoredIds(v: Json): Option<set<int>> {
    if v.List? && AllInts(v.items) then Some(Elements(Ints(v.items))) else None
  }

  function WellFormedCounted(v: Json): Option<Counted> {
    if !v.Dict? || v.fields.Keys != {"account_ids", "departments"} then None
    else
      var ids, departments := v.fields["account_ids"], v.fields["departments"];
      if !ids.List? || !departments.List? then None
      else if !AllInts(ids.items) || !AllTexts(departments.items) then None
      else Some(Counted(Ints(ids.items), Texts(departments.items)))
  }

  function EncodeCounted(c: Counted): Json {
    Dict(map["account_ids" := IntList(c.accounts), "departments" := TextList(c.departments)])
  }

  predicate Whole(v: Json) {
    v.Int? && v.n > 0
  }

  predicate IsRef(v: Json) {
    && v.Dict?
    && v.fields.Keys == {"type", "id", "company_type", "company_id"}
    && v.fields["type"].Text?
    && v.fields["company_type"] in {Text("customer"), Text("account")}
    && Whole(v.fields["id"]) && Whole(v.fields["company_id"])
  }

  function DecodeRef(v: Json): Ref
    requires IsRef(v)
  {
    Ref(v.fields["type"].s, v.fields["id"].n, v.fields["company_type"].s, v.fields["company_id"].n)
  }

  function EncodeRef(r: Ref): Json {
    Dict(map["type" := Text(r.kind), "id" := Int(r.id),
             "company_type" := Text(r.companyType), "company_id" := Int(r.companyId)])
  }

  function WellFormedRecords(v: Json): Option<seq<Ref>> {
    if v.List? && (forall i | 0 <= i < |v.items| :: IsRef(v.items[i]))
    then Some(seq(|v.items|, i requires 0 <= i < |v.items| => DecodeRef(v.items[i])))
    else None
  }

  function EncodeRecords(rs: seq<Ref>): Json {
    List(seq(|rs|, i requires 0 <= i < |rs| => EncodeRef(rs[i])))
  }

  /** The references the code can build: the ones `well_formed_records` accepts. */
  predicate ValidRef(r: Ref) {
    r.id > 0 && r.companyId > 0 && r.companyType in {"customer", "account"}
  }

  predicate ValidRefs(rs: seq<Ref>) {
    forall r | r in rs :: ValidRef(r)
  }

  // ---------------------------------------------------------------- unions

  predicate RefLe(a: Ref, b: Ref) {
    if a.kind != b.kind then TextLe(a.kind, b.kind)
    else if a.id != b.id then a.id < b.id
    else if a.companyType != b.companyType then TextLe(a.companyType, b.companyType)
    else a.companyId <= b.companyId
  }

  lemma RefLeIsTotal()
    ensures TotalOrder(RefLe)
  {
    TextLeIsTotal();
    forall a, b, c | RefLe(a, b) && RefLe(b, c) ensures RefLe(a, c) {
    }
  }

  function UnionCounted(a: Counted, b: Counted): Counted {
    Counted(SortedSet(a.accounts + b.accounts, IntLe), SortedSet(a.departments + b.departments, TextLe))
  }

  function UnionRecords(a: seq<Ref>, b: seq<Ref>): seq<Ref> {
    SortedSet(a + b, RefLe)
  }

  lemma ElementsOfSum<T>(a: seq<T>, b: seq<T>)
    ensures Elements(a + b) == Elements(a) + Elements(b)
  {
  }

  lemma UnionCountedAdds(a: Counted, b: Counted)
    ensures Elements(UnionCounted(a, b).accounts) == Elements(a.accounts) + Elements(b.accounts)
    ensures Elements(UnionCounted(a, b).departments) == Elements(a.departments) + Elements(b.departments)
    ensures StrictlySorted(UnionCounted(a, b).accounts, IntLe)
    ensures StrictlySorted(UnionCounted(a, b).departments, TextLe)
  {
    TextLeIsTotal();
    SortedSetSorts(a.accounts + b.accounts, IntLe);
    SortedSetSorts(a.departments + b.departments, TextLe);
    ElementsOfSum(a.accounts, b.accounts);
    ElementsOfSum(a.departments, b.departments);
  }

  lemma UnionRecordsAdds(a: seq<Ref>, b: seq<Ref>)
    ensures Elements(UnionRecords(a, b)) == Elements(a) + Elements(b)
    ensures StrictlySorted(UnionRecords(a, b), RefLe)
  {
    RefLeIsTotal();
    SortedSetSorts(a + b, RefLe);
    ElementsOfSum(a, b);
  }

  // ---------------------------------------------------------------- stored and read back

  function StoredCounted(fold: Option<Counted>): Json {
    match fold
    case None => UNKNOWN
    case Some(c) => EncodeCounted(c)
  }

  function StoredRecords(fold: Option<seq<Ref>>): Json {
    match fold
    case None => UNKNOWN
    case Some(rs) => EncodeRecords(rs)
  }

  /** A stored fold reads back as itself, an unknown one as unknown, and neither is ever null. */
  lemma StoredCountedReadsBack(fold: Option<Counted>)
    ensures WellFormedCounted(StoredCounted(fold)) == fold
    ensures StoredCounted(fold) != Null
  {
    if fold.None? {
      assert "unknown" in UNKNOWN.fields.Keys;
    } else {
      var v := EncodeCounted(fold.value);
      assert v.fields.Keys == {"account_ids", "departments"};
    }
  }

  lemma StoredRecordsReadBack(fold: Option<seq<Ref>>)
    requires fold.Some? ==> ValidRefs(fold.value)
    ensures WellFormedRecords(StoredRecords(fold)) == fold
    ensures StoredRecords(fold) != Null
  {
    if fold.Some? {
      var rs := fold.value;
      var v := EncodeRecords(rs);
      forall i | 0 <= i < |rs| ensures IsRef(v.items[i]) && DecodeRef(v.items[i]) == rs[i] {
        assert rs[i] in rs;
        assert v.items[i].fields.Keys == {"type", "id", "company_type", "company_id"};
      }
      assert WellFormedRecords(v).value == rs;
    }
  }

  lemma WellFormedRecordsAreValid(v: Json)
    requires WellFormedRecords(v).Some?
    ensures ValidRefs(WellFormedRecords(v).value)
  {
    var rs := WellFormedRecords(v).value;
    forall r | r in rs ensures ValidRef(r) {
      var i :| 0 <= i < |rs| && rs[i] == r;
    }
  }

  /** The checks hand back exactly the value they were given. */
  lemma WellFormedKeepsTheValue(v: Json)
    ensures WellFormedCounted(v).Some? ==> EncodeCounted(WellFormedCounted(v).value) == v
    ensures WellFormedRecords(v).Some? ==> EncodeRecords(WellFormedRecords(v).value) == v
  {
    if WellFormedCounted(v).Some? {
      var c := WellFormedCounted(v).value;
      assert IntList(c.accounts).items == v.fields["account_ids"].items;
      assert TextList(c.departments).items == v.fields["departments"].items;
      assert EncodeCounted(c).fields == v.fields;
    }
    if WellFormedRecords(v).Some? {
      var rs := WellFormedRecords(v).value;
      forall i | 0 <= i < |rs| ensures EncodeRef(rs[i]) == v.items[i] {
        assert EncodeRef(rs[i]).fields == v.items[i].fields;
      }
      assert EncodeRecords(rs).items == v.items;
    }
  }
}
