/** The filters of an Ask on the Accounts pages: parsed as the page parses its URL, stored in one spelling, and
    parsed again (`services/accounts_portfolio/params.py`, `services/copilot/accounts_context.py`,
    `services/copilot/portfolio_context.py`). */
module Filters {
  import opened Orders
  import opened PyText
  import opened PyNumbers
  import opened FilterLists

  /** The parameters that are looked up; any other key is never read. */
  datatype Key =
    | Search | Organisation | Owner | Lifecycle | Health | RenewsWithin | Nps | Ids | Sort | Group
    | GroupValue | Cursor | Limit

  type Query = map<Key, string>

  /** The parameters that are kept with a conversation; the paging and the group's value are not. */
  const FILTER_KEYS: seq<Key> :=
    [Search, Organisation, Owner, Lifecycle, Health, RenewsWithin, Nps, Ids, Sort, Group]

  const LIFECYCLES: set<string> :=
    {"onboarding", "kickoff", "adoption", "live", "renewal", "churn", "expansion", "other"}
  const HEALTHS: set<string> := {"good", "average", "poor"}
  const BANDS: set<string> := {"promoter", "passive", "detractor"}
  const SORT_KEYS: set<string> := {"risk", "arr", "renewal", "health", "name"}
  const GROUPS: set<string> := {"health", "lifecycle", "owner", "renewal"}
  const WINDOWS: set<int> := {30, 90, 180}
  const DEFAULT_SORT: string := "-arr"
  const UNASSIGNED: string := "unassigned"
  const MAX_IDS: nat := 500
  const DEFAULT_LIMIT: nat := 50
  const MAX_LIMIT: nat := 100
  const MAX_SEARCH_LENGTH: nat := 100
  const MAX_VALUE_LENGTH: nat := 6000

  datatype OwnerFilter = Unassigned | OwnerId(id: int)

  datatype Params = Params(
    search: string, organisations: seq<int>, owner: Option<OwnerFilter>, lifecycles: seq<string>,
    health: seq<string>, renewsWithin: Option<int>, nps: Option<string>, ids: Option<seq<int>>, sort: string,
    group: string, groupValue: Option<string>, cursor: string, limit: int)

  // ---------------------------------------------------------------- parsing

  /** `query.get(key) or ""`. */
  function Value(q: Query, key: Key): string {
    if key in q then q[key] else ""
  }

  function IntAt(q: Query, key: Key): Option<int> {
    if key in q then IntOf(q[key]) else None
  }

  function ParseOwner(q: Query): Option<OwnerFilter> {
    if Value(q, Owner) == UNASSIGNED then Some(Unassigned)
    else match IntAt(q, Owner) case None => None case Some(n) => Some(OwnerId(n))
  }

  function FirstParts(s: string): (parts: seq<string>)
    ensures |parts| <= MAX_IDS && parts <= Split(s)
  {
    var all := Split(s);
    if |all| <= MAX_IDS then all else all[..MAX_IDS]
  }

  function ParseIds(q: Query): Option<seq<int>> {
    if Ids in q then Some(IntsOf(FirstParts(q[Ids]))) else None
  }

  /** `sort.removeprefix("-")`. */
  function SortKey(sort: string): string {
    if sort != "" && sort[0] == '-' then sort[1..] else sort
  }

  function ParseSort(q: Query): string {
    if Value(q, Sort) != "" && SortKey(Value(q, Sort)) in SORT_KEYS then Value(q, Sort) else DEFAULT_SORT
  }

  function OneOf(q: Query, key: Key, values: set<string>): Option<string> {
    if key in q && q[key] in values then Some(q[key]) else None
  }

  function ParseGroup(q: Query): string {
    var g := OneOf(q, Group, GROUPS);
    if g.Some? then g.value else ""
  }

  function ParseWindow(q: Query): Option<int> {
    var n := IntAt(q, RenewsWithin);
    if n.Some? && n.value in WINDOWS then n else None
  }

  function ParseLimit(q: Query): int {
    match IntAt(q, Limit)
    case None => DEFAULT_LIMIT
    case Some(n) => if n < 1 then DEFAULT_LIMIT else if n < MAX_LIMIT then n else MAX_LIMIT
  }

  /** `parse_params`: what no field can use leaves that field at its default. */
  function Parse(q: Query): Params {
    Params(Strip(Value(q, Search)), IntsOf(CommaList(Value(q, Organisation))), ParseOwner(q),
           Known(CommaList(Value(q, Lifecycle)), LIFECYCLES), Known(CommaList(Value(q, Health)), HEALTHS),
           ParseWindow(q), OneOf(q, Nps, BANDS), ParseIds(q), ParseSort(q), ParseGroup(q),
           if ParseGroup(q) != "" && GroupValue in q then Some(q[GroupValue]) else None,
           Value(q, Cursor), ParseLimit(q))
  }

  // ---------------------------------------------------------------- one spelling

  function OwnerText(o: OwnerFilter): string {
    match o
    case Unassigned => UNASSIGNED
    case OwnerId(n) => Str(n)
  }

  /** What a parameter is written as, if it is set. */
  function Written(p: Params, key: Key): Option<string> {
    match key
    case Search => if p.search != "" then Some(p.search) else None
    case Organisation => if p.organisations != [] then Some(Join(Strs(p.organisations))) else None
    case Owner => if p.owner.Some? then Some(OwnerText(p.owner.value)) else None
    case Lifecycle => if p.lifecycles != [] then Some(Join(p.lifecycles)) else None
    case Health => if p.health != [] then Some(Join(p.health)) else None
    case RenewsWithin => if p.renewsWithin.Some? then Some(Str(p.renewsWithin.value)) else None
    case Nps => if p.nps != Some("") then p.nps else None
    case Ids => if p.ids.Some? then Some(Join(Dedup(Strs(p.ids.value)))) else None
    case Sort => if p.sort != DEFAULT_SORT then Some(p.sort) else None
    case Group => if p.group != "" then Some(p.group) else None
    case _ => None
  }

  /** What is written of the parameters in `keys`. */
  function Part(p: Params, keys: set<Key>): Query {
    map key | key in keys && Written(p, key).Some? :: Written(p, key).value
  }

  function Canonical(p: Params): Query {
    Part(p, Elements(FILTER_KEYS))
  }

  lemma PartGrows(p: Params, keys: set<Key>, key: Key)
    ensures Part(p, keys + {key})
         == if Written(p, key).Some? then Part(p, keys)[key := Written(p, key).value] else Part(p, keys) - {key}
    ensures key !in keys ==> Part(p, keys) - {key} == Part(p, keys)
  {
  }

  /** The dict with one more key, when it is set. */
  method Put(p: Params, ghost keys: set<Key>, filters: Query, key: Key, isSet: bool, text: string) returns (r: Query)
    requires filters == Part(p, keys) && key !in keys
    requires Written(p, key) == if isSet then Some(text) else None
    ensures r == Part(p, keys + {key})
  {
    PartGrows(p, keys, key);
    r := if isSet then filters[key := text] else filters;
  }

  /** The first half of `canonical`: which accounts by name, organisation, owner, stage and health. */
  method CanonicalStart(p: Params) returns (filters: Query)
    ensures filters == Part(p, {Search, Organisation, Owner, Lifecycle, Health})
  {
    filters := map[];
    filters := Put(p, {}, filters, Search, p.search != "", p.search);
    filters := Put(p, {Search}, filters, Organisation, p.organisations != [], Join(Strs(p.organisations)));
    filters := Put(p, {Search} + {Organisation}, filters, Owner, p.owner.Some?,
                   if p.owner.Some? then OwnerText(p.owner.value) else "");
    filters := Put(p, {Search, Organisation, Owner}, filters, Lifecycle, p.lifecycles != [], Join(p.lifecycles));
    filters := Put(p, {Search, Organisation, Owner, Lifecycle}, filters, Health, p.health != [], Join(p.health));
  }

  /** The middle of `canonical`: the renewal window, the band and the ids. */
  method CanonicalMiddle(p: Params, start: Query) returns (filters: Query)
    requires start == Part(p, {Search, Organisation, Owner, Lifecycle, Health})
    ensures filters == Part(p, {Search, Organisation, Owner, Lifecycle, Health, RenewsWithin, Nps, Ids})
  {
    ghost var keys: set<Key> := {Search, Organisation, Owner, Lifecycle, Health};
    filters := Put(p, keys, start, RenewsWithin, p.renewsWithin.Some?,
                   if p.renewsWithin.Some? then Str(p.renewsWithin.value) else "");
    filters := Put(p, keys + {RenewsWithin}, filters, Nps, p.nps.Some? && p.nps.value != "",
                   if p.nps.Some? then p.nps.value else "");
    filters := Put(p, keys + {RenewsWithin} + {Nps}, filters, Ids, p.ids.Some?,
                   if p.ids.Some? then Join(Dedup(Strs(p.ids.value))) else "");
    assert keys + {RenewsWithin} + {Nps} + {Ids}
        == {Search, Organisation, Owner, Lifecycle, Health, RenewsWithin, Nps, Ids};
  }

  lemma AllKeys()
    ensures {Search, Organisation, Owner, Lifecycle, Health, RenewsWithin, Nps, Ids} + {Sort} + {Group}
         == Elements(FILTER_KEYS)
  {
  }

  /** `canonical`: the dict filled key by key. */
  method CanonicalOf(p: Params) returns (filters: Query)
    ensures filters == Canonical(p)
  {
    filters := CanonicalStart(p);
    filters := CanonicalMiddle(p, filters);
    ghost var keys: set<Key> := {Search, Organisation, Owner, Lifecycle, Health, RenewsWithin, Nps, Ids};
    filters := Put(p, keys, filters, Sort, p.sort != DEFAULT_SORT, p.sort);
    filters := Put(p, keys + {Sort}, filters, Group, p.group != "", p.group);
    AllKeys();
  }
}
