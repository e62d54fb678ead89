/** A client's filters, cleaned once and for all (`services/copilot/portfolio_context.py`). */
module CleanFilters {
  import opened Orders
  import opened PyText
  import opened PyNumbers
  import opened FilterLists
  import opened Snapshots
  import opened Filters
  import opened FilterRoundTrip

  // ---------------------------------------------------------------- no longer

  /** What is written of a key was sent for it, in as many characters or more. */
  ghost predicate NoLonger(q: Query, p: Params, key: Key) {
    var w := Written(p, key);
    w.Some? ==> key in q && |w.value| <= |q[key]|
  }

  lemma OwnerIsNoLonger(q: Query, p: Params)
    requires p.owner == ParseOwner(q)
    ensures NoLonger(q, p, Owner)
  {
    if IntAt(q, Owner).Some? {
      StrIsNoLonger(q[Owner]);
    }
  }

  lemma WindowIsNoLonger(q: Query, p: Params)
    requires p.renewsWithin.Some? ==> IntAt(q, RenewsWithin) == p.renewsWithin
    ensures NoLonger(q, p, RenewsWithin)
  {
    if p.renewsWithin.Some? {
      StrIsNoLonger(q[RenewsWithin]);
    }
  }

  lemma OrganisationsAreNoLonger(q: Query, p: Params)
    requires p.organisations == IntsOf(CommaList(Value(q, Organisation)))
    ensures NoLonger(q, p, Organisation)
  {
    NothingListed();
    IntListIsNoLonger(Value(q, Organisation));
  }

  lemma LifecyclesAreNoLonger(q: Query, p: Params, values: set<string>)
    requires p.lifecycles == Known(CommaList(Value(q, Lifecycle)), values)
    ensures NoLonger(q, p, Lifecycle)
  {
    NothingListed();
    WordListIsNoLonger(Value(q, Lifecycle), values);
  }

  lemma HealthIsNoLonger(q: Query, p: Params, values: set<string>)
    requires p.health == Known(CommaList(Value(q, Health)), values)
    ensures NoLonger(q, p, Health)
  {
    NothingListed();
    WordListIsNoLonger(Value(q, Health), values);
  }

  lemma IdsAreNoLonger(q: Query, p: Params)
    requires p.ids == ParseIds(q)
    ensures NoLonger(q, p, Ids)
  {
    if Ids in q {
      IdListIsNoLonger(q[Ids], FirstParts(q[Ids]));
    }
  }

  lemma SearchIsNoLonger(q: Query, p: Params)
    requires p.search == Strip(Value(q, Search))
    ensures NoLonger(q, p, Search)
  {
    StripIsNoLonger(Value(q, Search));
  }

  lemma ChoicesAreNoLonger(q: Query, p: Params, bands: set<string>)
    requires p.nps == OneOf(q, Nps, bands)
    requires p.sort != DEFAULT_SORT ==> p.sort == Value(q, Sort) != ""
    requires p.group != "" ==> Group in q && p.group == q[Group]
    ensures NoLonger(q, p, Nps) && NoLonger(q, p, Sort) && NoLonger(q, p, Group)
  {
  }

  lemma ParsesAreNoLonger(q: Query, p: Params, key: Key)
    requires p == Parse(q)
    ensures NoLonger(q, p, key)
  {
    match key
    case Owner => OwnerIsNoLonger(q, p);
    case RenewsWithin => WindowIsNoLonger(q, p);
    case Organisation => OrganisationsAreNoLonger(q, p);
    case Lifecycle => LifecyclesAreNoLonger(q, p, LIFECYCLES);
    case Health => HealthIsNoLonger(q, p, HEALTHS);
    case Ids => IdsAreNoLonger(q, p);
    case Search => SearchIsNoLonger(q, p);
    case _ => ChoicesAreNoLonger(q, p, BANDS);
  }

  /** No value grows longer, and none appears that was not sent. */
  lemma CanonicalIsNoLonger(q: Query, key: Key)
    ensures var c := Canonical(Parse(q));
      key in c ==> key in FILTER_KEYS && key in q && |c[key]| <= |q[key]|
  {
    WrittenAt(Parse(q), key);
    ParsesAreNoLonger(q, Parse(q), key);
  }

  // ---------------------------------------------------------------- cleaning

  function ItemTexts(items: seq<Json>): (r: seq<string>)
    requires forall i | 0 <= i < |items| :: items[i].Text? || items[i].Int?
    ensures |r| == |items|
  {
    if items == [] then []
    else [if items[0].Text? then items[0].s else Str(items[0].n)] + ItemTexts(items[1..])
  }

  /** `_text`: a string, or an integer printed, or such items with a comma between each two. */
  function TextOf(v: Json): Option<string> {
    match v
    case Int(n) => Some(Str(n))
    case Text(s) => Some(s)
    case List(items) =>
      if forall i | 0 <= i < |items| :: items[i].Text? || items[i].Int? then Some(Join(ItemTexts(items))) else None
    case _ => None
  }

  /** The text a key is read as, unless it is not there, not text, or too long. */
  function Taken(raw: map<Key, Json>, key: Key): Option<string> {
    if key !in raw then None
    else
      match TextOf(raw[key])
      case None => None
      case Some(value) =>
        if |value| > MAX_VALUE_LENGTH || (key == Search && |Strip(value)| > MAX_SEARCH_LENGTH) then None
        else Some(value)
  }

  function Taking(raw: map<Key, Json>, keys: set<Key>): Query {
    map key | key in keys && Taken(raw, key).Some? :: Taken(raw, key).value
  }

  /** `clean_filters`; `raw` is none when the client sent no object. */
  function Clean(raw: Option<map<Key, Json>>): Query {
    if raw.None? then map[] else Rewritten(Taking(raw.value, Elements(FILTER_KEYS)))
  }

  /** What was taken, in one spelling; an empty group stays. */
  function Rewritten(q: Query): Query {
    var filters := Canonical(Parse(q));
    if Group in q && q[Group] == "" then filters[Group := ""] else filters
  }

  lemma TakingGrows(raw: map<Key, Json>, keys: set<Key>, key: Key)
    requires key !in keys
    ensures Taking(raw, keys + {key})
         == if Taken(raw, key).Some? then Taking(raw, keys)[key := Taken(raw, key).value] else Taking(raw, keys)
  {
  }

  /** The loop of `clean_filters` over the keys: what it takes of the client's object. */
  method Take(raw: map<Key, Json>) returns (query: Query)
    ensures query == Taking(raw, Elements(FILTER_KEYS))
  {
    var keys := FILTER_KEYS;
    query := map[];
    for i := 0 to |keys|
      invariant query == Taking(raw, Elements(keys[..i]))
    {
      var key := keys[i];
      TakingNext(raw, keys, i);
      if key !in raw {
        continue;
      }
      var value := TextOf(raw[key]);
      if value.None? || |value.value| > MAX_VALUE_LENGTH {
        continue;
      }
      if key == Search && |Strip(value.value)| > MAX_SEARCH_LENGTH {
        continue;
      }
      query := query[key := value.value];
    }
    assert keys[..|keys|] == keys;
  }

  /** `clean_filters`. */
  method CleanFilters(raw: Option<map<Key, Json>>) returns (filters: Query)
    ensures filters == Clean(raw)
  {
    if raw.None? {
      return map[];
    }
    var query := Take(raw.value);
    filters := Rewrite(query);
  }

  method Rewrite(query: Query) returns (filters: Query)
    ensures filters == Rewritten(query)
  {
    filters := CanonicalOf(Parse(query));
    if Group in query && query[Group] == "" {
      filters := filters[Group := ""];
    }
  }

  lemma KeysDiffer(keys: seq<Key>, i: nat)
    requires keys == FILTER_KEYS && i < |keys|
    ensures keys[i] !in keys[..i]
  {
    assert keys[0] == Search && keys[1] == Organisation && keys[2] == Owner && keys[3] == Lifecycle;
    assert keys[4] == Health && keys[5] == RenewsWithin && keys[6] == Nps && keys[7] == Ids;
    assert keys[8] == Sort && keys[9] == Group;
  }

  lemma TakingNext(raw: map<Key, Json>, keys: seq<Key>, i: nat)
    requires keys == FILTER_KEYS && i < |keys|
    ensures var before, after := Taking(raw, Elements(keys[..i])), Taking(raw, Elements(keys[..i + 1]));
      after == if Taken(raw, keys[i]).Some? then before[keys[i] := Taken(raw, keys[i]).value] else before
  {
    KeysDiffer(keys, i);
    assert Elements(keys[..i + 1]) == Elements(keys[..i]) + {keys[i]};
    TakingGrows(raw, Elements(keys[..i]), keys[i]);
  }

  // ---------------------------------------------------------------- once and for all

  /** Stored filters as a client would send them back. */
  function AsSent(filters: Query): map<Key, Json> {
    map key | key in filters :: Text(filters[key])
  }

  /** Short enough to be taken. */
  predicate Fits(key: Key, value: string) {
    |value| <= MAX_VALUE_LENGTH && (key == Search ==> |Strip(value)| <= MAX_SEARCH_LENGTH)
  }

  lemma WrittenFits(q: Query, key: Key)
    requires key in Canonical(Parse(q)) && (forall k | k in q :: Fits(k, q[k]))
    ensures Fits(key, Canonical(Parse(q))[key])
  {
    CanonicalIsNoLonger(q, key);
    assert Fits(key, q[key]);
    if key == Search {
      WrittenAt(Parse(q), Search);
      StripTrims(q[Search]);
      StripTrims(Strip(q[Search]));
    }
  }

  lemma TakenFits(raw: map<Key, Json>)
    ensures forall k | k in Taking(raw, Elements(FILTER_KEYS)) :: Fits(k, Taking(raw, Elements(FILTER_KEYS))[k])
  {
  }

  lemma FittingIsTaken(f: Query)
    requires forall k | k in f :: k in FILTER_KEYS && Fits(k, f[k])
    ensures Taking(AsSent(f), Elements(FILTER_KEYS)) == f
  {
    forall k | k in f ensures Taken(AsSent(f), k) == Some(f[k]) && k in Elements(FILTER_KEYS) {
      assert Fits(k, f[k]) && AsSent(f)[k] == Text(f[k]);
    }
  }

  lemma RewrittenFits(q: Query, key: Key)
    requires key in Rewritten(q) && (forall k | k in q :: Fits(k, q[k]))
    ensures key in FILTER_KEYS && Fits(key, Rewritten(q)[key])
  {
    IsFilterKey(key);
    if Ungrouped(q) && key == Group {
      assert Rewritten(q)[key] == "";
    } else {
      CanonicalIsNoLonger(q, key);
      WrittenFits(q, key);
    }
  }

  /** Cleaned filters are taken as they are. */
  lemma CleanIsTaken(raw: map<Key, Json>)
    ensures Taking(AsSent(Clean(Some(raw))), Elements(FILTER_KEYS)) == Clean(Some(raw))
  {
    var q, f := Taking(raw, Elements(FILTER_KEYS)), Clean(Some(raw));
    TakenFits(raw);
    forall k | k in f ensures k in FILTER_KEYS && Fits(k, f[k]) {
      RewrittenFits(q, k);
    }
    FittingIsTaken(f);
  }

  lemma IdsAreWrittenAlike(ids: seq<int>)
    requires AllReadable(ids)
    ensures Dedup(Strs(Dedup(ids))) == Dedup(Strs(ids))
  {
    DedupOfStrs(ids);
    DedupKeeps(Strs(ids));
  }

  lemma RestoredIsWrittenAlike(p: Params)
    requires Parsed(p)
    ensures Canonical(Restored(p)) == Canonical(p)
  {
    var r := Restored(p);
    assert Written(r, Ids) == Written(p, Ids) by {
      if p.ids.Some? {
        IdsAreWrittenAlike(p.ids.value);
      }
    }
    forall key | key != Ids ensures Written(r, key) == Written(p, key) {
      assert r.(ids := p.ids, groupValue := p.groupValue, cursor := p.cursor, limit := p.limit) == p;
    }
    SameWriting(r, p);
  }

  lemma SameWriting(a: Params, b: Params)
    requires forall key :: Written(a, key) == Written(b, key)
    ensures Canonical(a) == Canonical(b)
  {
  }

  lemma NoEmptyGroup()
    ensures "" !in GROUPS
  {
  }

  /** Two queries alike in all but the group, which neither understands, parse alike. */
  lemma EmptyGroupIsNone(a: Query, b: Query)
    requires b == a[Group := ""] && Group !in a && GroupValue !in a
    ensures Parse(b) == Parse(a)
  {
    NoEmptyGroup();
    assert ParseGroup(a) == "" && ParseGroup(b) == "";
    forall key | key != Group ensures Value(a, key) == Value(b, key) && IntAt(a, key) == IntAt(b, key) {
    }
    AlikeButTheGroup(a, b);
  }

  lemma NumbersAlike(a: Query, b: Query)
    requires forall key | key != Group :: Value(a, key) == Value(b, key) && IntAt(a, key) == IntAt(b, key)
    ensures ParseOwner(a) == ParseOwner(b) && ParseWindow(a) == ParseWindow(b) && ParseLimit(a) == ParseLimit(b)
  {
  }

  lemma WordsAlike(a: Query, b: Query)
    requires forall key | key != Group :: (key in a <==> key in b) && (key in a ==> a[key] == b[key])
    ensures ParseIds(a) == ParseIds(b) && ParseSort(a) == ParseSort(b)
    ensures OneOf(a, Nps, BANDS) == OneOf(b, Nps, BANDS)
  {
  }

  lemma AlikeButTheGroup(a: Query, b: Query)
    requires forall key | key != Group :: Value(a, key) == Value(b, key) && IntAt(a, key) == IntAt(b, key)
    requires forall key | key != Group :: (key in a <==> key in b) && (key in a ==> a[key] == b[key])
    requires ParseGroup(a) == "" == ParseGroup(b)
    ensures Parse(b) == Parse(a)
  {
    NumbersAlike(a, b);
    WordsAlike(a, b);
    var search, cursor := Value(a, Search), Value(a, Cursor);
    var organisations, lifecycles, healths := Value(a, Organisation), Value(a, Lifecycle), Value(a, Health);
    assert search == Value(b, Search) && cursor == Value(b, Cursor);
    assert organisations == Value(b, Organisation) && lifecycles == Value(b, Lifecycle) && healths == Value(b, Health);
  }

  lemma GroupAt(p: Params)
    ensures var c := Canonical(p);
      (Group in c <==> p.group != "") && (Group in c ==> c[Group] == p.group) && GroupValue !in c
  {
    WrittenAt(p, Group);
    WrittenAt(p, GroupValue);
  }

  /** What becomes of the group when filters are written. */
  lemma GroupIsWritten(q: Query)
    ensures var c, g := Canonical(Parse(q)), ParseGroup(q);
      && (Group in c <==> g != "") && (Group in c ==> c[Group] == g) && GroupValue !in c
      && (Ungrouped(q) ==> g == "")
  {
    NoEmptyGroup();
    GroupAt(Parse(q));
  }

  /** What cleaned filters parse to. */
  lemma ParseOfClean(raw: map<Key, Json>)
    ensures Parse(Clean(Some(raw))) == Restored(Parse(Taking(raw, Elements(FILTER_KEYS))))
  {
    var q := Taking(raw, Elements(FILTER_KEYS));
    ParseReadsCanonical(q);
    if Ungrouped(q) {
      GroupIsWritten(q);
      EmptyGroupIsNone(Canonical(Parse(q)), Clean(Some(raw)));
    }
  }

  /** Whether the group stands explicitly empty. */
  predicate Ungrouped(q: Query) {
    Group in q && q[Group] == ""
  }

  /** The group of cleaned filters: the one asked for, or none when none was asked for outright. */
  lemma GroupOfClean(raw: map<Key, Json>)
    ensures var q, f := Taking(raw, Elements(FILTER_KEYS)), Clean(Some(raw));
      && (Ungrouped(f) <==> Ungrouped(q))
      && (Group in f <==> Ungrouped(q) || ParseGroup(q) != "")
  {
    GroupIsWritten(Taking(raw, Elements(FILTER_KEYS)));
  }

  /** Cleaning what was cleaned changes nothing, the explicit empty group included. */
  lemma CleanIsIdempotent(raw: Option<map<Key, Json>>)
    ensures Clean(Some(AsSent(Clean(raw)))) == Clean(raw)
  {
    if raw.None? {
      NothingIsClean();
    } else {
      CleanIsTaken(raw.value);
      ParseOfClean(raw.value);
      ParseIsParsed(Taking(raw.value, Elements(FILTER_KEYS)));
      RestoredIsWrittenAlike(Parse(Taking(raw.value, Elements(FILTER_KEYS))));
      GroupOfClean(raw.value);
    }
  }

  lemma NothingIsClean()
    ensures Clean(Some(map[])) == map[]
  {
    var q: Query := map[];
    assert Taking(map[], Elements(FILTER_KEYS)) == q;
    forall key | key in Canonical(Parse(q)) ensures false {
      CanonicalIsNoLonger(q, key);
    }
  }

  // ---------------------------------------------------------------- the page restored

  datatype View = ListView | BoardView

  function DefaultGroup(v: View): string {
    match v
    case ListView => "health"
    case BoardView => "lifecycle"
  }

  /** `params_of`. */
  function ParamsOf(filters: Query, view: Option<View>): Params {
    var p := Parse(filters);
    if view.Some? && Group !in filters then p.(group := DefaultGroup(view.value)) else p
  }

  /** A page reopened from cleaned filters shows what the client's filters said; its group is the one asked for,
      none when none was asked for outright, and the view's own when nothing was said or understood. */
  lemma PageIsRestored(raw: map<Key, Json>, view: View)
    ensures var q, p := Taking(raw, Elements(FILTER_KEYS)), ParamsOf(Clean(Some(raw)), Some(view));
      && p.(group := "") == Restored(Parse(q)).(group := "")
      && p.group == if Parse(q).group != "" then Parse(q).group
                    else if Group in q && q[Group] == "" then "" else DefaultGroup(view)
  {
    ParseOfClean(raw);
    GroupOfClean(raw);
    GroupIsWritten(Taking(raw, Elements(FILTER_KEYS)));
  }

  // ---------------------------------------------------------------- what is taken

  /** Text is taken as it is and a whole number in digits; nothing, a truth value, a fraction and an object are not
      taken, and neither is a list that holds one of these or a list. */
  lemma TextsAre(v: Json)
    ensures forall s :: v == Text(s) ==> TextOf(v) == Some(s)
    ensures forall n :: v == Int(n) ==> TextOf(v) == Some(Str(n))
    ensures v == Null || v.Bool? || v.Float? || v.Dict? ==> TextOf(v) == None
    ensures v.List? && (exists i :: 0 <= i < |v.items| && !v.items[i].Text? && !v.items[i].Int?) ==> TextOf(v) == None
  {
  }

  lemma {:induction false} ListTexts(items: seq<Json>, words: seq<string>)
    requires |words| == |items|
    requires forall i | 0 <= i < |items| ::
      items[i] == Text(words[i]) || exists n :: items[i] == Int(n) && words[i] == Str(n)
    ensures TextOf(List(items)) == Some(Join(words))
  {
    ItemTextsAre(items, words);
  }

  lemma {:induction false} ItemTextsAre(items: seq<Json>, words: seq<string>)
    requires |words| == |items|
    requires forall i | 0 <= i < |items| ::
      items[i] == Text(words[i]) || exists n :: items[i] == Int(n) && words[i] == Str(n)
    ensures (forall i | 0 <= i < |items| :: items[i].Text? || items[i].Int?) && ItemTexts(items) == words
  {
    if items != [] {
      ItemTextsAre(items[1..], words[1..]);
      assert words == [words[0]] + words[1..];
    }
  }

  /** A key is taken when it was sent as such text of six thousand characters or fewer, a search of a hundred or
      fewer without the spaces around it. */
  lemma TakenIff(raw: map<Key, Json>, key: Key, value: string)
    ensures Taken(raw, key) == Some(value)
       <==> key in raw && TextOf(raw[key]) == Some(value) && |value| <= 6000
            && (key == Search ==> |Strip(value)| <= 100)
  {
  }
}
