/** Printing parsed filters and parsing them again, and cleaning a client's filters
    (`services/copilot/accounts_context.py`, `services/copilot/portfolio_context.py`). */
module FilterRoundTrip {
  import opened Orders
  import opened PyText
  import opened PyNumbers
  import opened FilterLists
  import opened Filters

  /** What parsing yields: every field is one the parser itself would keep. */
  ghost predicate Parsed(p: Params) {
    && Trim(p.search)
    && AllReadable(p.organisations)
    && (p.owner.Some? && p.owner.value.OwnerId? ==> Readable(p.owner.value.id))
    && (forall x | x in p.lifecycles :: x in LIFECYCLES)
    && (forall x | x in p.health :: x in HEALTHS)
    && (p.renewsWithin.Some? ==> p.renewsWithin.value in WINDOWS)
    && (p.nps.Some? ==> p.nps.value in BANDS)
    && (p.ids.Some? ==> AllReadable(p.ids.value) && |p.ids.value| <= MAX_IDS)
    && SortKey(p.sort) in SORT_KEYS
    && (p.group != "" ==> p.group in GROUPS)
  }

  lemma ListsAreParsed(q: Query, p: Params)
    requires p == Parse(q)
    ensures AllReadable(p.organisations)
    ensures (forall x | x in p.lifecycles :: x in LIFECYCLES) && (forall x | x in p.health :: x in HEALTHS)
    ensures p.ids.Some? ==> AllReadable(p.ids.value) && |p.ids.value| <= MAX_IDS
  {
    IntsAreReadable(CommaList(Value(q, Organisation)));
    KnownAreKnown(CommaList(Value(q, Lifecycle)), LIFECYCLES);
    KnownAreKnown(CommaList(Value(q, Health)), HEALTHS);
    if Ids in q {
      IntsAreReadable(FirstParts(q[Ids]));
    }
  }

  lemma DefaultSortIsOne()
    ensures SortKey(DEFAULT_SORT) in SORT_KEYS
  {
    assert DEFAULT_SORT[1..] == "arr";
  }

  lemma ParseIsParsed(q: Query)
    ensures Parsed(Parse(q))
  {
    StripTrims(Value(q, Search));
    ListsAreParsed(q, Parse(q));
    if IntAt(q, Owner).Some? {
      StrIsNoLonger(q[Owner]);
    }
    DefaultSortIsOne();
  }

  /** The parameters as another parse would see them: ids once each, and nothing of the paging. */
  function Restored(p: Params): Params {
    p.(ids := if p.ids.Some? then Some(Dedup(p.ids.value)) else None,
       groupValue := None, cursor := "", limit := DEFAULT_LIMIT)
  }

  lemma IsFilterKey(key: Key)
    ensures key in FILTER_KEYS <==> !(key.GroupValue? || key.Cursor? || key.Limit?)
  {
    var keys := FILTER_KEYS;
    assert keys[0] == Search && keys[1] == Organisation && keys[2] == Owner && keys[3] == Lifecycle;
    assert keys[4] == Health && keys[5] == RenewsWithin && keys[6] == Nps && keys[7] == Ids;
    assert keys[8] == Sort && keys[9] == Group;
  }

  /** `q` holds what is written of each key, and nothing else. */
  ghost predicate Wrote(q: Query, p: Params) {
    forall key :: (key in q <==> Written(p, key).Some?) && (key in q ==> q[key] == Written(p, key).value)
  }

  lemma CanonicalWrote(p: Params)
    ensures Wrote(Canonical(p), p)
  {
    forall key ensures key in Canonical(p) <==> Written(p, key).Some? {
      IsFilterKey(key);
      assert key in Elements(FILTER_KEYS) <==> key in FILTER_KEYS;
    }
  }

  lemma WrittenAt(p: Params, key: Key)
    ensures key in Canonical(p) <==> Written(p, key).Some?
    ensures key in Canonical(p) ==> key in FILTER_KEYS && Canonical(p)[key] == Written(p, key).value
  {
    CanonicalWrote(p);
    IsFilterKey(key);
  }

  // ---------------------------------------------------------------- field by field

  lemma NothingListed()
    ensures CommaList("") == []
  {
    assert Stripped([""]) == [];
  }

  lemma OrganisationsReadBack(q: Query, p: Params)
    requires Parsed(p) && Wrote(q, p)
    ensures IntsOf(CommaList(Value(q, Organisation))) == p.organisations
  {
    NothingListed();
    StrsArePlain(p.organisations);
    CommaListReadsBack(Strs(p.organisations));
  }

  predicate Letters(x: string) {
    x != "" && forall i | 0 <= i < |x| :: 'a' <= x[i] <= 'z'
  }

  ghost predicate AllLetters(values: set<string>) {
    forall x | x in values :: Letters(x)
  }

  lemma LettersStand(words: seq<string>)
    requires forall x | x in words :: Letters(x)
    ensures Plainly(words)
  {
    forall i | 0 <= i < |words| ensures words[i] != "" && Trim(words[i]) && ',' !in words[i] {
      assert Letters(words[i]);
    }
  }

  lemma WordsReadBack(words: seq<string>, values: set<string>, text: string)
    requires (forall x | x in words :: x in values) && AllLetters(values) && text == Join(words)
    ensures Known(CommaList(text), values) == words
  {
    LettersStand(words);
    CommaListReadsBack(words);
    KnownAreKnown(words, values);
  }

  lemma LifecyclesAreLetters()
    ensures AllLetters(LIFECYCLES)
  {
    assert Letters("onboarding") && Letters("kickoff") && Letters("adoption") && Letters("live");
    assert Letters("renewal") && Letters("churn") && Letters("expansion") && Letters("other");
  }

  lemma HealthsAreLetters()
    ensures AllLetters(HEALTHS)
  {
  }

  lemma WordsWritten(q: Query, p: Params)
    requires Wrote(q, p)
    ensures Value(q, Lifecycle) == Join(p.lifecycles)
    ensures Value(q, Health) == Join(p.health)
  {
  }

  lemma LifecyclesReadBack(q: Query, p: Params)
    requires Parsed(p) && Wrote(q, p)
    ensures Known(CommaList(Value(q, Lifecycle)), LIFECYCLES) == p.lifecycles
  {
    WordsWritten(q, p);
    LifecyclesAreLetters();
    WordsReadBack(p.lifecycles, LIFECYCLES, Value(q, Lifecycle));
  }

  lemma HealthReadsBack(q: Query, p: Params)
    requires Parsed(p) && Wrote(q, p)
    ensures Known(CommaList(Value(q, Health)), HEALTHS) == p.health
  {
    WordsWritten(q, p);
    HealthsAreLetters();
    WordsReadBack(p.health, HEALTHS, Value(q, Health));
  }

  /** No number is spelled as the word for nobody. */
  lemma NumberIsNoWord(n: int)
    ensures Str(n) != UNASSIGNED
  {
    assert UNASSIGNED[0] == 'u';
    assert Str(n)[0] == '-' || IsDigit(Str(n)[0]);
  }

  lemma OwnerReadsBack(q: Query, p: Params)
    requires Parsed(p) && Wrote(q, p)
    ensures ParseOwner(q) == p.owner
  {
    if p.owner.Some? && p.owner.value.OwnerId? {
      NumberIsNoWord(p.owner.value.id);
      StrReadsBack(p.owner.value.id);
    }
  }

  lemma WindowWritten(q: Query, p: Params)
    requires Wrote(q, p)
    ensures IntAt(q, RenewsWithin)
         == if p.renewsWithin.Some? then IntOf(Str(p.renewsWithin.value)) else None
  {
  }

  lemma WindowReadsBack(q: Query, p: Params)
    requires Wrote(q, p)
    requires p.renewsWithin.Some? ==> p.renewsWithin.value in WINDOWS
    ensures ParseWindow(q) == p.renewsWithin
  {
    WindowWritten(q, p);
    if p.renewsWithin.Some? {
      WindowIsRead(p.renewsWithin.value);
    }
  }

  lemma WindowIsRead(n: int)
    requires n in WINDOWS
    ensures IntOf(Str(n)) == Some(n)
  {
    SmallIsReadable(n);
    StrReadsBack(n);
  }

  lemma SmallIsReadable(n: int)
    requires 0 <= n < 1000
    ensures Readable(n)
  {
    assert n >= 10 ==> Digits(n) == Digits(n / 10) + [DigitOf(n % 10)];
    assert n >= 100 ==> Digits(n / 10) == Digits(n / 100) + [DigitOf(n / 10 % 10)];
  }

  lemma IdsReadBack(q: Query, p: Params)
    requires Parsed(p) && Wrote(q, p)
    ensures ParseIds(q) == if p.ids.Some? then Some(Dedup(p.ids.value)) else None
  {
    if p.ids.Some? {
      IdListReadsBack(p.ids.value);
    }
  }

  lemma NoIdsAreRead()
    ensures IntsOf(FirstParts("")) == []
  {
    assert Split("") == [""] && IntOf("").None?;
    assert IntsOf([""]) == [];
  }

  lemma IdListReadsBack(ids: seq<int>)
    requires AllReadable(ids) && |ids| <= MAX_IDS
    ensures IntsOf(FirstParts(Join(Dedup(Strs(ids))))) == Dedup(ids)
  {
    DedupOfStrs(ids);
    DedupKeeps(ids);
    StrsArePlain(Dedup(ids));
    if ids == [] {
      NoIdsAreRead();
    } else {
      assert ids[0] in Elements(Dedup(ids));
      JoinReadsBack(Strs(Dedup(ids)));
    }
  }

  /** Printing parsed filters and parsing them again gives the same parameters: ids up to duplicates, and the
      cursor, the limit and the group's value aside. */
  lemma ParseReadsCanonical(q: Query)
    ensures Parse(Canonical(Parse(q))) == Restored(Parse(q))
  {
    var p := Parse(q);
    ParseIsParsed(q);
    CanonicalReadsBack(p);
  }

  lemma CanonicalReadsBack(p: Params)
    requires Parsed(p)
    ensures Parse(Canonical(p)) == Restored(p)
  {
    var q := Canonical(p);
    CanonicalWrote(p);
    SearchReadsBack(q, p);
    OrganisationsReadBack(q, p);
    OwnerReadsBack(q, p);
    LifecyclesReadBack(q, p);
    HealthReadsBack(q, p);
    WindowReadsBack(q, p);
    OthersReadBack(q, p);
    PagingIsGone(q, p);
    IdsReadBack(q, p);
  }

  lemma SearchReadsBack(q: Query, p: Params)
    requires Parsed(p) && Wrote(q, p)
    ensures Strip(Value(q, Search)) == p.search
  {
    StripTrims(p.search);
  }

  lemma PagingIsGone(q: Query, p: Params)
    requires Wrote(q, p)
    ensures Value(q, Cursor) == "" && ParseLimit(q) == DEFAULT_LIMIT
    ensures GroupValue !in q
  {
  }

  lemma ChoicesReadBack(q: Query, p: Params, bands: set<string>)
    requires Wrote(q, p) && (p.nps.Some? ==> p.nps.value in bands && p.nps.value != "")
    ensures OneOf(q, Nps, bands) == p.nps
  {
  }

  lemma SortReadsBack(q: Query, p: Params)
    requires Wrote(q, p) && SortKey(p.sort) in SORT_KEYS && p.sort != ""
    ensures ParseSort(q) == p.sort
  {
  }

  lemma GroupReadsBack(q: Query, p: Params)
    requires Wrote(q, p) && (p.group != "" ==> p.group in GROUPS)
    ensures ParseGroup(q) == p.group
  {
  }

  lemma NoneIsEmpty()
    ensures "" !in BANDS && "" !in SORT_KEYS
  {
  }

  lemma OthersReadBack(q: Query, p: Params)
    requires Parsed(p) && Wrote(q, p)
    ensures OneOf(q, Nps, BANDS) == p.nps
    ensures ParseSort(q) == p.sort
    ensures ParseGroup(q) == p.group
  {
    NoneIsEmpty();
    assert p.sort == "" ==> SortKey(p.sort) == "";
    ChoicesReadBack(q, p, BANDS);
    SortReadsBack(q, p);
    GroupReadsBack(q, p);
  }

  // ---------------------------------------------------------------- what each field is read as

  lemma {:induction false} IntsOfHolds(parts: seq<string>, n: int)
    ensures n in IntsOf(parts) <==> exists i :: 0 <= i < |parts| && IntOf(parts[i]) == Some(n)
  {
    if parts != [] {
      IntsOfHolds(parts[1..], n);
      if i :| 0 <= i < |parts[1..]| && IntOf(parts[1..][i]) == Some(n) {
        assert IntOf(parts[i + 1]) == Some(n);
      }
      if i :| 0 <= i < |parts| && IntOf(parts[i]) == Some(n) {
        assert i > 0 ==> IntOf(parts[1..][i - 1]) == Some(n);
      }
    }
  }

  lemma {:induction false} KnownHolds(parts: seq<string>, values: set<string>, x: string)
    ensures x in Known(parts, values) <==> x in parts && x in values
  {
    if parts != [] {
      KnownHolds(parts[1..], values, x);
      assert parts == [parts[0]] + parts[1..];
    }
  }

  /** The limit is fifty unless a number from one on is given, and then at most a hundred. */
  lemma LimitIs(q: Query)
    ensures IntAt(q, Limit) == None ==> Parse(q).limit == 50
    ensures forall n :: IntAt(q, Limit) == Some(n) ==>
      Parse(q).limit == if n <= 0 then 50 else if n >= 100 then 100 else n
  {
  }

  /** The owner is a number, or nobody in so many letters, and else no filter. */
  lemma OwnerIs(q: Query)
    ensures Parse(q).owner == Some(Unassigned) <==> Owner in q && q[Owner] == "unassigned"
    ensures forall n :: Parse(q).owner == Some(OwnerId(n)) <==>
      Owner in q && q[Owner] != "unassigned" && IntOf(q[Owner]) == Some(n)
  {
  }

  lemma WindowsAre(n: int)
    ensures n in WINDOWS <==> n == 30 || n == 90 || n == 180
  {
  }

  /** The renewal window is one of three numbers. */
  lemma WindowIs(q: Query, n: int)
    ensures Parse(q).renewsWithin == Some(n)
       <==> RenewsWithin in q && IntOf(q[RenewsWithin]) == Some(n) && (n == 30 || n == 90 || n == 180)
  {
    ParsesTo(q);
    WindowsAre(n);
    assert IntAt(q, RenewsWithin) == if RenewsWithin in q then IntOf(q[RenewsWithin]) else None;
  }

  lemma OneOfIs(q: Query, key: Key, values: set<string>, x: string)
    ensures OneOf(q, key, values) == Some(x) <==> key in q && q[key] == x && x in values
  {
  }

  lemma BandsAre(x: string)
    ensures x in BANDS <==> x == "promoter" || x == "passive" || x == "detractor"
  {
  }

  /** The band is one of three words. */
  lemma BandIs(q: Query, x: string)
    ensures Parse(q).nps == Some(x)
       <==> Nps in q && q[Nps] == x && (x == "promoter" || x == "passive" || x == "detractor")
  {
    OneOfIs(q, Nps, BANDS, x);
    BandsAre(x);
    ParsesTo(q);
  }

  lemma ParsesTo(q: Query)
    ensures Parse(q).nps == OneOf(q, Nps, BANDS) && Parse(q).sort == ParseSort(q) && Parse(q).ids == ParseIds(q)
    ensures Parse(q).renewsWithin == ParseWindow(q) && Parse(q).group == ParseGroup(q)
    ensures Parse(q).groupValue == if ParseGroup(q) != "" && GroupValue in q then Some(q[GroupValue]) else None
  {
  }

  lemma GroupsAre(x: string)
    ensures x in GROUPS <==> GroupWord(x)
  {
  }

  /** The grouping is one of four words, and the group's value is read only beside one. */
  lemma GroupIs(q: Query)
    ensures var group := Parse(q).group;
      && (Group in q && GroupWord(q[Group]) ==> group == q[Group])
      && (!(Group in q && GroupWord(q[Group])) ==> group == "")
      && Parse(q).groupValue == (if group != "" && GroupValue in q then Some(q[GroupValue]) else None)
  {
    ParsesTo(q);
    if Group in q {
      GroupsAre(q[Group]);
      OneOfIs(q, Group, GROUPS, q[Group]);
    }
  }

  predicate GroupWord(x: string) {
    x == "health" || x == "lifecycle" || x == "owner" || x == "renewal"
  }

  lemma SortKeysAre(x: string)
    ensures x in SORT_KEYS <==> SortWord(x)
  {
  }

  lemma SortIsRead(q: Query)
    ensures Sort in q && SortWord(KeyOf(q[Sort])) ==> ParseSort(q) == q[Sort]
    ensures !(Sort in q && SortWord(KeyOf(q[Sort]))) ==> ParseSort(q) == DEFAULT_SORT
  {
    if Sort in q {
      SortKeysAre(KeyOf(q[Sort]));
      assert SortKey(q[Sort]) == KeyOf(q[Sort]);
      assert q[Sort] == "" ==> KeyOf(q[Sort]) == "" && !SortWord("");
    }
  }

  /** A sort is one of five keys, descending or not; any other is by falling revenue. */
  lemma SortIs(q: Query)
    ensures Sort in q && SortWord(KeyOf(q[Sort])) ==> Parse(q).sort == q[Sort]
    ensures !(Sort in q && SortWord(KeyOf(q[Sort]))) ==> Parse(q).sort == "-arr"
  {
    ParsesTo(q);
    SortIsRead(q);
  }

  predicate SortWord(x: string) {
    x == "risk" || x == "arr" || x == "renewal" || x == "health" || x == "name"
  }

  function KeyOf(sort: string): string {
    if |sort| >= 1 && sort[0] == '-' then sort[1..] else sort
  }

  /** Given ids are read from the first five hundred parts, and a given list with none in it is not no list. */
  lemma IdsAre(q: Query, n: int)
    ensures Parse(q).ids.Some? <==> Ids in q
    ensures Ids in q ==>
      (n in Parse(q).ids.value <==> exists i :: AmongTheFirst(Split(q[Ids]), i) && IntOf(Split(q[Ids])[i]) == Some(n))
  {
    ParsesTo(q);
    if Ids in q {
      IdsInText(q[Ids], n);
    }
  }

  lemma FirstPartsNumber(s: string)
    ensures |FirstParts(s)| == if |Split(s)| <= 500 then |Split(s)| else 500
  {
  }

  lemma IdsInText(s: string, n: int)
    ensures n in IntsOf(FirstParts(s)) <==> exists i :: AmongTheFirst(Split(s), i) && IntOf(Split(s)[i]) == Some(n)
  {
    var parts, all := FirstParts(s), Split(s);
    FirstPartsNumber(s);
    IntsOfHolds(parts, n);
    FirstPartsAre(parts, all, n);
    assert (exists i :: 0 <= i < |parts| && IntOf(parts[i]) == Some(n))
      <==> exists i :: AmongTheFirst(all, i) && IntOf(all[i]) == Some(n);
  }

  predicate AmongTheFirst(parts: seq<string>, i: int) {
    0 <= i < |parts| && i < 500
  }

  lemma FirstPartsAre(parts: seq<string>, all: seq<string>, n: int)
    requires parts <= all && |parts| == if |all| <= 500 then |all| else 500
    ensures (exists i :: 0 <= i < |parts| && IntOf(parts[i]) == Some(n))
       <==> exists i :: AmongTheFirst(all, i) && IntOf(all[i]) == Some(n)
  {
    if i :| 0 <= i < |parts| && IntOf(parts[i]) == Some(n) {
      assert AmongTheFirst(all, i) && all[i] == parts[i];
    }
    if i :| AmongTheFirst(all, i) && IntOf(all[i]) == Some(n) {
      assert parts[i] == all[i];
    }
  }
}
