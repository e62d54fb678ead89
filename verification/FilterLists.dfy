/** The comma-separated values of a filter: read leniently, written in one spelling
    (`services/organizations/params.py`, `services/accounts_portfolio/params.py`,
    `services/copilot/accounts_context.py`). */
module FilterLists {
  import opened Orders
  import opened PyText
  import opened PyNumbers

  /** The parts that are not blank, stripped. */
  function Stripped(parts: seq<string>): seq<string> {
    if parts == [] then []
    else (if Strip(parts[0]) == "" then [] else [Strip(parts[0])]) + Stripped(parts[1..])
  }

  /** `comma_list`. */
  function CommaList(s: string): seq<string> {
    Stripped(Split(s))
  }

  /** The parts that are integers. */
  function IntsOf(parts: seq<string>): seq<int> {
    if parts == [] then []
    else (if IntOf(parts[0]).Some? then [IntOf(parts[0]).value] else []) + IntsOf(parts[1..])
  }

  /** The parts that are among `values`. */
  function Known(parts: seq<string>, values: set<string>): seq<string> {
    if parts == [] then []
    else (if parts[0] in values then [parts[0]] else []) + Known(parts[1..], values)
  }

  function Strs(ns: seq<int>): (r: seq<string>)
    ensures |r| == |ns|
  {
    if ns == [] then [] else [Str(ns[0])] + Strs(ns[1..])
  }

  /** `dict.fromkeys(xs)`: each value once, where it first was. */
  function Dedup<T(==)>(xs: seq<T>): seq<T> {
    if xs == [] then []
    else
      var front, last := Dedup(xs[..|xs| - 1]), xs[|xs| - 1];
      if last in front then front else front + [last]
  }

  predicate AllReadable(ns: seq<int>) {
    forall i | 0 <= i < |ns| :: Readable(ns[i])
  }

  /** Words that stand in a list as they are. */
  predicate Plainly(parts: seq<string>) {
    forall i | 0 <= i < |parts| :: parts[i] != "" && Trim(parts[i]) && ',' !in parts[i]
  }

  // ---------------------------------------------------------------- read back

  lemma {:induction false} StrippedOfPlain(parts: seq<string>)
    requires Plainly(parts)
    ensures Stripped(parts) == parts
  {
    if parts != [] {
      StripTrims(parts[0]);
      StrippedOfPlain(parts[1..]);
    }
  }

  /** A list of plain words is read back. */
  lemma CommaListReadsBack(parts: seq<string>)
    requires Plainly(parts)
    ensures CommaList(Join(parts)) == parts
  {
    if parts == [] {
      assert Stripped([""]) == [];
    } else {
      JoinReadsBack(parts);
      StrippedOfPlain(parts);
    }
  }

  lemma PlainlyCons(word: string, parts: seq<string>)
    requires word != "" && Trim(word) && ',' !in word && Plainly(parts)
    ensures Plainly([word] + parts)
  {
  }

  lemma IntsOfCons(word: string, parts: seq<string>)
    requires IntOf(word).Some?
    ensures IntsOf([word] + parts) == [IntOf(word).value] + IntsOf(parts)
  {
    assert ([word] + parts)[1..] == parts;
  }

  lemma {:induction false} StrsArePlain(ns: seq<int>)
    requires AllReadable(ns)
    ensures Plainly(Strs(ns)) && IntsOf(Strs(ns)) == ns
  {
    if ns != [] {
      var word, rest := Str(ns[0]), Strs(ns[1..]);
      StrsArePlain(ns[1..]);
      StrReadsBack(ns[0]);
      assert Strs(ns) == [word] + rest;
      PlainlyCons(word, rest);
      IntsOfCons(word, rest);
    }
  }

  lemma {:induction false} IntsAreReadable(parts: seq<string>)
    ensures AllReadable(IntsOf(parts)) && |IntsOf(parts)| <= |parts|
  {
    if parts != [] {
      IntsAreReadable(parts[1..]);
      if IntOf(parts[0]).Some? {
        StrIsNoLonger(parts[0]);
      }
    }
  }

  lemma {:induction false} KnownAreKnown(parts: seq<string>, values: set<string>)
    ensures forall x | x in Known(parts, values) :: x in values
    ensures (forall x | x in parts :: x in values) ==> Known(parts, values) == parts
  {
    if parts != [] {
      KnownAreKnown(parts[1..], values);
      assert parts == [parts[0]] + parts[1..];
    }
  }

  // ---------------------------------------------------------------- once each

  lemma {:induction false} DedupKeeps<T>(xs: seq<T>)
    ensures |Dedup(xs)| <= |xs| && Elements(Dedup(xs)) == Elements(xs)
    ensures Dedup(Dedup(xs)) == Dedup(xs)
  {
    if xs != [] {
      var front, last := xs[..|xs| - 1], xs[|xs| - 1];
      DedupKeeps(front);
      assert xs == front + [last];
      assert Elements(xs) == Elements(front) + {last};
      if last in Dedup(front) {
        assert last in Elements(front);
      } else {
        assert (Dedup(front) + [last])[..|Dedup(front)|] == Dedup(front);
        assert Elements(Dedup(front) + [last]) == Elements(Dedup(front)) + {last};
      }
    }
  }

  lemma {:induction false} StrsAppend(ns: seq<int>, n: int)
    ensures Strs(ns + [n]) == Strs(ns) + [Str(n)]
  {
    if ns != [] {
      StrsAppend(ns[1..], n);
      assert (ns + [n])[1..] == ns[1..] + [n];
    }
  }

  lemma {:induction false} StrsHold(ns: seq<int>, n: int)
    requires AllReadable(ns) && Readable(n)
    ensures Str(n) in Strs(ns) <==> n in ns
  {
    if ns != [] {
      StrsHold(ns[1..], n);
      StrReadsBack(n);
      StrReadsBack(ns[0]);
      assert ns == [ns[0]] + ns[1..];
    }
  }

  /** Spelled out, different integers stay different. */
  lemma {:induction false} DedupOfStrs(ns: seq<int>)
    requires AllReadable(ns)
    ensures Dedup(Strs(ns)) == Strs(Dedup(ns)) && AllReadable(Dedup(ns))
  {
    if ns != [] {
      var front, last := ns[..|ns| - 1], ns[|ns| - 1];
      DedupOfStrs(front);
      assert ns == front + [last];
      StrsAppend(front, last);
      assert (Strs(front) + [Str(last)])[..|front|] == Strs(front);
      StrsHold(Dedup(front), last);
      StrsAppend(Dedup(front), last);
    }
  }

  // ---------------------------------------------------------------- no longer

  lemma {:induction false} RoomAppends(a: seq<string>, b: seq<string>)
    ensures Room(a + b) == Room(a) + Room(b)
  {
    if a == [] {
      assert a + b == b;
    } else {
      RoomAppends(a[1..], b);
      assert (a + b)[1..] == a[1..] + b;
    }
  }

  lemma {:induction false} StrippedRoom(parts: seq<string>)
    ensures Room(Stripped(parts)) <= Room(parts)
  {
    if parts != [] {
      StripIsNoLonger(parts[0]);
      StrippedRoom(parts[1..]);
      RoomAppends(if Strip(parts[0]) == "" then [] else [Strip(parts[0])], Stripped(parts[1..]));
    }
  }

  lemma {:induction false} IntsRoom(parts: seq<string>)
    ensures Room(Strs(IntsOf(parts))) <= Room(parts)
  {
    if parts != [] {
      IntsRoom(parts[1..]);
      if IntOf(parts[0]).Some? {
        StrIsNoLonger(parts[0]);
        assert IntsOf(parts)[1..] == IntsOf(parts[1..]);
      } else {
        assert IntsOf(parts) == IntsOf(parts[1..]);
      }
    }
  }

  lemma {:induction false} KnownRoom(parts: seq<string>, values: set<string>)
    ensures Room(Known(parts, values)) <= Room(parts)
  {
    if parts != [] {
      KnownRoom(parts[1..], values);
      RoomAppends(if parts[0] in values then [parts[0]] else [], Known(parts[1..], values));
    }
  }

  lemma {:induction false} DedupRoom(parts: seq<string>)
    ensures Room(Dedup(parts)) <= Room(parts)
  {
    if parts != [] {
      var front, last := parts[..|parts| - 1], parts[|parts| - 1];
      DedupRoom(front);
      assert parts == front + [last];
      RoomAppends(front, [last]);
      RoomAppends(Dedup(front), [last]);
    }
  }

  lemma SmallerRoom(parts: seq<string>, s: string)
    requires Room(parts) <= Room(Split(s))
    ensures |Join(parts)| <= |s|
  {
    JoinRoom(parts);
    JoinRoom(Split(s));
    JoinOfSplit(s);
  }

  /** A list of integers is written in no more characters than it was read from. */
  lemma IntListIsNoLonger(s: string)
    ensures |Join(Strs(IntsOf(CommaList(s))))| <= |s|
  {
    IntsRoom(CommaList(s));
    StrippedRoom(Split(s));
    SmallerRoom(Strs(IntsOf(CommaList(s))), s);
  }

  lemma WordListIsNoLonger(s: string, values: set<string>)
    ensures |Join(Known(CommaList(s), values))| <= |s|
  {
    KnownRoom(CommaList(s), values);
    StrippedRoom(Split(s));
    SmallerRoom(Known(CommaList(s), values), s);
  }

  lemma IdListIsNoLonger(s: string, parts: seq<string>)
    requires parts <= Split(s)
    ensures |Join(Dedup(Strs(IntsOf(parts))))| <= |s|
  {
    DedupRoom(Strs(IntsOf(parts)));
    IntsRoom(parts);
    RoomAppends(parts, Split(s)[|parts|..]);
    assert Split(s) == parts + Split(s)[|parts|..];
    SmallerRoom(Dedup(Strs(IntsOf(parts))), s);
  }

  // ---------------------------------------------------------------- lists as people write them

  /** The same words with spaces about them, and blank ones between, are read as the words. */
  ghost predicate Spaced(parts: seq<string>, words: seq<string>)
    decreases |parts|
  {
    if parts == [] then words == []
    else
      || (Blank(parts[0]) && Spaced(parts[1..], words))
      || (words != [] && SpacedWord(parts[0], words[0]) && Spaced(parts[1..], words[1..]))
  }

  ghost predicate SpacedWord(part: string, word: string) {
    word != "" && Trim(word) && exists b, a :: Blank(b) && Blank(a) && part == b + word + a
  }

  lemma {:induction false} StrippedOfSpaced(parts: seq<string>, words: seq<string>)
    requires Spaced(parts, words)
    ensures Stripped(parts) == words
    decreases |parts|
  {
    if parts != [] {
      if Blank(parts[0]) && Spaced(parts[1..], words) {
        assert parts[0] == parts[0] + "" + "";
        StripOfPadded(parts[0], "", "");
        StrippedOfSpaced(parts[1..], words);
      } else {
        var b, a :| Blank(b) && Blank(a) && parts[0] == b + words[0] + a;
        StripOfPadded(b, words[0], a);
        StrippedOfSpaced(parts[1..], words[1..]);
        assert words == [words[0]] + words[1..];
      }
    }
  }

  /** So a list of words with spaces and stray commas is read as those words. */
  lemma CommaListOfSpaced(parts: seq<string>, words: seq<string>)
    requires parts != [] && (forall i | 0 <= i < |parts| :: ',' !in parts[i]) && Spaced(parts, words)
    ensures CommaList(Join(parts)) == words
  {
    JoinReadsBack(parts);
    StrippedOfSpaced(parts, words);
  }

  ghost predicate FirstAt<T>(xs: seq<T>, x: T, i: nat) {
    i < |xs| && xs[i] == x && x !in xs[..i]
  }

  lemma DedupHolds<T>(xs: seq<T>, x: T)
    ensures x in Dedup(xs) <==> x in xs
  {
    DedupKeeps(xs);
    assert x in Dedup(xs) <==> x in Elements(Dedup(xs));
    assert x in xs <==> x in Elements(xs);
  }

  /** Of a value that comes more than once the first place counts: the values kept are in the order of theirs. */
  lemma {:induction false} DedupKeepsFirst<T>(xs: seq<T>, k: nat) returns (i: nat)
    requires k < |Dedup(xs)|
    ensures FirstAt(xs, Dedup(xs)[k], i)
    ensures forall l: nat, j: nat | l < k && FirstAt(xs, Dedup(xs)[l], j) :: j < i
  {
    var n := |xs| - 1;
    var front := Dedup(xs[..n]);
    forall x ensures x in front <==> x in xs[..n] {
      DedupHolds(xs[..n], x);
    }
    if k < |front| {
      i := DedupKeepsFirst(xs[..n], k);
      assert xs[..n][..i] == xs[..i];
      forall l: nat, j: nat | l < k && FirstAt(xs, Dedup(xs)[l], j) ensures j < i {
        assert front[l] in xs[..n];
        assert xs[..n][..j] == xs[..j];
        assert FirstAt(xs[..n], front[l], j);
      }
    } else {
      i := n;
      forall l: nat, j: nat | l < k && FirstAt(xs, Dedup(xs)[l], j) ensures j < i {
        assert front[l] in xs[..n];
      }
    }
  }
}
