/** `str(n)`, `int(s)` and comma-separated lists, as the filter parser uses them. */
module PyNumbers {
  import opened Orders
  import opened PyText

  /** The longest numeral `int` reads. */
  const MAX_DIGITS: nat := 4300

  function DigitOf(d: nat): (c: char)
    requires d < 10
    ensures IsDigit(c) && c as int - '0' as int == d
  {
    ('0' as int + d) as char
  }

  function Digits(n: nat): (s: string)
    ensures s != "" && forall i | 0 <= i < |s| :: IsDigit(s[i])
  {
    if n < 10 then [DigitOf(n)] else Digits(n / 10) + [DigitOf(n % 10)]
  }

  /** `str(n)`. */
  function Str(n: int): (s: string)
    ensures s != "" && ',' !in s
  {
    if n < 0 then "-" + Digits(-n) else Digits(n)
  }

  /** Digits, with single underscores between them. */
  predicate Numeral(s: string) {
    && s != "" && IsDigit(s[0]) && IsDigit(s[|s| - 1])
    && (forall i | 0 <= i < |s| :: IsDigit(s[i]) || s[i] == '_')
    && (forall i | 0 < i < |s| :: s[i] == '_' ==> s[i - 1] != '_')
  }

  /** The digits of a numeral. */
  function Plain(s: string): (r: string)
    ensures |r| <= |s|
    ensures (forall i | 0 <= i < |s| :: IsDigit(s[i]) || s[i] == '_') ==> forall i | 0 <= i < |r| :: IsDigit(r[i])
    ensures s != "" && IsDigit(s[0]) ==> r != ""
  {
    if s == "" then "" else if s[0] == '_' then Plain(s[1..]) else [s[0]] + Plain(s[1..])
  }

  function Unsigned(s: string): string {
    if s != "" && (s[0] == '-' || s[0] == '+') then s[1..] else s
  }

  function Signed(t: string, n: nat): int {
    if t != "" && t[0] == '-' then 0 - n else n
  }

  function ReadBody(t: string, body: string): Option<int> {
    if Numeral(body) && |Plain(body)| <= MAX_DIGITS then Some(Signed(t, DigitsValue(Plain(body)))) else None
  }

  /** `int(s)`, or none when it is not an integer. */
  function IntOf(s: string): Option<int> {
    ReadBody(Strip(s), Unsigned(Strip(s)))
  }

  // ---------------------------------------------------------------- numbers read back

  lemma {:induction false} DigitsReadBack(n: nat)
    ensures DigitsValue(Digits(n)) == n
  {
    if n >= 10 {
      DigitsReadBack(n / 10);
      assert Digits(n)[..|Digits(n)| - 1] == Digits(n / 10);
    }
  }

  lemma {:induction false} DigitsAreNoLonger(s: string)
    requires s != "" && forall i | 0 <= i < |s| :: IsDigit(s[i])
    ensures |Digits(DigitsValue(s))| <= |s|
  {
    var front := s[..|s| - 1];
    if DigitsValue(s) >= 10 {
      assert DigitsValue(s) / 10 == DigitsValue(front);
      DigitsAreNoLonger(front);
    }
  }

  lemma {:induction false} StripIsNoLonger(s: string)
    ensures |Strip(s)| <= |s|
  {
    StripLeftIsNoLonger(s);
    StripRightIsNoLonger(StripLeft(s));
  }

  lemma {:induction false} StripLeftIsNoLonger(s: string)
    ensures |StripLeft(s)| <= |s|
    ensures StripLeft(s) != "" ==> !IsSpace(StripLeft(s)[0])
  {
    if s != "" && IsSpace(s[0]) {
      StripLeftIsNoLonger(s[1..]);
    }
  }

  lemma {:induction false} StripRightIsNoLonger(s: string)
    ensures StripRight(s) <= s
    ensures StripRight(s) != "" ==> !IsSpace(StripRight(s)[|StripRight(s)| - 1])
  {
    if s != "" && IsSpace(s[|s| - 1]) {
      StripRightIsNoLonger(s[..|s| - 1]);
    }
  }

  /** Nothing to strip at either end. */
  predicate Trim(s: string) {
    s == "" || (!IsSpace(s[0]) && !IsSpace(s[|s| - 1]))
  }

  lemma StripTrims(s: string)
    ensures Trim(Strip(s)) && (Trim(s) ==> Strip(s) == s)
  {
    StripLeftIsNoLonger(s);
    StripRightIsNoLonger(StripLeft(s));
  }

  lemma {:induction false} PlainOfDigits(s: string)
    requires forall i | 0 <= i < |s| :: IsDigit(s[i])
    ensures Plain(s) == s
  {
    if s != "" {
      PlainOfDigits(s[1..]);
    }
  }

  /** Whether `str(n)` is short enough for `int` to read. */
  predicate Readable(n: int) {
    |Digits(if n < 0 then -n else n)| <= MAX_DIGITS
  }

  lemma DigitsAreTrim(digits: string)
    requires digits != "" && forall i | 0 <= i < |digits| :: IsDigit(digits[i])
    ensures Trim(digits) && Trim("-" + digits) && Numeral(digits)
  {
    assert ("-" + digits)[0] == '-' && ("-" + digits)[|digits|] == digits[|digits| - 1];
  }

  lemma DigitsAreRead(t: string, digits: string)
    requires digits != "" && |digits| <= MAX_DIGITS && forall i | 0 <= i < |digits| :: IsDigit(digits[i])
    requires t == digits || t == "-" + digits
    ensures IntOf(t) == Some(Signed(t, DigitsValue(digits)))
  {
    DigitsAreTrim(digits);
    StripTrims(t);
    assert Unsigned(t) == digits;
    PlainOfDigits(digits);
  }

  /** What `str` writes, `int` reads back. */
  lemma StrReadsBack(n: int)
    requires Readable(n)
    ensures IntOf(Str(n)) == Some(n) && Trim(Str(n))
  {
    if n < 0 {
      SizeReadsBack(-n);
    } else {
      SizeReadsBack(n);
    }
  }

  lemma SizeReadsBack(size: nat)
    requires Readable(size)
    ensures IntOf(Digits(size)) == Some(size) && Trim(Digits(size))
    ensures IntOf("-" + Digits(size)) == Some(0 - size) && Trim("-" + Digits(size))
  {
    var digits := Digits(size);
    DigitsReadBack(size);
    DigitsAreTrim(digits);
    DigitsAreRead(digits, digits);
    DigitsAreRead("-" + digits, digits);
    assert IsDigit(digits[0]) && ("-" + digits)[0] == '-';
  }

  /** And what `int` reads, `str` writes in no more characters. */
  lemma StrIsNoLonger(s: string)
    requires IntOf(s).Some?
    ensures |Str(IntOf(s).value)| <= |s| && Readable(IntOf(s).value)
  {
    StripIsNoLonger(s);
    DigitsAreNoLonger(Plain(Unsigned(Strip(s))));
  }

  // ---------------------------------------------------------------- comma-separated lists

  /** `s.split(",")`. */
  function Split(s: string): (parts: seq<string>)
    ensures parts != [] && forall i | 0 <= i < |parts| :: ',' !in parts[i]
  {
    if s == "" then [""]
    else if s[0] == ',' then [""] + Split(s[1..])
    else
      var rest := Split(s[1..]);
      [[s[0]] + rest[0]] + rest[1..]
  }

  /** `",".join(parts)`. */
  function Join(parts: seq<string>): string {
    if parts == [] then "" else if |parts| == 1 then parts[0] else parts[0] + "," + Join(parts[1..])
  }

  lemma {:induction false} SplitOfHead(head: string, rest: string)
    requires ',' !in head
    ensures Split(head) == [head] && Split(head + "," + rest) == [head] + Split(rest)
    decreases |head|
  {
    if head == "" {
      assert head + "," + rest == "," + rest;
    } else {
      SplitOfHead(head[1..], rest);
      assert (head + "," + rest)[1..] == head[1..] + "," + rest;
      assert head == [head[0]] + head[1..];
    }
  }

  lemma {:induction false} JoinReadsBack(parts: seq<string>)
    requires parts != [] && forall i | 0 <= i < |parts| :: ',' !in parts[i]
    ensures Split(Join(parts)) == parts
  {
    SplitOfHead(parts[0], Join(parts[1..]));
    if |parts| > 1 {
      JoinReadsBack(parts[1..]);
    }
  }

  lemma {:induction false} JoinOfSplit(s: string)
    ensures Join(Split(s)) == s
  {
    if s != "" {
      var rest := Split(s[1..]);
      JoinOfSplit(s[1..]);
      if s[0] == ',' {
        assert Split(s)[1..] == rest;
      } else {
        assert Split(s)[1..] == rest[1..];
      }
      assert s == [s[0]] + s[1..];
    }
  }

  /** The length of a joined list: its parts and a comma after each. */
  function Room(parts: seq<string>): nat {
    if parts == [] then 0 else |parts[0]| + 1 + Room(parts[1..])
  }

  lemma {:induction false} JoinRoom(parts: seq<string>)
    ensures |Join(parts)| == if parts == [] then 0 else Room(parts) - 1
  {
    if parts != [] {
      JoinRoom(parts[1..]);
    }
  }

  // ---------------------------------------------------------------- what is stripped, and what is a number

  lemma {:induction false} StripLeftOfPadded(pad: string, s: string)
    requires Blank(pad) && (s == "" || !IsSpace(s[0]))
    ensures StripLeft(pad + s) == s
  {
    if pad == "" {
      assert pad + s == s;
    } else {
      assert (pad + s)[1..] == pad[1..] + s;
      StripLeftOfPadded(pad[1..], s);
    }
  }

  lemma {:induction false} StripRightOfPadded(s: string, pad: string)
    requires Blank(pad) && (s == "" || !IsSpace(s[|s| - 1]))
    ensures StripRight(s + pad) == s
  {
    if pad == "" {
      assert s + pad == s;
    } else {
      assert (s + pad)[..|s + pad| - 1] == s + pad[..|pad| - 1];
      StripRightOfPadded(s, pad[..|pad| - 1]);
    }
  }

  /** Spaces around a text go, whatever stands between them stays. */
  lemma StripOfPadded(before: string, s: string, after: string)
    requires Blank(before) && Blank(after) && Trim(s)
    ensures Strip(before + s + after) == s
  {
    if s == "" {
      assert before + s + after == (before + after) + "";
      StripLeftOfPadded(before + after, "");
    } else {
      assert before + s + after == before + (s + after);
      StripLeftOfPadded(before, s + after);
      StripRightOfPadded(s, after);
    }
  }

  lemma SignedIsTrim(sign: string, digits: string)
    requires sign in {"", "-", "+"} && IsDigits(digits)
    ensures Trim(sign + digits) && Unsigned(sign + digits) == digits
  {
    var body := sign + digits;
    assert body[|body| - 1] == digits[|digits| - 1];
    if sign == "" {
      assert body == digits && IsDigit(digits[0]);
    } else {
      assert body[0] == sign[0] && body[1..] == digits;
    }
  }

  lemma DigitsAreNumeral(digits: string)
    requires IsDigits(digits)
    ensures Numeral(digits) && Plain(digits) == digits
  {
    PlainOfDigits(digits);
  }

  /** Digits with a sign or none, and spaces around them, are a number when they are not too many. */
  lemma SignedDigitsAreRead(before: string, sign: string, digits: string, after: string)
    requires Blank(before) && Blank(after) && sign in {"", "-", "+"} && IsDigits(digits)
    ensures IntOf(before + (sign + digits) + after)
         == if |digits| > 4300 then None
            else Some(if sign == "-" then 0 - DigitsValue(digits) else DigitsValue(digits))
  {
    SignedIsTrim(sign, digits);
    StripOfPadded(before, sign + digits, after);
    DigitsAreNumeral(digits);
    SignIs(sign, digits);
  }

  lemma SignIs(sign: string, digits: string)
    requires sign in {"", "-", "+"} && IsDigits(digits)
    ensures Signed(sign + digits, DigitsValue(digits))
         == if sign == "-" then 0 - DigitsValue(digits) else DigitsValue(digits)
  {
    if sign == "" {
      assert sign + digits == digits && IsDigit(digits[0]);
    } else {
      assert (sign + digits)[0] == sign[0];
    }
  }

  lemma JoinedIsNumeral(a: string, b: string)
    requires IsDigits(a) && IsDigits(b)
    ensures var s := a + "_" + b; Numeral(s) && Trim(s) && Unsigned(s) == s && Plain(s) == a + b && IsDigits(a + b)
  {
    var s := a + "_" + b;
    assert s[0] == a[0] && IsDigit(a[0]);
    assert s[|s| - 1] == b[|b| - 1] && IsDigit(b[|b| - 1]);
    forall i | 0 <= i < |s| ensures (IsDigit(s[i]) || s[i] == '_') && (s[i] == '_' ==> i == |a|) {
      if i < |a| {
        assert s[i] == a[i];
      } else if i > |a| {
        assert s[i] == b[i - |a| - 1];
      }
    }
    assert s == a + ("_" + b);
    PlainOfSum(a, "_" + b);
    assert ("_" + b)[1..] == b;
    PlainOfDigits(a);
    PlainOfDigits(b);
  }

  /** An underscore between digits is passed over. */
  lemma UnderscoreIsPassedOver(a: string, b: string)
    requires IsDigits(a) && IsDigits(b) && |a| + |b| <= 4300
    ensures IsDigits(a + b) && IntOf(a + "_" + b) == Some(DigitsValue(a + b) as int)
  {
    JoinedIsNumeral(a, b);
    StripTrims(a + "_" + b);
    assert (a + "_" + b)[0] == a[0] && IsDigit(a[0]);
  }

  lemma {:induction false} PlainOfSum(a: string, b: string)
    ensures Plain(a + b) == Plain(a) + Plain(b)
  {
    if a == "" {
      assert a + b == b;
    } else {
      assert (a + b)[1..] == a[1..] + b;
      PlainOfSum(a[1..], b);
    }
  }

  /** Anything else is none: another character, no digit at the end, or two underscores together. */
  lemma OthersAreNoNumbers(s: string, i: nat)
    requires Trim(s) && 0 < i < |s|
    requires || (!IsDigit(s[i]) && s[i] != '_')
             || !IsDigit(s[|s| - 1])
             || (s[i] == '_' && s[i - 1] == '_')
    ensures IntOf(s) == None
  {
    StripTrims(s);
    var body := Unsigned(s);
    if body == s[1..] {
      assert body[i - 1] == s[i] && body[|body| - 1] == s[|s| - 1];
      assert i > 1 ==> body[i - 2] == s[i - 1];
    }
  }
}
