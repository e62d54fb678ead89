/** The fence around record text in an Ask prompt (`services/copilot/dashboard_grounding.py`). */
module Fence {
  import opened PyText

  const TOKEN: string := "dashboard_data"
  const RENAMED: string := "dashboard-data"
  const OPENING: string := "<dashboard_data>\n"
  const CLOSING: string := "\n</dashboard_data>"

  /** Whether `c` is the letter `t` of the token in any case. Case folding also makes U+017F an `s`. */
  predicate Folds(t: char, c: char) {
    c == t || ('a' <= t <= 'z' && c as int == t as int - 32) || (t == 's' && c == '\U{17F}')
  }

  /** `s` begins with the token from its letter `k` on. */
  predicate MatchesFrom(s: string, k: nat)
    requires k <= |TOKEN|
    decreases |s|
  {
    k == |TOKEN| || (s != "" && Folds(TOKEN[k], s[0]) && MatchesFrom(s[1..], k + 1))
  }

  /** The token, in any case, at place `i`. */
  predicate TokenAt(s: string, i: nat) {
    i <= |s| && MatchesFrom(s[i..], 0)
  }

  ghost predicate NoToken(s: string) {
    forall i: nat :: !TokenAt(s, i)
  }

  lemma {:induction false} MatchNeedsRoom(s: string, k: nat)
    requires k <= |TOKEN| && MatchesFrom(s, k)
    ensures |s| >= |TOKEN| - k
    ensures forall j | k <= j < |TOKEN| :: Folds(TOKEN[j], s[j - k])
    decreases |TOKEN| - k
  {
    if k < |TOKEN| {
      MatchNeedsRoom(s[1..], k + 1);
      forall j | k <= j < |TOKEN| ensures Folds(TOKEN[j], s[j - k]) {
        if j > k {
          assert s[1..][j - (k + 1)] == s[j - k];
        }
      }
    }
  }

  /** The first substitution: every token becomes the hyphenated word, left to right. */
  function Rename(s: string): string {
    if s == "" then ""
    else if MatchesFrom(s, 0) then
      MatchNeedsRoom(s, 0);
      RENAMED + Rename(s[|TOKEN|..])
    else [s[0]] + Rename(s[1..])
  }

  lemma {:induction false} MismatchAt(s: string, k: nat, j: nat)
    requires k + j < |TOKEN| && j < |s| && !Folds(TOKEN[k + j], s[j])
    ensures !MatchesFrom(s, k)
    decreases j
  {
    if j > 0 {
      MismatchAt(s[1..], k + 1, j - 1);
    }
  }

  /** The hyphenated word begins no piece of the token, and holds no beginning of it. */
  lemma RenamedMatchesNothing(rest: string, i: nat, k: nat)
    requires i < |RENAMED| && k < |TOKEN| && (i == 0 || k == 0)
    ensures !MatchesFrom((RENAMED + rest)[i..], k)
  {
    var s := (RENAMED + rest)[i..];
    var j := if i == k then 9 else if k == 8 || i == 8 then 1 else if k == 10 || i == 10 then 2 else 0;
    assert i + j < |RENAMED| && s[j] == RENAMED[i + j];
    assert !Folds(TOKEN[k + j], RENAMED[i + j]);
    MismatchAt(s, k, j);
  }

  /** Renaming brings no piece of the token to the head of a text that it was not at. */
  lemma {:induction false} RenameMakesNoMatch(s: string, k: nat)
    requires k <= |TOKEN|
    ensures MatchesFrom(Rename(s), k) ==> MatchesFrom(s, k)
  {
    if k < |TOKEN| && s != "" {
      if MatchesFrom(s, 0) {
        MatchNeedsRoom(s, 0);
        var rest := Rename(s[|TOKEN|..]);
        assert (RENAMED + rest)[0..] == Rename(s);
        RenamedMatchesNothing(rest, 0, k);
      } else {
        assert Rename(s)[1..] == Rename(s[1..]);
        RenameMakesNoMatch(s[1..], k + 1);
      }
    }
  }

  lemma TokenPast(head: string, rest: string, i: nat)
    requires i >= |head|
    ensures TokenAt(head + rest, i) <==> TokenAt(rest, i - |head|)
  {
    if i <= |head + rest| {
      assert (head + rest)[i..] == rest[i - |head|..];
    }
  }

  /** No case variant of the fence word is left, across replacements or inside them. */
  lemma {:induction false} RenameLeavesNoToken(s: string, i: nat)
    ensures !TokenAt(Rename(s), i)
  {
    if s != "" {
      var hit := MatchesFrom(s, 0);
      if hit {
        MatchNeedsRoom(s, 0);
      }
      var head, rest := if hit then RENAMED else [s[0]], if hit then s[|TOKEN|..] else s[1..];
      assert Rename(s) == head + Rename(rest);
      if i >= |head| {
        TokenPast(head, Rename(rest), i);
        RenameLeavesNoToken(rest, i - |head|);
      } else if hit {
        RenamedMatchesNothing(Rename(rest), i, 0);
      } else {
        assert Rename(s)[0..] == Rename(s);
        RenameMakesNoMatch(s, 0);
      }
    }
  }

  lemma {:induction false} RenameKeepsLength(s: string)
    ensures |Rename(s)| == |s|
  {
    if s != "" {
      if MatchesFrom(s, 0) {
        MatchNeedsRoom(s, 0);
        RenameKeepsLength(s[|TOKEN|..]);
      } else {
        RenameKeepsLength(s[1..]);
      }
    }
  }

  /** Place `i` is inside a token of `s`. */
  ghost predicate InToken(s: string, i: nat) {
    exists p: nat :: p <= i < p + |TOKEN| && TokenAt(s, p)
  }

  lemma InTokenOfTail(s: string, d: nat, i: nat)
    requires d <= |s| && d <= i && InToken(s[d..], i - d)
    ensures InToken(s, i)
  {
    var p: nat :| p <= i - d < p + |TOKEN| && TokenAt(s[d..], p);
    assert s[d..][p..] == s[d + p..];
    assert TokenAt(s, d + p);
  }

  /** Renaming keeps the length, and every character outside a token. */
  lemma {:induction false} RenameChangesOnlyTokens(s: string, i: nat)
    requires i < |s|
    ensures |Rename(s)| == |s| && (Rename(s)[i] != s[i] ==> InToken(s, i))
  {
    RenameKeepsLength(s);
    var d := if MatchesFrom(s, 0) then |TOKEN| else 1;
    if MatchesFrom(s, 0) {
      MatchNeedsRoom(s, 0);
      assert s[0..] == s && TokenAt(s, 0);
    }
    RenameKeepsLength(s[d..]);
    if i >= d {
      RenameChangesOnlyTokens(s[d..], i - d);
      assert Rename(s)[i] == Rename(s[d..])[i - d];
      if InToken(s[d..], i - d) {
        InTokenOfTail(s, d, i);
      }
    }
  }

  // ---------------------------------------------------------------- tags

  /** How many spaces `s` begins with. */
  function Spaces(s: string): (n: nat)
    ensures n <= |s| && forall j | 0 <= j < n :: IsSpace(s[j])
  {
    if s != "" && IsSpace(s[0]) then 1 + Spaces(s[1..]) else 0
  }

  /** Where the word of a tag at the head of `s` would begin: after `<`, perhaps `/`, and any spaces. */
  function WordOf(s: string): (n: nat)
    ensures n <= |s| && (n > 0 ==> s[0] == '<' && forall j | 1 <= j < n :: s[j] == '/' || IsSpace(s[j]))
  {
    if s == "" || s[0] != '<' then 0
    else
      var slash := if |s| > 1 && s[1] == '/' then 2 else 1;
      var n := slash + Spaces(s[slash..]);
      assert forall j | slash <= j < n :: s[j] == s[slash..][j - slash];
      n
  }

  /** The length of the tag at the head of `s`, or zero: `</?\s*dashboard_data\s*>` in any case. */
  function TagLength(s: string): (n: nat)
    ensures n <= |s| && (n > 0 ==> WordOf(s) > 0 && TokenAt(s, WordOf(s)))
  {
    var word := WordOf(s);
    if word == 0 || !MatchesFrom(s[word..], 0) then 0
    else
      MatchNeedsRoom(s[word..], 0);
      var after := word + |TOKEN|;
      var close := after + Spaces(s[after..]);
      if close < |s| && s[close] == '>' then close + 1 else 0
  }

  /** The second substitution: every tag goes. */
  function StripTags(s: string): string
    decreases |s|
  {
    if s == "" then ""
    else
      var n := TagLength(s);
      if n > 0 then StripTags(s[n..]) else [s[0]] + StripTags(s[1..])
  }

  lemma NoTokenInTail(s: string)
    requires NoToken(s) && s != ""
    ensures NoToken(s[1..])
  {
    forall i: nat ensures !TokenAt(s[1..], i) {
      if i <= |s| - 1 {
        assert s[1..][i..] == s[i + 1..];
        assert !TokenAt(s, i + 1);
      }
    }
  }

  /** Without the word there is no tag, so the second substitution changes nothing. */
  lemma {:induction false} NoTokenNoTag(s: string)
    requires NoToken(s)
    ensures StripTags(s) == s && TagLength(s) == 0
  {
    if s != "" {
      NoTokenInTail(s);
      NoTokenNoTag(s[1..]);
    }
  }

  // ---------------------------------------------------------------- the prompt

  /** The body of the fence: the digest with both substitutions made. */
  function Body(summary: string): string {
    StripTags(Rename(summary))
  }

  function Fenced(summary: string): string {
    OPENING + Body(summary) + CLOSING
  }

  /** `dashboard_system_prompt`. */
  function SystemPrompt(tone: string, summary: string, persona: string, heading: string): string {
    persona + "\n\n" + tone + "\n\n" + heading + ":\n" + Fenced(summary)
  }

  /** For every digest: the body holds no case variant of the fence word and no tag, is as long as the digest,
      and differs from it only inside the fence words the digest held. */
  lemma BodyIsNeutral(summary: string)
    ensures NoToken(Body(summary)) && |Body(summary)| == |summary|
    ensures forall i: nat | i < |summary| && Body(summary)[i] != summary[i] :: InToken(summary, i)
  {
    var renamed := Rename(summary);
    forall i: nat ensures !TokenAt(renamed, i) {
      RenameLeavesNoToken(summary, i);
    }
    NoTokenNoTag(renamed);
    RenameKeepsLength(summary);
    forall i: nat | i < |summary| && renamed[i] != summary[i] ensures InToken(summary, i) {
      RenameChangesOnlyTokens(summary, i);
    }
  }

  lemma {:induction false} RenameOfNone(s: string)
    requires NoToken(s)
    ensures Rename(s) == s
  {
    if s != "" {
      assert s[0..] == s && !TokenAt(s, 0);
      NoTokenInTail(s);
      RenameOfNone(s[1..]);
    }
  }

  /** A digest without the fence word is passed on as it is, so neutralising twice is neutralising once. */
  lemma BodyOfNeutral(summary: string)
    ensures NoToken(summary) ==> Body(summary) == summary
    ensures Body(Body(summary)) == Body(summary)
  {
    BodyIsNeutral(summary);
    RenameOfNone(Body(summary));
    NoTokenNoTag(Body(summary));
    if NoToken(summary) {
      RenameOfNone(summary);
      NoTokenNoTag(summary);
    }
  }

  // ---------------------------------------------------------------- the fenced section

  lemma {:induction false} MatchesItself(rest: string, k: nat)
    requires k <= |TOKEN|
    ensures MatchesFrom(TOKEN[k..] + rest, k)
    decreases |TOKEN| - k
  {
    if k < |TOKEN| {
      assert (TOKEN[k..] + rest)[1..] == TOKEN[k + 1..] + rest;
      MatchesItself(rest, k + 1);
    }
  }

  /** Whether a text begins with the token is settled by its first letters. */
  lemma {:induction false} MatchIsLocal(s: string, rest: string, k: nat)
    requires k <= |TOKEN| && |s| >= |TOKEN| - k
    ensures MatchesFrom(s + rest, k) == MatchesFrom(s, k)
    decreases |TOKEN| - k
  {
    if k < |TOKEN| {
      assert (s + rest)[1..] == s[1..] + rest;
      MatchIsLocal(s[1..], rest, k + 1);
    }
  }

  /** No token stands across a bracket, a slash or a line's end. */
  lemma Barrier(s: string, i: nat, p: nat)
    requires i <= p < i + |TOKEN| && p < |s| && (s[p] == '<' || s[p] == '>' || s[p] == '/' || s[p] == '\n')
    ensures !TokenAt(s, i)
  {
    assert s[i..][p - i] == s[p];
    MismatchAt(s[i..], 0, p - i);
  }

  lemma BarrierInTail(front: string, tail: string, i: nat, j: nat)
    requires i <= j < i + |TOKEN| && j < |tail|
    requires tail[j] == '<' || tail[j] == '>' || tail[j] == '/' || tail[j] == '\n'
    ensures !TokenAt(front + tail, |front| + i)
  {
    assert (front + tail)[|front| + j] == tail[j];
    Barrier(front + tail, |front| + i, |front| + j);
  }

  lemma OpeningLetters()
    ensures |OPENING| == 17 && OPENING[0] == '<' && OPENING[1] == 'd' && OPENING[15] == '>' && OPENING[16] == '\n'
  {
  }

  lemma ClosingLetters()
    ensures |CLOSING| == 18 && CLOSING[0] == '\n' && CLOSING[1] == '<' && CLOSING[2] == '/' && CLOSING[3] == 'd'
    ensures CLOSING[17] == '>'
  {
  }

  lemma TokenLength()
    ensures |TOKEN| == 14
  {
  }

  lemma NoneInBody(front: string, body: string, tail: string, i: nat)
    requires NoToken(body) && i < |body| && tail != "" && tail[0] == '\n'
    ensures !TokenAt(front + body + tail, |front| + i)
  {
    assert (front + body + tail)[|front| + i..] == (body + tail)[i..];
    if i + |TOKEN| <= |body| {
      assert (body + tail)[i..] == body[i..] + tail;
      MatchIsLocal(body[i..], tail, 0);
      assert !TokenAt(body, i);
    } else {
      assert (body + tail)[|body|] == '\n';
      Barrier(body + tail, i, |body|);
    }
  }

  lemma NoneInOpening(rest: string, i: nat)
    requires i < |OPENING| && i != 1
    ensures !TokenAt(OPENING + rest, i)
  {
    OpeningLetters();
    TokenLength();
    var p := if i == 0 then 0 else if i == 16 then 16 else 15;
    assert (OPENING + rest)[p] == OPENING[p];
    Barrier(OPENING + rest, i, p);
  }

  lemma NoneInClosing(front: string, i: nat)
    requires i != 3
    ensures !TokenAt(front + CLOSING, |front| + i)
  {
    ClosingLetters();
    TokenLength();
    if i < |CLOSING| {
      BarrierInTail(front, CLOSING, i, if i < 3 then i else 17);
    } else if i == |CLOSING| {
      assert (front + CLOSING)[|front| + i..] == "";
    }
  }

  lemma OneInOpening(body: string)
    ensures TokenAt(OPENING + body + CLOSING, 1)
  {
    var f, rest := OPENING + body + CLOSING, ">\n" + body + CLOSING;
    assert f[1..] == TOKEN[0..] + rest;
    MatchesItself(rest, 0);
  }

  lemma OneInClosing(body: string)
    ensures TokenAt(OPENING + body + CLOSING, |OPENING| + |body| + 3)
  {
    var f, i := OPENING + body + CLOSING, |OPENING| + |body| + 3;
    assert f[i..] == CLOSING[3..] == TOKEN[0..] + ">";
    MatchesItself(">", 0);
  }

  lemma WordStandsTwice(body: string, i: nat)
    requires NoToken(body)
    ensures TokenAt(OPENING + body + CLOSING, i) <==> i == 1 || i == |OPENING| + |body| + 3
  {
    var c := |OPENING| + |body|;
    if i == 1 {
      OneInOpening(body);
    } else if i < |OPENING| {
      assert OPENING + body + CLOSING == OPENING + (body + CLOSING);
      NoneInOpening(body + CLOSING, i);
    } else if i < c {
      ClosingLetters();
      NoneInBody(OPENING, body, CLOSING, i - |OPENING|);
    } else if i == c + 3 {
      OneInClosing(body);
    } else {
      NoneInClosing(OPENING + body, i - c);
    }
  }

  /** In the fenced section the fence word stands at two places only: in the opening and in the closing tag. */
  lemma FenceWordStandsTwice(summary: string, i: nat)
    ensures TokenAt(Fenced(summary), i) <==> i == 1 || i == |Fenced(summary)| - |TOKEN| - 1
  {
    BodyIsNeutral(summary);
    WordStandsTwice(Body(summary), i);
  }

  lemma NoSpaces(s: string)
    requires s != "" && !IsSpace(s[0])
    ensures Spaces(s) == 0
  {
  }

  /** A bracket, perhaps a slash, the word and a bracket make a tag. */
  lemma HeadIsTag(s: string, slash: nat)
    requires slash == 1 || slash == 2
    requires |s| > slash + |TOKEN| && s[0] == '<' && (slash == 2 <==> s[1] == '/')
    requires TokenAt(s, slash) && s[slash] == 'd' && s[slash + |TOKEN|] == '>'
    ensures TagLength(s) > 0
  {
    NoSpaces(s[slash..]);
    NoSpaces(s[slash + |TOKEN|..]);
  }

  /** Where the closing tag of the fenced section begins. */
  function EndOf(body: string): nat {
    |OPENING| + |body| + 1
  }

  lemma OpeningIsTag(body: string)
    ensures TagLength((OPENING + body + CLOSING)[0..]) > 0
  {
    var f := OPENING + body + CLOSING;
    assert f[0..] == f;
    OpeningLetters();
    TokenLength();
    assert f[0] == OPENING[0] && f[1] == OPENING[1] && f[15] == OPENING[15];
    OneInOpening(body);
    HeadIsTag(f, 1);
  }

  lemma ClosingIsTag(body: string)
    ensures TagLength((OPENING + body + CLOSING)[EndOf(body)..]) > 0
  {
    var f, end := OPENING + body + CLOSING, EndOf(body);
    var tail := f[end..];
    ClosingLetters();
    TokenLength();
    assert tail[0] == CLOSING[1] && tail[1] == CLOSING[2] && tail[2] == CLOSING[3] && tail[16] == CLOSING[17];
    OneInClosing(body);
    assert tail[2..] == f[end + 2..];
    HeadIsTag(tail, 2);
  }

  lemma HeadIsBracket(f: string, i: nat)
    requires i < |f| && WordOf(f[i..]) > 0
    ensures f[i] == '<'
  {
    assert f[i..][0] == f[i];
  }

  /** Between a tag's bracket and its word there is no other bracket. */
  lemma NoBracketInside(f: string, i: nat, p: nat)
    requires i < p < |f| && p < i + WordOf(f[i..])
    ensures f[p] != '<'
  {
    assert f[i..][p - i] == f[p];
  }

  /** The bracket before the word of the opening, or of the closing tag, is that tag's own. */
  lemma OnlyAtTheBracket(f: string, end: nat, i: nat)
    requires i < |f| && end + 1 < |f| && f[end] == '<' && f[end + 1] == '/' && WordOf(f[i..]) > 0
    requires i + WordOf(f[i..]) == 1 || i + WordOf(f[i..]) == end + 2
    ensures i == 0 || i == end
  {
    HeadIsBracket(f, i);
    if i + WordOf(f[i..]) != 1 && i < end {
      NoBracketInside(f, i, end);
    }
  }

  lemma TagNeedsWord(f: string, i: nat)
    requires i < |f| && TagLength(f[i..]) > 0
    ensures WordOf(f[i..]) > 0 && TokenAt(f, i + WordOf(f[i..]))
  {
    assert f[i..][WordOf(f[i..])..] == f[i + WordOf(f[i..])..];
  }

  lemma EndStands(body: string)
    ensures var f, end := OPENING + body + CLOSING, EndOf(body);
      end + 1 < |f| && f[end] == '<' && f[end + 1] == '/'
  {
    ClosingLetters();
  }

  lemma TwoTags(body: string, f: string, i: nat)
    requires NoToken(body) && f == OPENING + body + CLOSING && i < |f|
    ensures TagLength(f[i..]) > 0 ==> i == 0 || i == EndOf(body)
  {
    if TagLength(f[i..]) > 0 {
      TagNeedsWord(f, i);
      WordStandsTwice(body, i + WordOf(f[i..]));
      EndStands(body);
      OnlyAtTheBracket(f, EndOf(body), i);
    }
  }

  /** The fenced section has exactly two tags in any spelling: the opening one at its head and the closing one at
      its end. */
  lemma FenceHasTwoTags(summary: string, i: nat)
    ensures var f := Fenced(summary);
      i < |f| ==> (TagLength(f[i..]) > 0 <==> i == 0 || i == |f| - |CLOSING| + 1)
  {
    BodyIsNeutral(summary);
    OpeningIsTag(Body(summary));
    ClosingIsTag(Body(summary));
    if i < |Fenced(summary)| {
      TwoTags(Body(summary), Fenced(summary), i);
    }
  }

  lemma TailOf(front: string, tail: string, i: nat)
    requires |front| <= i <= |front + tail|
    ensures (front + tail)[i..] == tail[i - |front|..]
  {
  }

  /** From `a` on, `f` has a tag at `a`, one at `b`, and no other. */
  ghost predicate TwoTagsFrom(f: string, a: nat, b: nat) {
    forall i: nat | a <= i < |f| :: TagLength(f[i..]) > 0 <==> i == a || i == b
  }

  lemma TailKeepsTags(front: string, tail: string, b: nat)
    requires TwoTagsFrom(tail, 0, b)
    ensures TwoTagsFrom(front + tail, |front|, |front| + b)
  {
    forall i: nat | |front| <= i < |front + tail|
      ensures TagLength((front + tail)[i..]) > 0 <==> i == |front| || i == |front| + b
    {
      TailOf(front, tail, i);
      assert TagLength(tail[i - |front|..]) > 0 <==> i - |front| == 0 || i - |front| == b;
    }
  }

  lemma FenceTags(summary: string)
    ensures |Fenced(summary)| >= |CLOSING|
    ensures TwoTagsFrom(Fenced(summary), 0, |Fenced(summary)| - |CLOSING| + 1)
  {
    forall i: nat | i < |Fenced(summary)|
      ensures TagLength(Fenced(summary)[i..]) > 0 <==> i == 0 || i == |Fenced(summary)| - |CLOSING| + 1
    {
      FenceHasTwoTags(summary, i);
    }
  }

  /** The prompt ends with the fenced section, so from there on it has those two tags and no other, whatever the
      digest holds. */
  lemma PromptEndsInTwoTags(tone: string, summary: string, persona: string, heading: string)
    ensures var p := SystemPrompt(tone, summary, persona, heading);
      |p| >= |Fenced(summary)| >= |CLOSING|
      && TwoTagsFrom(p, |p| - |Fenced(summary)|, |p| - |CLOSING| + 1)
  {
    var front := persona + "\n\n" + tone + "\n\n" + heading + ":\n";
    FenceTags(summary);
    TailKeepsTags(front, Fenced(summary), |Fenced(summary)| - |CLOSING| + 1);
  }

  // ---------------------------------------------------------------- what counts as the word, and as a tag

  /** A letter without its case; case folding makes U+017F an `s`. */
  function FoldCase(c: char): char {
    if 'A' <= c <= 'Z' then (c as int + 32) as char else if c == '\U{17F}' then 's' else c
  }

  lemma TokenLetters()
    ensures var t := TOKEN;
      && |t| == 14 && t[0] == 'd' && t[1] == 'a' && t[2] == 's' && t[3] == 'h' && t[4] == 'b' && t[5] == 'o'
      && t[6] == 'a' && t[7] == 'r' && t[8] == 'd' && t[9] == '_' && t[10] == 'd' && t[11] == 'a' && t[12] == 't'
      && t[13] == 'a'
  {
  }

  lemma FoldsIff(k: nat, c: char)
    requires k < |TOKEN|
    ensures Folds(TOKEN[k], c) <==> FoldCase(c) == TOKEN[k]
  {
    TokenLetters();
  }

  lemma {:induction false} LettersMatch(s: string, k: nat)
    requires k <= |TOKEN| && |s| >= |TOKEN| - k && forall j | k <= j < |TOKEN| :: Folds(TOKEN[j], s[j - k])
    ensures MatchesFrom(s, k)
    decreases |TOKEN| - k
  {
    if k < |TOKEN| {
      forall j | k + 1 <= j < |TOKEN| ensures Folds(TOKEN[j], s[1..][j - (k + 1)]) {
        assert s[1..][j - (k + 1)] == s[j - k];
      }
      LettersMatch(s[1..], k + 1);
    }
  }

  /** The letters of the word, each in any case, from place `i` on. */
  ghost predicate Spelled(s: string, i: nat) {
    i + 14 <= |s| && forall j | 0 <= j < 14 :: FoldCase(s[i + j]) == "dashboard_data"[j]
  }

  lemma SpelledFolds(s: string, i: nat, j: nat)
    requires i + 14 <= |s| && j < 14
    ensures |TOKEN| == 14 && s[i..][j] == s[i + j]
    ensures Folds(TOKEN[j], s[i + j]) <==> FoldCase(s[i + j]) == "dashboard_data"[j]
  {
    TokenLength();
    FoldsIff(j, s[i + j]);
  }

  lemma SpelledIsToken(s: string, i: nat)
    requires Spelled(s, i)
    ensures TokenAt(s, i)
  {
    TokenLength();
    forall j | 0 <= j < |TOKEN| ensures Folds(TOKEN[j], s[i..][j]) {
      SpelledFolds(s, i, j);
    }
    LettersMatch(s[i..], 0);
  }

  lemma TokenIsSpelled(s: string, i: nat)
    requires TokenAt(s, i)
    ensures Spelled(s, i)
  {
    TokenLength();
    MatchNeedsRoom(s[i..], 0);
    forall j | 0 <= j < 14 ensures FoldCase(s[i + j]) == "dashboard_data"[j] {
      assert Folds(TOKEN[j], s[i..][j]);
      SpelledFolds(s, i, j);
    }
  }

  /** The word stands where its fourteen letters do, each in any case. */
  lemma TokenIs(s: string, i: nat)
    ensures TokenAt(s, i) <==> Spelled(s, i)
  {
    if TokenAt(s, i) {
      TokenIsSpelled(s, i);
    }
    if Spelled(s, i) {
      SpelledIsToken(s, i);
    }
  }

  /** Moved along by less than its length, the word differs from itself somewhere. */
  lemma MovedTokenDiffers(i: nat) returns (j: nat)
    requires 0 < i < 14
    ensures |TOKEN| == 14 && i + j < 14 && TOKEN[i + j] != TOKEN[j]
  {
    TokenLetters();
    j := if i == 8 then 1 else if i == 10 then 2 else 0;
  }

  lemma NoOverlap(s: string, i: nat)
    requires MatchesFrom(s, 0) && 0 < i < 14
    ensures !TokenAt(s, i)
  {
    MatchNeedsRoom(s, 0);
    var j := MovedTokenDiffers(i);
    FoldsIff(i + j, s[i + j]);
    FoldsIff(j, s[i + j]);
    assert s[i..][j] == s[i + j];
    MismatchAt(s[i..], 0, j);
  }

  lemma SliceOfTail(head: string, tail: string, i: nat)
    requires |head| <= i && i + 14 <= |head + tail|
    ensures (head + tail)[i..i + 14] == tail[i - |head|..i - |head| + 14]
  {
  }

  lemma TokenPastHead(s: string, d: nat, i: nat)
    requires d <= |s| && d <= i && TokenAt(s, i)
    ensures TokenAt(s[d..], i - d)
  {
    assert s == s[..d] + s[d..];
    TokenPast(s[..d], s[d..], i);
  }

  /** Where the word stood, the hyphenated one stands. */
  lemma {:induction false} RenameWrites(s: string, i: nat)
    requires TokenAt(s, i)
    ensures i + 14 <= |Rename(s)| && Rename(s)[i..i + 14] == "dashboard-data"
  {
    TokenIs(s, i);
    TokenLength();
    RenameKeepsLength(s);
    var hit := MatchesFrom(s, 0);
    if hit && i == 0 {
      assert Rename(s) == RENAMED + Rename(s[|TOKEN|..]);
    } else {
      if hit {
        if i < 14 {
          NoOverlap(s, i);
        }
      } else {
        assert s[0..] == s;
      }
      var d, head := if hit then 14 else 1, if hit then RENAMED else [s[0]];
      assert Rename(s) == head + Rename(s[d..]);
      TokenPastHead(s, d, i);
      RenameWrites(s[d..], i - d);
      SliceOfTail(head, Rename(s[d..]), i);
    }
  }

  lemma {:induction false} SpacesOf(pad: string, rest: string)
    requires Blank(pad) && (rest == "" || !IsSpace(rest[0]))
    ensures Spaces(pad + rest) == |pad|
  {
    if pad == "" {
      assert pad + rest == rest;
    } else {
      assert (pad + rest)[1..] == pad[1..] + rest;
      SpacesOf(pad[1..], rest);
    }
  }

  lemma WordOfTag(slash: string, before: string, tail: string)
    requires slash in {"", "/"} && Blank(before) && tail != "" && !IsSpace(tail[0]) && tail[0] != '/'
    ensures var s := "<" + (slash + (before + tail));
      WordOf(s) == 1 + |slash| + |before| && s[1 + |slash| + |before|..] == tail
  {
    var s, n := "<" + (slash + (before + tail)), 1 + |slash|;
    SpacesOf(before, tail);
    assert s[n..] == before + tail;
    assert before != "" ==> IsSpace((before + tail)[0]);
    assert before == "" ==> before + tail == tail;
    assert slash == "" ==> s[1] == (before + tail)[0];
    assert slash == "/" ==> s[1] == '/';
    assert s[n + |before|..] == tail;
  }

  lemma WordBegins(word: string, tail: string)
    requires |word| == 14 && TokenAt(word, 0)
    ensures !IsSpace((word + tail)[0]) && (word + tail)[0] != '/' && MatchesFrom(word + tail, 0)
  {
    TokenIs(word, 0);
    TokenLetters();
    assert FoldCase(word[0 + 0]) == 'd' && word[0..] == word;
    MatchIsLocal(word, tail, 0);
  }

  lemma TagEnds(s: string, word: string, after: string, rest: string)
    requires |word| == 14 && TokenAt(word, 0) && Blank(after)
    requires WordOf(s) > 0 && s[WordOf(s)..] == word + (after + (">" + rest))
    ensures TagLength(s) == WordOf(s) + 14 + |after| + 1
  {
    var tail := after + (">" + rest);
    TokenLength();
    WordBegins(word, tail);
    SpacesOf(after, ">" + rest);
    assert s[WordOf(s) + 14..] == s[WordOf(s)..][14..] == tail;
    assert s[WordOf(s) + 14 + |after|] == tail[|after|] == '>';
  }

  function Tag(slash: string, before: string, word: string, after: string): string {
    "<" + slash + before + word + after + ">"
  }

  /** The word in any case, with spaces or none about it, is a tag between its brackets, opening or closing. */
  lemma TagOf(slash: string, before: string, word: string, after: string, rest: string)
    requires slash in {"", "/"} && Blank(before) && Blank(after) && |word| == 14 && TokenAt(word, 0)
    ensures TagLength(Tag(slash, before, word, after) + rest) == |Tag(slash, before, word, after)|
  {
    var tail := word + (after + (">" + rest));
    var s := "<" + (slash + (before + tail));
    assert Tag(slash, before, word, after) + rest == s;
    WordBegins(word, after + (">" + rest));
    WordOfTag(slash, before, tail);
    TagEnds(s, word, after, rest);
  }

  lemma NotATag(s: string)
    requires s != "" && s[0] != '<'
    ensures StripTags(s) == [s[0]] + StripTags(s[1..])
  {
  }

  lemma HeadAndTail(text: string, s: string)
    requires text != ""
    ensures (text + s)[0] == text[0] && (text + s)[1..] == text[1..] + s && [text[0]] + (text[1..] + s) == text + s
  {
  }

  lemma {:induction false} StripPasses(text: string, s: string)
    requires forall i | 0 <= i < |text| :: text[i] != '<'
    ensures StripTags(text + s) == text + StripTags(s)
  {
    if text == "" {
      assert text + s == s;
    } else {
      HeadAndTail(text, s);
      HeadAndTail(text, StripTags(s));
      NotATag(text + s);
      StripPasses(text[1..], s);
    }
  }

  /** And the second substitution takes it out, whatever stands before and after it. */
  lemma TagGoes(text: string, slash: string, before: string, word: string, after: string, rest: string)
    requires slash in {"", "/"} && Blank(before) && Blank(after) && |word| == 14 && TokenAt(word, 0)
    requires forall i | 0 <= i < |text| :: text[i] != '<'
    ensures StripTags(text + (Tag(slash, before, word, after) + rest)) == text + StripTags(rest)
  {
    var tag := Tag(slash, before, word, after);
    StripPasses(text, tag + rest);
    TagOf(slash, before, word, after, rest);
    assert (tag + rest)[|tag|..] == rest;
  }
}
