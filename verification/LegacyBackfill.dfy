/** The one-off pass over conversations from before histories were folded: what it marks, and how it counts
    (`services/copilot/legacy.py`). */
module LegacyBackfill {
  import opened Orders
  import opened Snapshots
  import opened Conversations
  import opened Provenance
  import opened Soundness

  const BATCH := 500

  /** A message's key: its conversation and its place in it. */
  type Key = (nat, nat)

  /** Whether the pass takes reply `i` for an Ask reply: its question came before it and has a context. */
  predicate AskReply(turns: seq<Turn>, i: nat)
    requires i < |turns|
  {
    turns[i].Reply?
    && var q := Answered(turns, i);
       q.Some? && q.value < i && turns[q.value].Question? && Truthy(turns[q.value].context)
  }

  predicate SeenAsk(turns: seq<Turn>, n: nat)
    requires n <= |turns|
  {
    exists j :: 0 <= j < n && AskReply(turns, j)
  }

  /** An unmarked plain reply after an Ask reply. */
  predicate Legacy(turns: seq<Turn>, i: nat)
    requires i < |turns|
  {
    turns[i].Reply? && turns[i].answer.carries.None? && !AskReply(turns, i) && SeenAsk(turns, i)
  }

  function LegacyUpTo(turns: seq<Turn>, n: nat): set<nat>
    requires n <= |turns|
  {
    set i | 0 <= i < n && Legacy(turns, i)
  }

  /** One row marked: its flag set, its customer ids unknown. A row that has a flag stays as it is. */
  function MarkTurn(t: Turn): Turn {
    if t.Reply? && t.answer.carries.None?
    then Reply(t.answer.(carries := Some(true), customerIds := Null)) else t
  }

  function MarkRows(threads: seq<seq<Turn>>, ids: set<Key>): (after: seq<seq<Turn>>)
    ensures |after| == |threads|
    ensures forall c | 0 <= c < |threads| :: |after[c]| == |threads[c]|
    ensures forall c, i | 0 <= c < |threads| && 0 <= i < |threads[c]| ::
      after[c][i] == if (c, i) in ids then MarkTurn(threads[c][i]) else threads[c][i]
  {
    seq(|threads|, c requires 0 <= c < |threads| =>
      seq(|threads[c]|, i requires 0 <= i < |threads[c]| =>
        if (c, i) in ids then MarkTurn(threads[c][i]) else threads[c][i]))
  }

  /** A row named that has no flag gets the flag of one that could carry anomaly text, and no customer ids; nothing
      else of it changes, and no other row does. */
  lemma MarkingDoes(threads: seq<seq<Turn>>, ids: set<Key>, c: nat, i: nat)
    requires c < |threads| && i < |threads[c]|
    ensures var before, after := threads[c][i], MarkRows(threads, ids)[c][i];
      if (c, i) in ids && before.Reply? && before.answer.carries == None then
        after == Reply(Answer(before.answer.replyTo, Null, before.answer.pipeline, before.answer.tickets,
                              before.answer.records, Some(true), before.answer.sources))
      else after == before
  {
  }

  function KeysOf(c: nat, places: set<nat>): set<Key> {
    set i | i in places :: (c, i)
  }

  /** Every legacy follow-up of the conversations named. */
  function LegacyKeys(threads: seq<seq<Turn>>, order: seq<nat>): (keys: set<Key>)
    requires forall k | 0 <= k < |order| :: order[k] < |threads|
  {
    if order == [] then {}
    else
      var c := order[|order| - 1];
      LegacyKeys(threads, order[..|order| - 1]) + KeysOf(c, LegacyUpTo(threads[c], |threads[c]|))
  }

  /** The conversations the query reads: those with a question whose context is not null. */
  predicate HasContext(turns: seq<Turn>) {
    exists i :: 0 <= i < |turns| && turns[i].Question? && turns[i].context != Null
  }

  ghost predicate ReadsThose(threads: seq<seq<Turn>>, order: seq<nat>) {
    && (forall k | 0 <= k < |order| :: order[k] < |threads|)
    && (forall k, l | 0 <= k < l < |order| :: order[k] != order[l])
    && (forall c | 0 <= c < |threads| && HasContext(threads[c]) :: c in order)
  }

  lemma MarkingTwice(threads: seq<seq<Turn>>, a: set<Key>, b: set<Key>)
    ensures MarkRows(MarkRows(threads, a), b) == MarkRows(threads, a + b)
  {
    var once, twice, both := MarkRows(threads, a), MarkRows(MarkRows(threads, a), b), MarkRows(threads, a + b);
    forall c | 0 <= c < |threads| ensures twice[c] == both[c] {
      forall i | 0 <= i < |threads[c]| ensures twice[c][i] == both[c][i] {
        assert once[c][i] == if (c, i) in a then MarkTurn(threads[c][i]) else threads[c][i];
      }
    }
  }

  lemma {:induction false} LegacyKeysAre(threads: seq<seq<Turn>>, order: seq<nat>)
    requires forall k | 0 <= k < |order| :: order[k] < |threads|
    ensures forall c: nat, i: nat :: (c, i) in LegacyKeys(threads, order) <==>
      c in order && c < |threads| && i < |threads[c]| && Legacy(threads[c], i)
  {
    if order != [] {
      var init, last := order[..|order| - 1], order[|order| - 1];
      LegacyKeysAre(threads, init);
      assert order == init + [last];
    }
  }

  /** The places found so far, in order. */
  ghost predicate Found(turns: seq<Turn>, n: nat, pending: seq<nat>)
    requires n <= |turns|
  {
    Elements(pending) == LegacyUpTo(turns, n) && forall k, l | 0 <= k < l < |pending| :: pending[k] < pending[l]
  }

  lemma FoundNext(turns: seq<Turn>, i: nat, pending: seq<nat>)
    requires i < |turns| && Found(turns, i, pending)
    ensures Found(turns, i + 1, if Legacy(turns, i) then pending + [i] else pending)
  {
    assert LegacyUpTo(turns, i + 1) == LegacyUpTo(turns, i) + (if Legacy(turns, i) then {i} else {});
    assert Elements(pending + [i]) == Elements(pending) + {i};
    assert forall k | 0 <= k < |pending| :: pending[k] in Elements(pending);
  }

  /** The questions read so far, and whether each has a context. */
  ghost predicate ContextsRead(turns: seq<Turn>, n: nat, contexts: map<nat, bool>)
    requires n <= |turns|
  {
    && (forall q: nat :: q in contexts <==> q < n && turns[q].Question?)
    && (forall q | q in contexts :: contexts[q] == Truthy(turns[q].context))
  }

  /** What the pass knows after `n` rows. */
  ghost predicate Scanned(turns: seq<Turn>, n: nat, contexts: map<nat, bool>, seenAsk: bool, lastUser: Option<nat>,
                          pending: seq<nat>)
    requires n <= |turns|
  {
    && lastUser == LastQuestion(turns, n) && seenAsk == SeenAsk(turns, n)
    && ContextsRead(turns, n, contexts) && Found(turns, n, pending)
  }

  lemma ScannedQuestion(turns: seq<Turn>, i: nat, contexts: map<nat, bool>, seenAsk: bool, lastUser: Option<nat>,
                        pending: seq<nat>)
    requires i < |turns| && turns[i].Question? && Scanned(turns, i, contexts, seenAsk, lastUser, pending)
    ensures Scanned(turns, i + 1, contexts[i := Truthy(turns[i].context)], seenAsk, Some(i), pending)
  {
    FoundNext(turns, i, pending);
    SeenAskNext(turns, i);
    ContextsNext(turns, i, contexts);
  }

  lemma ScannedReply(turns: seq<Turn>, i: nat, contexts: map<nat, bool>, seenAsk: bool, lastUser: Option<nat>,
                     pending: seq<nat>)
    requires i < |turns| && turns[i].Reply? && Scanned(turns, i, contexts, seenAsk, lastUser, pending)
    ensures Scanned(turns, i + 1, contexts, seenAsk || AskReply(turns, i), lastUser,
                    if Legacy(turns, i) then pending + [i] else pending)
  {
    FoundNext(turns, i, pending);
    SeenAskNext(turns, i);
    ContextsNext(turns, i, contexts);
  }

  /** The pass over one conversation's rows, streamed in order. */
  method ScanThread(turns: seq<Turn>) returns (pending: seq<nat>)
    ensures Elements(pending) == LegacyUpTo(turns, |turns|)
    ensures forall k, l | 0 <= k < l < |pending| :: pending[k] < pending[l]
  {
    var contexts: map<nat, bool> := map[];
    var seenAsk := false;
    var lastUser: Option<nat> := None;
    pending := [];
    for i := 0 to |turns|
      invariant Scanned(turns, i, contexts, seenAsk, lastUser, pending)
    {
      if turns[i].Question? {
        ScannedQuestion(turns, i, contexts, seenAsk, lastUser, pending);
        contexts := contexts[i := Truthy(turns[i].context)];
        lastUser := Some(i);
      } else {
        ScannedReply(turns, i, contexts, seenAsk, lastUser, pending);
        ReadsAsk(turns, i, contexts);
        var answered := if turns[i].answer.replyTo.Some? then turns[i].answer.replyTo else lastUser;
        if answered.Some? && answered.value in contexts && contexts[answered.value] {
          seenAsk := true;
        } else if seenAsk && turns[i].answer.carries.None? {
          pending := pending + [i];
        }
      }
    }
  }

  lemma ContextsNext(turns: seq<Turn>, i: nat, contexts: map<nat, bool>)
    requires i < |turns| && ContextsRead(turns, i, contexts)
    ensures ContextsRead(turns, i + 1,
                         if turns[i].Question? then contexts[i := Truthy(turns[i].context)] else contexts)
  {
  }

  lemma ReadsAsk(turns: seq<Turn>, i: nat, contexts: map<nat, bool>)
    requires i < |turns| && turns[i].Reply? && ContextsRead(turns, i, contexts)
    ensures var q := Answered(turns, i); AskReply(turns, i) <==> q.Some? && q.value in contexts && contexts[q.value]
  {
  }

  lemma SeenAskNext(turns: seq<Turn>, i: nat)
    requires i < |turns|
    ensures SeenAsk(turns, i + 1) <==> SeenAsk(turns, i) || AskReply(turns, i)
  {
  }

  /** Every legacy follow-up of the table. */
  ghost predicate IsLegacyKey(threads: seq<seq<Turn>>, key: Key) {
    key.0 < |threads| && key.1 < |threads[key.0]| && Legacy(threads[key.0], key.1)
  }

  /** After `k` conversations, with `pending` waiting: what is done is marked and counted. */
  ghost predicate Marking(now: seq<seq<Turn>>, start: seq<seq<Turn>>, order: seq<nat>, k: nat, done: set<Key>,
                          pending: set<Key>, marked: nat)
    requires k <= |order|
  {
    Batched(start, order, k, done, pending) && now == MarkRows(start, done) && marked == |done|
  }

  lemma NothingMarked(start: seq<seq<Turn>>, order: seq<nat>, none: set<Key>)
    requires ReadsThose(start, order) && none == {}
    ensures Marking(start, start, order, 0, none, none, 0)
  {
    MarkingNothing(start);
    assert order[..0] == [];
  }

  class MessageTable {
    var threads: seq<seq<Turn>>

    constructor (threads: seq<seq<Turn>>)
      ensures this.threads == threads
    {
      this.threads := threads;
    }

    /** `_mark`: one update of the rows named that are still unmarked; returns how many it changed. */
    method Mark(ids: set<Key>) returns (n: nat)
      requires forall key | key in ids :: key.0 < |threads| && key.1 < |threads[key.0]| && threads[key.0][key.1].Reply?
      modifies this
      ensures threads == MarkRows(old(threads), ids)
      ensures n == |set key | key in ids && old(threads)[key.0][key.1].answer.carries.None?|
    {
      n := |set key | key in ids && threads[key.0][key.1].answer.carries.None?|;
      threads := MarkRows(threads, ids);
    }

    /** One batch marked and added to the count. */
    method Flush(pending: set<Key>, marked: nat, ghost start: seq<seq<Turn>>, ghost order: seq<nat>, ghost k: nat,
                 ghost done: set<Key>)
      returns (total: nat)
      requires k <= |order| && Marking(threads, start, order, k, done, pending, marked)
      modifies this
      ensures Marking(threads, start, order, k, done + pending, {}, total)
    {
      Flushing(start, order, k, done, pending);
      var n := Mark(pending);
      total := marked + n;
    }

    /** The legacy follow-ups of one conversation, none of whose rows is marked yet. */
    method Scan(order: seq<nat>, k: nat, pending: set<Key>, ghost marked: nat, ghost start: seq<seq<Turn>>,
                ghost done: set<Key>)
      returns (waiting: set<Key>)
      requires k < |order| && ReadsThose(start, order) && Marking(threads, start, order, k, done, pending, marked)
      ensures Marking(threads, start, order, k + 1, done, waiting, marked)
    {
      ScanReads(start, order, k, done, pending);
      var c := order[k];
      var found := ScanThread(threads[c]);
      var keys := set i | i in found :: (c, i);
      assert keys == KeysOf(c, Elements(found));
      ScanAdds(start, order, k, done, pending, keys);
      waiting := pending + keys;
    }

    /** `mark_legacy_followups`, in batches. `order` is the conversations the query returns, in any
        order. The rows marked and the count are those of one unbatched pass over the table. */
    method MarkLegacyFollowups(order: seq<nat>) returns (marked: nat)
      requires ReadsThose(threads, order)
      modifies this
      ensures threads == MarkRows(old(threads), LegacyKeys(old(threads), order))
      ensures marked == |LegacyKeys(old(threads), order)|
      ensures forall key: Key :: key in LegacyKeys(old(threads), order) <==> IsLegacyKey(old(threads), key)
    {
      ghost var start := threads;
      marked := 0;
      var pending: set<Key> := {};
      ghost var done: set<Key> := {};
      NothingMarked(start, order, pending);
      for k := 0 to |order|
        invariant Marking(threads, start, order, k, done, pending, marked)
      {
        pending := Scan(order, k, pending, marked, start, done);
        if |pending| >= BATCH {
          marked := Flush(pending, marked, start, order, k + 1, done);
          done, pending := done + pending, {};
        }
      }
      if pending != {} {
        marked := Flush(pending, marked, start, order, |order|, done);
        done, pending := done + pending, {};
      }
      AllDone(threads, start, order, done, pending, marked);
      EveryLegacyKeyIsRead(start, order);
    }
  }

  lemma AllDone(now: seq<seq<Turn>>, start: seq<seq<Turn>>, order: seq<nat>, done: set<Key>, none: set<Key>,
                marked: nat)
    requires ReadsThose(start, order) && Marking(now, start, order, |order|, done, none, marked) && none == {}
    ensures now == MarkRows(start, LegacyKeys(start, order)) && marked == |LegacyKeys(start, order)|
  {
    assert order[..|order|] == order;
    assert done + none == done;
  }

  /** After `k` conversations, the rows found so far are marked already or waiting in the batch. */
  ghost predicate Batched(start: seq<seq<Turn>>, order: seq<nat>, k: nat, done: set<Key>, pending: set<Key>)
    requires k <= |order|
  {
    && (forall l | 0 <= l < |order| :: order[l] < |start|)
    && done !! pending && done + pending == LegacyKeys(start, order[..k])
  }

  lemma MarkingNothing(threads: seq<seq<Turn>>)
    ensures MarkRows(threads, {}) == threads
  {
    forall c | 0 <= c < |threads| ensures MarkRows(threads, {})[c] == threads[c] {
    }
  }

  /** A conversation is read before any of its rows is marked. */
  lemma ScanReads(start: seq<seq<Turn>>, order: seq<nat>, k: nat, done: set<Key>, pending: set<Key>)
    requires k < |order| && ReadsThose(start, order) && Batched(start, order, k, done, pending)
    ensures MarkRows(start, done)[order[k]] == start[order[k]]
  {
    LegacyKeysAre(start, order[..k]);
    var c := order[k];
    assert c !in order[..k];
    forall i: nat ensures (c, i) !in done {
      assert (c, i) !in LegacyKeys(start, order[..k]);
    }
  }

  lemma ScanAdds(start: seq<seq<Turn>>, order: seq<nat>, k: nat, done: set<Key>, pending: set<Key>, keys: set<Key>)
    requires k < |order| && ReadsThose(start, order) && Batched(start, order, k, done, pending)
    requires keys == KeysOf(order[k], LegacyUpTo(start[order[k]], |start[order[k]]|))
    ensures Batched(start, order, k + 1, done, pending + keys)
  {
    LegacyKeysAre(start, order[..k]);
    assert order[k] !in order[..k];
    assert order[..k + 1][..k] == order[..k];
    assert LegacyKeys(start, order[..k + 1]) == LegacyKeys(start, order[..k]) + keys;
    forall key | key in keys ensures key !in done {
      assert (key.0, key.1) !in LegacyKeys(start, order[..k]);
    }
  }

  /** Rows waiting in a batch are all still unmarked: marking them counts each, and is the same as
      having marked them with the rest. */
  lemma Flushing(start: seq<seq<Turn>>, order: seq<nat>, k: nat, done: set<Key>, pending: set<Key>)
    requires k <= |order| && Batched(start, order, k, done, pending)
    ensures Batched(start, order, k, done + pending, {})
    ensures var now := MarkRows(start, done);
      && (forall key: Key | key in pending :: key.0 < |now| && key.1 < |now[key.0]| && now[key.0][key.1].Reply?)
      && (set key: Key | key in pending && now[key.0][key.1].answer.carries.None?) == pending
      && MarkRows(now, pending) == MarkRows(start, done + pending)
    ensures |done + pending| == |done| + |pending|
  {
    LegacyKeysAre(start, order[..k]);
    MarkingTwice(start, done, pending);
    var now: seq<seq<Turn>> := MarkRows(start, done);
    forall key: Key | key in pending
      ensures key.0 < |now| && key.1 < |now[key.0]|
      ensures now[key.0][key.1].Reply? && now[key.0][key.1].answer.carries.None?
    {
      assert (key.0, key.1) in LegacyKeys(start, order[..k]);
      assert (key.0, key.1) !in done;
    }
  }

  /** A conversation the query leaves out holds no Ask question, so nothing to mark. */
  lemma EveryLegacyKeyIsRead(threads: seq<seq<Turn>>, order: seq<nat>)
    requires ReadsThose(threads, order)
    ensures forall key: Key :: key in LegacyKeys(threads, order) <==> IsLegacyKey(threads, key)
  {
    LegacyKeysAre(threads, order);
    forall key: Key | IsLegacyKey(threads, key) ensures key in LegacyKeys(threads, order) {
      var turns := threads[key.0];
      var j :| 0 <= j < key.1 && AskReply(turns, j);
      assert turns[Answered(turns, j).value].Question?;
      assert HasContext(turns);
      assert (key.0, key.1) in LegacyKeys(threads, order);
    }
  }

  // ---------------------------------------------------------------- the base case of provenance

  /** One conversation after the pass. */
  function Backfilled(turns: seq<Turn>): (after: seq<Turn>)
    ensures |after| == |turns|
    ensures forall i | 0 <= i < |turns| :: after[i] == if Legacy(turns, i) then MarkTurn(turns[i]) else turns[i]
  {
    seq(|turns|, i requires 0 <= i < |turns| => if Legacy(turns, i) then MarkTurn(turns[i]) else turns[i])
  }

  lemma {:induction false} BackfillKeepsQuestions(turns: seq<Turn>, i: nat)
    requires i <= |turns|
    ensures LastQuestion(Backfilled(turns), i) == LastQuestion(turns, i)
  {
    if i > 0 {
      BackfillKeepsQuestions(turns, i - 1);
    }
  }

  /** Marking leaves the reading of every conversation alone: the same replies are Ask replies. */
  lemma BackfillKeepsAsks(turns: seq<Turn>, i: nat)
    requires i < |turns| && turns[i].Reply?
    ensures Answered(Backfilled(turns), i) == Answered(turns, i)
    ensures AskReply(Backfilled(turns), i) == AskReply(turns, i)
    ensures AnsweredContext(Backfilled(turns), i) == AnsweredContext(turns, i)
  {
    BackfillKeepsQuestions(turns, i);
  }

  /** Afterwards there is nothing left for another pass to mark. */
  lemma NoneLeft(turns: seq<Turn>, i: nat)
    requires i < |turns|
    ensures !Legacy(Backfilled(turns), i)
  {
    var after := Backfilled(turns);
    forall j | 0 <= j <= i ensures AskReply(after, j) == AskReply(turns, j) {
      if turns[j].Reply? {
        BackfillKeepsAsks(turns, j);
      }
    }
    assert SeenAsk(after, i) == SeenAsk(turns, i);
  }

  lemma AskReplyIsByContext(turns: seq<Turn>, i: nat)
    requires WellFormed(turns) && i < |turns| && turns[i].Reply?
    ensures AskReply(turns, i) <==> Truthy(AnsweredContext(turns, i))
  {
  }
}
