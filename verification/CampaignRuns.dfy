/** Sends, edits, deletions and crashes of many campaigns, interleaved (`services/campaigns/views.py`). The claim,
    the finish, an edit and a deletion are each one locked transaction; deliveries hold no lock. */
module CampaignRuns {
  import opened Orders
  import opened Campaigns

  datatype Phase = Delivering | Finished | Crashed

  /** A send: the campaign it claimed, the recipients it read, and its log so far. */
  datatype Send = Send(campaign: nat, claimed: seq<nat>, log: seq<Entry>, phase: Phase)

  /** A contact of a campaign. */
  datatype Pair = Pair(campaign: nat, contact: nat)

  /** The campaigns, every id ever given, the sends, the mails attempted and the `Email` rows. */
  datatype State = State(
    campaigns: map<nat, Campaign>, ids: set<nat>, sends: map<nat, Send>, mails: seq<Pair>, rows: seq<Pair>)

  datatype Step =
    | Create(c: nat, subject: string, body: string, recipients: set<nat>)
    | Claim(s: nat, c: nat, order: seq<nat>)
    | DeliverNext(s: nat, outcome: Delivery)
    | Finish(s: nat)
    | Crash(s: nat)
    | Update(c: nat, visible: set<nat>, edit: Edit)
    | Destroy(c: nat)

  ghost predicate Possible(st: State, step: Step) {
    match step
    case Create(c, _, _, _) => c !in st.ids
    case Claim(s, c, order) => s !in st.sends && c in st.campaigns && Lists(order, st.campaigns[c].recipients)
    case DeliverNext(s, _) => Running(st, s) && |st.sends[s].log| < |st.sends[s].claimed|
    case Finish(s) => Running(st, s) && |st.sends[s].log| == |st.sends[s].claimed|
    case Crash(s) => Running(st, s)
    case Update(c, _, _) => c in st.campaigns
    case Destroy(c) => c in st.campaigns
  }

  predicate Running(st: State, s: nat) {
    s in st.sends && st.sends[s].phase == Delivering
  }

  function Delivered(st: State, s: nat, outcome: Delivery): State
    requires Running(st, s) && |st.sends[s].log| < |st.sends[s].claimed|
  {
    var send := st.sends[s];
    var contact, sent := send.claimed[|send.log|], outcome == Delivery.Delivered;
    st.(sends := st.sends[s := send.(log := send.log + [Entry(contact, sent)])],
        mails := st.mails + [Pair(send.campaign, contact)],
        rows := st.rows + if sent then [Pair(send.campaign, contact)] else [])
  }

  /** A refused request changes nothing. */
  ghost function Apply(st: State, step: Step): State
    requires Possible(st, step)
  {
    match step
    case Create(c, subject, body, recipients) =>
      st.(campaigns := st.campaigns[c := Campaign(Draft, subject, body, recipients, [])], ids := st.ids + {c})
    case Claim(s, c, order) =>
      if SendRefusal(st.campaigns[c]).Some? then st
      else st.(campaigns := st.campaigns[c := st.campaigns[c].(status := Sending)],
               sends := st.sends[s := Send(c, order, [], Delivering)])
    case DeliverNext(s, outcome) => Delivered(st, s, outcome)
    case Finish(s) =>
      var send := st.sends[s];
      var sends := st.sends[s := send.(phase := Finished)];
      if send.campaign in st.campaigns
      then
        var c := st.campaigns[send.campaign];
        st.(campaigns := st.campaigns[send.campaign := c.(status := Sent, log := send.log)], sends := sends)
      else st.(sends := sends)
    case Crash(s) => st.(sends := st.sends[s := st.sends[s].(phase := Crashed)])
    case Update(c, visible, edit) =>
      if EditRefusal(st.campaigns[c], visible, edit).Some? then st
      else st.(campaigns := st.campaigns[c := Edited(st.campaigns[c], visible, edit)])
    case Destroy(c) =>
      if st.campaigns[c].status == Sending then st else st.(campaigns := st.campaigns - {c})
  }

  ghost predicate Reaches(st: State, steps: seq<Step>, last: State)
    decreases |steps|
  {
    if steps == [] then last == st
    else Possible(st, steps[0]) && Reaches(Apply(st, steps[0]), steps[1..], last)
  }

  // ---------------------------------------------------------------- what every run keeps

  /** The contacts of one campaign among the pairs, in order. */
  function Of(pairs: seq<Pair>, c: nat): seq<nat> {
    if pairs == [] then []
    else
      var last := pairs[|pairs| - 1];
      Of(pairs[..|pairs| - 1], c) + (if last.campaign == c then [last.contact] else [])
  }

  lemma OfAppends(pairs: seq<Pair>, p: Pair, c: nat)
    ensures Of(pairs + [p], c) == if p.campaign == c then Of(pairs, c) + [p.contact] else Of(pairs, c)
  {
    assert (pairs + [p])[..|pairs|] == pairs;
  }

  function Contacts(log: seq<Entry>): (r: seq<nat>)
    ensures |r| == |log| && forall i | 0 <= i < |log| :: r[i] == log[i].contact
  {
    seq(|log|, i requires 0 <= i < |log| => log[i].contact)
  }

  ghost predicate Distinct(xs: seq<nat>) {
    forall i, j | 0 <= i < j < |xs| :: xs[i] != xs[j]
  }

  /** A send has tried a prefix of what it claimed, and its log agrees with the mails and the rows. */
  ghost predicate InStep(mails: seq<Pair>, rows: seq<Pair>, send: Send) {
    && Distinct(send.claimed)
    && Contacts(send.log) <= send.claimed
    && Of(mails, send.campaign) == Contacts(send.log)
    && Of(rows, send.campaign) == SentIn(send.log)
  }

  /** Where the campaign of a send stands. */
  ghost predicate Claimed(campaigns: map<nat, Campaign>, send: Send) {
    && (send.campaign in campaigns ==>
          var c := campaigns[send.campaign];
          if send.phase == Finished then c.status == Sent && c.log == send.log else c.status == Sending)
    && (send.phase != Finished ==> send.campaign in campaigns)
    && (send.phase == Finished ==> |send.log| == |send.claimed|)
  }

  ghost predicate NoSend(sends: map<nat, Send>, c: nat) {
    forall s | s in sends :: sends[s].campaign != c
  }

  /** No mail goes out but from a send. */
  ghost predicate Untouched(st: State, c: nat) {
    NoSend(st.sends, c) ==> Of(st.mails, c) == [] && Of(st.rows, c) == []
  }

  ghost predicate HasFinished(sends: map<nat, Send>, c: nat) {
    exists s :: s in sends && sends[s].campaign == c && sends[s].phase == Finished
  }

  /** What is known of a campaign from its status: a draft has no send, a sent one a finished send. */
  ghost predicate Told(sends: map<nat, Send>, c: nat, status: Status) {
    && (status == Draft ==> NoSend(sends, c))
    && (status == Sent ==> HasFinished(sends, c))
  }

  ghost predicate OneSendEach(sends: map<nat, Send>) {
    forall s, t | s in sends && t in sends && s != t :: sends[s].campaign != sends[t].campaign
  }

  ghost predicate Inv(st: State) {
    && st.campaigns.Keys <= st.ids
    && OneSendEach(st.sends)
    && (forall s | s in st.sends :: InStep(st.mails, st.rows, st.sends[s]) && Claimed(st.campaigns, st.sends[s]))
    && (forall c | c in st.campaigns :: Told(st.sends, c, st.campaigns[c].status))
    && (forall c: nat | c !in st.ids :: NoSend(st.sends, c))
    && (forall c: nat :: Untouched(st, c))
  }

  lemma ContactsAppend(log: seq<Entry>, entry: Entry, claimed: seq<nat>)
    requires Contacts(log) <= claimed && |log| < |claimed| && entry.contact == claimed[|log|]
    ensures Contacts(log + [entry]) == Contacts(log) + [entry.contact]
    ensures Contacts(log + [entry]) <= claimed
  {
    var after := Contacts(log + [entry]);
    assert after == Contacts(log) + [entry.contact];
    forall i | 0 <= i < |after| ensures after[i] == claimed[i] {
      assert i < |log| ==> Contacts(log)[i] == claimed[i];
    }
  }

  lemma SentAppends(log: seq<Entry>, entry: Entry)
    ensures SentIn(log + [entry]) == SentIn(log) + (if entry.sent then [entry.contact] else [])
  {
    assert (log + [entry])[..|log|] == log;
  }

  lemma DeliveryInStep(st: State, s: nat, outcome: Delivery)
    requires Possible(st, DeliverNext(s, outcome)) && InStep(st.mails, st.rows, st.sends[s])
    ensures InStep(Delivered(st, s, outcome).mails, Delivered(st, s, outcome).rows, Delivered(st, s, outcome).sends[s])
  {
    var send := st.sends[s];
    var contact, sent := send.claimed[|send.log|], outcome == Delivery.Delivered;
    OfAppends(st.mails, Pair(send.campaign, contact), send.campaign);
    OfAppends(st.rows, Pair(send.campaign, contact), send.campaign);
    assert st.rows + [] == st.rows && SentIn(send.log) + [] == SentIn(send.log);
    ContactsAppend(send.log, Entry(contact, sent), send.claimed);
    SentAppends(send.log, Entry(contact, sent));
  }

  lemma DeliveryElsewhere(st: State, s: nat, outcome: Delivery, c: nat)
    requires Possible(st, DeliverNext(s, outcome)) && c != st.sends[s].campaign
    ensures Of(Delivered(st, s, outcome).mails, c) == Of(st.mails, c)
    ensures Of(Delivered(st, s, outcome).rows, c) == Of(st.rows, c)
  {
    var pair := Pair(st.sends[s].campaign, st.sends[s].claimed[|st.sends[s].log|]);
    OfAppends(st.mails, pair, c);
    OfAppends(st.rows, pair, c);
    assert st.rows + [] == st.rows;
  }

  /** The same sends, further on: whatever had no send has none, whatever was finished is. */
  ghost predicate Advances(before: map<nat, Send>, after: map<nat, Send>) {
    && before.Keys == after.Keys
    && forall s | s in before ::
      after[s].campaign == before[s].campaign && (before[s].phase == Finished ==> after[s].phase == Finished)
  }

  lemma AdvancingTells(before: map<nat, Send>, after: map<nat, Send>, c: nat)
    requires Advances(before, after)
    ensures NoSend(before, c) <==> NoSend(after, c)
    ensures HasFinished(before, c) ==> HasFinished(after, c)
    ensures OneSendEach(before) ==> OneSendEach(after)
  {
    if !NoSend(before, c) {
      var s :| s in before && before[s].campaign == c;
      assert after[s].campaign == c;
    }
    if HasFinished(before, c) {
      var s :| s in before && before[s].campaign == c && before[s].phase == Finished;
      assert after[s].campaign == c && after[s].phase == Finished;
    }
  }

  lemma DeliverKeepsSends(st: State, s: nat, outcome: Delivery, t: nat)
    requires Inv(st) && Possible(st, DeliverNext(s, outcome)) && t in st.sends
    ensures var after := Delivered(st, s, outcome);
      InStep(after.mails, after.rows, after.sends[t]) && Claimed(after.campaigns, after.sends[t])
  {
    assert Claimed(st.campaigns, st.sends[t]) && InStep(st.mails, st.rows, st.sends[t]);
    if t == s {
      DeliveryInStep(st, s, outcome);
    } else {
      DeliveryElsewhere(st, s, outcome, st.sends[t].campaign);
    }
  }

  lemma DeliverTells(st: State, s: nat, outcome: Delivery, c: nat)
    requires Possible(st, DeliverNext(s, outcome)) && OneSendEach(st.sends) && Untouched(st, c)
    ensures var after := Delivered(st, s, outcome);
      && Untouched(after, c) && (NoSend(st.sends, c) <==> NoSend(after.sends, c))
      && (HasFinished(st.sends, c) ==> HasFinished(after.sends, c)) && OneSendEach(after.sends)
  {
    var after := Delivered(st, s, outcome);
    AdvancingTells(st.sends, after.sends, c);
    if c == st.sends[s].campaign {
      assert after.sends[s].campaign == c;
    } else {
      DeliveryElsewhere(st, s, outcome, c);
    }
  }

  lemma DeliverKeepsInv(st: State, s: nat, outcome: Delivery)
    requires Inv(st) && Possible(st, DeliverNext(s, outcome))
    ensures Inv(Delivered(st, s, outcome))
  {
    var after := Delivered(st, s, outcome);
    forall t | t in after.sends
      ensures InStep(after.mails, after.rows, after.sends[t]) && Claimed(after.campaigns, after.sends[t])
    {
      DeliverKeepsSends(st, s, outcome, t);
    }
    forall c: nat
      ensures Untouched(after, c) && (NoSend(st.sends, c) <==> NoSend(after.sends, c))
      ensures OneSendEach(after.sends)
    {
      assert Untouched(st, c);
      DeliverTells(st, s, outcome, c);
    }
    forall c | c in after.campaigns ensures Told(after.sends, c, after.campaigns[c].status) {
      DeliverTells(st, s, outcome, c);
      assert Told(st.sends, c, st.campaigns[c].status);
    }
  }

  lemma ClaimStarts(st: State, s: nat, c: nat, order: seq<nat>, campaigns: map<nat, Campaign>, sends: map<nat, Send>)
    requires Inv(st) && s !in st.sends && c in st.campaigns && st.campaigns[c].status == Draft && Distinct(order)
    requires campaigns == st.campaigns[c := st.campaigns[c].(status := Sending)]
    requires sends == st.sends[s := Send(c, order, [], Delivering)]
    ensures forall t | t in sends :: InStep(st.mails, st.rows, sends[t]) && Claimed(campaigns, sends[t])
    ensures OneSendEach(sends)
  {
    assert Told(st.sends, c, Draft) && Untouched(st, c);
    assert SentIn([]) == [] && Contacts([]) == [];
    assert InStep(st.mails, st.rows, sends[s]) && Claimed(campaigns, sends[s]);
    forall t | t in st.sends ensures InStep(st.mails, st.rows, sends[t]) && Claimed(campaigns, sends[t]) {
      assert Claimed(st.campaigns, st.sends[t]) && st.sends[t].campaign != c;
    }
  }

  /** A claim of a draft. */
  lemma ClaimKeepsInv(st: State, s: nat, c: nat, order: seq<nat>, after: State)
    requires Inv(st) && Possible(st, Claim(s, c, order)) && st.campaigns[c].status == Draft
    requires after == st.(campaigns := st.campaigns[c := st.campaigns[c].(status := Sending)],
                          sends := st.sends[s := Send(c, order, [], Delivering)])
    ensures Inv(after)
  {
    ClaimStarts(st, s, c, order, after.campaigns, after.sends);
    forall d: nat
      ensures Untouched(after, d) && (NoSend(after.sends, d) <==> NoSend(st.sends, d) && d != c)
      ensures HasFinished(st.sends, d) ==> HasFinished(after.sends, d) {
      assert Untouched(st, d);
      OneMoreSend(st.sends, s, after.sends[s], d);
    }
    forall d | d in after.campaigns ensures Told(after.sends, d, after.campaigns[d].status) {
      assert Told(st.sends, d, st.campaigns[d].status);
    }
  }

  lemma OneMoreSend(sends: map<nat, Send>, s: nat, send: Send, d: nat)
    requires s !in sends
    ensures NoSend(sends[s := send], d) <==> NoSend(sends, d) && send.campaign != d
    ensures HasFinished(sends, d) ==> HasFinished(sends[s := send], d)
  {
    var after := sends[s := send];
    assert forall t :: t in sends ==> after[t] == sends[t];
    assert after[s] == send;
    if HasFinished(sends, d) {
      var t :| t in sends && sends[t].campaign == d && sends[t].phase == Finished;
      assert after[t] == sends[t];
    }
  }

  /** One send goes from running to its end; the others stay. */
  lemma EndTells(sends: map<nat, Send>, s: nat, phase: Phase, c: nat)
    requires s in sends && sends[s].phase == Delivering && (phase == Finished || phase == Crashed)
    ensures var after := sends[s := sends[s].(phase := phase)];
      && (NoSend(sends, c) <==> NoSend(after, c))
      && (HasFinished(sends, c) ==> HasFinished(after, c))
      && (phase == Finished ==> HasFinished(after, sends[s].campaign))
      && (OneSendEach(sends) ==> OneSendEach(after))
  {
    var after := sends[s := sends[s].(phase := phase)];
    AdvancingTells(sends, after, c);
    assert after[s].campaign == sends[s].campaign && after[s].phase == phase;
  }

  /** The campaigns once send `s` has ended so. */
  ghost predicate Ends(st: State, s: nat, phase: Phase, campaigns: map<nat, Campaign>)
    requires s in st.sends
  {
    var send := st.sends[s];
    if phase == Crashed then campaigns == st.campaigns
    else
      && phase == Finished && |send.log| == |send.claimed| && send.campaign in st.campaigns
      && campaigns
         == st.campaigns[send.campaign := st.campaigns[send.campaign].(status := Sent, log := send.log)]
  }

  lemma EndIsClaimed(st: State, s: nat, phase: Phase, campaigns: map<nat, Campaign>, t: nat)
    requires OneSendEach(st.sends) && Running(st, s) && Ends(st, s, phase, campaigns)
    requires t in st.sends && Claimed(st.campaigns, st.sends[t])
    ensures Claimed(campaigns, if t == s then st.sends[s].(phase := phase) else st.sends[t])
  {
    assert t != s ==> st.sends[t].campaign != st.sends[s].campaign;
  }

  /** A send ends: it finishes, and its campaign is sent, or it crashes, and its campaign stays. */
  lemma EndKeepsInv(st: State, s: nat, phase: Phase, campaigns: map<nat, Campaign>)
    requires Inv(st) && Running(st, s) && Ends(st, s, phase, campaigns)
    ensures Inv(st.(campaigns := campaigns, sends := st.sends[s := st.sends[s].(phase := phase)]))
  {
    var after := st.(campaigns := campaigns, sends := st.sends[s := st.sends[s].(phase := phase)]);
    forall t | t in after.sends
      ensures InStep(after.mails, after.rows, after.sends[t]) && Claimed(after.campaigns, after.sends[t])
    {
      assert InStep(st.mails, st.rows, st.sends[t]) && Claimed(st.campaigns, st.sends[t]);
      EndIsClaimed(st, s, phase, campaigns, t);
    }
    forall c: nat
      ensures Untouched(after, c) && (NoSend(st.sends, c) <==> NoSend(after.sends, c))
      ensures OneSendEach(after.sends)
    {
      EndTells(st.sends, s, phase, c);
      assert Untouched(st, c);
    }
    forall c | c in after.campaigns ensures Told(after.sends, c, after.campaigns[c].status) {
      EndTells(st.sends, s, phase, c);
      assert Told(st.sends, c, st.campaigns[c].status);
    }
  }

  /** A campaign is created, a draft is edited, or one that is not being sent is deleted. */
  lemma CampaignKeepsInv(st: State, campaigns: map<nat, Campaign>, ids: set<nat>)
    requires Inv(st) && campaigns.Keys <= ids && st.ids <= ids
    requires forall c | c in campaigns && !(c in st.campaigns && campaigns[c] == st.campaigns[c]) ::
      campaigns[c].status == Draft && NoSend(st.sends, c)
    requires forall c | c in st.campaigns && st.campaigns[c].status != Draft ::
      (c in campaigns && campaigns[c] == st.campaigns[c]) || (c !in campaigns && st.campaigns[c].status == Sent)
    ensures Inv(st.(campaigns := campaigns, ids := ids))
  {
    var after := st.(campaigns := campaigns, ids := ids);
    forall s | s in st.sends ensures Claimed(after.campaigns, st.sends[s]) {
      assert Claimed(st.campaigns, st.sends[s]);
    }
    forall c: nat ensures Untouched(after, c) {
      assert Untouched(st, c);
    }
    forall c | c in campaigns ensures Told(after.sends, c, campaigns[c].status) {
      if c in st.campaigns {
        assert Told(st.sends, c, st.campaigns[c].status);
      }
    }
  }

  lemma StepKeepsInv(st: State, step: Step)
    requires Inv(st) && Possible(st, step)
    ensures Inv(Apply(st, step))
  {
    match step
    case Claim(s, c, order) =>
      if SendRefusal(st.campaigns[c]).None? {
        ClaimKeepsInv(st, s, c, order, Apply(st, step));
      }
    case DeliverNext(s, outcome) => DeliverKeepsInv(st, s, outcome);
    case Finish(s) =>
      assert Claimed(st.campaigns, st.sends[s]);
      EndKeepsInv(st, s, Finished, Apply(st, step).campaigns);
    case Crash(s) => EndKeepsInv(st, s, Crashed, st.campaigns);
    case Create(c, _, _, _) => CampaignKeepsInv(st, Apply(st, step).campaigns, st.ids + {c});
    case Update(c, _, _) =>
      assert Told(st.sends, c, st.campaigns[c].status);
      CampaignKeepsInv(st, Apply(st, step).campaigns, st.ids);
    case Destroy(c) => CampaignKeepsInv(st, Apply(st, step).campaigns, st.ids);
  }

  lemma {:induction false} RunKeepsInv(st: State, steps: seq<Step>, last: State)
    requires Inv(st) && Reaches(st, steps, last)
    ensures Inv(last)
    decreases |steps|
  {
    if steps != [] {
      StepKeepsInv(st, steps[0]);
      RunKeepsInv(Apply(st, steps[0]), steps[1..], last);
    }
  }

  const NOTHING: State := State(map[], {}, map[], [], [])

  // ---------------------------------------------------------------- over every run

  /** Each campaign is claimed at most once. */
  lemma ClaimedAtMostOnce(steps: seq<Step>, last: State, s: nat, t: nat)
    requires Reaches(NOTHING, steps, last) && s in last.sends && t in last.sends && s != t
    ensures last.sends[s].campaign != last.sends[t].campaign
  {
    RunKeepsInv(NOTHING, steps, last);
  }

  /** Each recipient of a campaign is attempted at most once, and has at most one `Email` row. */
  lemma AttemptedAtMostOnce(steps: seq<Step>, last: State, c: nat)
    requires Reaches(NOTHING, steps, last)
    ensures Distinct(Of(last.mails, c)) && |Of(last.rows, c)| <= |Of(last.mails, c)|
  {
    RunKeepsInv(NOTHING, steps, last);
    if s :| s in last.sends && last.sends[s].campaign == c {
      assert InStep(last.mails, last.rows, last.sends[s]);
      SentAreFewer(last.sends[s].log);
    } else {
      assert Untouched(last, c) && NoSend(last.sends, c);
    }
  }

  lemma {:induction false} SentAreFewer(log: seq<Entry>)
    ensures |SentIn(log)| <= |log|
  {
    if log != [] {
      SentAreFewer(log[..|log| - 1]);
    }
  }

  ghost predicate LogsAll(log: seq<Entry>, send: Send) {
    Contacts(log) == send.claimed && Distinct(send.claimed)
  }

  /** A finished log has one entry for each recipient claimed, in order, and calls sent exactly those with a row. */
  lemma FinishedLogIsComplete(steps: seq<Step>, last: State, c: nat)
    requires Reaches(NOTHING, steps, last) && c in last.campaigns && last.campaigns[c].status == Sent
    ensures exists s :: s in last.sends && last.sends[s].campaign == c && LogsAll(last.campaigns[c].log, last.sends[s])
    ensures SentIn(last.campaigns[c].log) == Of(last.rows, c)
    ensures Contacts(last.campaigns[c].log) == Of(last.mails, c)
  {
    RunKeepsInv(NOTHING, steps, last);
    assert Told(last.sends, c, Sent);
    var s :| s in last.sends && last.sends[s].campaign == c && last.sends[s].phase == Finished;
    assert InStep(last.mails, last.rows, last.sends[s]) && Claimed(last.campaigns, last.sends[s]);
  }

  /** A campaign whose send crashed stays as it is, claimed and unfinished, for good. */
  lemma {:induction false} CrashedStaysSending(st: State, steps: seq<Step>, last: State, s: nat)
    requires Inv(st) && Reaches(st, steps, last) && s in st.sends && st.sends[s].phase == Crashed
    ensures var c := st.sends[s].campaign;
      && c in last.campaigns && last.campaigns[c] == st.campaigns[c] && last.campaigns[c].status == Sending
      && Of(last.mails, c) == Of(st.mails, c) && Of(last.rows, c) == Of(st.rows, c)
    decreases |steps|
  {
    var c := st.sends[s].campaign;
    assert Claimed(st.campaigns, st.sends[s]);
    if steps != [] {
      var step := steps[0];
      StepKeepsInv(st, step);
      CrashedIsLeftAlone(st, step, s);
      CrashedStaysSending(Apply(st, step), steps[1..], last, s);
    }
  }

  lemma CrashedIsLeftAlone(st: State, step: Step, s: nat)
    requires OneSendEach(st.sends) && Possible(st, step) && s in st.sends && st.sends[s].phase == Crashed
    requires Claimed(st.campaigns, st.sends[s]) && st.campaigns.Keys <= st.ids
    ensures var c, after := st.sends[s].campaign, Apply(st, step);
      && c in st.campaigns && c in after.campaigns && after.campaigns[c] == st.campaigns[c]
      && s in after.sends && after.sends[s] == st.sends[s]
      && Of(after.mails, c) == Of(st.mails, c) && Of(after.rows, c) == Of(st.rows, c)
  {
    var c := st.sends[s].campaign;
    match step
    case DeliverNext(t, outcome) =>
      assert t != s ==> st.sends[t].campaign != c;
      DeliveryElsewhere(st, t, outcome, c);
    case Finish(t) => assert t != s ==> st.sends[t].campaign != c;
    case _ =>
  }

  /** While a send is unfinished, running or crashed, its campaign is there and being sent: it cannot be deleted,
      edited or claimed again, in any run. */
  lemma SendKeepsItsCampaign(steps: seq<Step>, last: State, s: nat)
    requires Reaches(NOTHING, steps, last) && s in last.sends && last.sends[s].phase != Finished
    ensures var c := last.sends[s].campaign;
      && c in last.campaigns && last.campaigns[c].status == Sending
      && Apply(last, Destroy(c)) == last
      && (forall visible, edit :: Apply(last, Update(c, visible, edit)) == last)
      && (forall t, order | Possible(last, Claim(t, c, order)) :: Apply(last, Claim(t, c, order)) == last)
  {
    RunKeepsInv(NOTHING, steps, last);
    assert Claimed(last.campaigns, last.sends[s]);
  }
}
