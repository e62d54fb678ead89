/** Sending, editing and deleting one campaign (`services/campaigns/views.py`). */
module Campaigns {
  import opened Orders

  datatype Status = Draft | Sending | Sent

  /** A line of the send log. */
  datatype Entry = Entry(contact: nat, sent: bool)

  datatype Campaign = Campaign(status: Status, subject: string, body: string, recipients: set<nat>, log: seq<Entry>)

  datatype Refusal = AlreadySent | BeingSent | NoContent | NoRecipients | Locked(status: Status) | NotAvailable

  /** `_refusal`. */
  function SendRefusal(c: Campaign): Option<Refusal> {
    if c.status == Sent then Some(AlreadySent)
    else if c.status == Sending then Some(BeingSent)
    else if c.subject == "" || c.body == "" then Some(NoContent)
    else if c.recipients == {} then Some(NoRecipients)
    else None
  }

  /** An edit: the new subject and body, and the recipients the editor asks for, if any. */
  datatype Edit = Edit(subject: string, body: string, requested: Option<seq<nat>>)

  /** `perform_update`: refused unless a draft, or when somebody asked for is not the editor's to see. */
  function EditRefusal(c: Campaign, visible: set<nat>, e: Edit): Option<Refusal> {
    if c.status != Draft then Some(Locked(c.status))
    else if e.requested.Some? && !(Elements(e.requested.value) <= visible) then Some(NotAvailable)
    else None
  }

  function Edited(c: Campaign, visible: set<nat>, e: Edit): Campaign {
    var recipients :=
      if e.requested.Some? then Elements(e.requested.value) + (c.recipients - visible) else c.recipients;
    c.(subject := e.subject, body := e.body, recipients := recipients)
  }

  /** An accepted edit sets the recipients its editor may see and touches no other. */
  lemma EditKeepsTheHidden(c: Campaign, visible: set<nat>, e: Edit)
    requires EditRefusal(c, visible, e).None?
    ensures Edited(c, visible, e).recipients - visible == c.recipients - visible
    ensures e.requested.Some? ==> Edited(c, visible, e).recipients * visible == Elements(e.requested.value)
    ensures e.requested.None? ==> Edited(c, visible, e).recipients == c.recipients
    ensures Edited(c, visible, e).status == Draft && Edited(c, visible, e).log == c.log
    ensures Edited(c, visible, e).subject == e.subject && Edited(c, visible, e).body == e.body
  {
    if e.requested.Some? {
      var ids := Elements(e.requested.value);
      assert (ids + (c.recipients - visible)) - visible == c.recipients - visible;
      assert (ids + (c.recipients - visible)) * visible == ids;
    }
  }

  /** A send is refused for the first of these that is so: sent already, being sent, no subject or no words, nobody to
      send to. */
  lemma SendIsRefusedIff(c: Campaign)
    ensures SendRefusal(c).None? <==> c.status == Draft && c.subject != "" && c.body != "" && |c.recipients| > 0
    ensures SendRefusal(c) == Some(AlreadySent) <==> c.status == Sent
    ensures SendRefusal(c) == Some(BeingSent) <==> c.status == Sending
    ensures SendRefusal(c) == Some(NoContent) <==> c.status == Draft && (c.subject == "" || c.body == "")
    ensures SendRefusal(c) == Some(NoRecipients)
       <==> c.status == Draft && c.subject != "" && c.body != "" && c.recipients == {}
  {
  }

  /** An edit is refused exactly when the campaign is no draft, and then with its status, or somebody asked for is not
      among those its editor may see. */
  lemma EditIsRefusedIff(c: Campaign, visible: set<nat>, e: Edit)
    ensures c.status != Draft <==> EditRefusal(c, visible, e) == Some(Locked(c.status))
    ensures EditRefusal(c, visible, e) == Some(NotAvailable)
       <==> c.status == Draft && exists x :: e.requested.Some? && x in e.requested.value && x !in visible
    ensures EditRefusal(c, visible, e).None? || c.status != Draft || EditRefusal(c, visible, e) == Some(NotAvailable)
  {
    if e.requested.Some? {
      assert forall x :: x in e.requested.value <==> x in Elements(e.requested.value);
    }
  }

  /** An order in which the recipients are read. */
  ghost predicate Lists(order: seq<nat>, recipients: set<nat>) {
    Elements(order) == recipients && forall i, j | 0 <= i < j < |order| :: order[i] != order[j]
  }

  /** What becomes of one recipient: mailed and recorded, not mailed, or mailed but not recorded. */
  datatype Delivery = Delivered | MailFailed | RowFailed

  function LogOf(recipients: seq<nat>, outcomes: seq<Delivery>): (log: seq<Entry>)
    requires |outcomes| == |recipients|
    ensures |log| == |recipients|
    ensures forall i | 0 <= i < |log| :: log[i] == Entry(recipients[i], outcomes[i] == Delivered)
  {
    seq(|recipients|, i requires 0 <= i < |recipients| => Entry(recipients[i], outcomes[i] == Delivered))
  }

  /** The recipients the log calls sent, in order. */
  function SentIn(log: seq<Entry>): seq<nat> {
    if log == [] then []
    else
      var last := log[|log| - 1];
      SentIn(log[..|log| - 1]) + (if last.sent then [last.contact] else [])
  }

  /** `_deliver`: every recipient is tried once; an `Email` row for each one mailed and recorded. */
  method Deliver(recipients: seq<nat>, outcomes: seq<Delivery>) returns (log: seq<Entry>, rows: seq<nat>)
    requires |outcomes| == |recipients|
    ensures log == LogOf(recipients, outcomes)
    ensures rows == SentIn(log)
  {
    log, rows := [], [];
    for i := 0 to |recipients|
      invariant log == LogOf(recipients[..i], outcomes[..i])
      invariant rows == SentIn(log)
    {
      var sent := false;
      if outcomes[i] == Delivered {
        rows := rows + [recipients[i]];
        sent := true;
      }
      assert (log + [Entry(recipients[i], sent)])[..|log|] == log;
      log := log + [Entry(recipients[i], sent)];
    }
    assert recipients[..|recipients|] == recipients && outcomes[..|recipients|] == outcomes;
  }

  class CampaignRow {
    var row: Campaign
    var deleted: bool

    constructor (subject: string, body: string, recipients: set<nat>)
      ensures row == Campaign(Draft, subject, body, recipients, []) && !deleted
    {
      row, deleted := Campaign(Draft, subject, body, recipients, []), false;
    }

    /** The claim, which only a draft with words and recipients passes. */
    method Claim() returns (refusal: Option<Refusal>)
      modifies this`row
      ensures refusal == SendRefusal(old(row))
      ensures row == if refusal.None? then old(row).(status := Sending) else old(row)
      ensures refusal.None? ==> old(row.status) == Draft && row.recipients != {}
    {
      refusal := SendRefusal(row);
      if refusal.None? {
        row := row.(status := Sending);
      }
    }

    /** The finish. */
    method Finish(log: seq<Entry>)
      modifies this`row
      ensures row == old(row).(status := Sent, log := log)
    {
      row := row.(log := log);
      row := row.(status := Sent);
    }

    /** A whole send that does not crash: one log line and at most one mail for each recipient claimed. */
    method Send(order: seq<nat>, outcomes: seq<Delivery>) returns (refusal: Option<Refusal>, rows: seq<nat>)
      requires Lists(order, row.recipients) && |outcomes| == |order|
      modifies this`row
      ensures refusal == SendRefusal(old(row))
      ensures refusal.Some? ==> row == old(row) && rows == []
      ensures refusal.None?
          ==> row == old(row).(status := Sent, log := LogOf(order, outcomes)) && rows == SentIn(row.log)
    {
      refusal := Claim();
      if refusal.Some? {
        return refusal, [];
      }
      var log;
      log, rows := Deliver(order, outcomes);
      Finish(log);
    }

    method Update(visible: set<nat>, e: Edit) returns (refusal: Option<Refusal>)
      modifies this`row
      ensures refusal == EditRefusal(old(row), visible, e)
      ensures row == if refusal.None? then Edited(old(row), visible, e) else old(row)
    {
      if row.status != Draft {
        return Some(Locked(row.status));
      }
      if e.requested.None? {
        row := row.(subject := e.subject, body := e.body);
        return None;
      }
      var ids := Elements(e.requested.value);
      forall x | x in ids ensures x in visible || x in ids - visible {
      }
      if |ids - visible| > 0 {
        return Some(NotAvailable);
      }
      var hidden := row.recipients - visible;
      row := row.(subject := e.subject, body := e.body, recipients := ids + hidden);
      refusal := None;
    }

    method Destroy() returns (refusal: Option<Refusal>)
      modifies this`deleted
      ensures refusal == (if row.status == Sending then Some(Locked(Sending)) else None)
      ensures deleted == (old(deleted) || refusal.None?)
    {
      if row.status == Sending {
        return Some(Locked(row.status));
      }
      deleted := true;
      refusal := None;
    }
  }
}
