# A model of the Revenact back end's hard parts

A Dafny model of the parts of the repository that rest on an argument rather than on one function's body, with
the arguments proved. `dafny verify dfyconfig.toml` checks all of it. Database rows are sequences or maps, held by
a class where views and services change them; a locked transaction is one step of a state machine; a call that
leaves the process (the model, the mail, the clock) is a parameter that may answer anything or fail.

## What is modelled

**Shared Copilot conversations** (`Snapshots`, `Conversations`, `Visibility`, `Provenance`, `AskReplies`, `Soundness`,
`SharedRuns`, `SharedReading`, `Escapes`, `Citations`, `SnapshotOrder`, `SendMessage`, `LegacyBackfill`,
`LegacyHistory`). Every stored reply carries a ghost taint in three parts, each through its own digest and through
every reply it was fed as history: what Ask digests drew on without citing it, what plain digests drew on, and the
records that were cited. A send is three interleaved steps (take the history, store the question, store the reply) by
any sender, with any grounding, Ask or plain. `Visibility` says in the stored fields who gets which turn and reads
which reply, `AskReplies` what a send stores in terms of what was asked and fed. What the snapshots stored with a
reply protect, and what they do not:

- *Ask digests are guarded.* Whatever the interleaving, the customer ids a reply stores are unknown, and then nobody
  but its asker is shown it, or each of its snapshots is unknown or holds all that Ask digests behind it drew on; an
  Ask reply's answer for what plain digests behind it drew on too. So a partial reader is shown, of other people's
  replies, none behind which such a digest drew on something that reader may not read (`EveryRunIsSafe`). The one
  hypothesis about a digest is that an Ask grounding's known parts are all its digest drew on without citing it; plain
  sends, whose digests name customers and amounts that no snapshot records, are free to draw on anything.
- *Plain digests are not.* `PlainDigestLeaks` is a run of one plain send that does it, and `MarkedPlainDigestEscapes`
  one that is fed an Ask reply. `WhatEscapesAPlainReply` says exactly what the snapshots miss, and that only plain
  digests drew on it; `PlainMarkReachesIff` says exactly when a customer, an account or anomaly text then reaches a
  reader who may not read it, since a record the reply cites can still withhold it. An Ask reply fed a plain one is
  shown to its asker alone (`PlainHistorySealsAnAskReply`).
- *Cited records are guarded for one reply only.* A citation is checked on the reply that cites it and is not folded
  into the next: `CitedRecordEscapes` shows an email, refused on the Ask reply that cites it, behind a plain reply
  that is shown. `NewAnswerCitesIff` and `RunCitesIff` are exact: nothing cited escapes if and only if no reply is
  stored with a window that cites a record the new one neither cites, nor quotes, nor makes unknown.
- *Old conversations.* The customer ids were stored before the pass of `LegacyBackfill`; the pipeline, ticket and
  record snapshots came later, one by one. A missing snapshot reads as unknown where the reply's own surface carries
  the kind and as nothing elsewhere, also when the reply had been fed one whose surface does:
  `UncountedPipelineEscapes` is a Health reply that was fed a Revenue reply. Besides, a plain reply that was marked
  already can have been fed one the pass had yet to mark. `BackfillIsSoundIff` is the exact condition, in stored data,
  under which the pass leaves a conversation sound whatever it was built from, and `OldConversationIsSoundIff` the
  same for one that went on while the snapshots were added. What is known of old rows is that their ids and flags were
  folded by the rule of `ask_snapshot` since these were stored, and each snapshot since it was.
- The guarantee rests on replies naming their question (`reply_to`), which every send stores. For rows written before
  that field, a history window can begin between a question and its reply; `WindowIsHeardIff` says exactly when that
  loses a reply, and `CutOffQuestionIsMissed` is a conversation in which it does. `RunsFromSoundAreSafe` therefore
  asks that no window is cut there, and `EveryRunIsSafe` asks nothing. Nor does the order of the history matter while
  the replies in it name their questions (`SnapshotsIgnoreOrder`, `OrderMattersWithoutAQuestion`).
- `carries_anomaly_text` is not evidence by itself: `CarriesAloneIsNotEnough` stores it as false on a reply that drew
  on anomaly text. It is the unknown customer ids beside it that withhold the reply.
- What a reader may see (customers, accounts, tickets, mailboxes) is an arbitrary set per reader, evaluated when the
  view is read.

**Who holds a conversation** (`Grants`, `Handoff`, `SessionSaves`). The holder closure, the batched resolver, and runs
of session steps. `Leave` (setting `left_at`) and the deletion of a user are steps of the environment: no view sets
`left_at`. Answering an invite does not look at whether the session is closed, and the model does not either. The
view's own description says a hand-off lets the target take over; when the target is on the actor's own chain of
invites both lose the conversation until the owner invites again, and `HandOffIsUsableIff` is the exact condition.

The session views take no lock and open no transaction. In `Grants` and `Handoff` each view is one step, which is what
it is when nothing comes between its check and its last save (`SessionSaves.UninterruptedRun`). `SessionSaves` splits
each view into its check and the rows it saves one by one, in any interleaving. What survives: every holder has a chain
of invites each of which passed its check (`EveryHolderWasVouchedFor`). What does not: a closed session can come back
(`CloseCanBeUndone`; it is closed for good exactly when no request checked before has another status left to save,
`ClosedForGoodIff`), and an accept
can be saved when its inviter holds the conversation no longer (`AcceptCanBeLate`; whether it grants anything is
`LateAcceptGrantsIff`).

**Billing** (`Ledger`, `Credits`, `Completions`, `Seats`, `SeatTransactions`). The ledger is append-only with running
balances and idempotency keys. Calls in flight interleave with each other and with every other movement. Seat
transactions interleave on one lock, except for releases, which take none. Two things the code does not promise: open
seats can exceed the limit, after a plan change or an unenforced admission and in no other way
(`SeatsStayWithinIff`, with `PlanChangeMayOverfill` and `UnenforcedMayOverfill`); and a reference longer than its
column is refused as a clash rather than reported as a duplicate (`ReplayIsNotApplied` has the exact condition).

**The shard scheduler** (`Scheduling`, `ShardLabels`, `ShardCheck`). Longest-processing-time dealing with its
4/3 - 1/(3m) bound against every other split, and the `--check` mode. An empty label list makes discovery find the
whole suite, so with more shards than test classes the check fails on any suite that has a test; `Check` states when
it passes. The runner is taken to find, for a list of class labels, the tests of those classes.

**The org chart** (`OrgChart`, `ChartEdits`, `ChartSaves`). The two walks on any chart, cyclic or not, and the edits
that keep it acyclic. The code checks an edit and saves it without a lock. `TogetherTheyCycleIff` says exactly which two
edits, each accepted on the same chart, loop it; `OrderlyStaysAcyclic` proves the chart acyclic over the runs of
separate checks and saves in which no other edit is saved in between. An edit of any other field saves the whole row,
and so writes back the manager it had loaded: it counts as such an edit, and `LoadedManagerReturns` is one that loops
the chart.

**Clustering** (`Grouping`, `Detection`). First-fit grouping under an arbitrary closeness relation, and the two loops
of the nightly pass.

**Campaigns** (`Campaigns`, `CampaignRuns`). Claim, delivery, finish, edit, deletion and crash, interleaved. A mail
that left but whose `Email` row could not be written is logged as skipped, so "sent" counts rows and not mails.

**The prompt fence** (`Fence`). The two substitutions as string rewriting. Ignoring case, the `s` of the fence word
also matches U+017F, and the model's token does.

**The filter parser and printer** (`PyText`, `PyNumbers`, `FilterLists`, `Filters`, `FilterRoundTrip`,
`CleanFilters`). Python's `strip`, `split`, `join`, `int` and `str` on the characters and numerals they are used on,
the URL parser, its canonical printer, and the cleaning of a client's filters.

`Orders` holds what all share: `Option`, string order, and `sorted(set(...))`. `Option`s stand for `None`, and
refusals for the exceptions and error responses of the code.

## Model

| member | source | states |
|---|---|---|
| `Snapshots.StoredCountedReadsBack` | services/copilot/views.py:776-778 | an opportunities or tickets fold, once stored, reads back as itself: unknown as unknown, never as "counted nothing", and never as a missing value |
| `Snapshots.StoredRecordsReadBack` | services/copilot/views.py:776-805 | the same for the quoted records |
| `Snapshots.UnionCountedAdds` | services/copilot/views.py:808-809 | the union of two snapshots holds exactly the accounts and departments of both, once each and in order |
| `Snapshots.UnionRecordsAdds` | services/copilot/grounded_records.py:51-58 | the union of two record lists holds exactly the references of both, once each and sorted by their key |
| `Snapshots.WellFormedRecordsAreValid` | services/copilot/grounded_records.py:32-48 | a stored value accepted as records holds only references the code itself could have built |
| `Snapshots.WellFormedKeepsTheValue` | services/copilot/grounded_records.py:36-48 | the shape checks hand back the value they were given: re-encoding what was accepted gives the stored value |
| `Conversations.UnknownStaysUnknown` | services/copilot/views.py:887-955 | a fold stored as unknown is unknown on every surface it may be read on, with or without a context |
| `Conversations.KnownReadsBack` | services/copilot/views.py:887-955 | a known fold reads back as exactly itself whatever question it answers |
| `Conversations.VisibleMessages` | services/copilot/views.py:255-328 | the two passes over the turns give the view of the specification, for a whole and for a partial reader |
| `Conversations.PartialViewShape` | services/copilot/views.py:255-328 | a partial view is an in-order part of the conversation, each reply in it behind a question of the view; a reply keeps its words if and only if it is readable; an Ask question keeps its context if and only if a reply shown in the same view answers it |
| `Visibility.QuestionIsShownIff` | services/copilot/views.py:295-305 | a partial reader gets a question if and only if it is their own, or is addressed to them or to somebody who reports to them, or is addressed to nobody and its author is within their scope or gone |
| `Visibility.ReplyIsShownIff` | services/copilot/views.py:306-311 | and a reply if and only if they get the question nearest before it |
| `Visibility.ShownHasAnAsker` | services/copilot/views.py:610-616 | every Ask-shaped reply shown with its words answers a question whose author is known and still in the organisation |
| `Visibility.AskerReadsIff` | services/copilot/views.py:607-617 | an Ask reply is read by its asker if and only if its context is an object and they are still in the organisation |
| `Visibility.OtherReadsAskIff` | services/copilot/views.py:607-668 | and by anybody else if and only if its asker is known and still in the organisation, the context names a known surface with text filters, the ids, records and, as far as they do not see everything or lead, the flag, pipeline and tickets are known and open to them, and so is every record cited or quoted |
| `Visibility.PlainIsReadIff` | services/copilot/views.py:607-695 | a plain reply is read by whoever may read its records; one that was fed an Ask reply, besides, by nobody when its asker is unknown or gone, and by others than its asker only with its snapshots open to them |
| `Visibility.RecordIsReadableIff` | services/copilot/views.py:672-695 | a record is readable if and only if its company may be opened and, where its kind has a rule, the rule allows it or it is gone and no opportunity or risk |
| `Visibility.MissingOnTheDashboard` | services/copilot/views.py:887-955 | a missing snapshot beside a dashboard question is unknown exactly in the areas that carry its kind, and else nothing |
| `Visibility.MissingElsewhere` | services/copilot/views.py:887-955 | the same on every other surface |
| `Provenance.AskSnapshot` | services/copilot/views.py:718-764 | the loop over the history computes the fold of customer ids and the anomaly flag over the same walk as the other snapshots |
| `AskReplies.HonestAnomalyIff` | services/copilot/views.py:707-715 | a digest may draw on anomaly text exactly when the sender sees everything and the area is the overview or the focus an anomaly that needs attention |
| `AskReplies.HonestMarkIff` | services/copilot/views.py:718-805 | and on anything else exactly when the grounding reports no ids, or reports it, or reports its kind malformed |
| `AskReplies.AskFlagIff` | services/copilot/views.py:736-763 | an Ask reply is stored as able to carry anomaly text if and only if the same holds of its own question and sender, or a reply folded in was not known to be free of it; otherwise as free of it |
| `AskReplies.PlainFlagIff` | services/copilot/views.py:741-763 | a plain reply is marked if and only if something was folded in, and flagged if and only if some of that was not known to be free of anomaly text |
| `AskReplies.UnfedAskStores` | services/copilot/views.py:1204-1249 | an Ask reply that heard nothing stores its grounding's ids and each of its snapshots in its own column, unknown where there is nothing well-formed |
| `AskReplies.UnfedPlainStores` | services/copilot/views.py:1204-1249 | a plain reply that heard nothing stores none of them |
| `Provenance.FoldedSnapshot` | services/copilot/views.py:812-849 | the loop computes the fold of any snapshot kind over that walk, in step with `ask_snapshot` |
| `Soundness.FoldIsKnownIff` | services/copilot/views.py:812-849 | a fold is known if and only if its own grounding is and every reply folded in is, and no reply blocks it: unknown is sticky and nothing else makes it unknown |
| `Soundness.FoldHolds` | services/copilot/views.py:812-849 | a known fold holds its own grounding and every folded snapshot, and nothing else |
| `Soundness.MarkedIsCounted` | services/copilot/views.py:698-704 | every Ask-shaped reply that is heard is folded in or blocks the fold |
| `Soundness.OwnMarkIsHeld` | services/copilot/views.py:718-805 | the folds answer for whatever an Ask send's own digest drew on without citing it: the customer ids are unknown, or the snapshot of its kind is unknown or holds it |
| `Soundness.FedMarkIsHeld` | services/copilot/views.py:718-849 | the folds of a reply answer so for what Ask digests put into a reply it was fed, transitively; in an Ask send also for what plain digests put into it |
| `Soundness.UnmarkedHeardNothing` | services/copilot/views.py:718-764 | a plain reply left unmarked was fed no Ask-shaped reply and nothing that drew on an Ask digest |
| `Soundness.NewAnswerReadsBack` | services/copilot/views.py:1182-1249 | the fields a send stores on a marked reply read back on any surface as exactly its folds |
| `Soundness.NewAnswerIsCovered` | services/copilot/views.py:718-849 | what a send stores has unknown customer ids, or every snapshot in it is unknown or holds everything that Ask digests, its own or those behind any reply it was fed, drew on without citing it; an Ask reply's answer so also for what plain digests behind it drew on |
| `SnapshotOrder.SnapshotsIgnoreOrder` | services/copilot/views.py:718-849 | two histories with the same turns, in any order and however often repeated, leave the very same snapshots, when the replies heard in them name their questions |
| `SnapshotOrder.OrderMattersWithoutAQuestion` | services/copilot/views.py:667-704 | with a reply that does not name its question the order matters: after its Ask question it marks the new reply, after another question it does not |
| `SharedRuns.WindowIsHeardIff` | services/copilot/views.py:1182-1184 | the walk hears every Ask-shaped reply of a history window if and only if the window has cut off no question of an unmarked reply with no `reply_to` |
| `SharedRuns.WindowIsNewest` | services/copilot/views.py:1182-1184 | a history window is the newest twenty turns of a view, or all of it |
| `SharedRuns.StepStores` | services/copilot/views.py:1182-1290 | a send stores nothing when it begins or its model call fails, then its question with its context, then one reply that names it; no step touches another send in flight |
| `SharedRuns.RunKeepsInv` | services/copilot/views.py:1097-1290 | over every interleaving of Ask and plain sends by any senders, the Ask groundings honest and no window cut at a legacy Ask question, each reply's snapshots cover what Ask digests behind it drew on, and an Ask reply's what plain ones did |
| `SharedRuns.HonestRunIsSound` | services/copilot/views.py:1248-1249 | the same with no condition on the windows, for a conversation whose replies name their questions |
| `SharedReading.ReadableMarkIsSafe` | services/copilot/views.py:543-695 | a marked reply readable by somebody other than its asker holds nothing that reader may not read |
| `SharedReading.ShownIsSafe` | services/copilot/views.py:255-328 | in a sound conversation a reply shown with its words to a partial reader who did not ask for it drew, through Ask digests anywhere behind it and for an Ask reply through plain ones too, only on what that reader may read or on cited records |
| `SharedReading.RunsFromSoundAreSafe` | services/copilot/views.py:718-764 | so from any sound conversation, over every run of sends with honest Ask groundings whose windows cut off no legacy Ask question |
| `SharedReading.EveryRunIsSafe` | services/copilot/views.py:1248-1249 | from an empty conversation the same over every run, with no condition on the windows and none on plain sends |
| `SharedReading.CutOffQuestionIsMissed` | services/copilot/views.py:718-764 | a concrete legacy conversation of 21 turns whose window starts at an Ask reply with no `reply_to`: the plain reply fed it is stored unmarked |
| `SharedReading.CarriesAloneIsNotEnough` | services/copilot/views.py:718-764 | a concrete Ask reply stored with `carries_anomaly_text` false that drew on anomaly text; its customer ids are unknown |
| `Escapes.FoldHoldsIff` | services/copilot/views.py:812-849 | a fold is unknown or holds something if and only if its own grounding is or does, something blocks it, or a snapshot folded in is or does |
| `Escapes.NewAnswerHoldsIff` | services/copilot/views.py:718-849 | the snapshots of a marked new reply answer for a thing if and only if its own Ask grounding or a reply it folds in does, or a reply it was fed blocks |
| `Escapes.NewAnswerFindsIff` | services/copilot/views.py:812-849 | a mark is found in the snapshots of a marked new reply, each unknown or holding it, if and only if it is in its own Ask grounding or in a reply it folds in, or a reply it was fed blocks |
| `Escapes.WhatEscapesAPlainReply` | services/copilot/views.py:745-757 | the snapshots of a reply to a plain send miss something it drew on if and only if those of no Ask-shaped reply it was fed answer for it; and what they miss was drawn on by plain digests alone, its own or one behind a reply it was fed |
| `Escapes.PlainMarkReachesIff` | services/copilot/views.py:543-695 | a customer, an account or anomaly text behind a plain reply reaches some reader who did not ask and may not read it if and only if, as stored: no record it cites or quotes names that company or an unreadable shape, and, when it is marked, all four snapshots are known, the flag is false and none of them names that company |
| `Escapes.NothingEscapesAnAskReply` | services/copilot/views.py:718-764 | an Ask reply misses nothing it drew on without citing it, plain digests behind it included |
| `Escapes.PlainHistorySealsAnAskReply` | services/copilot/views.py:745-757 | a plain reply heard by an Ask send leaves its reply with unknown customer ids, so it is shown to nobody but its asker |
| `Escapes.PlainDigestLeaks` | services/copilot/context.py:195-257 | the smallest run with a leak: a plain send whose digest names a customer and cites nothing is shown to a reader who may not open that customer |
| `Escapes.MarkedPlainDigestEscapes` | services/copilot/views.py:745-757 | nor does a mark help: a plain reply fed an Ask reply about one customer, its own digest naming another, is stored with the first alone |
| `Citations.NewCiteHeldIff` | services/copilot/views.py:790-908 | a new reply answers for a cited record (cites it, quotes it, or is shown to nobody but its asker) if and only if it cites it again, its own grounding quotes it or has nothing known, or a reply it was fed blocks, has no known ids, or had it quoted |
| `Citations.NewAnswerCitesIff` | services/copilot/views.py:790-908 | in a conversation whose replies answer for the cited records behind them, a new reply does so if and only if no reply of its window cites a record it does not keep |
| `Citations.RunCitesIff` | services/copilot/views.py:1097-1290 | over every run, whatever the digests drew on, every reply answers for every cited record behind it if and only if each was stored with a window that cites nothing it does not keep |
| `Citations.ShownCitesAreReadable` | services/copilot/views.py:543-695 | a reply that answers for its cited records, shown with its words to a partial reader who did not ask for it, was built only from cited records that reader may read |
| `Citations.CitedRecordEscapes` | services/copilot/dashboard_grounding.py:417-457 | the condition is needed: an Ask reply cites an email, and a reader who may open its customer and not the email is refused that reply but shown the plain one fed it |
| `SendMessage.History` | services/copilot/views.py:1182-1184 | the history is the newest turns of the sender's own view, oldest first |
| `SendMessage.Compose` | services/copilot/views.py:1204-1249 | the reply row carries the four folds of its history, or none of them for a plain reply fed no Ask-shaped one |
| `SendMessage.Conversation.Post` | services/copilot/views.py:1097-1290 | each refusal exactly, for the first reason that applies, with nothing stored; otherwise the question with its context and the reply that names it, as an uninterrupted run of the three steps of a send |
| `SendMessage.SendIsARun` | services/copilot/views.py:1097-1290 | what an uninterrupted send stores is what its interleaved steps store, and keeps the conversation sound |
| `SendMessage.NewAnswerStays` | services/copilot/views.py:1182-1249 | the snapshots computed from a history do not depend on turns other people store meanwhile |
| `LegacyBackfill.MessageTable.MarkLegacyFollowups` | services/copilot/legacy.py:16-49 | the batched pass marks the same rows and returns the same count as one unbatched pass, in whatever order the conversations come |
| `LegacyBackfill.Flushing` | services/copilot/legacy.py:45-55 | every row waiting in a batch is a reply still unmarked, so one update counts each of them, and marking batch after batch is marking them all at once |
| `LegacyBackfill.MarkingDoes` | services/copilot/legacy.py:52-55 | a named row without a flag is flagged and loses its ids, and nothing else of any row changes |
| `LegacyBackfill.ScanThread` | services/copilot/legacy.py:16-49 | the streaming pass over one conversation names exactly the plain replies that follow an Ask reply |
| `LegacyBackfill.EveryLegacyKeyIsRead` | services/copilot/legacy.py:16-30 | a conversation the query leaves out has nothing to mark |
| `LegacyBackfill.NoneLeft` | services/copilot/legacy.py:16-49 | afterwards no unmarked plain reply follows an Ask reply in its conversation |
| `LegacyHistory.BackfillIsSoundIff` | services/copilot/legacy.py:1-49 | after the pass a conversation with none of the three later snapshots is sound for all taints it can have had if and only if nothing in it is lost, in stored data: no Ask reply that can have been fed another reads, by a missing snapshot, as having drawn on nothing of a kind the other's surface carries; and no marked plain reply can have been fed an unmarked one that came after an Ask reply whose ids or flag it lacks |
| `LegacyHistory.OldConversationIsSoundIff` | services/copilot/views.py:887-939 | the same for a conversation that went on after the pass while the snapshots were added one by one |
| `LegacyHistory.OldConversationsAreSafe` | services/copilot/views.py:718-849 | from such a conversation, when nothing is lost, nothing guarded leaks over any run whose windows cut off no legacy Ask question |
| `LegacyHistory.UncountedPipelineEscapes` | services/copilot/views.py:910-939 | a Revenue reply that counted an account's pipeline and a Health reply fed it, both older than the snapshots: the pass changes nothing, and the Health reply is read by somebody who may not open the account |
| `Grants.HoldersFrom` | services/copilot/views.py:117-130 | the closure loop ends with exactly the users reached from the owner by the accepted links, whatever the order or repetition of the edges |
| `Grants.EdgesOf` | services/copilot/views.py:133-143 | the edges are exactly the accepted invites, from inviter to invited, inviters who are gone included |
| `Grants.ChecksWhole` | services/copilot/views.py:177-188 | whole-conversation access is decided as reachability from the owner |
| `Grants.ConversationsGrantedTo` | services/copilot/views.py:146-174 | the batched resolver, computed with one closure per candidate session |
| `Grants.BatchedIsExact` | services/copilot/views.py:146-188 | the batched answer with one's own conversations is exactly what the one-by-one check says of each |
| `Grants.HolderAccepted` | services/copilot/views.py:117-143 | a holder other than the owner accepted an invite |
| `Grants.StatusChangesBy` | services/copilot/views.py:1432-1640 | only the owner makes a session live or closes it, and only somebody who sees the whole conversation hands it off; nothing else changes its status |
| `Grants.InviteChangesBy` | services/copilot/views.py:1432-1797 | no view changes an invite but the target's, which becomes a pending one from the owner who invites or the holder who hands off, never one's own, or the answering user's, which keeps its inviter |
| `Grants.PresenceChangesBy` | services/copilot/views.py:1432-1797 | who becomes present or absent, and by what |
| `Grants.MayInvite` | services/copilot/views.py:1467-1571 | the owner of an open session may invite anybody else of the organisation, and whoever sees the conversation whole may hand it off while it is not closed, and what that leaves |
| `Grants.WhoMayAnswer` | services/copilot/views.py:1740-1782 | a pending invite may always be declined, and accepted exactly when its inviter is somebody else who sees the conversation whole |
| `Grants.DeclineAnswers` | services/copilot/views.py:1776-1786 | a no is stored as declined, with the same inviter, and changes nothing else |
| `Grants.AcceptAnswers` | services/copilot/views.py:1776-1797 | a yes is stored as accepted and makes its user present, and changes nothing else |
| `Grants.AnswerIsFinal` | services/copilot/views.py:1771-1775 | over every run an answered invite, either way, cannot be answered again until somebody invites its user again |
| `Grants.DeclinedHoldsNothing` | services/copilot/views.py:1771-1786 | and for as long whoever declined holds nothing |
| `Grants.EveryInviteIsTraced` | services/copilot/views.py:1432-1598 | when each view runs on its own: in every run each accepted invite was opened and later accepted while its inviter saw the conversation whole |
| `Grants.EveryHolderWasLetIn` | services/copilot/views.py:1432-1797 | when each view runs on its own: in every run from a conversation with no session each holder has a chain of accepted invites from the owner, each link let in by the one before |
| `Grants.ClosedStays` | services/copilot/views.py:1601-1640 | when each view runs on its own, a closed session never leaves closed |
| `SessionSaves.UninterruptedRun` | services/copilot/views.py:1432-1797 | a view whose check and saves nothing interrupts is one step of those runs, whatever other requests have left to save |
| `SessionSaves.EveryHolderWasVouchedFor` | services/copilot/views.py:1432-1797 | however checks and saves interleave, each holder but the owner has a chain of accepted invites from the owner, each opened by a request checked while its inviter saw the conversation whole, and answered by one checked while an invite to that user could be accepted |
| `SessionSaves.ClosedForGoodIff` | services/copilot/views.py:1535-1573 | a closed session is closed for good, in every run of every length, if and only if no request checked before the close has a row left that saves another status |
| `SessionSaves.CloseCanBeUndone` | services/copilot/views.py:1432-1454 | any open session can be closed and come back live: the owner's other request was checked before the close |
| `SessionSaves.LateAcceptGrantsIff` | services/copilot/views.py:1780-1790 | an accept saved however late makes its user a holder if and only if the invite's inviter, as the row says by then, is somebody else who is one |
| `SessionSaves.AcceptCanBeLate` | services/copilot/views.py:1561-1573 | an accept checked before its inviter is handed off to is saved after, and grants nothing |
| `Handoff.RootChainIsUnique` | services/copilot/models.py:273-278 | with one invite row per user, at most one chain leads from the owner to a holder |
| `Handoff.HandOffRemovesSubtree` | services/copilot/views.py:1561-1571 | a hand-off removes from the holders exactly the target's accepted subtree, and nobody when the target is the owner |
| `Handoff.HandOffIsUsableIff` | services/copilot/views.py:1740-1749 | when nothing interrupts the view: the actor stays a holder, and the target can accept, if and only if the target is the owner or not on the actor's own chain |
| `Handoff.SessionRows.PostLive` | services/copilot/views.py:1432-1454 | making a session live is its step of the run, or refuses and changes nothing |
| `Handoff.SessionRows.PostInvite` | services/copilot/views.py:1467-1507 | an invite creates the target's one row or resets it to pending, or refuses and changes nothing |
| `Handoff.SessionRows.PostHandoff` | services/copilot/views.py:1527-1598 | a hand-off is its step of the run, or refuses and changes nothing |
| `Handoff.SessionRows.PostResponse` | services/copilot/views.py:1764-1797 | only a pending invite is answered, and only a grantable one accepted |
| `Handoff.SessionRows.PostClose` | services/copilot/views.py:1617-1640 | closing is its step of the run, or refuses and changes nothing |
| `Ledger.PostAppends` | services/billing/ledger.py:29-54 | a movement appends the one row it reports, its balance the last plus its amount and not negative and its reference unused, or changes nothing |
| `Ledger.AppliedMovesBy` | services/billing/ledger.py:29-144 | an applied movement writes a row of its kind and moves the balance up by a grant or refund, by the signed amount of an adjustment, down by a charge, and to zero by an expiry |
| `Ledger.OutcomeIsExact` | services/billing/ledger.py:29-144 | the exact condition of every refusal and of being applied, for every movement |
| `Ledger.ReasonIsKept` | services/billing/ledger.py:40-42 | the row keeps the reason and the reference, cut to 255 and 160 characters; an adjustment has no reference |
| `Ledger.RunKeepsBook` | services/billing/ledger.py:18-144 | over any movements, applied, refused or replayed: every balance is the sum of the amounts up to it and not negative, no reference occurs twice, earlier rows are unchanged |
| `Ledger.EveryBookIsSound` | services/billing/models.py:114-136 | from an account with no rows |
| `Ledger.ReplayIsNotApplied` | services/billing/ledger.py:45-54 | once a reference is recorded no movement with it is applied again whatever came between; it is reported as a duplicate if and only if the reference fits its column, the amount is valid and the balance allows it |
| `Ledger.ExpiryEmpties` | services/billing/ledger.py:130-144 | expiry leaves a zero balance if and only if the balance was zero or its reference was not used before |
| `Ledger.CreditLedger.HasReference` | services/billing/ledger.py:49-50 | the existence query on a reference |
| `Ledger.CreditLedger.AppendRow` | services/billing/ledger.py:29-54 | insert, the unique constraint, and the reason for a refusal, as the specification orders them |
| `Ledger.CreditLedger.PostGrant` | services/billing/ledger.py:57-70 | a grant: its whole new state and outcome |
| `Ledger.CreditLedger.PostConsume` | services/billing/ledger.py:73-86 | a charge: its whole new state and outcome |
| `Ledger.CreditLedger.PostRefund` | services/billing/ledger.py:89-99 | a refund, whose sign is not checked |
| `Ledger.CreditLedger.PostAdjust` | services/billing/ledger.py:102-127 | an adjustment: refused when zero or without a reason |
| `Ledger.CreditLedger.PostExpire` | services/billing/ledger.py:130-144 | expiry, a no-op when nothing is left |
| `Credits.ReferencesDiffer` | services/copilot/anthropic_client.py:147 | charge and refund references of calls are all different and fit their column |
| `Credits.FreshCharge` | services/billing/credits.py:18-38 | a new call's charge is taken if and only if the balance covers it, as one row of minus the cost; otherwise it is refused when enforcing and skipped when not |
| `Credits.FirstRefund` | services/billing/credits.py:41-57 | the refund of a charged call in flight is always recorded |
| `Credits.RepeatedChargeIsNothing` | services/billing/credits.py:18-38 | a charge recorded already counts as taken and costs nothing more |
| `Credits.RepeatedRefundIsNothing` | services/billing/credits.py:41-57 | repeating a refund changes nothing, whenever and however often |
| `Credits.CallsCostWhatTheyAnswer` | services/copilot/anthropic_client.py:144-192 | over any interleaving of calls with the account's other movements the calls move the ledger by exactly minus the cost for each charged call answered, once none is in flight, and the balance is never negative |
| `Completions.ModelClient.TakeCharge` | services/billing/credits.py:18-38 | the charge and its three outcomes |
| `Completions.ModelClient.GiveBack` | services/billing/credits.py:41-57 | the refund, whose refusal is swallowed |
| `Completions.ModelClient.GetCompletion` | services/copilot/anthropic_client.py:90-192 | refused exactly when the token budget is spent or enforced credits do not cover it, with nothing written; a failed or unconfigured call leaves the balance as it was; an answered one costs its charge exactly when it was affordable; one audit row per call |
| `Seats.ClosedFrees` | services/billing/seats.py:76-80 | releasing frees the one seat the membership holds, if it holds one |
| `Seats.UsedCounts` | services/billing/seats.py:24-25 | the seats in use are as many as the open rows |
| `Seats.BillingAccount.CountUsed` | services/billing/seats.py:24-25 | the number of open rows |
| `Seats.BillingAccount.Allocate` | services/billing/seats.py:32-57 | refused if and only if the member holds no seat, enforcement is on and the account is full; a member with a seat keeps it; an enforced new seat fits the limit |
| `Seats.BillingAccount.Reserve` | services/billing/seats.py:60-73 | refused if and only if enforcing and full |
| `Seats.BillingAccount.Release` | services/billing/seats.py:76-80 | closes the open seat of the membership and says how many it closed |
| `Seats.BillingAccount.SetSeats` | services/billing/accounts.py:122-150 | refused for a negative number, a blank reason, or fewer than the seats in use; otherwise the limit, which then covers the seats in use |
| `Seats.BillingAccount.ChangePlan` | services/billing/accounts.py:69-119 | the plan and its allowance whatever is in use, and its credits exactly once per reference; undone only when a recorded over-long reference is replayed |
| `Seats.Organisation.Ensure` | services/billing/accounts.py:35-66 | an existing account is left alone; a new one has the trial's seats and its credits, granted this once |
| `SeatTransactions.StepKeepsInv` | services/billing/seats.py:32-80 | what a check established under the lock, room for an admission or a limit that covers the seats in use, stays true until its transaction commits, under every step of every other transaction |
| `SeatTransactions.CheckRefusesIff` | services/billing/seats.py:32-73 | which check under the lock refuses, exactly, and that it changes neither seats nor limit |
| `SeatTransactions.InsertDoes` | services/billing/signals.py:25-36 | the insert after a reservation is never refused, and adds the seat unless the member has one by now |
| `SeatTransactions.CommitDoes` | services/billing/accounts.py:83-150 | a commit sets the limit asked for and leaves the seats, or adds the member's one seat or nothing and leaves the limit; it frees the lock and touches no other transaction |
| `SeatTransactions.EnforcedAdmissionFits` | services/accounts/views.py:490-494 | in every run a commit that seats somebody under enforcement leaves no more open seats than the limit in force, and seats the member it was for |
| `SeatTransactions.OneSeatEach` | services/billing/models.py:155-163 | in every run each membership has at most one open seat, enforced or not |
| `SeatTransactions.LastSeatsGoRound` | services/billing/seats.py:1-8 | with k seats left exactly min(k, n) of n concurrent enforced admissions of different members are seated when none is released; the others are refused |
| `SeatTransactions.StepStaysWithinIff` | services/billing/accounts.py:83-150 | a step of an account within its limit leaves it within the limit if and only if it fits: only a plan change smaller than the seats in use and an unenforced admission to a full account do not |
| `SeatTransactions.SeatsStayWithinIff` | services/billing/accounts.py:83-150 | over every run of an account that starts within its limit, the open seats are within the limit at every point if and only if each plan change committed covered the seats in use and each admission committed without enforcement found one free |
| `SeatTransactions.UnenforcedMayOverfill` | services/billing/seats.py:32-57 | on any full account there is a run in which an unenforced admission leaves one seat more than the limit |
| `SeatTransactions.PlanChangeMayOverfill` | services/billing/accounts.py:83-91 | on any account there is a run in which a plan of fewer seats than are in use leaves more open than its limit |
| `Scheduling.LoadsAddUp` | scripts/ci_shard_labels.py:61-70 | the loads of all machines add up to the total |
| `Scheduling.BigLastJobFits` | scripts/ci_shard_labels.py:64-69 | when the smallest job exceeds a third of what some assignment needs, the least loaded machine takes it within that |
| `Scheduling.StepIsBounded` | scripts/ci_shard_labels.py:64-69 | one step of the dealing keeps within (4m - 1) / 3m of any assignment |
| `ShardLabels.DealClasses` | scripts/ci_shard_labels.py:61-70 | the loop over the classes computes the sorted shards of the specification |
| `ShardLabels.DealKeepsLoads` | scripts/ci_shard_labels.py:63-69 | each load is the sum of what was dealt to its shard |
| `ShardLabels.DealFillsInTurn` | scripts/ci_shard_labels.py:66-69 | a shard is empty if and only if there are no more classes than its number |
| `ShardLabels.DealIsNearlyOptimal` | scripts/ci_shard_labels.py:61-70 | every load is within (4m - 1) / 3m of the heaviest load of any assignment of the same classes |
| `ShardLabels.DealIsLevel` | scripts/ci_shard_labels.py:66-69 | two loads differ by at most the largest class |
| `ShardCheck.CountsAreExact` | scripts/ci_shard_labels.py:63 | each class is counted once, by the number of its tests, never zero |
| `ShardCheck.JobsAreInOrder` | scripts/ci_shard_labels.py:64 | the classes are dealt largest first, and by label among those of one size |
| `ShardCheck.EveryClassInOneShard` | scripts/ci_shard_labels.py:61-70 | a class is in some shard if and only if it is in the suite, and in one only |
| `ShardCheck.ShardHolds` | scripts/ci_shard_labels.py:61-70 | each shard is sorted and without repetition, and its tests number its load |
| `ShardCheck.ShardIsNearlyOptimal` | scripts/ci_shard_labels.py:61-70 | 3m times the tests of any shard is at most (4m - 1) times those of the heaviest shard of any other split into m |
| `ShardCheck.ShardsAreLevel` | scripts/ci_shard_labels.py:61-70 | two shards differ by at most one largest class; m times a shard is at most the total and m - 1 largest classes |
| `ShardCheck.DiscoveryOrderDoesNotMatter` | scripts/ci_shard_labels.py:11-13 | the split depends on how many tests each class has and on nothing else |
| `ShardCheck.SeenIsTheSuite` | scripts/ci_shard_labels.py:73-80 | with a class for every shard, the shards between them find exactly the suite |
| `ShardCheck.EmptyShardSeesTwice` | scripts/ci_shard_labels.py:48 | with a shard to spare some test is found twice: an empty label list discovers the whole suite |
| `ShardCheck.Check` | scripts/ci_shard_labels.py:73-91 | the check passes if and only if no test id occurs twice and the suite is empty or has at least as many classes as shards |
| `OrgChart.Ancestors` | services/accounts/hierarchy.py:25-33 | the loop ends on any chart and returns the chain of the specification |
| `OrgChart.ChainIsEveryoneAbove` | services/accounts/hierarchy.py:25-33 | on any chart the chain is everyone above but oneself, each once and nearest first |
| `OrgChart.WalkSubtree` | services/accounts/hierarchy.py:54-65 | the frontier loop ends on any chart and returns the subtree of the specification |
| `OrgChart.SubtreeIsEveryoneBelow` | services/accounts/hierarchy.py:54-65 | on any chart the walk finds exactly everyone below but oneself |
| `OrgChart.ChainAndSubtreeAreDual` | services/accounts/hierarchy.py:25-65 | a is in u's chain if and only if u is in a's subtree |
| `OrgChart.ScopeIsMutual` | services/accounts/hierarchy.py:68-78 | one person is in another's scope if and only if the other is in theirs |
| `OrgChart.ScopeIs` | services/accounts/hierarchy.py:68-78 | the scope is oneself, everyone above or below on the chart and everyone of the same organisation and function, and nobody else |
| `OrgChart.RequestUser.SubtreeIds` | services/accounts/hierarchy.py:36-51 | walked once and remembered for the life of a saved user's object |
| `ChartEdits.WouldCycleIsExact` | services/accounts/hierarchy.py:81-87 | on an acyclic chart an edit is refused if and only if it would make a cycle |
| `ChartEdits.StepDoes` | services/accounts/serializers.py:561-571 | an edit or a creation sets one person's manager and no other; a deletion takes the person off and leaves those who reported to them at the top |
| `ChartEdits.ChartStaysAcyclic` | services/accounts/serializers.py:561-571 | the chart stays acyclic over every run of accepted edits, creations and deletions when each edit's check and save are one step |
| `ChartEdits.NobodyIsNew` | services/accounts/serializers.py:342-348 | a person not yet on the chart is above nobody, so creating one needs no check |
| `ChartEdits.ChainReachesTheTop` | services/accounts/hierarchy.py:25-33 | on an acyclic chart a chain stops only at its top |
| `ChartEdits.CheckedTogetherMayCycle` | services/accounts/serializers.py:561-571 | an acyclic chart of two people, each of whom is accepted as the other's manager |
| `ChartEdits.TogetherTheyCycleIff` | services/accounts/serializers.py:561-571 | two edits of different people, each accepted on the same acyclic chart, loop it together if and only if each one's person is the other's new manager or above that manager |
| `ChartEdits.SamePersonIsSafe` | services/accounts/serializers.py:561-571 | two accepted edits of the same person never loop the chart |
| `ChartSaves.OrderlyStaysAcyclic` | services/accounts/serializers.py:561-628 | with check and save as two steps, and edits of other fields writing the manager back as they loaded it, the chart stays acyclic over every run in which no other edit is saved between an edit's check or load and its save; creations and deletions may be |
| `ChartSaves.LoadedManagerReturns` | services/accounts/serializers.py:620-628 | an edit of another field, saved after two accepted edits of managers, can bring back a manager and loop the chart |
| `Grouping.FindHome` | services/anomalies/detect.py:77-81 | the inner loop finds the first group whose seed is close |
| `Grouping.Group` | services/anomalies/detect.py:72-83 | the loops compute the groups of the specification |
| `Grouping.GroupsPartition` | services/anomalies/detect.py:72-83 | the groups between them hold every item exactly once |
| `Grouping.GroupsAreFirstFit` | services/anomalies/detect.py:72-83 | each member is close to its seed and to no earlier group's seed |
| `Grouping.SeedsAreApart` | services/anomalies/detect.py:72-83 | no later seed is close to an earlier one |
| `Grouping.PrefixBegins` | services/anomalies/detect.py:72-83 | each group of a prefix is the beginning of the group in the same place of the whole |
| `Grouping.PrefixLacksTheRest` | services/anomalies/detect.py:72-83 | what grouping the whole adds is what lies past the prefix |
| `Grouping.RemovalIsLocal` | services/anomalies/detect.py:72-83 | taking whole groups out of the input leaves every other group as it was |
| `Grouping.KeptItemsAreTheirs` | services/anomalies/detect.py:72-83 | what is left of the input is exactly the items of the groups that stay |
| `Grouping.Nearest` | services/anomalies/detect.py:86-92 | none if every score is below the threshold, else the last of the greatest |
| `Detection.FileMatched` | services/anomalies/detect.py:320-332 | each report close to an open cluster is filed once, under the nearest; the rest are exactly those close to none |
| `Detection.OpenClusters` | services/anomalies/detect.py:336-377 | a cluster for exactly the unusual groups, in order; a stop leaves those before the group whose naming failed |
| `Detection.UnusualIff` | services/anomalies/detect.py:336-345 | a group is unusual exactly when three of its reports are of three companies and it is at least twice what came before |
| `Detection.FoundAreNews` | services/anomalies/detect.py:336-345 | each report is in at most one new cluster and in none when it was close to an open one; every new cluster is unusual |
| `Campaigns.EditKeepsTheHidden` | services/campaigns/views.py:129-157 | an accepted edit sets the subject, the words and the recipients its editor may see, and touches no other recipient |
| `Campaigns.SendIsRefusedIff` | services/campaigns/views.py:231-242 | the exact condition of every refusal of a send |
| `Campaigns.EditIsRefusedIff` | services/campaigns/views.py:129-157 | the exact condition of every refusal of an edit |
| `Campaigns.Deliver` | services/campaigns/views.py:244-278 | one log line per recipient, in order, and an `Email` row for exactly those logged as sent |
| `Campaigns.CampaignRow.Claim` | services/campaigns/views.py:201-208 | claimed if and only if a complete draft with recipients; otherwise refused with the first reason that applies |
| `Campaigns.CampaignRow.Send` | services/campaigns/views.py:191-229 | a whole send: refused unchanged, or sent with a line for each recipient claimed |
| `Campaigns.CampaignRow.Update` | services/campaigns/views.py:129-157 | refused and unchanged unless a draft and every recipient asked for is available; otherwise the edit |
| `CampaignRuns.StepKeepsInv` | services/campaigns/views.py:129-278 | what every step of a send, an edit, a deletion or a crash keeps: logs, mails and rows agree, and a draft was never sent |
| `CampaignRuns.ClaimedAtMostOnce` | services/campaigns/views.py:196-208 | over every interleaving each campaign is claimed at most once |
| `CampaignRuns.AttemptedAtMostOnce` | services/campaigns/views.py:210-214 | over every interleaving each recipient of a campaign is attempted at most once |
| `CampaignRuns.FinishedLogIsComplete` | services/campaigns/views.py:216-220 | a finished log has one entry per claimed recipient, in order, and calls sent exactly those with an `Email` row |
| `CampaignRuns.CrashedStaysSending` | services/campaigns/views.py:210-214 | a campaign whose send crashed stays as it is, claimed and unfinished |
| `CampaignRuns.SendKeepsItsCampaign` | services/campaigns/views.py:129-208 | in every run, while a send is unfinished its campaign is there and being sent: no deletion, edit or second claim takes effect |
| `Fence.RenameLeavesNoToken` | services/copilot/dashboard_grounding.py:66-75 | no case variant of the fence word is left, across replacement boundaries or inside them |
| `Fence.RenameChangesOnlyTokens` | services/copilot/dashboard_grounding.py:66-75 | renaming keeps the length and every character outside a fence word |
| `Fence.TokenIs` | services/copilot/dashboard_grounding.py:66-76 | the fence word is its fourteen letters, each in any case |
| `Fence.RenameWrites` | services/copilot/dashboard_grounding.py:66-75 | wherever it stood, the hyphenated word stands |
| `Fence.NoTokenNoTag` | services/copilot/dashboard_grounding.py:67-76 | without the word there is no tag, so the second substitution changes nothing |
| `Fence.TagGoes` | services/copilot/dashboard_grounding.py:67-76 | a tag, opening or closing, with the word in any case and spaces or none about it, is taken out whatever stands before and after |
| `Fence.BodyIsNeutral` | services/copilot/dashboard_grounding.py:70-80 | the body of the fence holds no case variant of the word, is as long as the digest, and differs from it only inside the fence words it held |
| `Fence.BodyOfNeutral` | services/copilot/dashboard_grounding.py:70-80 | a digest without the word is passed on unchanged, and neutralising twice is neutralising once |
| `Fence.FenceWordStandsTwice` | services/copilot/dashboard_grounding.py:77-80 | in the fenced section the word stands at two places only |
| `Fence.FenceHasTwoTags` | services/copilot/dashboard_grounding.py:77-80 | the fenced section has exactly one opening tag, at its head, and one closing tag, at its end, in any spelling |
| `Fence.PromptEndsInTwoTags` | services/copilot/dashboard_grounding.py:62-80 | in the whole prompt, from the fenced section on, exactly two tags stand in any spelling, whatever the digest holds |
| `PyNumbers.StrReadsBack` | services/organizations/params.py:71-77 | what `str` writes of an integer, `int_or_none` reads back |
| `PyNumbers.StrIsNoLonger` | services/organizations/params.py:71-77 | what `int_or_none` reads is written in no more characters |
| `PyNumbers.SignedDigitsAreRead` | services/organizations/params.py:71-77 | digits with a sign or none and spaces around them are a number, when there are no more than 4300 |
| `PyNumbers.OthersAreNoNumbers` | services/organizations/params.py:71-77 | another character, a last one that is no digit, or two underscores together are none |
| `FilterLists.CommaListReadsBack` | services/organizations/params.py:80-81 | a list of plain words is read back from its joined form |
| `FilterLists.CommaListOfSpaced` | services/organizations/params.py:80-81 | a list of words with spaces about them and stray commas is read as the words |
| `FilterLists.DedupOfStrs` | services/copilot/accounts_context.py:78-79 | dropping repeated spellings drops exactly the repeated ids |
| `FilterLists.DedupKeepsFirst` | services/copilot/accounts_context.py:78-79 | of a repeated value the first place counts |
| `Filters.CanonicalOf` | services/copilot/accounts_context.py:58-82 | the dict filled key by key is the canonical form of the specification |
| `FilterRoundTrip.ParseIsParsed` | services/accounts_portfolio/params.py:57-97 | every parsed field is one the parser itself would keep |
| `FilterRoundTrip.LimitIs` | services/accounts_portfolio/params.py:57-97 | fifty, or the number given from one on, and at most a hundred |
| `FilterRoundTrip.SortIs` | services/accounts_portfolio/params.py:57-97 | one of five keys, descending or not, or else by falling revenue |
| `FilterRoundTrip.IdsAre` | services/accounts_portfolio/params.py:57-97 | exactly the numbers among the first five hundred parts, and a given list with none is not no list |
| `FilterRoundTrip.ParseReadsCanonical` | services/accounts_portfolio/params.py:57-97 | printing parsed filters and parsing them again gives the same parameters: ids up to duplicates, and cursor, limit and group value aside |
| `CleanFilters.CanonicalIsNoLonger` | services/copilot/accounts_context.py:58-82 | no value grows longer and none appears that was not sent |
| `CleanFilters.CleanFilters` | services/copilot/portfolio_context.py:47-67 | the loop over the keys computes the cleaned filters of the specification |
| `CleanFilters.TakenIff` | services/copilot/portfolio_context.py:47-67 | which keys are taken: sent as text, a whole number or a list of them, of no more than 6000 characters, a search of no more than 100 |
| `CleanFilters.ParseOfClean` | services/copilot/accounts_context.py:85-92 | cleaned filters parse to what the client's filters parsed to |
| `CleanFilters.CleanIsIdempotent` | services/copilot/portfolio_context.py:47-67 | cleaning what was cleaned changes nothing, the explicit empty group included |
| `CleanFilters.PageIsRestored` | services/copilot/portfolio_context.py:70-76 | a page reopened from cleaned filters shows the same parameters, its group the one asked for, none when asked for outright, else the view's own |

## Left out

- HTTP routing, serializers, permissions, audit rows, notifications, throttling and the admin.
- The text of turns, prompts, titles and labels: nothing proved depends on it.
- The digests themselves: what a digest drew on is an arbitrary set; that an Ask grounding's known parts are all its digest drew on without citing it is assumed where a theorem says so.
- SharedReading.EveryRunIsSafe: says nothing of what plain digests put into a plain reply or of cited records, which the code lets through; `Escapes` and `Citations` say exactly when.
- The visibility rules (`visible_customers`, `visible_accounts` and the others): arbitrary sets per reader.
- JSON corner cases of equality in stored snapshots, such as `True == 1` in a company id: values of different JSON kinds are different here.
- Queries batched per reader for speed: each is the set it computes.
- Session presence, events and decision capture; participants matter only through `left_at`.
- SendMessage.Conversation.Post: the model call is an answer or a failure; the routing of questions and the conversation's title and origin are not part of it, and neither is a session closed or handed off between its check and its saves.
- Grants.ClosedStays: each view is one step; `SessionSaves.ClosedForGoodIff` is for views whose saves interleave.
- LegacyHistory.OldConversationIsSoundIff: the code of the versions that stored the old rows is not in the repository; that they folded ids, flags and snapshots by today's rule from the day each was stored is taken from the fields' own descriptions.
- Escapes.PlainMarkReachesIff: not for departments and quoted records, which different readers lack in different ways.
- Handoff.HandOffIsUsableIff: the view is one step; a request that interleaves with it can change its outcome.
- SessionSaves.EveryHolderWasVouchedFor: a database error in the middle of a view (a second session row for one conversation, a user deleted meanwhile) is not modelled; the request goes on.
- Grants.EveryHolderWasLetIn: "present" is `left_at` unset, as in the code; who is online is not modelled.
- Handoff.SessionRows.PostResponse: the join it records beyond the invite's own row is one participant mark.
- Clock order of ledger rows: they are an append sequence, since every write holds the account lock.
- The actor, the audit row and the text of the reason beyond its length on a ledger movement.
- Credits.CallsCostWhatTheyAnswer: call identifiers are assumed fresh, other movements are assumed not to use the `call:` prefix, and the cost is constant over the run.
- Completions.ModelClient.GetCompletion: one call on its own; calls interleaved are the runs of `Credits`.
- Trial and period dates of an account, and its payment identifiers.
- Seats.BillingAccount.ChangePlan: the reference is given; the one made up from the clock when none is given is not modelled.
- SeatTransactions.EnforcedAdmissionFits: one account, each admission of one member; a transaction sees what is committed, and `release` is one atomic update of committed rows.
- SeatTransactions.LastSeatsGoRound: no release, rollback or change of the limit during the rush.
- ShardCheck.Check: discovery is a fixed suite; import failures of discovery end the program and are not modelled.
- Floating-point vectors: closeness is an arbitrary relation and a score an arbitrary real number.
- Detection.OpenClusters: the cluster's title, centroid and dates, and the evidence rows written for it; a nightly pass over many organisations.
- Detection.FileMatched: the `last_seen_at` update of an open cluster.
- ChartEdits.ChartStaysAcyclic: an edit's check and its save are one step here; `ChartSaves` takes them apart.
- OrgChart.RequestUser.SubtreeIds: the copy returned to each caller; sets here are values.
- CampaignRuns.AttemptedAtMostOnce: repairs of a campaign stuck in `sending` from the admin site are not steps.
- CampaignRuns.FinishedLogIsComplete: contacts deleted while a send runs count as a failed delivery.
- Campaigns.CampaignRow.Update: which fields changed, for the audit row, is not kept.
- Fence.PromptEndsInTwoTags: the persona and the tone come from the code and may name the fence; the section after the heading is what is proved about.
- Fence.NoTokenNoTag: `\s` is the set of characters `str.strip` removes.
- PyNumbers.StrReadsBack: decimal digits outside ASCII, which Python's `int` also reads, are not numerals here.
- CleanFilters.CleanFilters: keys other than the known ones are not represented, since they are never looked up.
- The Organizations page's own parser and canonical form, which differ in their keys; paging and sorting of the list.
- Attention scoring, attribute filling, connectors, MFA, embeddings and encryption.
