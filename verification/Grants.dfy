/** Who sees a shared conversation whole: the owner, and whoever is reached from the owner along
    accepted invites (`services/copilot/views.py`). */
module Grants {
  import opened Orders

  /** An accepted invite: who sent it (nobody, once deleted) and to whom. */
  type Edge = (Option<UserId>, UserId)

  ghost predicate Link(edges: set<Edge>, a: UserId, b: UserId) {
    (Some(a), b) in edges && a != b
  }

  /** A path of accepted, non-self invites from the owner to `u`. */
  ghost predicate Chain(edges: set<Edge>, owner: UserId, p: seq<UserId>, u: UserId) {
    && p != [] && p[0] == owner && p[|p| - 1] == u
    && forall i | 0 <= i < |p| - 1 :: Link(edges, p[i], p[i + 1])
  }

  ghost predicate Reached(edges: set<Edge>, owner: UserId, u: UserId) {
    exists p :: Chain(edges, owner, p, u)
  }

  lemma OwnerIsReached(edges: set<Edge>, owner: UserId)
    ensures Reached(edges, owner, owner)
  {
    assert Chain(edges, owner, [owner], owner);
  }

  lemma ReachedExtends(edges: set<Edge>, owner: UserId, a: UserId, b: UserId)
    requires Reached(edges, owner, a) && Link(edges, a, b)
    ensures Reached(edges, owner, b)
  {
    var p :| Chain(edges, owner, p, a);
    assert Chain(edges, owner, p + [b], b);
  }

  /** A set holding the owner and closed under the links holds everyone reached. */
  lemma {:induction false} ClosedHoldsChain(edges: set<Edge>, owner: UserId, holders: set<UserId>, p: seq<UserId>,
                                            u: UserId)
    requires owner in holders && forall a, b | a in holders && Link(edges, a, b) :: b in holders
    requires Chain(edges, owner, p, u)
    ensures u in holders
    decreases |p|
  {
    if |p| > 1 {
      var q := p[..|p| - 1];
      assert Chain(edges, owner, q, q[|q| - 1]);
      ClosedHoldsChain(edges, owner, holders, q, q[|q| - 1]);
      assert Link(edges, p[|p| - 2], p[|p| - 1]);
    }
  }

  /** `_holders_from`: it ends, and with exactly the users reached from the owner, whatever the order
      or repetition of the edges. */
  method HoldersFrom(owner: UserId, edges: seq<Edge>) returns (holders: set<UserId>)
    ensures forall u :: u in holders <==> Reached(Elements(edges), owner, u)
  {
    ghost var all := Elements(edges);
    ghost var everyone := {owner} + set e | e in all :: e.1;
    holders := {owner};
    OwnerIsReached(all, owner);
    var grew := true;
    while grew
      invariant owner in holders && holders <= everyone
      invariant forall u | u in holders :: Reached(all, owner, u)
      invariant !grew ==> forall a, b | a in holders && Link(all, a, b) :: b in holders
      decreases everyone - holders, grew
    {
      grew := false;
      ghost var start, newcomer := holders, owner;
      for k := 0 to |edges|
        invariant start <= holders <= everyone
        invariant grew ==> newcomer in holders && newcomer !in start
        invariant !grew ==> holders == start
        invariant forall u | u in holders :: Reached(all, owner, u)
        invariant !grew ==> forall i | 0 <= i < k && edges[i].0.Some? && edges[i].0.value in holders
                                       && edges[i].0.value != edges[i].1 :: edges[i].1 in holders
      {
        var inviter, invitee := edges[k].0, edges[k].1;
        assert edges[k] in all;
        if inviter.Some? && inviter.value in holders && inviter.value != invitee && invitee !in holders {
          ReachedExtends(all, owner, inviter.value, invitee);
          holders := holders + {invitee};
          grew, newcomer := true, invitee;
        }
      }
      if !grew {
        forall a, b | a in holders && Link(all, a, b) ensures b in holders {
          var i :| 0 <= i < |edges| && edges[i] == (Some(a), b);
        }
      } else {
        assert newcomer in everyone - start && newcomer !in everyone - holders;
      }
    }
    forall u | Reached(all, owner, u) ensures u in holders {
      var p :| Chain(all, owner, p, u);
      ClosedHoldsChain(all, owner, holders, p, u);
    }
  }

  // ---------------------------------------------------------------- a session

  datatype Status = NoSession | Private | Live | AwaitingHandoff | Closed
  datatype InviteStatus = Pending | Accepted | Declined
  datatype Invite = Invite(inviter: Option<UserId>, status: InviteStatus)

  /** One conversation's session: at most one invite and one participant row per user. */
  datatype Session = Session(owner: UserId, status: Status, present: map<UserId, bool>, invites: map<UserId, Invite>)

  function AcceptedEdges(s: Session): set<Edge> {
    set u | u in s.invites && s.invites[u].status == Accepted :: (s.invites[u].inviter, u)
  }

  ghost predicate Holder(s: Session, u: UserId) {
    Reached(AcceptedEdges(s), s.owner, u)
  }

  predicate Present(s: Session, u: UserId) {
    u in s.present && s.present[u]
  }

  predicate AcceptedInvite(s: Session, u: UserId) {
    u in s.invites && s.invites[u].status == Accepted
  }

  /** Whether the batched query returns the session for this user at all. */
  predicate Candidate(s: Session, u: UserId) {
    Present(s, u) && AcceptedInvite(s, u)
  }

  /** `sees_whole_conversation`. */
  ghost predicate SeesWhole(s: Session, u: UserId) {
    u == s.owner || (s.status != NoSession && Present(s, u) && Holder(s, u))
  }

  /** A holder other than the owner answered an invite with yes. */
  lemma HolderAccepted(s: Session, u: UserId)
    requires Holder(s, u) && u != s.owner
    ensures AcceptedInvite(s, u) && s.invites[u].inviter.Some? && Holder(s, s.invites[u].inviter.value)
  {
    var p :| Chain(AcceptedEdges(s), s.owner, p, u);
    assert |p| > 1;
    var q := p[..|p| - 1];
    assert Link(AcceptedEdges(s), p[|p| - 2], p[|p| - 1]);
    assert Chain(AcceptedEdges(s), s.owner, q, p[|p| - 2]);
  }

  method EdgesOf(s: Session) returns (edges: seq<Edge>)
    ensures Elements(edges) == AcceptedEdges(s)
  {
    var users := SortedInts(s.invites.Keys);
    edges := [];
    for k := 0 to |users|
      invariant forall e :: e in edges <==>
        exists i :: 0 <= i < k && AcceptedInvite(s, users[i]) && e == (s.invites[users[i]].inviter, users[i])
    {
      assert users[k] in Elements(users);
      if s.invites[users[k]].status == Accepted {
        edges := edges + [(s.invites[users[k]].inviter, users[k])];
      }
    }
    forall e ensures e in Elements(edges) <==> e in AcceptedEdges(s) {
      if e in AcceptedEdges(s) {
        assert e.1 in Elements(users);
        var i :| 0 <= i < |users| && users[i] == e.1;
      }
    }
  }

  method ChecksWhole(s: Session, u: UserId) returns (whole: bool)
    ensures whole == SeesWhole(s, u)
  {
    if u == s.owner {
      return true;
    }
    if s.status == NoSession || !Present(s, u) {
      return false;
    }
    var edges := EdgesOf(s);
    var holders := HoldersFrom(s.owner, edges);
    whole := u in holders;
  }

  // ---------------------------------------------------------------- the batched resolver

  /** A stored session and the conversation it belongs to. */
  datatype Row = Row(conversation: nat, session: Session)

  /** `_conversations_granted_to`: the candidate sessions, then all their accepted invites at once,
      then one closure per candidate. */
  method ConversationsGrantedTo(rows: seq<Row>, user: UserId) returns (granted: set<nat>)
    requires forall i | 0 <= i < |rows| :: rows[i].session.status != NoSession
    ensures forall c :: c in granted <==>
      exists i :: 0 <= i < |rows| && rows[i].conversation == c
                  && Candidate(rows[i].session, user) && Holder(rows[i].session, user)
  {
    var candidates: set<nat> := set i | 0 <= i < |rows| && Candidate(rows[i].session, user);
    granted := {};
    if candidates == {} {
      forall i | 0 <= i < |rows| ensures !Candidate(rows[i].session, user) {
        assert i !in candidates;
      }
      return;
    }
    var edges: map<nat, seq<Edge>> := map[];
    for i := 0 to |rows|
      invariant forall j :: j in edges <==> 0 <= j < i && j in candidates
      invariant forall j | j in edges :: Elements(edges[j]) == AcceptedEdges(rows[j].session)
    {
      if i in candidates {
        var own := EdgesOf(rows[i].session);
        edges := edges[i := own];
      }
    }
    for i := 0 to |rows|
      invariant forall c :: c in granted <==>
        exists j :: 0 <= j < i && j in candidates && rows[j].conversation == c && Holder(rows[j].session, user)
    {
      if i in candidates {
        var holders := HoldersFrom(rows[i].session.owner, edges[i]);
        if user in holders {
          granted := granted + {rows[i].conversation};
        }
      }
    }
  }

  /** The batched answer, with one's own conversations, is what `sees_whole_conversation` says of each. */
  lemma BatchedIsExact(rows: seq<Row>, user: UserId, granted: set<nat>, i: nat)
    requires forall j | 0 <= j < |rows| :: rows[j].session.status != NoSession
    requires forall j, k | 0 <= j < k < |rows| :: rows[j].conversation != rows[k].conversation
    requires forall c :: c in granted <==>
      exists j :: 0 <= j < |rows| && rows[j].conversation == c
                  && Candidate(rows[j].session, user) && Holder(rows[j].session, user)
    requires i < |rows|
    ensures rows[i].session.owner == user || rows[i].conversation in granted <==> SeesWhole(rows[i].session, user)
  {
    var s := rows[i].session;
    if Holder(s, user) && user != s.owner {
      HolderAccepted(s, user);
    }
    if rows[i].conversation in granted {
      var j :| 0 <= j < |rows| && rows[j].conversation == rows[i].conversation
               && Candidate(rows[j].session, user) && Holder(rows[j].session, user);
      assert j == i;
    }
  }

  // ---------------------------------------------------------------- what changes a session

  /** `sameOrganisation` is `_same_org_member`'s answer for the target. `Leave` stands for whatever sets
      `left_at`; `DeleteUser` for the cascades of a deleted account. */
  datatype Action =
    | MakeLive(actor: UserId)
    | SendInvite(actor: UserId, target: UserId, sameOrganisation: bool)
    | HandOff(actor: UserId, target: UserId, sameOrganisation: bool)
    | Respond(user: UserId, accept: bool)
    | Close(actor: UserId)
    | Leave(user: UserId)
    | DeleteUser(user: UserId)

  /** `_invite_is_grantable`. */
  ghost predicate Grantable(s: Session, invite: Invite, invitee: UserId) {
    invite.inviter.Some? && invite.inviter.value != invitee && SeesWhole(s, invite.inviter.value)
  }

  ghost predicate Allowed(s: Session, a: Action) {
    match a
    case MakeLive(actor) => actor == s.owner && s.status != Closed
    case SendInvite(actor, target, same) =>
      actor == s.owner && s.status != NoSession && s.status != Closed && same && target != actor
    case HandOff(actor, target, same) => SeesWhole(s, actor) && s.status != Closed && same && target != actor
    case Respond(user, accept) =>
      user in s.invites && s.invites[user].status == Pending && (accept ==> Grantable(s, s.invites[user], user))
    case Close(actor) => actor == s.owner && s.status != NoSession
    case Leave(user) => user in s.present
    case DeleteUser(user) => user != s.owner
  }

  function WithoutUser(s: Session, user: UserId): Session {
    s.(present := s.present - {user},
       invites := map u | u in s.invites && u != user ::
         if s.invites[u].inviter == Some(user) then s.invites[u].(inviter := None) else s.invites[u])
  }

  function Effect(s: Session, a: Action): Session {
    match a
    case MakeLive(actor) => s.(status := Live, present := s.present[actor := true])
    case SendInvite(actor, target, _) => s.(invites := s.invites[target := Invite(Some(actor), Pending)])
    case HandOff(actor, target, _) =>
      s.(status := AwaitingHandoff, present := s.present[actor := true],
         invites := s.invites[target := Invite(Some(actor), Pending)])
    case Respond(user, accept) =>
      if user !in s.invites then s
      else if accept then
        s.(invites := s.invites[user := s.invites[user].(status := Accepted)], present := s.present[user := true])
      else s.(invites := s.invites[user := s.invites[user].(status := Declined)])
    case Close(_) => s.(status := Closed)
    case Leave(user) => s.(present := s.present[user := false])
    case DeleteUser(user) => WithoutUser(s, user)
  }

  ghost function Apply(s: Session, a: Action): Session {
    if Allowed(s, a) then Effect(s, a) else s
  }

  /** The session after the first `n` actions. */
  ghost function After(s: Session, actions: seq<Action>, n: nat): Session
    requires n <= |actions|
  {
    if n == 0 then s else Apply(After(s, actions, n - 1), actions[n - 1])
  }

  ghost function Start(owner: UserId): Session {
    Session(owner, NoSession, map[], map[])
  }

  // ---------------------------------------------------------------- over every run

  /** At step `i`, `b` sees the conversation whole and opens an invite to `u`. */
  ghost predicate Opened(start: Session, actions: seq<Action>, i: nat, b: UserId, u: UserId)
    requires i < |actions|
  {
    var s, a := After(start, actions, i), actions[i];
    && Allowed(s, a) && SeesWhole(s, b) && b != u
    && ((a.SendInvite? && a.actor == b && a.target == u) || (a.HandOff? && a.actor == b && a.target == u))
  }

  /** At step `j`, `u` says yes to `b`'s invite while `b` is a present holder. */
  ghost predicate Joined(start: Session, actions: seq<Action>, j: nat, b: UserId, u: UserId)
    requires j < |actions|
  {
    var s := After(start, actions, j);
    && actions[j] == Respond(u, true) && Allowed(s, actions[j]) && SeesWhole(s, b) && b != u
    && s.invites[u].inviter == Some(b)
  }

  /** Where each invite of the session came from. */
  ghost predicate Traced(start: Session, actions: seq<Action>, n: nat)
    requires n <= |actions|
  {
    var s := After(start, actions, n);
    && s.owner == start.owner
    && forall u | u in s.invites && s.invites[u].inviter.Some? :: TracedInvite(start, actions, n, s.invites[u], u)
  }

  ghost predicate TracedInvite(start: Session, actions: seq<Action>, n: nat, invite: Invite, u: UserId)
    requires n <= |actions| && invite.inviter.Some?
  {
    var b := invite.inviter.value;
    exists i :: 0 <= i < n && Opened(start, actions, i, b, u)
      && (invite.status == Accepted ==> exists j :: i < j < n && Joined(start, actions, j, b, u))
  }

  lemma TraceStays(start: Session, actions: seq<Action>, n: nat, invite: Invite, u: UserId)
    requires n < |actions| && invite.inviter.Some? && TracedInvite(start, actions, n, invite, u)
    ensures TracedInvite(start, actions, n + 1, invite, u)
  {
  }

  lemma TraceStep(start: Session, actions: seq<Action>, n: nat, u: UserId)
    requires n < |actions| && Traced(start, actions, n)
    requires var s := After(start, actions, n + 1); u in s.invites && s.invites[u].inviter.Some?
    ensures TracedInvite(start, actions, n + 1, After(start, actions, n + 1).invites[u], u)
  {
    var before, after, a := After(start, actions, n), After(start, actions, n + 1), actions[n];
    if u in before.invites && before.invites[u] == after.invites[u] {
      TraceStays(start, actions, n, after.invites[u], u);
    } else if a.Respond? {
      var b := before.invites[u].inviter.value;
      assert TracedInvite(start, actions, n, before.invites[u], u);
      var i :| 0 <= i < n && Opened(start, actions, i, b, u);
      if a.accept {
        assert Joined(start, actions, n, b, u);
      }
      assert Opened(start, actions, i, b, u) && i < n + 1;
    } else {
      assert Opened(start, actions, n, after.invites[u].inviter.value, u);
    }
  }

  lemma {:induction false} EveryInviteIsTraced(owner: UserId, actions: seq<Action>, n: nat)
    requires n <= |actions|
    ensures Traced(Start(owner), actions, n)
  {
    if n > 0 {
      EveryInviteIsTraced(owner, actions, n - 1);
      var s := After(Start(owner), actions, n);
      forall u | u in s.invites && s.invites[u].inviter.Some?
        ensures TracedInvite(Start(owner), actions, n, s.invites[u], u)
      {
        TraceStep(Start(owner), actions, n - 1, u);
      }
    }
  }

  /** `b` opened an invite to `u` while seeing the conversation whole, and `u` accepted it later while
      `b` was a present holder. */
  ghost predicate LetIn(start: Session, actions: seq<Action>, n: nat, b: UserId, u: UserId)
    requires n <= |actions|
  {
    exists i, j :: 0 <= i < j < n && Opened(start, actions, i, b, u) && Joined(start, actions, j, b, u)
  }

  /** Over every run from a conversation with no session, each holder but the owner is at the end of a
      chain from the owner, every link of which was let in by the one before. */
  lemma EveryHolderWasLetIn(owner: UserId, actions: seq<Action>, n: nat, u: UserId)
    requires n <= |actions| && Holder(After(Start(owner), actions, n), u)
    ensures exists p ::
      Chain(AcceptedEdges(After(Start(owner), actions, n)), owner, p, u)
      && (forall k | 0 <= k < |p| - 1 :: LetIn(Start(owner), actions, n, p[k], p[k + 1]))
  {
    EveryInviteIsTraced(owner, actions, n);
    var s := After(Start(owner), actions, n);
    var p :| Chain(AcceptedEdges(s), s.owner, p, u);
    forall k | 0 <= k < |p| - 1 ensures LetIn(Start(owner), actions, n, p[k], p[k + 1]) {
      var b, v := p[k], p[k + 1];
      assert Link(AcceptedEdges(s), b, v);
      assert TracedInvite(Start(owner), actions, n, s.invites[v], v);
    }
  }

  /** A closed session never leaves closed. */
  lemma {:induction false} ClosedStays(s: Session, actions: seq<Action>, m: nat, n: nat)
    requires m <= n <= |actions| && After(s, actions, m).status == Closed
    ensures After(s, actions, n).status == Closed
  {
    if n > m {
      ClosedStays(s, actions, m, n - 1);
    }
  }

  // ---------------------------------------------------------------- who may do what, and what it changes

  /** The session's status changes only so: its owner makes it live or closes it, or somebody who sees the whole
      conversation hands it off while it is not closed. */
  lemma StatusChangesBy(s: Session, a: Action)
    ensures Apply(s, a).status != s.status ==>
      || (a == MakeLive(s.owner) && s.status != Closed && Apply(s, a).status == Live)
      || (a == Close(s.owner) && s.status != NoSession && Apply(s, a).status == Closed)
      || (a.HandOff? && SeesWhole(s, a.actor) && s.status != Closed && Apply(s, a).status == AwaitingHandoff)
    ensures s.status != Closed ==> Apply(s, MakeLive(s.owner)).status == Live
    ensures s.status != NoSession ==> Apply(s, Close(s.owner)).status == Closed
    ensures Apply(s, a).owner == s.owner
  {
  }

  /** A view changes no invite but one: the target's, which becomes a pending invite from whoever asked, or that of
      the invited user, which keeps its inviter and becomes answered. */
  lemma InviteChangesBy(s: Session, a: Action, u: UserId)
    requires !a.DeleteUser?
    ensures var after := Apply(s, a);
      (u in after.invites) != (u in s.invites)
      || (u in s.invites && after.invites[u] != s.invites[u]) ==>
        && u in after.invites
        && ((a.SendInvite? && a.target == u && a.actor == s.owner && a.sameOrganisation && u != a.actor
             && s.status != NoSession && s.status != Closed
             && after.invites[u] == Invite(Some(a.actor), Pending))
            || (a.HandOff? && a.target == u && SeesWhole(s, a.actor) && a.sameOrganisation && u != a.actor
                && s.status != Closed
                && after.invites[u] == Invite(Some(a.actor), Pending))
            || (a.Respond? && a.user == u && u in s.invites && s.invites[u].status == Pending
                && after.invites[u].inviter == s.invites[u].inviter
                && after.invites[u].status != Pending && (after.invites[u].status == Accepted <==> a.accept)))
  {
  }

  /** The owner of an open session may invite anybody else of the organisation, and whoever sees the conversation whole
      may hand it off so while it is not closed: either way the target's invite is pending, from them. */
  lemma MayInvite(s: Session, actor: UserId, target: UserId)
    requires target != actor
    ensures actor == s.owner && s.status in {Private, Live, AwaitingHandoff} ==>
      var after := Apply(s, SendInvite(actor, target, true));
      after == s.(invites := s.invites[target := Invite(Some(actor), Pending)])
    ensures SeesWhole(s, actor) && s.status != Closed ==>
      var after := Apply(s, HandOff(actor, target, true));
      after.invites == s.invites[target := Invite(Some(actor), Pending)] && after.status == AwaitingHandoff
  {
  }

  /** A deleted user's own invite and presence go, the invites they sent lose their inviter, and nothing else of the
      session changes. */
  lemma DeletionDoes(s: Session, u: UserId, v: UserId)
    requires u != s.owner
    ensures var after := Apply(s, DeleteUser(u));
      && u !in after.invites && u !in after.present && after.status == s.status && after.owner == s.owner
      && (v != u ==> (v in after.invites <==> v in s.invites) && (Present(after, v) <==> Present(s, v)))
      && (v != u && v in s.invites ==>
            && after.invites[v].status == s.invites[v].status
            && after.invites[v].inviter == if s.invites[v].inviter == Some(u) then None else s.invites[v].inviter)
  {
  }

  /** Somebody becomes present only by making the session live, handing it off or accepting, and absent only by
      leaving or by being deleted. */
  lemma PresenceChangesBy(s: Session, a: Action, u: UserId)
    ensures Present(Apply(s, a), u) && !Present(s, u) ==>
      || a == MakeLive(u) || (a.HandOff? && a.actor == u) || a == Respond(u, true)
    ensures !Present(Apply(s, a), u) && Present(s, u) ==> a == Leave(u) || a == DeleteUser(u)
    ensures Allowed(s, a) && (a == MakeLive(u) || (a.HandOff? && a.actor == u) || a == Respond(u, true)) ==>
      Present(Apply(s, a), u)
    ensures Allowed(s, Leave(u)) ==> !Present(Apply(s, Leave(u)), u)
  {
  }

  /** Anybody with a pending invite may decline it; who accepts needs an inviter that is somebody else and sees the
      conversation whole. */
  lemma WhoMayAnswer(s: Session, u: UserId)
    ensures Allowed(s, Respond(u, false)) <==> u in s.invites && s.invites[u].status == Pending
    ensures Allowed(s, Respond(u, true))
       <==> && u in s.invites && s.invites[u].status == Pending
            && exists b :: s.invites[u].inviter == Some(b) && b != u && SeesWhole(s, b)
  {
    if Allowed(s, Respond(u, true)) {
      assert SeesWhole(s, s.invites[u].inviter.value);
    }
  }

  // ---------------------------------------------------------------- an answer is final

  /** A no is recorded, with the invite's inviter, and changes nothing else. */
  lemma DeclineAnswers(s: Session, u: UserId)
    requires Allowed(s, Respond(u, false))
    ensures var after := Apply(s, Respond(u, false));
      && after.invites.Keys == s.invites.Keys
      && after.invites[u] == Invite(s.invites[u].inviter, Declined)
      && (forall v | v in s.invites && v != u :: after.invites[v] == s.invites[v])
      && after.status == s.status && after.present == s.present && after.owner == s.owner
  {
  }

  /** A yes is recorded so too, and makes its user present. */
  lemma AcceptAnswers(s: Session, u: UserId)
    requires Allowed(s, Respond(u, true))
    ensures var after := Apply(s, Respond(u, true));
      && after.invites.Keys == s.invites.Keys
      && after.invites[u] == Invite(s.invites[u].inviter, Accepted)
      && (forall v | v in s.invites && v != u :: after.invites[v] == s.invites[v])
      && after.status == s.status && after.owner == s.owner && Present(after, u)
      && (forall v | v != u :: Present(after, v) <==> Present(s, v))
  {
  }

  predicate Invites(a: Action, u: UserId) {
    (a.SendInvite? && a.target == u) || (a.HandOff? && a.target == u)
  }

  lemma {:induction false} NoneOpensAgain(s: Session, actions: seq<Action>, m: nat, n: nat, u: UserId)
    requires m <= n <= |actions| && forall i | m <= i < n :: !Invites(actions[i], u)
    ensures var before, after := After(s, actions, m), After(s, actions, n);
      && after.owner == before.owner
      && (u in after.invites && after.invites[u].status == Pending ==>
            u in before.invites && before.invites[u].status == Pending)
      && ((u in before.invites ==> before.invites[u].status == Declined) ==>
            u in after.invites ==> after.invites[u].status == Declined)
  {
    if n > m {
      NoneOpensAgain(s, actions, m, n - 1, u);
    }
  }

  /** Once answered, either way, an invite is never answered again while nobody invites its user again. */
  lemma AnswerIsFinal(s: Session, actions: seq<Action>, m: nat, n: nat, u: UserId, accept: bool, again: bool)
    requires m < n <= |actions| && actions[m] == Respond(u, accept) && Allowed(After(s, actions, m), actions[m])
    requires forall i | m < i < n :: !Invites(actions[i], u)
    ensures !Allowed(After(s, actions, n), Respond(u, again))
  {
    NoneOpensAgain(s, actions, m + 1, n, u);
    assert After(s, actions, m + 1) == Apply(After(s, actions, m), actions[m]);
  }

  /** And who declined holds nothing for as long. */
  lemma DeclinedHoldsNothing(s: Session, actions: seq<Action>, m: nat, n: nat, u: UserId)
    requires m < n <= |actions| && actions[m] == Respond(u, false) && Allowed(After(s, actions, m), actions[m])
    requires forall i | m < i < n :: !Invites(actions[i], u)
    requires u != After(s, actions, m).owner
    ensures !Holder(After(s, actions, n), u) && !SeesWhole(After(s, actions, n), u)
  {
    NoneOpensAgain(s, actions, m + 1, n, u);
    assert After(s, actions, m + 1) == Apply(After(s, actions, m), actions[m]);
    DeclineAnswers(After(s, actions, m), u);
    if Holder(After(s, actions, n), u) {
      HolderAccepted(After(s, actions, n), u);
    }
  }
}
