/** What a hand-off takes away, and the session views as they save rows (`services/copilot/views.py`). */
module Handoff {
  import opened Orders
  import opened Grants

  // ---------------------------------------------------------------- the one chain behind a holder

  /** A chain that does not come back to the owner. */
  ghost predicate RootChain(s: Session, p: seq<UserId>, u: UserId) {
    Chain(AcceptedEdges(s), s.owner, p, u) && forall i | 0 < i < |p| :: p[i] != s.owner
  }

  lemma {:induction false} HolderHasRootChain(s: Session, p: seq<UserId>, u: UserId)
    requires Chain(AcceptedEdges(s), s.owner, p, u)
    ensures exists q :: RootChain(s, q, u)
    decreases |p|
  {
    if i :| 0 < i < |p| && p[i] == s.owner {
      assert Chain(AcceptedEdges(s), s.owner, p[i..], u);
      HolderHasRootChain(s, p[i..], u);
    } else {
      assert RootChain(s, p, u);
    }
  }

  /** One invite row per user leaves one chain behind each holder. */
  lemma {:induction false} RootChainIsUnique(s: Session, p: seq<UserId>, q: seq<UserId>, u: UserId)
    requires RootChain(s, p, u) && RootChain(s, q, u)
    ensures p == q
    decreases |p|
  {
    if u == s.owner {
      assert |p| == 1 && |q| == 1;
    } else {
      var a, b := |p| - 2, |q| - 2;
      assert Link(AcceptedEdges(s), p[a], p[a + 1]) && Link(AcceptedEdges(s), q[b], q[b + 1]);
      assert s.invites[u].inviter == Some(p[a]) && s.invites[u].inviter == Some(q[b]);
      assert RootChain(s, p[..a + 1], p[a]) && RootChain(s, q[..b + 1], p[a]);
      RootChainIsUnique(s, p[..a + 1], q[..b + 1], p[a]);
      assert p == p[..a + 1] + [u] && q == q[..b + 1] + [u];
    }
  }

  /** `t` is on the chain by which `u` holds a grant: `u` is in `t`'s accepted subtree. */
  ghost predicate OnChain(s: Session, t: UserId, u: UserId) {
    exists p :: RootChain(s, p, u) && t in p
  }

  lemma HandOffEdges(s: Session, actor: UserId, t: UserId)
    requires Allowed(s, HandOff(actor, t, true))
    ensures var after := Apply(s, HandOff(actor, t, true));
      forall a, b :: Link(AcceptedEdges(after), a, b) <==> Link(AcceptedEdges(s), a, b) && b != t
  {
    var after := Apply(s, HandOff(actor, t, true));
    forall a, b
      ensures Link(AcceptedEdges(after), a, b) <==> Link(AcceptedEdges(s), a, b) && b != t
    {
      assert (Some(a), b) in AcceptedEdges(after) <==> AcceptedInvite(after, b) && after.invites[b].inviter == Some(a);
      assert (Some(a), b) in AcceptedEdges(s) <==> AcceptedInvite(s, b) && s.invites[b].inviter == Some(a);
    }
  }

  /** A hand-off to `t` removes from the holders exactly `t`'s accepted subtree; to the owner, nobody. */
  lemma HandOffRemovesSubtree(s: Session, actor: UserId, t: UserId, u: UserId)
    requires Allowed(s, HandOff(actor, t, true))
    ensures Holder(Apply(s, HandOff(actor, t, true)), u) <==> Holder(s, u) && (t == s.owner || !OnChain(s, t, u))
  {
    var after := Apply(s, HandOff(actor, t, true));
    HandOffEdges(s, actor, t);
    if Holder(after, u) {
      var p0 :| Chain(AcceptedEdges(after), after.owner, p0, u);
      HolderHasRootChain(after, p0, u);
      var p :| RootChain(after, p, u);
      assert RootChain(s, p, u);
      forall k | 0 < k < |p| ensures p[k] != t {
        var i := k - 1;
        assert Link(AcceptedEdges(after), p[i], p[i + 1]);
      }
      forall q | RootChain(s, q, u) ensures t == s.owner || t !in q {
        RootChainIsUnique(s, p, q, u);
      }
    }
    if Holder(s, u) && (t == s.owner || !OnChain(s, t, u)) {
      var p0 :| Chain(AcceptedEdges(s), s.owner, p0, u);
      HolderHasRootChain(s, p0, u);
      var p :| RootChain(s, p, u);
      forall k | 0 < k < |p| ensures p[k] != t {
        assert p[k] in p;
      }
      assert Chain(AcceptedEdges(after), after.owner, p, u);
    }
  }

  /** The actor keeps the conversation, and the target can accept, exactly when the target is not on
      the actor's own chain: handing off to one's own inviter locks both out until the owner invites
      again. (The owner, as target, is never locked out and locks nobody out.) */
  lemma HandOffIsUsableIff(s: Session, actor: UserId, t: UserId)
    requires Allowed(s, HandOff(actor, t, true))
    ensures var after := Apply(s, HandOff(actor, t, true));
      && (SeesWhole(after, actor) <==> t == s.owner || !OnChain(s, t, actor))
      && (Allowed(after, Respond(t, true)) <==> t == s.owner || !OnChain(s, t, actor))
  {
    var after := Apply(s, HandOff(actor, t, true));
    HandOffRemovesSubtree(s, actor, t, actor);
    OwnerIsReached(AcceptedEdges(s), s.owner);
    OwnerIsReached(AcceptedEdges(after), s.owner);
  }

  // ---------------------------------------------------------------- the views, saving rows

  /** One conversation's session rows, as the session views change them. Every view either makes its
      step of `Grants.Apply`, or refuses exactly when the step is not allowed and saves nothing. */
  class SessionRows {
    const owner: UserId
    var status: Status
    var present: map<UserId, bool>
    var invites: map<UserId, Invite>

    constructor (owner: UserId)
      ensures State() == Start(owner)
    {
      this.owner := owner;
      status, present, invites := NoSession, map[], map[];
    }

    function State(): Session
      reads this
    {
      Session(owner, status, present, invites)
    }

    /** `SessionView.post`. */
    method PostLive(actor: UserId) returns (ok: bool)
      modifies this
      ensures ok == Allowed(old(State()), MakeLive(actor))
      ensures State() == Apply(old(State()), MakeLive(actor))
    {
      if actor != owner || status == Closed {
        return false;
      }
      status := Live;
      present := present[actor := true];
      ok := true;
    }

    /** `SessionInviteCreateView.post`: the target's one row is created or reset to pending. */
    method PostInvite(actor: UserId, target: UserId, sameOrganisation: bool) returns (ok: bool)
      modifies this
      ensures ok == Allowed(old(State()), SendInvite(actor, target, sameOrganisation))
      ensures State() == Apply(old(State()), SendInvite(actor, target, sameOrganisation))
    {
      if actor != owner || status == NoSession || status == Closed || !sameOrganisation || target == actor {
        return false;
      }
      invites := invites[target := Invite(Some(actor), Pending)];
      ok := true;
    }

    /** `SessionHandoffView.post`. */
    method PostHandoff(actor: UserId, target: UserId, sameOrganisation: bool) returns (ok: bool)
      modifies this
      ensures ok == Allowed(old(State()), HandOff(actor, target, sameOrganisation))
      ensures State() == Apply(old(State()), HandOff(actor, target, sameOrganisation))
    {
      var whole := ChecksWhole(State(), actor);
      if !whole || status == Closed || !sameOrganisation || target == actor {
        return false;
      }
      present := present[actor := true];
      invites := invites[target := Invite(Some(actor), Pending)];
      status := AwaitingHandoff;
      ok := true;
    }

    /** `RespondToInviteView.post`: only a pending invite, and only a grantable one is accepted. */
    method PostResponse(user: UserId, accept: bool) returns (ok: bool)
      modifies this
      ensures ok == Allowed(old(State()), Respond(user, accept))
      ensures State() == Apply(old(State()), Respond(user, accept))
    {
      if user !in invites || invites[user].status != Pending {
        return false;
      }
      if accept {
        var inviter := invites[user].inviter;
        if inviter.None? || inviter.value == user {
          return false;
        }
        var whole := ChecksWhole(State(), inviter.value);
        if !whole {
          return false;
        }
      }
      invites := invites[user := invites[user].(status := if accept then Accepted else Declined)];
      if accept {
        present := present[user := true];
      }
      ok := true;
    }

    /** `SessionCloseView.post`. */
    method PostClose(actor: UserId) returns (ok: bool)
      modifies this
      ensures ok == Allowed(old(State()), Close(actor))
      ensures State() == Apply(old(State()), Close(actor))
    {
      if actor != owner || status == NoSession {
        return false;
      }
      status := Closed;
      ok := true;
    }
  }
}
