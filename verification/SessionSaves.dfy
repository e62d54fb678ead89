/** The session views as they run side by side: each checks, then saves its rows one by one, and nothing is locked
    (`services/copilot/views.py`). */
module SessionSaves {
  import opened Orders
  import opened Grants

  /** One row saved. */
  datatype Write =
    | Create
    | SetStatus(status: Status)
    | SetPresent(user: UserId)
    | OpenInvite(target: UserId, inviter: UserId)
    | Answer(user: UserId, accept: bool)

  /** What a request saves once it has passed its check, in the view's order. */
  function Writes(a: Action): seq<Write> {
    match a
    case MakeLive(actor) => [Create, SetStatus(Live), SetPresent(actor)]
    case SendInvite(actor, target, _) => [OpenInvite(target, actor)]
    case HandOff(actor, target, _) =>
      [Create, SetPresent(actor), OpenInvite(target, actor), SetStatus(AwaitingHandoff)]
    case Respond(user, accept) => if accept then [Answer(user, true), SetPresent(user)] else [Answer(user, false)]
    case Close(_) => [SetStatus(Closed)]
    case Leave(_) => []
    case DeleteUser(_) => []
  }

  /** `Create` makes a session only where there is none, and an answer changes only its invite's status. */
  function Written(s: Session, w: Write): Session {
    match w
    case Create => if s.status == NoSession then s.(status := Private) else s
    case SetStatus(status) => s.(status := status)
    case SetPresent(user) => s.(present := s.present[user := true])
    case OpenInvite(target, inviter) => s.(invites := s.invites[target := Invite(Some(inviter), Pending)])
    case Answer(user, accept) =>
      if user !in s.invites then s
      else s.(invites := s.invites[user := s.invites[user].(status := if accept then Accepted else Declined)])
  }

  function AllWritten(s: Session, ws: seq<Write>): Session
    decreases |ws|
  {
    if ws == [] then s else AllWritten(Written(s, ws[0]), ws[1..])
  }

  /** The session, and what each request that passed its check has still to save. */
  datatype State = State(session: Session, left: map<nat, seq<Write>>)

  datatype Move =
    | Check(r: nat, action: Action)  // a view reads, and goes on only if it may
    | Save(r: nat)                   // it saves its next row
    | Other(action: Action)          // somebody leaves, or a user is deleted

  predicate Requested(a: Action) {
    !a.Leave? && !a.DeleteUser?
  }

  predicate Possible(st: State, move: Move) {
    match move
    case Check(r, a) => r !in st.left && Requested(a)
    case Save(r) => r in st.left && st.left[r] != []
    case Other(a) => !Requested(a)
  }

  ghost function Moved(st: State, move: Move): State
    requires Possible(st, move)
  {
    match move
    case Check(r, a) => if Allowed(st.session, a) then st.(left := st.left[r := Writes(a)]) else st
    case Save(r) => State(Written(st.session, st.left[r][0]), st.left[r := st.left[r][1..]])
    case Other(a) => st.(session := Apply(st.session, a))
  }

  /** The states a run goes through: `trace[i]` before move `i`, and the last one after them all. */
  ghost predicate Traces(trace: seq<State>, moves: seq<Move>) {
    && |trace| == |moves| + 1
    && forall i | 0 <= i < |moves| :: Possible(trace[i], moves[i]) && trace[i + 1] == Moved(trace[i], moves[i])
  }

  // ---------------------------------------------------------------- a request that nothing interrupts

  lemma WrittenFirst(s: Session, w: Write, rest: seq<Write>)
    ensures AllWritten(s, [w] + rest) == AllWritten(Written(s, w), rest)
  {
    assert ([w] + rest)[1..] == rest;
  }

  /** A view that passes its check and saves all its rows with nothing between is its step of `Grants.Apply`. */
  lemma UninterruptedIsAtomic(s: Session, a: Action)
    requires Requested(a) && Allowed(s, a)
    ensures AllWritten(s, Writes(a)) == Apply(s, a)
  {
    var ws := Writes(a);
    assert ws == [ws[0]] + ws[1..];
    WrittenFirst(s, ws[0], ws[1..]);
    if |ws| > 1 {
      assert ws[1..] == [ws[1]] + ws[2..];
      WrittenFirst(Written(s, ws[0]), ws[1], ws[2..]);
    }
    if |ws| > 2 {
      var t := Written(Written(s, ws[0]), ws[1]);
      assert ws[2..] == [ws[2]] + ws[3..];
      WrittenFirst(t, ws[2], ws[3..]);
      if |ws| > 3 {
        assert ws[3..] == [ws[3]] + [];
        WrittenFirst(Written(t, ws[2]), ws[3], []);
      }
    }
  }

  lemma SaveNext(st: State, r: nat, w: Write, rest: seq<Write>)
    requires r in st.left && st.left[r] == [w] + rest
    ensures Possible(st, Save(r)) && Moved(st, Save(r)) == State(Written(st.session, w), st.left[r := rest])
  {
    assert st.left[r][1..] == rest;
  }

  /** Some run of `n` moves leads from one state to the other. */
  ghost predicate RunsTo(first: State, n: nat, last: State) {
    exists trace: seq<State>, moves: seq<Move> ::
      Traces(trace, moves) && |moves| == n && trace[0] == first && trace[n] == last
  }

  lemma RunsOneMore(first: State, move: Move, n: nat, last: State)
    requires Possible(first, move) && RunsTo(Moved(first, move), n, last)
    ensures RunsTo(first, n + 1, last)
  {
    var trace: seq<State>, moves: seq<Move> :|
      Traces(trace, moves) && |moves| == n && trace[0] == Moved(first, move) && trace[n] == last;
    var t, m := [first] + trace, [move] + moves;
    forall i | 0 <= i < |m| ensures Possible(t[i], m[i]) && t[i + 1] == Moved(t[i], m[i]) {
      if i > 0 {
        assert t[i] == trace[i - 1] && m[i] == moves[i - 1] && t[i + 1] == trace[i];
      }
    }
    assert Traces(t, m) && t[n + 1] == last;
  }

  lemma NoMove(st: State)
    ensures RunsTo(st, 0, st)
  {
    assert Traces([st], []);
  }

  lemma {:induction false} SavedInFull(s: Session, left: map<nat, seq<Write>>, r: nat, ws: seq<Write>)
    ensures RunsTo(State(s, left[r := ws]), |ws|, State(AllWritten(s, ws), left[r := []]))
    decreases |ws|
  {
    var first := State(s, left[r := ws]);
    if ws == [] {
      NoMove(first);
    } else {
      var w, rest := ws[0], ws[1..];
      assert ws == [w] + rest;
      SaveNext(first, r, w, rest);
      assert first.left[r := rest] == left[r := rest];
      SavedInFull(Written(s, w), left, r, rest);
      RunsOneMore(first, Save(r), |rest|, State(AllWritten(s, ws), left[r := []]));
    }
  }

  /** So there is a run in which the request is that step, whatever the others have still to save. */
  lemma UninterruptedRun(s: Session, left: map<nat, seq<Write>>, r: nat, a: Action)
    requires Requested(a) && Allowed(s, a) && r !in left
    ensures RunsTo(State(s, left), |Writes(a)| + 1, State(Apply(s, a), left[r := []]))
  {
    UninterruptedIsAtomic(s, a);
    SavedInFull(s, left, r, Writes(a));
    RunsOneMore(State(s, left), Check(r, a), |Writes(a)|, State(Apply(s, a), left[r := []]));
  }

  // ---------------------------------------------------------------- what every interleaving keeps

  /** A request that saves `w` passed its check before move `n`. */
  ghost predicate Stems(trace: seq<State>, moves: seq<Move>, n: nat, w: Write)
    requires Traces(trace, moves) && n <= |moves|
  {
    exists i :: 0 <= i < n && StemsAt(trace, moves, i, w)
  }

  ghost predicate StemsAt(trace: seq<State>, moves: seq<Move>, i: nat, w: Write)
    requires i < |moves| < |trace|
  {
    moves[i].Check? && Allowed(trace[i].session, moves[i].action) && w in Writes(moves[i].action)
  }

  /** Everything left to save was checked, and so was everything the invites say. */
  ghost predicate AllStem(trace: seq<State>, moves: seq<Move>, n: nat)
    requires Traces(trace, moves) && n <= |moves|
  {
    var s := trace[n].session;
    && (forall r, w | r in trace[n].left && w in trace[n].left[r] :: Stems(trace, moves, n, w))
    && (forall u | u in s.invites :: InviteStems(trace, moves, n, u, s.invites[u]))
  }

  ghost predicate InviteStems(trace: seq<State>, moves: seq<Move>, n: nat, u: UserId, invite: Invite)
    requires Traces(trace, moves) && n <= |moves|
  {
    && (invite.inviter.Some? ==> Stems(trace, moves, n, OpenInvite(u, invite.inviter.value)))
    && (invite.status == Accepted ==> Stems(trace, moves, n, Answer(u, true)))
  }

  lemma StemsStays(trace: seq<State>, moves: seq<Move>, n: nat, w: Write)
    requires Traces(trace, moves) && n < |moves| && Stems(trace, moves, n, w)
    ensures Stems(trace, moves, n + 1, w)
  {
    var i :| 0 <= i < n && StemsAt(trace, moves, i, w);
    assert 0 <= i < n + 1 && StemsAt(trace, moves, i, w);
  }

  lemma InviteStemsStays(trace: seq<State>, moves: seq<Move>, n: nat, u: UserId, invite: Invite)
    requires Traces(trace, moves) && n < |moves| && InviteStems(trace, moves, n, u, invite)
    ensures InviteStems(trace, moves, n + 1, u, invite)
  {
    if invite.inviter.Some? {
      StemsStays(trace, moves, n, OpenInvite(u, invite.inviter.value));
    }
    if invite.status == Accepted {
      StemsStays(trace, moves, n, Answer(u, true));
    }
  }

  /** What a row saved makes of the invite to `u`. */
  lemma WrittenInvite(s: Session, w: Write, u: UserId)
    requires u in Written(s, w).invites
    ensures var invite := Written(s, w).invites[u];
      || (w.OpenInvite? && w.target == u && invite == Invite(Some(w.inviter), Pending))
      || (u in s.invites && invite == s.invites[u])
      || (u in s.invites && w.Answer? && w.user == u && invite.inviter == s.invites[u].inviter
          && (invite.status == Accepted ==> w.accept))
  {
  }

  lemma SaveStems(trace: seq<State>, moves: seq<Move>, n: nat, u: UserId)
    requires Traces(trace, moves) && n < |moves| && AllStem(trace, moves, n) && moves[n].Save?
    requires u in trace[n + 1].session.invites
    ensures InviteStems(trace, moves, n + 1, u, trace[n + 1].session.invites[u])
  {
    var r := moves[n].r;
    assert Possible(trace[n], moves[n]) && trace[n + 1] == Moved(trace[n], moves[n]);
    var w := trace[n].left[r][0];
    assert w in trace[n].left[r];
    WrittenInvite(trace[n].session, w, u);
    StemsStays(trace, moves, n, w);
    InviteAfterSave(trace, moves, n, u, w, trace[n].session, trace[n + 1].session.invites[u]);
  }

  lemma InviteAfterSave(trace: seq<State>, moves: seq<Move>, n: nat, u: UserId, w: Write, s: Session, invite: Invite)
    requires Traces(trace, moves) && n < |moves| && Stems(trace, moves, n + 1, w)
    requires u in s.invites ==> InviteStems(trace, moves, n, u, s.invites[u])
    requires || (w.OpenInvite? && w.target == u && invite == Invite(Some(w.inviter), Pending))
             || (u in s.invites && invite == s.invites[u])
             || (u in s.invites && w.Answer? && w.user == u && invite.inviter == s.invites[u].inviter
                 && (invite.status == Accepted ==> w.accept))
    ensures InviteStems(trace, moves, n + 1, u, invite)
  {
    if u in s.invites {
      InviteStemsStays(trace, moves, n, u, s.invites[u]);
    }
  }

  lemma OtherStems(trace: seq<State>, moves: seq<Move>, n: nat, u: UserId)
    requires Traces(trace, moves) && n < |moves| && AllStem(trace, moves, n) && moves[n].Other?
    requires u in trace[n + 1].session.invites
    ensures InviteStems(trace, moves, n + 1, u, trace[n + 1].session.invites[u])
  {
    var before, after := trace[n], trace[n + 1];
    assert Possible(before, moves[n]) && after == Moved(before, moves[n]);
    InviteStemsStays(trace, moves, n, u, before.session.invites[u]);
  }

  lemma MoveStems(trace: seq<State>, moves: seq<Move>, n: nat)
    requires Traces(trace, moves) && n < |moves| && AllStem(trace, moves, n)
    ensures AllStem(trace, moves, n + 1)
  {
    var before, after := trace[n], trace[n + 1];
    assert Possible(before, moves[n]) && after == Moved(before, moves[n]);
    forall r, w | r in after.left && w in after.left[r] ensures Stems(trace, moves, n + 1, w) {
      if r in before.left && w in before.left[r] {
        StemsStays(trace, moves, n, w);
      } else {
        assert StemsAt(trace, moves, n, w);
      }
    }
    forall u | u in after.session.invites ensures InviteStems(trace, moves, n + 1, u, after.session.invites[u]) {
      if moves[n].Save? {
        SaveStems(trace, moves, n, u);
      } else if moves[n].Other? {
        OtherStems(trace, moves, n, u);
      } else {
        InviteStemsStays(trace, moves, n, u, before.session.invites[u]);
      }
    }
  }

  lemma {:induction false} EverythingStems(trace: seq<State>, moves: seq<Move>, owner: UserId, n: nat)
    requires Traces(trace, moves) && n <= |moves| && trace[0] == State(Start(owner), map[])
    ensures AllStem(trace, moves, n)
  {
    if n > 0 {
      EverythingStems(trace, moves, owner, n - 1);
      MoveStems(trace, moves, n - 1);
    }
  }

  /** `b`'s invite to `u` passed its check while `b` saw the conversation whole, and `u`'s yes passed its own while an
      invite to `u` was pending and grantable. */
  ghost predicate Vouched(trace: seq<State>, moves: seq<Move>, n: nat, b: UserId, u: UserId)
    requires Traces(trace, moves) && n <= |moves|
  {
    exists i, j :: 0 <= i < n && 0 <= j < n && Vouches(trace, moves, i, b, u) && Answers(trace, moves, j, u)
  }

  ghost predicate Vouches(trace: seq<State>, moves: seq<Move>, i: nat, b: UserId, u: UserId)
    requires i < |moves| < |trace|
  {
    StemsAt(trace, moves, i, OpenInvite(u, b)) && SeesWhole(trace[i].session, b) && b != u
  }

  ghost predicate Answers(trace: seq<State>, moves: seq<Move>, j: nat, u: UserId)
    requires j < |moves| < |trace|
  {
    moves[j].Check? && moves[j].action == Respond(u, true) && Allowed(trace[j].session, Respond(u, true))
  }

  lemma CheckedOpening(trace: seq<State>, moves: seq<Move>, i: nat, b: UserId, u: UserId)
    requires i < |moves| < |trace| && StemsAt(trace, moves, i, OpenInvite(u, b))
    ensures Vouches(trace, moves, i, b, u)
  {
  }

  lemma CheckedAnswer(trace: seq<State>, moves: seq<Move>, j: nat, u: UserId)
    requires j < |moves| < |trace| && StemsAt(trace, moves, j, Answer(u, true))
    ensures Answers(trace, moves, j, u)
  {
  }

  /** However the views interleave, each holder but the owner is at the end of a chain of accepted invites from the
      owner, every link of which was opened and answered by requests that passed their checks. */
  lemma EveryHolderWasVouchedFor(trace: seq<State>, moves: seq<Move>, owner: UserId, n: nat, u: UserId)
    requires Traces(trace, moves) && n <= |moves| && trace[0] == State(Start(owner), map[])
    requires Holder(trace[n].session, u)
    ensures var s := trace[n].session;
      exists p :: Chain(AcceptedEdges(s), s.owner, p, u)
                  && forall k | 0 <= k < |p| - 1 :: Vouched(trace, moves, n, p[k], p[k + 1])
  {
    EverythingStems(trace, moves, owner, n);
    var s := trace[n].session;
    var p :| Chain(AcceptedEdges(s), s.owner, p, u);
    forall k | 0 <= k < |p| - 1 ensures Vouched(trace, moves, n, p[k], p[k + 1]) {
      var b, v := p[k], p[k + 1];
      assert Link(AcceptedEdges(s), b, v);
      assert InviteStems(trace, moves, n, v, s.invites[v]);
      var i :| 0 <= i < n && StemsAt(trace, moves, i, OpenInvite(v, b));
      var j :| 0 <= j < n && StemsAt(trace, moves, j, Answer(v, true));
      CheckedOpening(trace, moves, i, b, v);
      CheckedAnswer(trace, moves, j, v);
    }
  }

  // ---------------------------------------------------------------- a closed session

  /** The next row a request saves makes the session something else than closed. */
  predicate Reopens(st: State, move: Move) {
    && move.Save? && move.r in st.left && st.left[move.r] != []
    && st.left[move.r][0].SetStatus? && st.left[move.r][0].status != Closed
  }

  /** From a point where the session is closed it is closed all along if and only if no request that was checked
      earlier saves another status. */
  lemma {:induction false} ClosedStaysIff(trace: seq<State>, moves: seq<Move>, m: nat, n: nat)
    requires Traces(trace, moves) && m <= n <= |moves| && trace[m].session.status == Closed
    ensures (forall i | m <= i <= n :: trace[i].session.status == Closed)
       <==> forall i | m <= i < n :: !Reopens(trace[i], moves[i])
  {
    if n > m {
      ClosedStaysIff(trace, moves, m, n - 1);
      var before, after := trace[n - 1], trace[n];
      assert Possible(before, moves[n - 1]) && after == Moved(before, moves[n - 1]);
      if before.session.status == Closed {
        assert after.session.status != Closed <==> Reopens(before, moves[n - 1]);
      }
    }
  }

  /** A request that would reopen a closed session was checked before it was closed. */
  predicate NoneReopens(ws: seq<Write>) {
    forall i | 0 <= i < |ws| :: ws[i].SetStatus? ==> ws[i].status == Closed
  }

  lemma CheckedWhileClosed(s: Session, a: Action)
    requires s.status == Closed && Allowed(s, a) && Requested(a)
    ensures NoneReopens(Writes(a))
  {
  }

  /** So when none is left over from before, nothing reopens it. */
  lemma {:induction false} ClosedWithNothingLeftStays(trace: seq<State>, moves: seq<Move>, m: nat, n: nat)
    requires Traces(trace, moves) && m <= n <= |moves| && trace[m].session.status == Closed
    requires forall r | r in trace[m].left :: NoneReopens(trace[m].left[r])
    ensures trace[n].session.status == Closed && forall r | r in trace[n].left :: NoneReopens(trace[n].left[r])
  {
    if n > m {
      ClosedWithNothingLeftStays(trace, moves, m, n - 1);
      var before, move := trace[n - 1], moves[n - 1];
      assert Possible(before, move) && trace[n] == Moved(before, move);
      match move
      case Check(r, a) =>
        if Allowed(before.session, a) {
          CheckedWhileClosed(before.session, a);
        }
      case Save(r) =>
        assert NoneReopens(before.left[r]);
        assert forall i | 0 <= i < |before.left[r][1..]| :: before.left[r][1..][i] == before.left[r][i + 1];
      case Other(a) =>
    }
  }

  /** A request that has a reopening row left can save its rows down to it. */
  lemma {:induction false} RowIsSaved(st: State, r: nat, i: nat) returns (n: nat, last: State)
    requires r in st.left && i < |st.left[r]| && st.left[r][i].SetStatus?
    ensures RunsTo(st, n, last) && last.session.status == st.left[r][i].status
    decreases i
  {
    var w, rest := st.left[r][0], st.left[r][1..];
    assert st.left[r] == [w] + rest;
    SaveNext(st, r, w, rest);
    var next := Moved(st, Save(r));
    if i == 0 {
      n, last := 0, next;
      NoMove(next);
    } else {
      n, last := RowIsSaved(next, r, i - 1);
    }
    RunsOneMore(st, Save(r), n, last);
    n := n + 1;
  }

  /** A closed session is closed for good, whatever comes, if and only if no request that was checked before has a row
      left that makes it something else. */
  lemma ClosedForGoodIff(s: Session, left: map<nat, seq<Write>>)
    requires s.status == Closed
    ensures (forall n: nat, st | RunsTo(State(s, left), n, st) :: st.session.status == Closed)
       <==> forall r | r in left :: NoneReopens(left[r])
  {
    var first := State(s, left);
    if forall r | r in left :: NoneReopens(left[r]) {
      forall n: nat, st | RunsTo(first, n, st) ensures st.session.status == Closed {
        var trace: seq<State>, moves: seq<Move> :|
          Traces(trace, moves) && |moves| == n && trace[0] == first && trace[n] == st;
        ClosedWithNothingLeftStays(trace, moves, 0, n);
      }
    } else {
      var r :| r in left && !NoneReopens(left[r]);
      var i :| 0 <= i < |left[r]| && left[r][i].SetStatus? && left[r][i].status != Closed;
      var n, last := RowIsSaved(first, r, i);
    }
  }

  // ---------------------------------------------------------------- an accept saved late

  lemma AcceptAddsEdge(s: Session, u: UserId)
    requires u in s.invites && s.invites[u].status != Accepted
    ensures AcceptedEdges(Written(s, Answer(u, true))) == AcceptedEdges(s) + {(s.invites[u].inviter, u)}
  {
    var after := Written(s, Answer(u, true));
    forall e ensures e in AcceptedEdges(after) <==> e in AcceptedEdges(s) + {(s.invites[u].inviter, u)} {
      if e in AcceptedEdges(after) {
        assert e.1 == u || (e.1 in s.invites && after.invites[e.1] == s.invites[e.1]);
      }
      if e in AcceptedEdges(s) {
        assert e.1 != u && after.invites[e.1] == s.invites[e.1];
      }
      assert after.invites[u].status == Accepted;
    }
  }

  /** Whoever a chain with one more link reaches, the chain up to that link reached its sender. */
  lemma {:induction false} ChainWithLink(edges: set<Edge>, more: set<Edge>, b: Option<UserId>, u: UserId,
                                         owner: UserId, p: seq<UserId>, x: UserId)
    requires more == edges + {(b, u)} && Chain(more, owner, p, x)
    ensures Reached(edges, owner, x) || (b.Some? && b.value != u && Reached(edges, owner, b.value))
    decreases |p|
  {
    if |p| == 1 {
      OwnerIsReached(edges, owner);
    } else {
      var q, y := p[..|p| - 1], p[|p| - 2];
      assert Chain(more, owner, q, y);
      ChainWithLink(edges, more, b, u, owner, q, y);
      assert Link(more, p[|p| - 2], p[|p| - 1]);
      if Reached(edges, owner, y) {
        if Link(edges, y, x) {
          ReachedExtends(edges, owner, y, x);
        }
      }
    }
  }

  /** However late an accept is saved, it makes its user a holder exactly when the invite's inviter, as the row says
      by then, is one: a hand-off or an answer in between counts. */
  lemma LateAcceptGrantsIff(s: Session, u: UserId)
    requires u in s.invites && s.invites[u].status != Accepted && u != s.owner
    ensures Holder(Written(s, Answer(u, true)), u)
       <==> s.invites[u].inviter.Some? && s.invites[u].inviter.value != u && Holder(s, s.invites[u].inviter.value)
  {
    var after, b := Written(s, Answer(u, true)), s.invites[u].inviter;
    AcceptAddsEdge(s, u);
    if Holder(after, u) {
      var p :| Chain(AcceptedEdges(after), s.owner, p, u);
      ChainWithLink(AcceptedEdges(s), AcceptedEdges(after), b, u, s.owner, p, u);
      if Holder(s, u) {
        HolderAccepted(s, u);
      }
    }
    if b.Some? && b.value != u && Holder(s, b.value) {
      var p :| Chain(AcceptedEdges(s), s.owner, p, b.value);
      assert Chain(AcceptedEdges(after), s.owner, p, b.value) by {
        forall i | 0 <= i < |p| - 1 ensures Link(AcceptedEdges(after), p[i], p[i + 1]) {
          assert Link(AcceptedEdges(s), p[i], p[i + 1]);
        }
      }
      assert Link(AcceptedEdges(after), b.value, u);
      ReachedExtends(AcceptedEdges(after), s.owner, b.value, u);
    }
  }

  // ---------------------------------------------------------------- what does not survive

  /** Any open session can be closed and come back: the owner's other request was checked before the close. */
  lemma CloseCanBeUndone(s: Session)
    requires s.status != NoSession && s.status != Closed
    ensures exists st ::
      RunsTo(State(s, map[]), 4, st) && st.session.status == Closed
      && Possible(st, Save(1)) && Moved(st, Save(1)).session.status == Live
  {
    var rows := [SetStatus(Live), SetPresent(s.owner)];
    assert Writes(MakeLive(s.owner)) == [Create] + rows;
    var first := State(s, map[]);
    var checked := Moved(first, Check(1, MakeLive(s.owner)));
    SaveNext(checked, 1, Create, rows);
    var left := checked.left[1 := rows];
    var closed := State(Apply(s, Close(s.owner)), left[2 := []]);
    UninterruptedRun(s, left, 2, Close(s.owner));
    RunsOneMore(checked, Save(1), 2, closed);
    RunsOneMore(first, Check(1, MakeLive(s.owner)), 3, closed);
  }

  /** An accept can be saved when its inviter holds the conversation no longer: the owner hands off to the inviter
      after the check. By `LateAcceptGrantsIff` it then grants nothing. */
  lemma AcceptCanBeLate(s: Session, u: UserId, b: UserId)
    requires Allowed(s, Respond(u, true)) && s.invites[u].inviter == Some(b) && b != s.owner && u != s.owner
    requires s.status != Closed
    ensures exists st ::
      RunsTo(State(s, map[]), 6, st) && !Holder(st.session, b)
      && Possible(st, Save(1)) && Moved(st, Save(1)).session == Written(st.session, Answer(u, true))
      && AcceptedInvite(Moved(st, Save(1)).session, u) && st.session.invites[u].inviter == Some(b)
      && !Holder(Moved(st, Save(1)).session, u)
  {
    var first, handOff := State(s, map[]), HandOff(s.owner, b, true);
    var checked := Moved(first, Check(1, Respond(u, true)));
    var late := State(Apply(s, handOff), checked.left[2 := []]);
    UninterruptedRun(s, checked.left, 2, handOff);
    RunsOneMore(first, Check(1, Respond(u, true)), 5, late);
    assert late.left[1] == [Answer(u, true)] + [SetPresent(u)];
    SaveNext(late, 1, Answer(u, true), [SetPresent(u)]);
    if Holder(late.session, b) {
      HolderAccepted(late.session, b);
    }
    LateAcceptGrantsIff(late.session, u);
  }
}
