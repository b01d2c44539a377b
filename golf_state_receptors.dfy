/**
 * The match reducer: one handler per action type, each applying the action to
 * the match in place and returning the follow-up actions this participant
 * dispatches (only the host dispatches any).
 */
module GolfStateReceptors {
  import opened Wrappers
  import opened GolfState
  import opened GolfFunctions
  import opened GolfAction

  /** Strokes over par after which a player's hole is over. */
  const OverParLimit := 3

  /** The name getBall looks up for a user who is not on the roster. */
  const OffRosterBall := EntityName(BallFamily, -1)

  /** The invariant the replicated document keeps. */
  ghost predicate Consistent(st: MatchState) {
    && Distinct(st.players)
    && 0 <= st.currentHole
    && (st.currentPlayerId.Some? ==> 0 <= PlayerNumber(st.players, st.currentPlayerId.value))
  }

  /** A roster member's ball is never the off-roster name. */
  lemma RosterBallIsNamed(players: seq<Player>, u: UserId)
    requires 0 <= PlayerNumber(players, u)
    ensures BallName(players, u) != OffRosterBall
  {
    if BallName(players, u) == OffRosterBall {
      EntityNameInjective(BallFamily, PlayerNumber(players, u), -1);
    }
  }

  /** Every member of the roster has a player number. */
  lemma MemberHasNumber(players: seq<Player>, p: Player)
    requires p in players
    ensures 0 <= PlayerNumber(players, p.userId)
  {
    var k :| 0 <= k < |players| && players[k] == p;
    assert players[k].userId == p.userId;
  }

  /** Edits that keep every user id in place keep the document consistent. */
  lemma SameIdsKeepConsistent(players: seq<Player>, others: seq<Player>, cur: Option<UserId>, hole: int)
    requires Consistent(MatchState(others, cur, hole))
    requires |players| == |others|
    requires forall i :: 0 <= i < |players| ==> players[i].userId == others[i].userId
    ensures Consistent(MatchState(players, cur, hole))
  {
    if cur.Some? {
      SameIdsSameNumber(players, others, cur.value);
    }
  }

  // ----- ball entities -----

  /** setBallState on the entity a name refers to; an unregistered ball stays unregistered. */
  function SetBallState(balls: map<string, BallState>, name: string, state: BallState): (r: map<string, BallState>)
    ensures r.Keys == balls.Keys
    ensures name in balls ==> r[name] == state
  {
    if name in balls then balls[name := state] else balls
  }

  /** setBallState touches no other ball. */
  lemma SetBallStateOthers(balls: map<string, BallState>, name: string, state: BallState, other: string)
    requires other != name && other in balls
    ensures SetBallState(balls, name, state)[other] == balls[other]
  {
  }

  /** The status of `u`'s ball, if that ball exists. */
  function BallOf(balls: map<string, BallState>, players: seq<Player>, u: UserId): Option<BallState> {
    var name := BallName(players, u);
    if name in balls then Some(balls[name]) else None
  }

  // ----- join -----

  function NewPlayer(u: UserId): Player {
    Player(u, [], 0, false, false, true)
  }

  /** The roster after `u` joins: a known user is marked connected, a new one is appended. */
  function JoinPlayers(players: seq<Player>, u: UserId): (r: seq<Player>)
    ensures PlayerNumber(players, u) == -1 ==> r == players + [Player(u, [], 0, false, false, true)]
    ensures 0 <= PlayerNumber(players, u) ==>
              |r| == |players| &&
              forall i :: 0 <= i < |r| ==> r[i].(isConnected := players[i].isConnected) == players[i]
    ensures forall i :: 0 <= i < |players| && players[i].userId != u ==> r[i] == players[i]
  {
    var n := PlayerNumber(players, u);
    if 0 <= n then players[n := players[n].(isConnected := true)] else players + [NewPlayer(u)]
  }

  /** The current player is on the roster and connected. */
  predicate CurrentConnected(players: seq<Player>, currentPlayerId: Option<UserId>) {
    currentPlayerId.Some? &&
    var e := PlayerEntry(players, currentPlayerId.value);
    e.Some? && e.value.isConnected
  }

  /** The turn holder after `u` joined, given the roster after the join. */
  function JoinCurrent(players: seq<Player>, currentPlayerId: Option<UserId>, u: UserId): (r: Option<UserId>)
    ensures r.Some?
    ensures r != Some(u) ==> r == currentPlayerId && CurrentConnected(players, currentPlayerId)
  {
    if |players| == 0 || !CurrentConnected(players, currentPlayerId) then Some(u) else currentPlayerId
  }

  /** Another user's entry is the same after `u` joins. */
  lemma {:induction false} JoinKeepsOthers(players: seq<Player>, u: UserId, c: UserId)
    requires c != u
    ensures PlayerEntry(JoinPlayers(players, u), c) == PlayerEntry(players, c)
  {
    var r := JoinPlayers(players, u);
    var n := PlayerNumber(players, u);
    if 0 <= n {
      SameIdsSameNumber(r, players, c);
    } else {
      var m, m' := PlayerNumber(players, c), PlayerNumber(r, c);
      assert r[|players|].userId == u;
      if m' != -1 {
        assert m' < |players|;
        assert players[m'].userId == c;
      }
      if m != -1 {
        assert r[m].userId == c;
      }
      assert m == m';
    }
  }

  /** Joining never duplicates a user id, and afterwards the joiner is on the roster and connected. */
  lemma JoinKeepsRosterDistinct(players: seq<Player>, u: UserId)
    requires Distinct(players)
    ensures var r := JoinPlayers(players, u);
            var n := PlayerNumber(r, u);
            Distinct(r) && 0 <= n && r[n].isConnected
  {
    var r := JoinPlayers(players, u);
    var k := PlayerNumber(players, u);
    if 0 <= k {
      SameIdsSameNumber(r, players, u);
    } else {
      assert r[|players|].userId == u;
      assert forall j :: 0 <= j < |players| ==> r[j].userId != u;
    }
  }

  /** After a join the turn passes to the joiner exactly when the turn holder was absent or disconnected. */
  lemma JoinCurrentRule(players: seq<Player>, currentPlayerId: Option<UserId>, u: UserId)
    ensures var r := JoinCurrent(JoinPlayers(players, u), currentPlayerId, u);
            && (r == Some(u) <==> (currentPlayerId == Some(u) || !CurrentConnected(players, currentPlayerId)))
            && (r != Some(u) ==> r == currentPlayerId)
  {
    var joined := JoinPlayers(players, u);
    if currentPlayerId == Some(u) {
      var n := PlayerNumber(joined, u);
      if 0 <= PlayerNumber(players, u) {
        SameIdsSameNumber(joined, players, u);
      } else {
        assert joined[|players|].userId == u;
        assert forall j :: 0 <= j < |players| ==> joined[j].userId != u;
      }
      assert PlayerEntry(joined, u) == Some(joined[n]);
    } else if currentPlayerId.Some? {
      JoinKeepsOthers(players, u, currentPlayerId.value);
    }
  }

  /**
   * The document between the join and the turn rule (the roster after the
   * join, with the turn holder from before it) keeps the document invariant.
   */
  lemma JoinKeepsConsistent(st: MatchState, u: UserId)
    requires Consistent(st)
    ensures Consistent(MatchState(JoinPlayers(st.players, u), st.currentPlayerId, st.currentHole))
  {
    JoinKeepsRosterDistinct(st.players, u);
    if st.currentPlayerId.Some? && st.currentPlayerId.value != u {
      JoinKeepsOthers(st.players, u, st.currentPlayerId.value);
    }
  }

  // ----- playerStroke: the host's counters -----

  /** The host's counters once it has received a stroke: the ball timer restarts, which is what the program intends. */
  function StrokeTimers(t: Timers, isHost: bool): Timers {
    if isHost then Timers(0, t.ballVelocityTimer) else t
  }

  /**
   * The counters after a stroke as the program writes them: the reset is a
   * plain assignment to the store object rather than a call of its setter,
   * so the counter that stop detection reads keeps its value.
   */
  function StrokeTimersAsWritten(t: Timers, isHost: bool): Timers {
    t
  }

  // ----- nextTurn: the finish rule and the rotation -----

  /** A player's hole is over when the ball dropped or the stroke count reached par plus the limit. */
  predicate Finishes(ball: BallState, stroke: int, par: int) {
    ball == InHole || stroke >= par + OverParLimit
  }

  /** Records one net score for player number `n`. */
  function AppendScore(players: seq<Player>, n: int, total: int): (r: seq<Player>)
    requires 0 <= n < |players|
    ensures |r| == |players|
    ensures r[n].scores == players[n].scores + [total]
    ensures r[n].(scores := players[n].scores) == players[n]
    ensures forall i :: 0 <= i < |r| && i != n ==> r[i] == players[i]
  {
    players[n := players[n].(scores := players[n].scores + [total])]
  }

  /** A player may take the turn: not scored past the current hole (at most `hole` scores), and present. */
  predicate Eligible(p: Player, hole: int) {
    |p.scores| <= hole && p.isConnected
  }

  /** The roster in turn order starting at index `i` and wrapping around. */
  function Rotation(players: seq<Player>, i: int): (r: seq<Player>)
    requires 0 <= i <= |players|
    ensures |r| == |players|
  {
    players[i..] + players[..i]
  }

  /** The eligible players of `s`, in order (the program's filter). */
  function Unfinished(s: seq<Player>, hole: int): (r: seq<Player>)
    ensures |r| <= |s|
  {
    if |s| == 0 then []
    else (if Eligible(s[0], hole) then [s[0]] else []) + Unfinished(s[1..], hole)
  }

  /** The filter keeps only eligible members of its input. */
  lemma {:induction false} UnfinishedMembers(s: seq<Player>, hole: int)
    ensures forall p :: p in Unfinished(s, hole) ==> p in s && Eligible(p, hole)
  {
    if |s| > 0 {
      UnfinishedMembers(s[1..], hole);
    }
  }

  /** The filter is empty exactly when its input holds no eligible player. */
  lemma {:induction false} UnfinishedEmptyIff(s: seq<Player>, hole: int)
    ensures (|Unfinished(s, hole)| == 0) <==> (forall p :: p in s ==> !Eligible(p, hole))
  {
    if |s| > 0 {
      UnfinishedEmptyIff(s[1..], hole);
      assert s == [s[0]] + s[1..];
    }
  }

  /** The player the turn passes to, searching from index `i`; None when nobody is eligible. */
  function NextPlayer(players: seq<Player>, i: int, hole: int): (r: Option<Player>)
    requires 0 <= i <= |players|
    ensures r.Some? ==> Eligible(r.value, hole) && r.value.isConnected
  {
    var candidates := Unfinished(Rotation(players, i), hole);
    UnfinishedMembers(Rotation(players, i), hole);
    if |candidates| > 0 then Some(candidates[0]) else None
  }

  /** The player the turn passes to is on the roster. */
  lemma NextPlayerOnRoster(players: seq<Player>, i: int, hole: int)
    requires 0 <= i <= |players|
    ensures var r := NextPlayer(players, i, hole);
            r.Some? ==> r.value in players && 0 <= PlayerNumber(players, r.value.userId)
  {
    var candidates := Unfinished(Rotation(players, i), hole);
    if |candidates| > 0 {
      UnfinishedMembers(Rotation(players, i), hole);
      assert candidates[0] in Rotation(players, i);
      assert forall p :: p in Rotation(players, i) ==> p in players;
      MemberHasNumber(players, candidates[0]);
    }
  }

  /** An index below twice the length wraps around at most once. */
  lemma WrapIndex(a: int, n: int)
    requires 0 <= a < 2 * n
    ensures a % n == if a < n then a else a - n
  {
  }

  /** Position `k` of the rotation from `i` is roster index `(i + k) mod n`. */
  lemma RotationAt(players: seq<Player>, i: int, k: int)
    requires 0 <= i < |players| && 0 <= k < |players|
    ensures Rotation(players, i)[k] == players[(i + k) % |players|]
  {
    var n := |players|;
    var rot := Rotation(players, i);
    WrapIndex(i + k, n);
    if k < n - i {
      assert rot[k] == players[i..][k] == players[i + k];
    } else {
      assert rot[k] == players[..i][k - (n - i)] == players[i + k - n];
    }
  }

  /** The filter's first element is the first eligible element. */
  lemma {:induction false} UnfinishedHead(s: seq<Player>, hole: int, k: int)
    requires 0 <= k < |s| && Eligible(s[k], hole)
    requires forall j :: 0 <= j < k ==> !Eligible(s[j], hole)
    ensures 0 < |Unfinished(s, hole)| && Unfinished(s, hole)[0] == s[k]
  {
    if k > 0 {
      UnfinishedHead(s[1..], hole, k - 1);
    }
  }

  /** The turn passes to the first eligible player of the rotation. */
  lemma NextPlayerIsFirstInRotation(players: seq<Player>, i: int, hole: int, k: int)
    requires 0 <= i <= |players| && 0 <= k < |players|
    requires Eligible(Rotation(players, i)[k], hole)
    requires forall j :: 0 <= j < k ==> !Eligible(Rotation(players, i)[j], hole)
    ensures NextPlayer(players, i, hole) == Some(Rotation(players, i)[k])
  {
    UnfinishedHead(Rotation(players, i), hole, k);
  }

  /** An eligible current player keeps the turn: the search starts at their own index. */
  lemma CurrentKeepsTurn(players: seq<Player>, i: int, hole: int)
    requires 0 <= i < |players| && Eligible(players[i], hole)
    ensures NextPlayer(players, i, hole) == Some(players[i])
  {
    RotationAt(players, i, 0);
    NextPlayerIsFirstInRotation(players, i, hole, 0);
  }

  /** Nobody takes the turn exactly when every player has scored past the current hole or is disconnected. */
  lemma NextPlayerNoneIff(players: seq<Player>, i: int, hole: int)
    requires 0 <= i <= |players|
    ensures NextPlayer(players, i, hole).None? <==>
            forall p :: p in players ==> |p.scores| > hole || !p.isConnected
  {
    UnfinishedEmptyIff(Rotation(players, i), hole);
    assert players == players[..i] + players[i..];
    assert forall p :: p in players ==> p in Rotation(players, i);
  }

  /** What a nextTurn does to the match: the roster, the turn holder, the balls, and what the host dispatches. */
  datatype TurnOutcome = TurnOutcome(players: seq<Player>, currentPlayerId: Option<UserId>,
                                     balls: map<string, BallState>, emitted: seq<Action>)

  /** The turn holder's hole is over once `u`'s ball exists and is in the hole, or the stroke limit is reached. */
  predicate TurnFinished(players: seq<Player>, balls: map<string, BallState>, tees: map<string, Tee>,
                         cur: UserId, hole: int, u: UserId)
    requires 0 <= PlayerNumber(players, cur) && TeeName(hole) in tees
  {
    var ball := BallOf(balls, players, u);
    ball.Some? && Finishes(ball.value, players[PlayerNumber(players, cur)].stroke, CoursePar(tees, hole))
  }

  /** The roster after scoring: the turn holder gains one net score, strokes minus par, if their hole is over. */
  function TurnScored(players: seq<Player>, balls: map<string, BallState>, tees: map<string, Tee>,
                      cur: UserId, hole: int, u: UserId): (r: seq<Player>)
    requires 0 <= PlayerNumber(players, cur) && TeeName(hole) in tees
    ensures |r| == |players|
  {
    var idx := PlayerNumber(players, cur);
    if TurnFinished(players, balls, tees, cur, hole, u)
    then AppendScore(players, idx, players[idx].stroke - CoursePar(tees, hole))
    else players
  }

  /** Scoring touches only the turn holder's scores, and appends exactly the net score when the hole is over. */
  lemma TurnScoredFacts(players: seq<Player>, balls: map<string, BallState>, tees: map<string, Tee>,
                        cur: UserId, hole: int, u: UserId)
    requires 0 <= PlayerNumber(players, cur) && TeeName(hole) in tees
    ensures var r := TurnScored(players, balls, tees, cur, hole, u);
            var idx := PlayerNumber(players, cur);
            && |r| == |players|
            && (forall i :: 0 <= i < |players| && i != idx ==> r[i] == players[i])
            && r[idx].(scores := players[idx].scores) == players[idx]
            && (TurnFinished(players, balls, tees, cur, hole, u) ==>
                  r[idx].scores == players[idx].scores + [players[idx].stroke - CoursePar(tees, hole)])
            && (!TurnFinished(players, balls, tees, cur, hole, u) ==> r[idx].scores == players[idx].scores)
  {
    var idx := PlayerNumber(players, cur);
    if TurnFinished(players, balls, tees, cur, hole, u) {
      var total := players[idx].stroke - CoursePar(tees, hole);
      assert TurnScored(players, balls, tees, cur, hole, u) == AppendScore(players, idx, total);
    }
  }

  /** The balls after a turn: `retiring` (the sender's ball) goes inactive, then the ball of the player taking the turn waits. */
  function TurnBalls(balls: map<string, BallState>, retiring: string, scored: seq<Player>, next: Option<Player>): (r: map<string, BallState>)
    ensures r.Keys == balls.Keys
  {
    var retired := SetBallState(balls, retiring, Inactive);
    if next.None? then retired else SetBallState(retired, BallName(scored, next.value.userId), Waiting)
  }

  /**
   * What the host dispatches after a turn: the course score for `u` if the
   * hole is over for the turn holder, then the next hole if nobody takes the
   * turn, or a reset to the tee for a taker who has not struck yet.
   */
  function TurnDispatch(u: UserId, finished: bool, next: Option<Player>, teePosition: Position, isHost: bool): (r: seq<Action>)
    ensures !isHost ==> r == []
  {
    var shown := if finished then [ShowCourseScore(u, Show(true))] else [];
    var passed := if next.None? then [NextHole]
                  else if next.value.stroke == 0 then [ResetBall(next.value.userId, teePosition, None)]
                  else [];
    if isHost then shown + passed else []
  }

  /** The host's dispatch after a turn holds the course score exactly for a finished hole, and the next hole exactly when nobody takes the turn. */
  lemma TurnDispatchContents(u: UserId, finished: bool, next: Option<Player>, teePosition: Position)
    ensures var r := TurnDispatch(u, finished, next, teePosition, true);
            && (ShowCourseScore(u, Show(true)) in r <==> finished)
            && (NextHole in r <==> next.None?)
            && (next.Some? ==> (ResetBall(next.value.userId, teePosition, None) in r <==> next.value.stroke == 0))
  {
    var shown := if finished then [ShowCourseScore(u, Show(true))] else [];
    var passed := if next.None? then [NextHole]
                  else if next.value.stroke == 0 then [ResetBall(next.value.userId, teePosition, None)]
                  else [];
    assert TurnDispatch(u, finished, next, teePosition, true) == shown + passed;
    assert forall a :: a in shown + passed <==> a in shown || a in passed;
  }

  /**
   * nextTurn with `cur` holding the turn on `hole`, for `u`'s ball: score the
   * turn holder if their hole is over, retire `u`'s ball, then hand the turn to
   * the first eligible player from the turn holder's own index (resetting a
   * fresh player's ball to the tee) or, if there is none, ask for the next hole.
   */
  function NextTurnOutcome(players: seq<Player>, balls: map<string, BallState>, tees: map<string, Tee>,
                           cur: UserId, hole: int, u: UserId, isHost: bool): (r: TurnOutcome)
    requires 0 <= PlayerNumber(players, cur) && TeeName(hole) in tees
    ensures |r.players| == |players|
    ensures r.balls.Keys == balls.Keys
    ensures !isHost ==> r.emitted == []
  {
    var scored := TurnScored(players, balls, tees, cur, hole, u);
    var next := NextPlayer(scored, PlayerNumber(players, cur), hole);
    TurnOutcome(scored,
                if next.None? then Some(cur) else Some(next.value.userId),
                TurnBalls(balls, BallName(players, u), scored, next),
                TurnDispatch(u, TurnFinished(players, balls, tees, cur, hole, u), next, TeePosition(tees, hole), isHost))
  }

  /** NextTurnOutcome field by field, so that each lemma below can reason about the parts it needs. */
  lemma NextTurnParts(players: seq<Player>, balls: map<string, BallState>, tees: map<string, Tee>,
                      cur: UserId, hole: int, u: UserId, isHost: bool)
    requires 0 <= PlayerNumber(players, cur) && TeeName(hole) in tees
    ensures var r := NextTurnOutcome(players, balls, tees, cur, hole, u, isHost);
            var scored := TurnScored(players, balls, tees, cur, hole, u);
            var next := NextPlayer(scored, PlayerNumber(players, cur), hole);
            && r.players == scored
            && r.currentPlayerId == (if next.None? then Some(cur) else Some(next.value.userId))
            && r.balls == TurnBalls(balls, BallName(players, u), scored, next)
            && r.emitted == TurnDispatch(u, TurnFinished(players, balls, tees, cur, hole, u), next, TeePosition(tees, hole), isHost)
  {
  }

  /** A nextTurn keeps the document consistent. */
  lemma NextTurnKeepsConsistent(players: seq<Player>, balls: map<string, BallState>, tees: map<string, Tee>,
                                cur: UserId, hole: int, u: UserId, isHost: bool)
    requires Consistent(MatchState(players, Some(cur), hole)) && TeeName(hole) in tees
    ensures var r := NextTurnOutcome(players, balls, tees, cur, hole, u, isHost);
            Consistent(MatchState(r.players, r.currentPlayerId, hole))
  {
    var r := NextTurnOutcome(players, balls, tees, cur, hole, u, isHost);
    assert forall k :: 0 <= k < |r.players| ==> r.players[k].userId == players[k].userId;
    SameIdsKeepConsistent(r.players, players, Some(cur), hole);
    NextPlayerOnRoster(r.players, PlayerNumber(players, cur), hole);
  }

  /** A finished turn appends exactly one net score, strokes minus par, to the turn holder; nothing else on the roster changes. */
  lemma NextTurnScoring(players: seq<Player>, balls: map<string, BallState>, tees: map<string, Tee>,
                        cur: UserId, hole: int, u: UserId, isHost: bool)
    requires 0 <= PlayerNumber(players, cur) && TeeName(hole) in tees
    ensures var r := NextTurnOutcome(players, balls, tees, cur, hole, u, isHost);
            var idx := PlayerNumber(players, cur);
            && (forall i :: 0 <= i < |players| && i != idx ==> r.players[i] == players[i])
            && r.players[idx].(scores := players[idx].scores) == players[idx]
            && (TurnFinished(players, balls, tees, cur, hole, u) ==>
                  r.players[idx].scores == players[idx].scores + [players[idx].stroke - CoursePar(tees, hole)])
            && (!TurnFinished(players, balls, tees, cur, hole, u) ==> r.players[idx].scores == players[idx].scores)
  {
    NextTurnParts(players, balls, tees, cur, hole, u, isHost);
    TurnScoredFacts(players, balls, tees, cur, hole, u);
  }

  /** The host shows the course score to `u` exactly when the turn finished the hole. */
  lemma NextTurnShowsCourseScore(players: seq<Player>, balls: map<string, BallState>, tees: map<string, Tee>,
                                 cur: UserId, hole: int, u: UserId)
    requires 0 <= PlayerNumber(players, cur) && TeeName(hole) in tees
    ensures var r := NextTurnOutcome(players, balls, tees, cur, hole, u, true);
            ShowCourseScore(u, Show(true)) in r.emitted <==> TurnFinished(players, balls, tees, cur, hole, u)
  {
    NextTurnParts(players, balls, tees, cur, hole, u, true);
    var next := NextPlayer(TurnScored(players, balls, tees, cur, hole, u), PlayerNumber(players, cur), hole);
    TurnDispatchContents(u, TurnFinished(players, balls, tees, cur, hole, u), next, TeePosition(tees, hole));
  }

  /** A turn holder whose hole is not over and who is still connected keeps the turn. */
  lemma NextTurnKeepsEligiblePlayer(players: seq<Player>, balls: map<string, BallState>, tees: map<string, Tee>,
                                    cur: UserId, hole: int, u: UserId, isHost: bool)
    requires 0 <= PlayerNumber(players, cur) && TeeName(hole) in tees
    requires !TurnFinished(players, balls, tees, cur, hole, u)
    requires Eligible(players[PlayerNumber(players, cur)], hole)
    ensures var r := NextTurnOutcome(players, balls, tees, cur, hole, u, isHost);
            r.currentPlayerId == Some(cur) && NextHole !in r.emitted
  {
    var idx := PlayerNumber(players, cur);
    NextTurnParts(players, balls, tees, cur, hole, u, isHost);
    var scored := TurnScored(players, balls, tees, cur, hole, u);
    TurnScoredFacts(players, balls, tees, cur, hole, u);
    assert scored == players;
    CurrentKeepsTurn(players, idx, hole);
    if isHost {
      TurnDispatchContents(u, false, NextPlayer(players, idx, hole), TeePosition(tees, hole));
    }
  }

  /** The host asks for the next hole, and the turn stays put, exactly when every connected player has scored past the current hole. */
  lemma NextTurnHoleOverIff(players: seq<Player>, balls: map<string, BallState>, tees: map<string, Tee>,
                            cur: UserId, hole: int, u: UserId)
    requires 0 <= PlayerNumber(players, cur) && TeeName(hole) in tees
    ensures var r := NextTurnOutcome(players, balls, tees, cur, hole, u, true);
            && (NextHole in r.emitted <==> forall p :: p in r.players ==> |p.scores| > hole || !p.isConnected)
            && (NextHole in r.emitted ==> r.currentPlayerId == Some(cur) && r.balls == SetBallState(balls, BallName(players, u), Inactive))
  {
    NextTurnParts(players, balls, tees, cur, hole, u, true);
    var scored := TurnScored(players, balls, tees, cur, hole, u);
    var next := NextPlayer(scored, PlayerNumber(players, cur), hole);
    TurnDispatchContents(u, TurnFinished(players, balls, tees, cur, hole, u), next, TeePosition(tees, hole));
    NextPlayerNoneIff(scored, PlayerNumber(players, cur), hole);
  }

  /**
   * Otherwise the turn goes to the first eligible player in rotation order
   * from the turn holder's index, whose ball is set waiting, and a player who
   * has not struck yet on this hole has the ball reset to the tee.
   */
  lemma NextTurnPassesToFirstEligible(players: seq<Player>, balls: map<string, BallState>, tees: map<string, Tee>,
                                      cur: UserId, hole: int, u: UserId, isHost: bool, k: int)
    requires 0 <= PlayerNumber(players, cur) && TeeName(hole) in tees
    requires var scored := NextTurnOutcome(players, balls, tees, cur, hole, u, isHost).players;
             var rot := Rotation(scored, PlayerNumber(players, cur));
             && 0 <= k < |rot| && Eligible(rot[k], hole)
             && forall j :: 0 <= j < k ==> !Eligible(rot[j], hole)
    ensures var r := NextTurnOutcome(players, balls, tees, cur, hole, u, isHost);
            var v := Rotation(r.players, PlayerNumber(players, cur))[k];
            var name := BallName(r.players, v.userId);
            && r.currentPlayerId == Some(v.userId)
            && (name in balls ==> r.balls[name] == Waiting)
            && (isHost ==> (ResetBall(v.userId, TeePosition(tees, hole), None) in r.emitted <==> v.stroke == 0))
            && NextHole !in r.emitted
  {
    NextTurnParts(players, balls, tees, cur, hole, u, isHost);
    var scored := TurnScored(players, balls, tees, cur, hole, u);
    var next := NextPlayer(scored, PlayerNumber(players, cur), hole);
    NextPlayerIsFirstInRotation(scored, PlayerNumber(players, cur), hole, k);
    TurnDispatchContents(u, TurnFinished(players, balls, tees, cur, hole, u), next, TeePosition(tees, hole));
  }

  /** `u`'s ball is retired unless it is the ball of the player taking the turn. */
  lemma NextTurnRetiresBall(players: seq<Player>, balls: map<string, BallState>, tees: map<string, Tee>,
                            cur: UserId, hole: int, u: UserId, isHost: bool)
    requires 0 <= PlayerNumber(players, cur) && TeeName(hole) in tees
    requires BallName(players, u) in balls
    ensures var r := NextTurnOutcome(players, balls, tees, cur, hole, u, isHost);
            r.currentPlayerId.Some? && r.balls[BallName(players, u)] != Inactive ==>
              r.balls[BallName(players, u)] == Waiting && BallName(players, u) == BallName(r.players, r.currentPlayerId.value)
  {
  }

  /**
   * Once `u`'s ball is gone (the engine removes a departed user's ball), a
   * nextTurn scores nobody and shows no course score.
   */
  lemma NextTurnWithoutBall(players: seq<Player>, balls: map<string, BallState>, tees: map<string, Tee>,
                            cur: UserId, hole: int, u: UserId, isHost: bool)
    requires 0 <= PlayerNumber(players, cur) && TeeName(hole) in tees
    requires BallName(players, u) !in balls
    ensures var r := NextTurnOutcome(players, balls, tees, cur, hole, u, isHost);
            r.players == players && ShowCourseScore(u, Show(true)) !in r.emitted
  {
    NextTurnParts(players, balls, tees, cur, hole, u, isHost);
    assert !TurnFinished(players, balls, tees, cur, hole, u);
    var next := NextPlayer(players, PlayerNumber(players, cur), hole);
    if isHost {
      TurnDispatchContents(u, false, next, TeePosition(tees, hole));
    }
  }

  // ----- nextHole -----

  /** JavaScript's remainder, which truncates toward zero. */
  function JsRemainder(a: int, b: int): int
    requires b > 0
  {
    if a >= 0 then a % b else -((-a) % b)
  }

  /** `(currentHole + 1) % holeCount`: the hole after `h`, wrapping to 0 after the last. */
  function NextHoleNumber(h: int, holeCount: int): (r: int)
    requires holeCount > 0
    ensures 0 <= h ==> 0 <= r < holeCount && r == (h + 1) % holeCount
    ensures 0 <= h && h + 1 < holeCount ==> r == h + 1
    ensures h + 1 == holeCount ==> r == 0
  {
    JsRemainder(h + 1, holeCount)
  }

  /** The roster at the start of a hole: strokes reset, scores cleared when a new round starts. */
  function NextHolePlayers(players: seq<Player>, newRound: bool): (r: seq<Player>)
    ensures |r| == |players|
  {
    seq(|players|, i requires 0 <= i < |players| =>
      players[i].(scores := if newRound then [] else players[i].scores, stroke := 0))
  }

  /** The two loops of nextHole over the roster: clear every player's scores on a new round, then zero every stroke. */
  method ResetRoster(players: seq<Player>, newRound: bool) returns (ps: seq<Player>)
    ensures ps == NextHolePlayers(players, newRound)
  {
    ps := players;
    if newRound {
      var i := 0;
      while i < |ps|
        invariant 0 <= i <= |ps| == |players|
        invariant forall j :: 0 <= j < i ==> ps[j] == players[j].(scores := [])
        invariant forall j :: i <= j < |ps| ==> ps[j] == players[j]
      {
        ps := ps[i := ps[i].(scores := [])];
        i := i + 1;
      }
    }
    var i := 0;
    while i < |ps|
      invariant 0 <= i <= |ps| == |players|
      invariant forall j :: 0 <= j < i ==> ps[j] == NextHolePlayers(players, newRound)[j]
      invariant forall j :: i <= j < |ps| ==>
                  ps[j] == players[j].(scores := if newRound then [] else players[j].scores)
    {
      ps := ps[i := ps[i].(stroke := 0)];
      i := i + 1;
    }
  }

  /** A hole change keeps every entry, id, connection and player number, zeroes strokes, and clears scores only for a new round. */
  lemma NextHoleKeepsRoster(players: seq<Player>, newRound: bool, u: UserId)
    ensures var r := NextHolePlayers(players, newRound);
            && (forall i :: 0 <= i < |r| ==>
                  && r[i].userId == players[i].userId
                  && r[i].isConnected == players[i].isConnected
                  && r[i].viewingScorecard == players[i].viewingScorecard
                  && r[i].viewingCourseScore == players[i].viewingCourseScore
                  && r[i].stroke == 0
                  && r[i].scores == (if newRound then [] else players[i].scores))
            && PlayerNumber(r, u) == PlayerNumber(players, u)
            && (Distinct(players) ==> Distinct(r))
  {
    SameIdsSameNumber(NextHolePlayers(players, newRound), players, u);
  }

  // ----- scorecard and course-score views -----

  /** The tri-state update: an explicit boolean sets the flag, 'toggle' inverts it. */
  function ViewAfter(v: ViewValue, current: bool): (r: bool)
    ensures v.Show? ==> r == v.on
    ensures v.Toggle? ==> r != current
  {
    match v
    case Show(b) => b
    case Toggle => !current
  }

  /** The roster after `u`'s scorecard flag is updated; an unknown user changes nothing. */
  function SetScorecard(players: seq<Player>, u: UserId, v: ViewValue): (r: seq<Player>)
    ensures |r| == |players|
    ensures PlayerNumber(players, u) == -1 ==> r == players
    ensures forall i :: 0 <= i < |r| && players[i].userId != u ==> r[i] == players[i]
    ensures var n := PlayerNumber(players, u);
            0 <= n ==> r[n].viewingScorecard == ViewAfter(v, players[n].viewingScorecard) &&
                       r[n].(viewingScorecard := players[n].viewingScorecard) == players[n]
  {
    var n := PlayerNumber(players, u);
    if 0 <= n then players[n := players[n].(viewingScorecard := ViewAfter(v, players[n].viewingScorecard))]
    else players
  }

  /** The roster after `u`'s course-score flag is updated; an unknown user changes nothing. */
  function SetCourseScore(players: seq<Player>, u: UserId, v: ViewValue): (r: seq<Player>)
    ensures |r| == |players|
    ensures PlayerNumber(players, u) == -1 ==> r == players
    ensures forall i :: 0 <= i < |r| && players[i].userId != u ==> r[i] == players[i]
    ensures var n := PlayerNumber(players, u);
            0 <= n ==> r[n].viewingCourseScore == ViewAfter(v, players[n].viewingCourseScore) &&
                       r[n].(viewingCourseScore := players[n].viewingCourseScore) == players[n]
  {
    var n := PlayerNumber(players, u);
    if 0 <= n then players[n := players[n].(viewingCourseScore := ViewAfter(v, players[n].viewingCourseScore))]
    else players
  }

  /** Showing the scorecard and then toggling it twice leaves it shown, then hidden, then shown. */
  lemma {:induction false} ScorecardTriState(players: seq<Player>, u: UserId)
    requires 0 <= PlayerNumber(players, u)
    ensures var n := PlayerNumber(players, u);
            var shown := SetScorecard(players, u, Show(true));
            var hidden := SetScorecard(shown, u, Toggle);
            var again := SetScorecard(hidden, u, Toggle);
            && PlayerNumber(shown, u) == n && shown[n].viewingScorecard
            && PlayerNumber(hidden, u) == n && !hidden[n].viewingScorecard
            && PlayerNumber(again, u) == n && again[n].viewingScorecard
            && again == shown
  {
    var shown := SetScorecard(players, u, Show(true));
    var hidden := SetScorecard(shown, u, Toggle);
    var again := SetScorecard(hidden, u, Toggle);
    SameIdsSameNumber(shown, players, u);
    SameIdsSameNumber(hidden, shown, u);
    SameIdsSameNumber(again, hidden, u);
    var n := PlayerNumber(players, u);
    assert again[n] == shown[n];
  }

  // ----- playerLeave -----

  /** The roster after `u` leaves: the entry stays and is marked disconnected. */
  function LeavePlayers(players: seq<Player>, u: UserId): (r: seq<Player>)
    ensures |r| == |players|
    ensures forall i :: 0 <= i < |r| ==> r[i].(isConnected := players[i].isConnected) == players[i]
    ensures forall i :: 0 <= i < |r| && players[i].userId != u ==> r[i] == players[i]
    ensures var n := PlayerNumber(players, u); 0 <= n ==> !r[n].isConnected
  {
    var n := PlayerNumber(players, u);
    if 0 <= n then players[n := players[n].(isConnected := false)] else players
  }

  /** Leaving and rejoining restores a connected player's entry exactly: scores and stroke survive. */
  lemma LeaveThenRejoinRestores(players: seq<Player>, u: UserId)
    requires 0 <= PlayerNumber(players, u) && players[PlayerNumber(players, u)].isConnected
    ensures JoinPlayers(LeavePlayers(players, u), u) == players
  {
    var left := LeavePlayers(players, u);
    SameIdsSameNumber(left, players, u);
    var n := PlayerNumber(players, u);
    assert JoinPlayers(left, u) == left[n := left[n].(isConnected := true)];
  }

  /** join, leave, join yields the roster of the first join: one entry, connected, history kept. */
  lemma JoinLeaveJoin(players: seq<Player>, u: UserId)
    requires Distinct(players)
    ensures JoinPlayers(LeavePlayers(JoinPlayers(players, u), u), u) == JoinPlayers(players, u)
  {
    JoinKeepsRosterDistinct(players, u);
    LeaveThenRejoinRestores(JoinPlayers(players, u), u);
  }

  // ----- the match -----

  /** The actions whose handlers may replace the document or hand the turn on. */
  predicate ChangesTurn(a: Action) {
    a.SendState? || a.SpawnAvatar? || a.NextTurn? || a.NextHole? || a.PlayerLeave?
  }

  /**
   * One participant's view of the match: the replicated document, the status
   * of the ball entities it knows, the host-only stop-detection counters, the
   * pars read from the tees so far, and the level's tee entities.
   */
  class Match {
    var players: seq<Player>
    var currentPlayerId: Option<UserId>
    var currentHole: int
    var balls: map<string, BallState>
    var ballTimer: nat
    var ballVelocityTimer: nat
    var golfHolePars: seq<int>
    const tees: map<string, Tee>

    function Doc(): MatchState
      reads this
    {
      MatchState(players, currentPlayerId, currentHole)
    }

    function Counters(): Timers
      reads this
    {
      Timers(ballTimer, ballVelocityTimer)
    }

    ghost predicate Valid()
      reads this
    {
      Consistent(Doc()) && OffRosterBall !in balls
    }

    predicate HasTee(h: int)
      reads this
    {
      TeeName(h) in tees
    }

    constructor (tees: map<string, Tee>)
      ensures Valid()
      ensures Doc() == InitialState() && balls == map[]
      ensures ballTimer == 0 && ballVelocityTimer == 0 && golfHolePars == []
      ensures this.tees == tees
    {
      this.tees := tees;
      players := [];
      currentPlayerId := None;
      currentHole := InitialHole;
      balls := map[];
      ballTimer := 0;
      ballVelocityTimer := 0;
      golfHolePars := [];
    }

    /** sendState: the snapshot replaces the document. */
    method ReceptorSendState(st: MatchState)
      requires Valid() && Consistent(st)
      modifies this`players, this`currentPlayerId, this`currentHole
      ensures Valid() && Doc() == st
    {
      players, currentPlayerId, currentHole := st.players, st.currentPlayerId, st.currentHole;
    }

    /**
     * spawnAvatar: join or rejoin, then hand the turn to the joiner if the
     * turn holder is absent, disconnected or the joiner. The snapshot the host
     * sends is the live document, which the turn rule writes into before the
     * action leaves, so it carries the document after the turn rule.
     */
    method ReceptorSpawnAvatar(u: UserId, isHost: bool) returns (emitted: seq<Action>)
      requires Valid()
      modifies this`players, this`currentPlayerId
      ensures Valid()
      ensures players == JoinPlayers(old(players), u)
      ensures currentPlayerId == JoinCurrent(players, old(currentPlayerId), u)
      ensures Consistent(MatchState(players, old(currentPlayerId), currentHole))
      ensures emitted == if isHost then [SendState(MatchState(players, currentPlayerId, currentHole), u),
                                         SpawnBall(u), SpawnClub(u)]
                         else []
    {
      JoinKeepsRosterDistinct(players, u);
      JoinKeepsConsistent(Doc(), u);
      var n := PlayerNumber(players, u);
      if 0 <= n {
        players := players[n := players[n].(isConnected := true)];
      } else {
        players := players + [NewPlayer(u)];
      }
      var current := if currentPlayerId.Some? then PlayerEntry(players, currentPlayerId.value) else None;
      if |players| == 0 || current.None? || !current.value.isConnected {
        currentPlayerId := Some(u);
      }
      emitted := [];
      if isHost {
        emitted := [SendState(Doc(), u), SpawnBall(u), SpawnClub(u)];
      }
    }

    /** playerStroke from `from`: one more stroke, the ball is moving, the host restarts its ball timer. */
    method ReceptorPlayerStroke(from: UserId, isHost: bool)
      requires Valid() && 0 <= PlayerNumber(players, from)
      modifies this`players, this`balls, this`ballTimer
      ensures Valid()
      ensures var n := PlayerNumber(old(players), from);
              players == old(players)[n := old(players)[n].(stroke := old(players)[n].stroke + 1)]
      ensures balls == SetBallState(old(balls), BallName(old(players), from), Moving)
      ensures Counters() == StrokeTimers(old(Counters()), isHost)
    {
      var n := PlayerNumber(players, from);
      balls := SetBallState(balls, BallName(players, from), Moving);
      players := players[n := players[n].(stroke := players[n].stroke + 1)];
      SameIdsKeepConsistent(players, old(players), currentPlayerId, currentHole);
      if isHost {
        ballTimer := 0;
      }
    }

    /** spawnBall: the ball waits if its owner holds the turn, and is inactive otherwise. */
    method ReceptorSpawnBall(u: UserId)
      requires Valid()
      modifies this`balls
      ensures Valid()
      ensures balls == if 0 <= PlayerNumber(players, u)
                       then old(balls)[BallName(players, u) := if IsCurrentGolfPlayer(currentPlayerId, u) then Waiting else Inactive]
                       else old(balls)
    {
      if 0 <= PlayerNumber(players, u) {
        RosterBallIsNamed(players, u);
        balls := balls[BallName(players, u) := if IsCurrentGolfPlayer(currentPlayerId, u) then Waiting else Inactive];
      }
    }

    /** ballStopped: the ball is in the hole or stopped, and the host passes the turn on. */
    method ReceptorBallStopped(u: UserId, inHole: bool, isHost: bool) returns (emitted: seq<Action>)
      requires Valid()
      modifies this`balls
      ensures Valid()
      ensures balls == SetBallState(old(balls), BallName(players, u), if inHole then InHole else Stopped)
      ensures emitted == if isHost then [NextTurn(u)] else []
    {
      balls := SetBallState(balls, BallName(players, u), if inHole then InHole else Stopped);
      emitted := if isHost then [NextTurn(u)] else [];
    }

    /** nextTurn for `u`'s ball: the match takes the outcome NextTurnOutcome describes. */
    method ReceptorNextTurn(u: UserId, isHost: bool) returns (emitted: seq<Action>)
      requires Valid() && currentPlayerId.Some? && HasTee(currentHole)
      modifies this`players, this`currentPlayerId, this`balls
      ensures Valid()
      ensures var r := NextTurnOutcome(old(players), old(balls), tees, old(currentPlayerId).value, currentHole, u, isHost);
              players == r.players && currentPlayerId == r.currentPlayerId && balls == r.balls && emitted == r.emitted
    {
      var r := NextTurnOutcome(players, balls, tees, currentPlayerId.value, currentHole, u, isHost);
      NextTurnKeepsConsistent(players, balls, tees, currentPlayerId.value, currentHole, u, isHost);
      players, currentPlayerId, balls := r.players, r.currentPlayerId, r.balls;
      emitted := r.emitted;
    }

    /**
     * nextHole: advance the hole modulo the number of tees read, clear the
     * scores when that wraps to 0, zero every stroke and give the turn to the
     * first player in join order.
     */
    method ReceptorNextHole(isHost: bool) returns (emitted: seq<Action>)
      requires Valid() && 0 < |golfHolePars| && 0 < |players|
      requires HasTee(NextHoleNumber(currentHole, |golfHolePars|))
      modifies this`players, this`currentPlayerId, this`currentHole
      ensures Valid()
      ensures currentHole == NextHoleNumber(old(currentHole), |golfHolePars|)
      ensures players == NextHolePlayers(old(players), currentHole == 0)
      ensures currentPlayerId == Some(old(players)[0].userId)
      ensures emitted == if isHost then [ResetBall(old(players)[0].userId, TeePosition(tees, currentHole), None)]
                         else []
    {
      var hole := NextHoleNumber(currentHole, |golfHolePars|);
      var ps := ResetRoster(players, hole == 0);
      NextHoleKeepsRoster(players, hole == 0, players[0].userId);
      var first := ps[0].userId;
      MemberHasNumber(ps, ps[0]);
      players, currentPlayerId, currentHole := ps, Some(first), hole;
      emitted := if isHost then [ResetBall(first, TeePosition(tees, hole), None)] else [];
    }

    /** resetBall: an existing ball goes back to waiting; a missing one is ignored. */
    method ReceptorResetBall(u: UserId)
      requires Valid()
      modifies this`balls
      ensures Valid()
      ensures balls == SetBallState(old(balls), BallName(players, u), Waiting)
    {
      balls := SetBallState(balls, BallName(players, u), Waiting);
    }

    /** lookAtScorecard */
    method ReceptorLookAtScoreboard(u: UserId, v: ViewValue)
      requires Valid()
      modifies this`players
      ensures Valid()
      ensures players == SetScorecard(old(players), u, v)
    {
      var n := PlayerNumber(players, u);
      if 0 <= n {
        players := players[n := players[n].(viewingScorecard := ViewAfter(v, players[n].viewingScorecard))];
        SameIdsKeepConsistent(players, old(players), currentPlayerId, currentHole);
      }
    }

    /** showCourseScore */
    method ReceptorShowCourseScore(u: UserId, v: ViewValue)
      requires Valid()
      modifies this`players
      ensures Valid()
      ensures players == SetCourseScore(old(players), u, v)
    {
      var n := PlayerNumber(players, u);
      if 0 <= n {
        players := players[n := players[n].(viewingCourseScore := ViewAfter(v, players[n].viewingCourseScore))];
        SameIdsKeepConsistent(players, old(players), currentPlayerId, currentHole);
      }
    }

    /** playerLeave: mark the player disconnected; if they held the turn, the host resets their ball and passes the turn on. */
    method ReceptorPlayerLeave(u: UserId, isHost: bool) returns (emitted: seq<Action>)
      requires Valid()
      requires isHost && IsCurrentGolfPlayer(currentPlayerId, u) ==> HasTee(currentHole)
      modifies this`players
      ensures Valid()
      ensures players == LeavePlayers(old(players), u)
      ensures emitted == if isHost && IsCurrentGolfPlayer(currentPlayerId, u)
                         then [ResetBall(u, TeePosition(tees, currentHole), None), NextTurn(u)]
                         else []
    {
      var n := PlayerNumber(players, u);
      if 0 <= n {
        players := players[n := players[n].(isConnected := false)];
        SameIdsKeepConsistent(players, old(players), currentPlayerId, currentHole);
      }
      emitted := [];
      if isHost && IsCurrentGolfPlayer(currentPlayerId, u) {
        emitted := [ResetBall(u, TeePosition(tees, currentHole), None), NextTurn(u)];
      }
    }

    /** What a handler needs of the match beyond Valid() (the program fails on the missing tee or player). */
    ghost predicate Ready(a: Action, isHost: bool)
      reads this
    {
      match a
      case SendState(st, _) => Consistent(st)
      case NextTurn(_) => currentPlayerId.Some? && HasTee(currentHole)
      case NextHole =>
        0 < |golfHolePars| && 0 < |players| && HasTee(NextHoleNumber(currentHole, |golfHolePars|))
      case PlayerLeave(u) => isHost && IsCurrentGolfPlayer(currentPlayerId, u) ==> HasTee(currentHole)
      case _ => true
    }

    /**
     * What the handler for an accepted action `a` sent by `from` does, from
     * the state before it to the state after it: each case restates that
     * handler's contract.
     */
    twostate predicate Handled(a: Action, from: UserId, isHost: bool, emitted: seq<Action>)
      reads this
    {
      match a
      case SendState(st, _) => Doc() == st && balls == old(balls) && emitted == []
      case SpawnAvatar(u) =>
        && players == JoinPlayers(old(players), u)
        && currentPlayerId == JoinCurrent(players, old(currentPlayerId), u)
        && currentHole == old(currentHole) && balls == old(balls)
        && emitted == if isHost then [SendState(MatchState(players, currentPlayerId, currentHole), u),
                                      SpawnBall(u), SpawnClub(u)]
                      else []
      case SpawnBall(u) =>
        && Doc() == old(Doc()) && emitted == []
        && balls == if 0 <= PlayerNumber(players, u)
                    then old(balls)[BallName(players, u) := if IsCurrentGolfPlayer(currentPlayerId, u) then Waiting else Inactive]
                    else old(balls)
      case PlayerStroke =>
        var n := PlayerNumber(old(players), from);
        && 0 <= n
        && players == old(players)[n := old(players)[n].(stroke := old(players)[n].stroke + 1)]
        && currentPlayerId == old(currentPlayerId) && currentHole == old(currentHole)
        && balls == SetBallState(old(balls), BallName(old(players), from), Moving)
        && Counters() == StrokeTimers(old(Counters()), isHost) && emitted == []
      case BallStopped(u, _, inHole, _) =>
        && Doc() == old(Doc())
        && balls == SetBallState(old(balls), BallName(players, u), if inHole then InHole else Stopped)
        && emitted == if isHost then [NextTurn(u)] else []
      case NextTurn(u) =>
        && old(currentPlayerId).Some? && 0 <= PlayerNumber(old(players), old(currentPlayerId).value)
        && TeeName(old(currentHole)) in tees
        && var r := NextTurnOutcome(old(players), old(balls), tees, old(currentPlayerId).value, old(currentHole), u, isHost);
           && players == r.players && currentPlayerId == r.currentPlayerId && currentHole == old(currentHole)
           && balls == r.balls && emitted == r.emitted
      case ResetBall(u, _, _) =>
        Doc() == old(Doc()) && balls == SetBallState(old(balls), BallName(players, u), Waiting) && emitted == []
      case NextHole =>
        && 0 < |golfHolePars| && 0 < |old(players)|
        && currentHole == NextHoleNumber(old(currentHole), |golfHolePars|) && TeeName(currentHole) in tees
        && players == NextHolePlayers(old(players), currentHole == 0)
        && currentPlayerId == Some(old(players)[0].userId) && balls == old(balls)
        && emitted == if isHost then [ResetBall(old(players)[0].userId, TeePosition(tees, currentHole), None)] else []
      case LookAtScorecard(u, v) =>
        && players == SetScorecard(old(players), u, v)
        && currentPlayerId == old(currentPlayerId) && currentHole == old(currentHole)
        && balls == old(balls) && emitted == []
      case ShowCourseScore(u, v) =>
        && players == SetCourseScore(old(players), u, v)
        && currentPlayerId == old(currentPlayerId) && currentHole == old(currentHole)
        && balls == old(balls) && emitted == []
      case PlayerLeave(u) =>
        && players == LeavePlayers(old(players), u)
        && currentPlayerId == old(currentPlayerId) && currentHole == old(currentHole) && balls == old(balls)
        && (isHost && IsCurrentGolfPlayer(currentPlayerId, u) ==> TeeName(currentHole) in tees)
        && emitted == if isHost && IsCurrentGolfPlayer(currentPlayerId, u)
                      then [ResetBall(u, TeePosition(tees, currentHole), None), NextTurn(u)]
                      else []
      case _ => Doc() == old(Doc()) && balls == old(balls) && emitted == []
    }

    /** The receptor's cases for the actions that may replace the document or hand the turn on. */
    method ApplyTurnAction(a: Action, from: UserId, isHost: bool) returns (emitted: seq<Action>)
      requires Valid() && ChangesTurn(a) && Ready(a, isHost)
      modifies this`players, this`currentPlayerId, this`currentHole, this`balls
      ensures Valid() && Handled(a, from, isHost, emitted)
      ensures !isHost ==> emitted == []
    {
      emitted := [];
      if a.SendState? {
        ReceptorSendState(a.state);
      } else if a.SpawnAvatar? {
        emitted := ReceptorSpawnAvatar(a.userId, isHost);
      } else if a.NextTurn? {
        emitted := ReceptorNextTurn(a.userId, isHost);
      } else if a.NextHole? {
        emitted := ReceptorNextHole(isHost);
      } else {
        emitted := ReceptorPlayerLeave(a.userId, isHost);
      }
    }

    /** The receptor's cases for the other actions: ball status, strokes and the view flags. */
    method ApplyOtherAction(a: Action, from: UserId, hostId: UserId, isHost: bool) returns (emitted: seq<Action>)
      requires Valid() && !ChangesTurn(a) && Accepts(a, from, hostId, currentPlayerId)
      modifies this`players, this`balls, this`ballTimer
      ensures Valid() && Handled(a, from, isHost, emitted)
      ensures a.SetXRMode? || a.SpawnClub? || a.AddHole? ==> unchanged(this)
      ensures !a.PlayerStroke? ==> ballTimer == old(ballTimer)
      ensures !isHost ==> emitted == []
    {
      emitted := [];
      match a {
        case SpawnBall(u) => ReceptorSpawnBall(u);
        case PlayerStroke => ReceptorPlayerStroke(from, isHost);
        case BallStopped(u, _, inHole, _) => emitted := ReceptorBallStopped(u, inHole, isHost);
        case ResetBall(u, _, _) => ReceptorResetBall(u);
        case LookAtScorecard(u, v) => ReceptorLookAtScoreboard(u, v);
        case ShowCourseScore(u, v) => ReceptorShowCourseScore(u, v);
        case _ =>
      }
    }

    /**
     * The receptor: `a`, sent by `from`, goes to its handler if the matcher
     * for its type accepts it; returns what this participant dispatches.
     */
    method Apply(a: Action, from: UserId, hostId: UserId, isHost: bool) returns (emitted: seq<Action>)
      requires Valid()
      requires Accepts(a, from, hostId, currentPlayerId) ==> Ready(a, isHost)
      modifies this`players, this`currentPlayerId, this`currentHole, this`balls, this`ballTimer
      ensures Valid()
      ensures !Accepts(a, from, hostId, old(currentPlayerId)) ==> unchanged(this) && emitted == []
      ensures a.SetXRMode? || a.SpawnClub? || a.AddHole? ==> unchanged(this) && emitted == []
      ensures !isHost ==> emitted == []
      ensures !a.PlayerStroke? ==> ballTimer == old(ballTimer)
      ensures Accepts(a, from, hostId, old(currentPlayerId)) ==> Handled(a, from, isHost, emitted)
    {
      emitted := [];
      if !Accepts(a, from, hostId, currentPlayerId) {
        return;
      }
      if ChangesTurn(a) {
        emitted := ApplyTurnAction(a, from, isHost);
      } else {
        emitted := ApplyOtherAction(a, from, hostId, isHost);
      }
    }
  }
}
