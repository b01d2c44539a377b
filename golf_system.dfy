/**
 * The per-frame driver: what one participant does in one tick, outside the
 * receptor. It dispatches leaves for avatars that went away, turns a local
 * club's contact with the waiting ball into a stroke, reads the par of every
 * tee that enters the scene, and, on the host, decides when a moving ball has
 * stopped.
 */
module GolfSystem {
  import opened Wrappers
  import opened GolfState
  import opened GolfFunctions
  import opened GolfAction
  import opened GolfStateReceptors

  /** Frames a struck ball is left alone before stop detection starts. */
  const WarmUpFrames := 60
  /** Slow frames (counted since the stroke, not necessarily in a row) after which the ball counts as stopped. */
  const StillFrames := 60
  /** Frames after the stroke after which the ball counts as stopped regardless. */
  const TimeoutFrames := 60 * 5
  /** Squared speed below which a frame counts as slow. */
  const StillSpeedSquared := 0.001
  /** Height below which the ball has fallen out of the course. */
  const FloorHeight := -100.0
  /** Squared distance to the hole under which a stopped ball is in the hole. */
  const HoleRadiusSquared := 0.01

  // ----- avatars that left -----

  /** One playerLeave per avatar that left the scene, dispatched by the host only. */
  method EmitLeaves(exited: seq<UserId>, isHost: bool) returns (emitted: seq<Action>)
    ensures !isHost ==> emitted == []
    ensures isHost ==> |emitted| == |exited| && forall i :: 0 <= i < |exited| ==> emitted[i] == PlayerLeave(exited[i])
  {
    emitted := [];
    if !isHost {
      return;
    }
    var i := 0;
    while i < |exited|
      invariant 0 <= i <= |exited|
      invariant |emitted| == i
      invariant forall j :: 0 <= j < i ==> emitted[j] == PlayerLeave(exited[j])
    {
      emitted := emitted + [PlayerLeave(exited[i])];
      i := i + 1;
    }
  }

  // ----- club hits -----

  /** A club entity of this frame: its player number, and whether it touches the current player's ball. */
  datatype ClubContact = ClubContact(number: int, touchesBall: bool)

  /** Every club belongs to a roster entry (the program fails on a club whose number has no entry). */
  predicate ClubsOnRoster(players: seq<Player>, clubs: seq<ClubContact>) {
    forall i :: 0 <= i < |clubs| ==> 0 <= clubs[i].number < |players|
  }

  /** getBall(currentPlayerId): with nobody holding the turn the lookup uses player number -1. */
  function CurrentBallName(players: seq<Player>, currentPlayerId: Option<UserId>): string {
    if currentPlayerId.Some? then BallName(players, currentPlayerId.value) else OffRosterBall
  }

  /** The club is this participant's own, its owner holds the turn, and it touches the ball. */
  predicate Strikes(players: seq<Player>, currentPlayerId: Option<UserId>, local: UserId, c: ClubContact)
    requires 0 <= c.number < |players|
  {
    var owner := PlayerIdFromNumber(players, c.number);
    owner == local && IsCurrentGolfPlayer(currentPlayerId, owner) && c.touchesBall
  }

  /** Some club of `clubs` strikes; a strike needs the local participant on the roster and holding the turn. */
  predicate SomeStrike(players: seq<Player>, currentPlayerId: Option<UserId>, local: UserId, clubs: seq<ClubContact>)
    requires ClubsOnRoster(players, clubs)
    ensures SomeStrike(players, currentPlayerId, local, clubs) ==>
              IsCurrentGolfPlayer(currentPlayerId, local) && 0 <= PlayerNumber(players, local)
  {
    |clubs| > 0 &&
    (SomeStrike(players, currentPlayerId, local, clubs[..|clubs| - 1]) ||
     Strikes(players, currentPlayerId, local, clubs[|clubs| - 1]))
  }

  /** SomeStrike holds exactly when one of the clubs strikes. */
  lemma {:induction false} SomeStrikeIff(players: seq<Player>, currentPlayerId: Option<UserId>, local: UserId, clubs: seq<ClubContact>)
    requires ClubsOnRoster(players, clubs)
    ensures SomeStrike(players, currentPlayerId, local, clubs) <==>
            exists i :: 0 <= i < |clubs| && Strikes(players, currentPlayerId, local, clubs[i])
  {
    if |clubs| > 0 {
      var front := clubs[..|clubs| - 1];
      SomeStrikeIff(players, currentPlayerId, local, front);
      if SomeStrike(players, currentPlayerId, local, front) {
        var i :| 0 <= i < |front| && Strikes(players, currentPlayerId, local, front[i]);
        assert clubs[i] == front[i];
      }
      if exists i :: 0 <= i < |clubs| && Strikes(players, currentPlayerId, local, clubs[i]) {
        var i :| 0 <= i < |clubs| && Strikes(players, currentPlayerId, local, clubs[i]);
        if i < |front| {
          assert front[i] == clubs[i];
        }
      }
    }
  }

  /**
   * The club loop of the hit gate: whether some club of this frame is the
   * local participant's, belongs to the turn holder and touches the ball.
   */
  method FindStrike(players: seq<Player>, currentPlayerId: Option<UserId>, local: UserId, clubs: seq<ClubContact>)
    returns (struck: bool)
    requires ClubsOnRoster(players, clubs)
    ensures struck == SomeStrike(players, currentPlayerId, local, clubs)
  {
    struck := false;
    var i := 0;
    while i < |clubs|
      invariant 0 <= i <= |clubs|
      invariant struck == SomeStrike(players, currentPlayerId, local, clubs[..i])
    {
      assert clubs[..i + 1][..i] == clubs[..i];
      var c := clubs[i];
      var owner := PlayerIdFromNumber(players, c.number);
      if owner == local && IsCurrentGolfPlayer(currentPlayerId, owner) && c.touchesBall {
        struck := true;
      }
      i := i + 1;
    }
    assert clubs[..|clubs|] == clubs;
  }

  /**
   * The hit gate: when a club strikes while the current player's ball waits,
   * the ball is set moving and one stroke is dispatched. The ball then no
   * longer waits, so further strikes in the same frame change nothing.
   */
  method DetectHits(m: Match, clubs: seq<ClubContact>, local: UserId) returns (emitted: seq<Action>)
    requires m.Valid() && ClubsOnRoster(m.players, clubs)
    modifies m`balls
    ensures m.Valid()
    ensures var name := CurrentBallName(m.players, m.currentPlayerId);
            var hit := name in old(m.balls) && old(m.balls)[name] == Waiting &&
                       SomeStrike(m.players, m.currentPlayerId, local, clubs);
            && m.balls == (if hit then old(m.balls)[name := Moving] else old(m.balls))
            && emitted == (if hit then [PlayerStroke] else [])
  {
    var name := CurrentBallName(m.players, m.currentPlayerId);
    var struck := FindStrike(m.players, m.currentPlayerId, local, clubs);
    emitted := [];
    if struck && name in m.balls && m.balls[name] == Waiting {
      m.balls := m.balls[name := Moving];
      emitted := [PlayerStroke];
    }
  }

  // ----- tee pars -----

  /** A scene entity that entered this frame: its name, and the par of its tee component when it is a tee. */
  datatype EnteredEntity = EnteredEntity(name: string, par: int)

  /** JavaScript's `s.includes(sub)`. */
  predicate Contains(s: string, sub: string)
    decreases |s|
  {
    |sub| <= |s| && (s[..|sub|] == sub || Contains(s[1..], sub))
  }

  /** `sub` occurs in `s` starting at index `i`. */
  predicate OccursAt(s: string, sub: string, i: int) {
    0 <= i && i + |sub| <= |s| && s[i..i + |sub|] == sub
  }

  /** Contains holds exactly when the substring occurs at some index. */
  lemma {:induction false} ContainsIff(s: string, sub: string)
    ensures Contains(s, sub) <==> exists i :: OccursAt(s, sub, i)
    decreases |s|
  {
    if |sub| <= |s| {
      if s[..|sub|] == sub {
        assert OccursAt(s, sub, 0);
      } else {
        assert !OccursAt(s, sub, 0);
        ContainsIff(s[1..], sub);
        if Contains(s[1..], sub) {
          var i :| OccursAt(s[1..], sub, i);
          assert s[i + 1..i + 1 + |sub|] == s[1..][i..i + |sub|];
          assert OccursAt(s, sub, i + 1);
        }
        if exists i :: OccursAt(s, sub, i) {
          var i :| OccursAt(s, sub, i);
          assert i > 0;
          assert s[1..][i - 1..i - 1 + |sub|] == s[i..i + |sub|];
          assert OccursAt(s[1..], sub, i - 1);
        }
      }
    }
  }

  /** Every tee entity registered under getTee's naming is recognised as a tee when it enters. */
  lemma TeeNamesAreTees(h: int)
    ensures Contains(TeeName(h), TeeFamily)
  {
    assert OccursAt(TeeName(h), TeeFamily, 0);
    ContainsIff(TeeName(h), TeeFamily);
  }

  /** The pars of the entering entities whose name mentions GolfTee, in order of entry. */
  function TeePars(entered: seq<EnteredEntity>): (r: seq<int>)
    ensures |r| <= |entered|
  {
    if |entered| == 0 then []
    else TeePars(entered[..|entered| - 1]) +
         (if Contains(entered[|entered| - 1].name, TeeFamily) then [entered[|entered| - 1].par] else [])
  }

  /** Reading the entities of two frames one after the other is reading them all at once. */
  lemma {:induction false} TeeParsAppend(a: seq<EnteredEntity>, b: seq<EnteredEntity>)
    ensures TeePars(a + b) == TeePars(a) + TeePars(b)
    decreases |b|
  {
    if |b| > 0 {
      var b' := b[..|b| - 1];
      assert (a + b)[..|a + b| - 1] == a + b';
      TeeParsAppend(a, b');
    } else {
      assert a + b == a;
    }
  }

  /** Every par read comes from an entering tee. */
  lemma {:induction false} TeeParsFromTees(entered: seq<EnteredEntity>, k: int)
    requires 0 <= k < |TeePars(entered)|
    ensures exists i :: 0 <= i < |entered| && Contains(entered[i].name, TeeFamily) && entered[i].par == TeePars(entered)[k]
  {
    var front := entered[..|entered| - 1];
    if k < |TeePars(front)| {
      TeeParsFromTees(front, k);
      var i :| 0 <= i < |front| && Contains(front[i].name, TeeFamily) && front[i].par == TeePars(front)[k];
      assert entered[i] == front[i];
    } else {
      assert entered[|entered| - 1].par == TeePars(entered)[k];
    }
  }

  /** golfHolePars.merge: append the par of every entering tee. */
  method ReadTeePars(m: Match, entered: seq<EnteredEntity>)
    modifies m`golfHolePars
    ensures m.golfHolePars == old(m.golfHolePars) + TeePars(entered)
  {
    var i := 0;
    while i < |entered|
      invariant 0 <= i <= |entered|
      invariant m.golfHolePars == old(m.golfHolePars) + TeePars(entered[..i])
    {
      assert entered[..i + 1][..i] == entered[..i];
      if Contains(entered[i].name, TeeFamily) {
        m.golfHolePars := m.golfHolePars + [entered[i].par];
      }
      i := i + 1;
    }
    assert entered[..|entered|] == entered;
  }

  // ----- stop detection -----

  /** What the host's physics shows of the moving ball this frame. */
  datatype Observation = Observation(
    position: Option<Position>,
    speedSquared: real,
    groundHits: nat,
    holeDistanceSquared: real)

  datatype FrameResult = FrameResult(timers: Timers, stopped: bool)

  /**
   * One frame of a moving ball on the host: the ball timer always counts up;
   * after the warm-up, with a known position, a slow frame counts towards the
   * stillness limit, and the ball stops when still for long enough, fallen
   * below the course, or out of time; stopping zeroes the stillness count.
   */
  function StopFrame(t: Timers, o: Observation): (r: FrameResult)
    ensures r.timers.ballTimer == t.ballTimer + 1
    ensures r.stopped ==> r.timers.ballVelocityTimer == 0 && t.ballTimer + 1 > WarmUpFrames && o.position.Some?
    ensures !r.stopped ==> r.timers.ballVelocityTimer >= t.ballVelocityTimer
    ensures t.ballTimer + 1 > TimeoutFrames && o.position.Some? ==> r.stopped
    ensures t.ballTimer + 1 > WarmUpFrames && o.position.Some? && o.position.value.y < FloorHeight ==> r.stopped
    ensures t.ballTimer + 1 <= WarmUpFrames ==> r == FrameResult(Timers(t.ballTimer + 1, t.ballVelocityTimer), false)
  {
    var ballTimer := t.ballTimer + 1;
    if ballTimer <= WarmUpFrames || o.position.None? then
      FrameResult(Timers(ballTimer, t.ballVelocityTimer), false)
    else
      var still := t.ballVelocityTimer + (if o.speedSquared < StillSpeedSquared then 1 else 0);
      if still > StillFrames || o.position.value.y < FloorHeight || ballTimer > TimeoutFrames then
        FrameResult(Timers(ballTimer, 0), true)
      else
        FrameResult(Timers(ballTimer, still), false)
  }

  /**
   * Once the warm-up is over and the position is known, the ball stops
   * exactly when the slow-frame count including this frame exceeds the
   * stillness limit, the ball is below the floor, or time is up; otherwise
   * the slow-frame count grows by one on a slow frame and stays put on a fast one.
   */
  lemma StopFrameRule(t: Timers, o: Observation)
    requires t.ballTimer + 1 > WarmUpFrames && o.position.Some?
    ensures var slow := if o.speedSquared < StillSpeedSquared then 1 else 0;
            var r := StopFrame(t, o);
            && (r.stopped <==> (t.ballVelocityTimer + slow > StillFrames || o.position.value.y < FloorHeight ||
                                t.ballTimer + 1 > TimeoutFrames))
            && (!r.stopped ==> r.timers.ballVelocityTimer == t.ballVelocityTimer + slow)
  {
  }

  /** Without a known position the frame only counts up the ball timer. */
  lemma StopFrameWithoutPosition(t: Timers, o: Observation)
    requires o.position.None?
    ensures StopFrame(t, o) == FrameResult(Timers(t.ballTimer + 1, t.ballVelocityTimer), false)
  {
  }

  /** Where a run of frames leaves the ball: its status, the counters, and how many ballStopped the host reported. */
  datatype Detection = Detection(ball: BallState, timers: Timers, reports: nat)

  /** Stop detection over successive frames with no stroke in between; a ball that is not moving is left alone. */
  function Detect(ball: BallState, t: Timers, frames: seq<Observation>): (d: Detection)
    ensures d.ball == ball || (ball == Moving && d.ball == Stopped)
    ensures d.reports == 0 ==> d.ball == ball
    decreases |frames|
  {
    if |frames| == 0 then Detection(ball, t, 0)
    else if ball != Moving then Detect(ball, t, frames[1..])
    else
      var f := StopFrame(t, frames[0]);
      var rest := Detect(if f.stopped then Stopped else Moving, f.timers, frames[1..]);
      Detection(rest.ball, rest.timers, rest.reports + if f.stopped then 1 else 0)
  }

  /** A ball that is not moving is never reported. */
  lemma {:induction false} StillBallNotReported(ball: BallState, t: Timers, frames: seq<Observation>)
    requires ball != Moving
    ensures Detect(ball, t, frames) == Detection(ball, t, 0)
    decreases |frames|
  {
    if |frames| > 0 {
      StillBallNotReported(ball, t, frames[1..]);
    }
  }

  /** One stroke yields at most one ballStopped, and a reported ball ends stopped. */
  lemma {:induction false} AtMostOneReport(ball: BallState, t: Timers, frames: seq<Observation>)
    ensures var d := Detect(ball, t, frames);
            d.reports <= 1 && (d.reports == 1 ==> d.ball == Stopped)
    decreases |frames|
  {
    if |frames| > 0 {
      if ball != Moving {
        StillBallNotReported(ball, t, frames[1..]);
      } else {
        var f := StopFrame(t, frames[0]);
        if f.stopped {
          StillBallNotReported(Stopped, f.timers, frames[1..]);
        } else {
          AtMostOneReport(Moving, f.timers, frames[1..]);
        }
      }
    }
  }

  /** While the position is known, a moving ball is reported within the timeout of its stroke. */
  lemma {:induction false} ReportedWithinTimeout(t: Timers, frames: seq<Observation>)
    requires t.ballTimer <= TimeoutFrames
    requires |frames| >= TimeoutFrames + 1 - t.ballTimer
    requires forall i :: 0 <= i < |frames| ==> frames[i].position.Some?
    ensures Detect(Moving, t, frames).reports == 1
    decreases |frames|
  {
    var f := StopFrame(t, frames[0]);
    if f.stopped {
      StillBallNotReported(Stopped, f.timers, frames[1..]);
    } else {
      ReportedWithinTimeout(f.timers, frames[1..]);
    }
  }

  /** During the warm-up the ball is never reported: only the ball timer counts. */
  lemma {:induction false} NoReportDuringWarmUp(t: Timers, frames: seq<Observation>)
    requires t.ballTimer + |frames| <= WarmUpFrames
    ensures Detect(Moving, t, frames) == Detection(Moving, Timers(t.ballTimer + |frames|, t.ballVelocityTimer), 0)
    decreases |frames|
  {
    if |frames| > 0 {
      NoReportDuringWarmUp(Timers(t.ballTimer + 1, t.ballVelocityTimer), frames[1..]);
    }
  }

  /**
   * With the reset the program intends, a struck ball is left alone for the
   * whole warm-up, and while its position is known it is reported exactly
   * once by the 301st frame.
   */
  lemma StrokeStartsWarmUp(t: Timers, frames: seq<Observation>)
    ensures |frames| <= WarmUpFrames ==> Detect(Moving, StrokeTimers(t, true), frames).reports == 0
    ensures |frames| >= TimeoutFrames + 1 && (forall i :: 0 <= i < |frames| ==> frames[i].position.Some?) ==>
              Detect(Moving, StrokeTimers(t, true), frames).reports == 1
  {
    if |frames| <= WarmUpFrames {
      NoReportDuringWarmUp(StrokeTimers(t, true), frames);
    }
    if |frames| >= TimeoutFrames + 1 && (forall i :: 0 <= i < |frames| ==> frames[i].position.Some?) {
      ReportedWithinTimeout(StrokeTimers(t, true), frames);
    }
  }

  /**
   * As the program writes the stroke, a host whose ball timer has reached the
   * timeout keeps it across the stroke, so the new stroke's ball is reported
   * stopped on the very first frame with a known position.
   */
  lemma StaleTimerReportsAtOnce(t: Timers, o: Observation)
    requires t.ballTimer >= TimeoutFrames && o.position.Some?
    ensures Detect(Moving, StrokeTimersAsWritten(t, true), [o]) == Detection(Stopped, Timers(t.ballTimer + 1, 0), 1)
  {
    assert [o][1..] == [];
  }

  /** A stopped ball is in the hole when it rests close enough to the hole. */
  predicate InHoleAt(o: Observation) {
    o.holeDistanceSquared < HoleRadiusSquared
  }

  /**
   * The host's check of the current player's ball this frame: while that
   * ball is moving, run one StopFrame; when it stops, mark it stopped and
   * dispatch ballStopped with its position, whether it is in the hole and
   * whether the ground below it was missed.
   */
  method DetectStop(m: Match, isHost: bool, o: Observation) returns (emitted: seq<Action>)
    requires m.Valid()
    modifies m`balls, m`ballTimer, m`ballVelocityTimer
    ensures m.Valid()
    ensures var name := CurrentBallName(m.players, m.currentPlayerId);
            if isHost && name in old(m.balls) && old(m.balls)[name] == Moving then
              var f := StopFrame(Timers(old(m.ballTimer), old(m.ballVelocityTimer)), o);
              && m.currentPlayerId.Some?
              && m.ballTimer == f.timers.ballTimer && m.ballVelocityTimer == f.timers.ballVelocityTimer
              && m.balls == (if f.stopped then old(m.balls)[name := Stopped] else old(m.balls))
              && emitted == (if f.stopped
                             then [BallStopped(m.currentPlayerId.value, o.position.value, InHoleAt(o), o.groundHits == 0)]
                             else [])
            else
              m.balls == old(m.balls) && m.ballTimer == old(m.ballTimer) &&
              m.ballVelocityTimer == old(m.ballVelocityTimer) && emitted == []
  {
    emitted := [];
    var name := CurrentBallName(m.players, m.currentPlayerId);
    if !(isHost && name in m.balls && m.balls[name] == Moving) {
      return;
    }
    m.ballTimer := m.ballTimer + 1;
    if m.ballTimer <= WarmUpFrames || o.position.None? {
      return;
    }
    m.ballVelocityTimer := m.ballVelocityTimer + (if o.speedSquared < StillSpeedSquared then 1 else 0);
    if m.ballVelocityTimer > StillFrames || o.position.value.y < FloorHeight || m.ballTimer > TimeoutFrames {
      m.ballVelocityTimer := 0;
      m.balls := m.balls[name := Stopped];
      emitted := [BallStopped(m.currentPlayerId.value, o.position.value, InHoleAt(o), o.groundHits == 0)];
    }
  }

  // ----- the tick -----

  /** The dispatch of three stages in a row: what follows the first stage's actions, and where each action comes from. */
  lemma ConcatParts(a: seq<Action>, b: seq<Action>, c: seq<Action>)
    ensures (a + b + c)[|a|..] == b + c
    ensures forall x :: x in a + b + c <==> x in a || x in b || x in c
  {
  }

  /**
   * The hit gate followed by stop detection, on values: the balls `b0`, `b1`,
   * `b2` and the counters `t0`, `t2` before, between and after the two stages.
   */
  lemma BallStagesCompose(b0: map<string, BallState>, b1: map<string, BallState>, b2: map<string, BallState>,
                          t0: Timers, t2: Timers, name: string, strike: bool, isHost: bool,
                          cur: Option<UserId>, o: Observation, strokes: seq<Action>, stops: seq<Action>)
    requires var hit := name in b0 && b0[name] == Waiting && strike;
             b1 == (if hit then b0[name := Moving] else b0) && strokes == (if hit then [PlayerStroke] else [])
    requires if isHost && name in b1 && b1[name] == Moving then
               var f := StopFrame(t0, o);
               && cur.Some? && t2 == f.timers
               && b2 == (if f.stopped then b1[name := Stopped] else b1)
               && stops == (if f.stopped then [BallStopped(cur.value, o.position.value, InHoleAt(o), o.groundHits == 0)] else [])
             else
               b2 == b1 && t2 == t0 && stops == []
    ensures var hit := name in b0 && b0[name] == Waiting && strike;
            var struck := if hit then b0[name := Moving] else b0;
            var stopping := isHost && name in struck && struck[name] == Moving;
            var f := StopFrame(t0, o);
            && (stopping ==> t2 == f.timers && cur.Some?)
            && (!stopping ==> t2 == t0)
            && b2 == (if stopping && f.stopped then struck[name := Stopped] else struck)
            && strokes + stops ==
                 (if hit then [PlayerStroke] else []) +
                 (if stopping && f.stopped
                  then [BallStopped(cur.value, o.position.value, InHoleAt(o), o.groundHits == 0)]
                  else [])
    ensures forall x :: x in strokes + stops ==> x.PlayerStroke? || x.BallStopped?
    ensures !isHost ==> stops == []
  {
  }

  /**
   * One tick of the system, stage by stage in the program's order. The
   * replicated document is never touched here: the tick only dispatches.
   */
  method Tick(m: Match, isHost: bool, local: UserId, exited: seq<UserId>, clubs: seq<ClubContact>,
              entered: seq<EnteredEntity>, o: Observation) returns (emitted: seq<Action>)
    requires m.Valid() && ClubsOnRoster(m.players, clubs)
    modifies m`balls, m`ballTimer, m`ballVelocityTimer, m`golfHolePars
    ensures m.Valid()
    ensures m.Doc() == old(m.Doc())
    ensures m.golfHolePars == old(m.golfHolePars) + TeePars(entered)
    ensures var name := CurrentBallName(m.players, m.currentPlayerId);
            var hit := name in old(m.balls) && old(m.balls)[name] == Waiting &&
                       SomeStrike(m.players, m.currentPlayerId, local, clubs);
            var struck := if hit then old(m.balls)[name := Moving] else old(m.balls);
            var stopping := isHost && name in struck && struck[name] == Moving;
            var f := StopFrame(old(m.Counters()), o);
            var leaves := if isHost then |exited| else 0;
            && (stopping ==> m.Counters() == f.timers && m.currentPlayerId.Some?)
            && (!stopping ==> m.Counters() == old(m.Counters()))
            && m.balls == (if stopping && f.stopped then struck[name := Stopped] else struck)
            && leaves <= |emitted|
            && (forall i :: 0 <= i < leaves ==> emitted[i] == PlayerLeave(exited[i]))
            && emitted[leaves..] ==
                 (if hit then [PlayerStroke] else []) +
                 (if stopping && f.stopped
                  then [BallStopped(m.currentPlayerId.value, o.position.value, InHoleAt(o), o.groundHits == 0)]
                  else [])
    ensures forall a :: a in emitted ==> a.PlayerLeave? || a.PlayerStroke? || a.BallStopped?
    ensures !isHost ==> forall a :: a in emitted ==> a.PlayerStroke?
  {
    ghost var b0, t0 := m.balls, m.Counters();
    var leaves := EmitLeaves(exited, isHost);
    var strokes := DetectHits(m, clubs, local);
    ghost var b1 := m.balls;
    ReadTeePars(m, entered);
    var stops := DetectStop(m, isHost, o);
    BallStagesCompose(b0, b1, m.balls, t0, m.Counters(), CurrentBallName(m.players, m.currentPlayerId),
                      SomeStrike(m.players, m.currentPlayerId, local, clubs), isHost, m.currentPlayerId, o, strokes, stops);
    ConcatParts(leaves, strokes, stops);
    emitted := leaves + strokes + stops;
  }
}
