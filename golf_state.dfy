/**
 * Value shapes of the match: the replicated document (`GolfState`), a player's
 * entry in it, the per-participant ball status and the level's tee entities.
 */
module GolfState {
  import opened Wrappers

  type UserId = string

  /** A position triple; the model only ever compares its height with the floor. */
  datatype Position = Position(x: real, y: real, z: real)

  /** One entry of `players`; created on first join and never removed. */
  datatype Player = Player(
    userId: UserId,
    scores: seq<int>,
    stroke: nat,
    viewingScorecard: bool,
    viewingCourseScore: bool,
    isConnected: bool)

  /** The replicated match document. `currentPlayerId` is `undefined` until the first join. */
  datatype MatchState = MatchState(
    players: seq<Player>,
    currentPlayerId: Option<UserId>,
    currentHole: int)

  /** BALL_STATES: the status of a ball entity's GolfBallComponent. */
  datatype BallState = Inactive | Waiting | Moving | Stopped | InHole

  /** The host-only counters of LocalGolfState: frames since the stroke, and slow frames among them. */
  datatype Timers = Timers(ballTimer: nat, ballVelocityTimer: nat)

  /** A tee entity of the level: the par of its GolfTeeComponent and its position. */
  datatype Tee = Tee(par: int, position: Position)

  /** The hole the document starts at. */
  const InitialHole := 5

  function InitialState(): MatchState {
    MatchState([], None, InitialHole)
  }

  /** No two entries of the roster share a user id. */
  ghost predicate Distinct(players: seq<Player>) {
    forall i, j :: 0 <= i < j < |players| ==> players[i].userId != players[j].userId
  }
}
