/**
 * The action catalog: one constructor per message the match exchanges, with
 * its payload, plus the two world actions the reducer also handles (avatar
 * spawn and XR mode) and the `playerLeave` message the tick driver sends.
 */
module GolfAction {
  import opened Wrappers
  import opened GolfState
  import opened GolfFunctions

  /** The tri-state payload `true | false | 'toggle'`. */
  datatype ViewValue = Show(on: bool) | Toggle

  datatype Action =
    | SendState(state: MatchState, to: UserId)      // full snapshot, addressed to `to`
    | AddHole(number: int, par: int)                 // declared, never handled
    | SpawnAvatar(userId: UserId)                    // a user's avatar joined the world
    | SetXRMode(userId: UserId, enabled: bool)
    | SpawnBall(userId: UserId)
    | SpawnClub(userId: UserId)
    | PlayerStroke                                   // no payload: the sender strokes
    | BallStopped(userId: UserId, position: Position, inHole: bool, outOfBounds: bool)
    | NextTurn(userId: UserId)
    | ResetBall(userId: UserId, position: Position, disconnect: Option<bool>)
    | NextHole
    | LookAtScorecard(userId: UserId, value: ViewValue)
    | ShowCourseScore(userId: UserId, value: ViewValue)
    | PlayerLeave(userId: UserId)

  /** The actions this catalog defines itself (the world's spawn and XR-mode actions are not among them). */
  predicate InCatalog(a: Action) {
    !(a.SpawnAvatar? || a.SetXRMode?)
  }

  /** The `allowDispatchFromAny` option of the catalog's action creators. */
  predicate AllowDispatchFromAny(a: Action)
    requires InCatalog(a)
  {
    a.PlayerStroke? || a.LookAtScorecard?
  }

  /**
   * Which matcher of the reducer's dispatch accepts `a` sent by `from`:
   * `playerStroke` only from the user holding the turn, the scorecard and XR
   * mode from anyone, `addHole` never (no handler), everything else only from
   * the host.
   */
  predicate Accepts(a: Action, from: UserId, hostId: UserId, currentPlayerId: Option<UserId>)
    ensures Accepts(a, from, hostId, currentPlayerId) && from != hostId ==>
              a.PlayerStroke? || a.LookAtScorecard? || a.SetXRMode?
    ensures from == hostId && !a.AddHole? && !a.PlayerStroke? ==> Accepts(a, from, hostId, currentPlayerId)
    ensures a.AddHole? ==> !Accepts(a, from, hostId, currentPlayerId)
  {
    match a
    case PlayerStroke => IsCurrentGolfPlayer(currentPlayerId, from)
    case LookAtScorecard(_, _) => true
    case SetXRMode(_, _) => true
    case AddHole(_, _) => false
    case _ => from == hostId
  }

  /** A catalog action accepted from someone other than the host is one the catalog marks dispatch-from-any. */
  lemma NonHostActionsAreFromAny(a: Action, from: UserId, hostId: UserId, currentPlayerId: Option<UserId>)
    requires InCatalog(a) && from != hostId
    requires Accepts(a, from, hostId, currentPlayerId)
    ensures AllowDispatchFromAny(a)
  {
  }

  /** A stroke is accepted exactly from the user whose turn it is, host or not. */
  lemma StrokeOnlyFromCurrentPlayer(from: UserId, hostId: UserId, currentPlayerId: Option<UserId>)
    ensures Accepts(PlayerStroke, from, hostId, currentPlayerId) <==> currentPlayerId == Some(from)
  {
  }
}
