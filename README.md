# puttclub match model

This is a Dafny model of the turn-based core of the puttclub mini-golf game.
Each participant of a match keeps a replicated match document. The document holds the roster of players, who holds the turn, and the current hole.
Actions are applied to that document by one reducer, the receptor.
The receptor also updates the status of the ball entities it knows. On the host it dispatches follow-up actions: state snapshots, spawns, next turn, next hole, ball resets and course-score popups.
A per-frame driver sits beside the receptor and does four things:

- it turns departed avatars into leave messages;
- it turns a local club's contact with the waiting ball into a stroke;
- it reads the par of every tee that enters the scene;
- on the host, it decides when a moving ball has come to rest.

The model has six modules:

- `Wrappers` holds `Option`.
- `GolfState` holds the value shapes: player entry, match document, ball status and tee.
- `GolfFunctions` holds the roster lookups and the entity-name keys `GolfBall-<n>`, `GolfClub-<n>`, `GolfTee-<h>` and `GolfHole-<h>`.
- `GolfAction` holds the action catalog and the matcher that decides which sender the receptor accepts each action from.
- `GolfStateReceptors` holds the receptor as `class Match`. Its handler methods change the document, the ball table and the host counters in place. Beside the class are the pure rules the handlers follow, with lemmas about them: join, scoring, the wrap-around rotation, the hole change, the tri-state toggles and leaving.
- `GolfSystem` holds the per-frame stages as methods over a `Match`. Stop detection is also a pure frame function with a multi-frame run and lemmas about it.

Dispatching is modelled as a returned list of actions. Actions dispatched from the host are sent only when the participant is the host, where host means not a client. The stroke is the exception: it is dispatched from the local user on any participant.
A level's tee entities are a constant map from entity name to par and position.
The physics of a frame comes into stop detection as an `Observation`: the ball's position if known, its squared speed, the number of ground-ray hits, and its squared distance to the hole.

## Model

| member | source | states |
|---|---|---|
| GolfFunctions.PlayerNumber | functions/golfFunctions.ts:7-10 | the result is -1 or a roster index; at that index the id matches, and no earlier entry (no entry at all for -1) has the id |
| GolfFunctions.PlayerEntry | functions/golfFunctions.ts:12-14 | the entry found is exactly the one at the player number when that is at least 0, and none otherwise |
| GolfFunctions.IsCurrentGolfPlayer | functions/golfFunctions.ts:16-18 | the definition of the turn-holder test: the turn holder is `u`. StrokeOnlyFromCurrentPlayer states what it means for the receptor: a stroke is accepted exactly from that user |
| GolfFunctions.PlayerIdFromNumber | functions/golfFunctions.ts:25-28 | defined only for indices on the roster; on a roster without duplicate ids the user found has that player number |
| GolfFunctions.PlayerNumberInjective | functions/golfFunctions.ts:7-10 | two ids with the same non-negative player number are the same id |
| GolfFunctions.SameIdsSameNumber | functions/golfFunctions.ts:7-10 | player numbers depend only on the sequence of user ids, so edits that keep the ids keep every number |
| GolfFunctions.NatToString | functions/golfFunctions.ts:30-37 | at least one digit, every character a decimal digit, and a single digit exactly below 10 |
| GolfFunctions.IntToString | functions/golfFunctions.ts:30-37 | the text begins with '-' exactly for a negative number |
| GolfFunctions.NatToStringInjective | functions/golfFunctions.ts:30-37 | different naturals print differently |
| GolfFunctions.IntToStringInjective | functions/golfFunctions.ts:30-37 | different integers print differently |
| GolfFunctions.EntityName | functions/golfFunctions.ts:30-44 | the definition of the named-entity key: the family, a dash and the printed number. EntityNameInjective and DistinctPlayersDistinctNames state its properties: within a family the name determines the number, and different roster members get different names |
| GolfFunctions.BallName | functions/golfFunctions.ts:30-33 | the definition of getBall's key: EntityName of `GolfBall` and the player number, -1 off the roster. EntityName and DistinctPlayersDistinctNames state its properties |
| GolfFunctions.ClubName | functions/golfFunctions.ts:34-37 | the definition of getClub's key: EntityName of `GolfClub` and the player number. DistinctPlayersDistinctNames states its properties |
| GolfFunctions.TeeName | functions/golfFunctions.ts:39-41 | the definition of getTee's key: EntityName of `GolfTee` and the hole. DistinctHolesDistinctNames states its properties |
| GolfFunctions.HoleName | functions/golfFunctions.ts:42-44 | the definition of getHole's key: EntityName of `GolfHole` and the hole. DistinctHolesDistinctNames states its properties |
| GolfFunctions.CoursePar | functions/golfFunctions.ts:50-53 | the definition of getCoursePar: a plain lookup of the par on the tee of that hole |
| GolfFunctions.TeePosition | GolfSystem.ts:83-86 | the definition of getTeePosition: the position of the tee of that hole. CoursePar ties it to the tee |
| GolfFunctions.EntityNameInjective | functions/golfFunctions.ts:30-44 | within one entity family, equal names mean equal numbers |
| GolfFunctions.DistinctPlayersDistinctNames | functions/golfFunctions.ts:30-37 | two different roster members have different ball names and different club names |
| GolfFunctions.DistinctHolesDistinctNames | functions/golfFunctions.ts:39-44 | different hole numbers give different tee names and different hole names |
| GolfAction.Accepts | GolfStateReceptors.ts:23-38 | an action accepted from a non-host is a stroke, a scorecard toggle or an XR mode change. Every action from the host other than a stroke or add-hole is accepted. Add-hole is never accepted |
| GolfAction.NonHostActionsAreFromAny | GolfAction.ts:29-34 | a catalog action the receptor accepts from a non-host sender is one of the two the catalog marks dispatch-from-any |
| GolfAction.StrokeOnlyFromCurrentPlayer | GolfStateReceptors.ts:29 | a stroke is accepted exactly from the user holding the turn |
| GolfStateReceptors.RosterBallIsNamed | functions/golfFunctions.ts:30-33 | a roster member's ball name is never the name looked up for an unknown user |
| GolfStateReceptors.MemberHasNumber | functions/golfFunctions.ts:7-10 | every roster entry's id has a player number |
| GolfStateReceptors.SameIdsKeepConsistent | GolfStateReceptors.ts:98-100 | an edit that keeps every user id in place keeps the roster duplicate-free and the turn holder on it |
| GolfStateReceptors.SetBallState | GolfStateReceptors.ts:189 | the set of known balls is unchanged, and a known ball takes the new status |
| GolfStateReceptors.SetBallStateOthers | GolfStateReceptors.ts:189 | setting one ball's status leaves every other ball's status unchanged |
| GolfStateReceptors.JoinPlayers | GolfStateReceptors.ts:51-67 | a new user gets exactly one appended entry: no scores, stroke 0, both views off, connected. A known user keeps the length, and every field except the connection flag. Other users' entries are untouched |
| GolfStateReceptors.JoinKeepsOthers | GolfStateReceptors.ts:51-67 | the lookup of any other user gives the same entry after a join |
| GolfStateReceptors.JoinKeepsRosterDistinct | GolfStateReceptors.ts:51-67 | joining never duplicates a user id, and the joiner is then on the roster and connected |
| GolfStateReceptors.JoinCurrent | GolfStateReceptors.ts:75-78 | someone always holds the turn after a join; unless it is the joiner, the previous turn holder keeps it and is connected |
| GolfStateReceptors.JoinKeepsConsistent | GolfStateReceptors.ts:51-67 | the document between the join and the turn rule has no duplicate ids and a member or nobody holding the turn |
| GolfStateReceptors.JoinCurrentRule | GolfStateReceptors.ts:75-78 | after a join the turn goes to the joiner exactly when the previous turn holder was absent, disconnected or the joiner; otherwise it is unchanged |
| GolfStateReceptors.AppendScore | GolfStateReceptors.ts:184-185 | the player's scores gain exactly the one given total at the end; nothing else of theirs changes, and no other entry changes |
| GolfStateReceptors.Rotation | GolfStateReceptors.ts:193-195 | the rotation is as long as the roster |
| GolfStateReceptors.Unfinished | GolfStateReceptors.ts:197-200 | the filter never lengthens its input |
| GolfStateReceptors.UnfinishedMembers | GolfStateReceptors.ts:197-200 | every player the filter keeps is from its input, has not scored past the current hole, and is connected |
| GolfStateReceptors.UnfinishedEmptyIff | GolfStateReceptors.ts:197-200 | the filter is empty exactly when no player of its input is eligible |
| GolfStateReceptors.NextPlayer | GolfStateReceptors.ts:193-200 | a chosen player is eligible, and so connected |
| GolfStateReceptors.NextPlayerOnRoster | GolfStateReceptors.ts:193-200 | a chosen player is a roster entry with a player number |
| GolfStateReceptors.RotationAt | GolfStateReceptors.ts:193-195 | rotation position k is roster index (i + k) mod n: the order starts at the turn holder and wraps around |
| GolfStateReceptors.UnfinishedHead | GolfStateReceptors.ts:197-200 | the filter's first element is the first eligible element of its input |
| GolfStateReceptors.NextPlayerIsFirstInRotation | GolfStateReceptors.ts:193-200 | the turn goes to the first eligible player of the rotation from the turn holder's index |
| GolfStateReceptors.CurrentKeepsTurn | GolfStateReceptors.ts:193-200 | an eligible turn holder is chosen again, because the search starts at their own index |
| GolfStateReceptors.NextPlayerNoneIff | GolfStateReceptors.ts:193-200 | nobody is chosen exactly when every player has scored past the current hole or is disconnected |
| GolfStateReceptors.TurnScored | GolfStateReceptors.ts:172-190 | scoring keeps the roster's length |
| GolfStateReceptors.TurnScoredFacts | GolfStateReceptors.ts:172-190 | only the turn holder's scores can change. They gain exactly strokes minus par when `u`'s ball exists and either is in the hole or the strokes reached par + 3, and are unchanged otherwise |
| GolfStateReceptors.TurnBalls | GolfStateReceptors.ts:189-220 | the balls known before a turn are exactly those known after it |
| GolfStateReceptors.TurnDispatch | GolfStateReceptors.ts:186-224 | a non-host dispatches nothing after a turn |
| GolfStateReceptors.TurnDispatchContents | GolfStateReceptors.ts:186-224 | the host's dispatch holds the course score exactly for a finished hole, and the next hole exactly when nobody takes the turn. It holds a tee reset for the taker exactly when the taker has not struck yet |
| GolfStateReceptors.NextTurnOutcome | GolfStateReceptors.ts:159-226 | the roster keeps its length, the set of known balls is unchanged, and a non-host dispatches nothing |
| GolfStateReceptors.NextTurnKeepsConsistent | GolfStateReceptors.ts:159-226 | a next turn keeps the roster duplicate-free and leaves the turn with a roster member |
| GolfStateReceptors.NextTurnScoring | GolfStateReceptors.ts:172-190 | the turn holder gains exactly one score, strokes minus par, when `u`'s ball exists and either is in the hole or the strokes reached par + 3. Otherwise the scores are unchanged. No other field and no other player changes |
| GolfStateReceptors.NextTurnShowsCourseScore | GolfStateReceptors.ts:177-187 | the host shows `u` the course score exactly when the turn finished the hole |
| GolfStateReceptors.NextTurnKeepsEligiblePlayer | GolfStateReceptors.ts:193-206 | a connected turn holder whose hole is not over keeps the turn, and no next hole is requested |
| GolfStateReceptors.NextTurnHoleOverIff | GolfStateReceptors.ts:205-225 | the host requests the next hole exactly when every connected player has scored past the current hole. The turn holder is then unchanged, and the only ball change is the retirement of `u`'s ball |
| GolfStateReceptors.NextTurnPassesToFirstEligible | GolfStateReceptors.ts:205-221 | otherwise the turn goes to the first eligible player in rotation order, and that player's ball waits. The host resets that ball to the tee exactly when the player has not struck yet, and requests no next hole |
| GolfStateReceptors.NextTurnWithoutBall | GolfStateReceptors.ts:172-190 | once `u`'s ball is gone, a next turn scores nobody and shows no course score |
| GolfStateReceptors.NextTurnRetiresBall | GolfStateReceptors.ts:189-220 | `u`'s ball ends inactive unless it is the ball of the player taking the turn, in which case it waits |
| GolfStateReceptors.NextHoleNumber | GolfStateReceptors.ts:237 | for a non-negative hole, the next hole is (h + 1) mod the number of holes, and so is in range. It is one more than the current hole before the last, and wraps to 0 after the last. A current hole past the end of a short course, such as the initial hole 5 on a 3-hole course, also lands in range |
| GolfStateReceptors.NextHolePlayers | GolfStateReceptors.ts:238-248 | the roster keeps its length |
| GolfStateReceptors.ResetRoster | GolfStateReceptors.ts:238-248 | the two roster loops of nextHole compute exactly NextHolePlayers |
| GolfStateReceptors.NextHoleKeepsRoster | GolfStateReceptors.ts:238-248 | a hole change keeps every id, connection flag, view flag and player number, and zeroes every stroke. It clears the scores exactly when a new round starts |
| GolfStateReceptors.ViewAfter | GolfStateReceptors.ts:285-293 | the definition of the tri-state update: a boolean sets the flag, and 'toggle' inverts it. ScorecardTriState states what a sequence of updates gives |
| GolfStateReceptors.SetScorecard | GolfStateReceptors.ts:283-286 | only the named player's scorecard flag changes, as the tri-state value says; an unknown user changes nothing |
| GolfStateReceptors.SetCourseScore | GolfStateReceptors.ts:291-294 | only the named player's course-score flag changes, as the tri-state value says; an unknown user changes nothing |
| GolfStateReceptors.ScorecardTriState | GolfStateReceptors.ts:283-286 | show, toggle, toggle gives shown, hidden, shown, and returns to the roster after the first show without moving the player |
| GolfStateReceptors.LeavePlayers | GolfStateReceptors.ts:301 | no entry is removed; the leaver is marked disconnected, and nothing else of any entry changes |
| GolfStateReceptors.LeaveThenRejoinRestores | GolfStateReceptors.ts:51-54 | a connected player who leaves and rejoins gets back exactly their entry, scores and stroke included |
| GolfStateReceptors.JoinLeaveJoin | GolfStateReceptors.ts:51-67 | join, leave, join gives the same roster as one join |
| GolfStateReceptors.StrokeTimers | GolfStateReceptors.ts:102 | the definition of the intended stroke reset: on the host the ball timer restarts at 0 and the slow-frame count is kept; elsewhere nothing changes. StrokeStartsWarmUp states what it leads to |
| GolfStateReceptors.StrokeTimersAsWritten | GolfStateReceptors.ts:102 | the definition of the stroke as the program writes it: the counters are kept. StaleTimerReportsAtOnce states what it leads to |
| GolfStateReceptors.Match.constructor | GolfSystem.ts:41-61 | an empty roster, no turn holder, hole 5, no balls, zero counters and no pars |
| GolfStateReceptors.Match.ReceptorSendState | GolfStateReceptors.ts:24-26 | the snapshot replaces the document |
| GolfStateReceptors.Match.ReceptorSpawnAvatar | GolfStateReceptors.ts:49-79 | the roster is the join result and the turn follows the join rule. The document between the join and the turn rule keeps the invariant. The host sends the joiner the document after the turn rule, because the snapshot is the live document object, and then spawns their ball and club |
| GolfStateReceptors.Match.ReceptorPlayerStroke | GolfStateReceptors.ts:94-103 | the sender's stroke grows by exactly 1 and no other entry changes. The sender's ball moves. The counters become StrokeTimers of the old counters, so the host restarts its ball timer |
| GolfStateReceptors.Match.ReceptorSpawnBall | GolfStateReceptors.ts:108-123 | a member's ball is registered waiting if they hold the turn and inactive otherwise; a non-member's spawn changes nothing |
| GolfStateReceptors.Match.ReceptorBallStopped | GolfStateReceptors.ts:134-144 | the ball is in the hole exactly when reported so, and stopped otherwise. The host dispatches exactly one next turn for the same user |
| GolfStateReceptors.Match.ReceptorNextTurn | GolfStateReceptors.ts:159-226 | the roster, turn holder, balls and dispatches become those of NextTurnOutcome for the old state |
| GolfStateReceptors.Match.ReceptorNextHole | GolfStateReceptors.ts:234-266 | the hole becomes NextHoleNumber of the old hole and the number of pars read, (h + 1) mod that number; every stroke is zeroed, and scores are cleared exactly on wrapping to 0. The first player in join order takes the turn, and the host resets their ball to the new tee |
| GolfStateReceptors.Match.ReceptorResetBall | GolfStateReceptors.ts:272-278 | an existing ball waits again; a missing one is left alone |
| GolfStateReceptors.Match.ReceptorLookAtScoreboard | GolfStateReceptors.ts:283-286 | the roster becomes SetScorecard's |
| GolfStateReceptors.Match.ReceptorShowCourseScore | GolfStateReceptors.ts:291-294 | the roster becomes SetCourseScore's |
| GolfStateReceptors.Match.ReceptorPlayerLeave | GolfStateReceptors.ts:299-311 | the leaver is marked disconnected and the turn holder is unchanged. The host dispatches a reset of the leaver's ball and then a next turn exactly when the leaver held the turn |
| GolfStateReceptors.Match.Handled | GolfStateReceptors.ts:24-38 | the effect of each action on the document, the balls, the counters and the dispatch, one case per handler, as the receptor methods state it |
| GolfStateReceptors.Match.ApplyTurnAction | GolfStateReceptors.ts:24-38 | a snapshot, spawn, next turn, next hole or leave has exactly the effect Handled gives it |
| GolfStateReceptors.Match.ApplyOtherAction | GolfStateReceptors.ts:24-38 | every other accepted action has exactly the effect Handled gives it; XR mode, club spawn and add-hole change nothing |
| GolfStateReceptors.Match.Apply | GolfStateReceptors.ts:20-41 | a rejected action changes nothing and dispatches nothing. An accepted action has exactly the effect Handled gives it: the document, the balls, the counters and the dispatch of its handler. XR mode, club spawn and add-hole leave the match as it was. A non-host never dispatches, and only a stroke touches the ball timer. The document invariant is kept |
| GolfSystem.EmitLeaves | GolfSystem.ts:112-115 | the host dispatches exactly one leave per departed avatar, in order, carrying its user id; others dispatch nothing |
| GolfSystem.SomeStrike | GolfSystem.ts:117-128 | a strike in a frame needs the local participant to be on the roster and to hold the turn |
| GolfSystem.SomeStrikeIff | GolfSystem.ts:117-128 | a frame has a strike exactly when some club is the local participant's, its owner holds the turn, and it touches the ball |
| GolfSystem.FindStrike | GolfSystem.ts:117-128 | the club loop finds a strike exactly when SomeStrike holds |
| GolfSystem.DetectHits | GolfSystem.ts:117-140 | when the current player's ball exists and waits and some club strikes, the ball moves and exactly one stroke is dispatched; otherwise nothing changes |
| GolfSystem.ContainsIff | GolfSystem.ts:149 | the substring test holds exactly when the substring occurs at some index |
| GolfSystem.TeeNamesAreTees | GolfSystem.ts:149 | every name under which a tee is looked up is recognised as a tee when it enters |
| GolfSystem.TeePars | GolfSystem.ts:142-155 | at most one par per entering entity |
| GolfSystem.TeeParsAppend | GolfSystem.ts:142-155 | reading two batches in turn gives the pars of both, in order |
| GolfSystem.TeeParsFromTees | GolfSystem.ts:142-155 | every par read is the par of an entering entity whose name contains GolfTee |
| GolfSystem.ReadTeePars | GolfSystem.ts:142-155 | the pars of the entering tees are appended in order of entry |
| GolfSystem.StopFrame | GolfSystem.ts:166-178 | the ball timer grows by exactly 1. A stop needs the warm-up to be over and a known position, and it zeroes the slow-frame count. Without a stop, the slow-frame count never drops. Time-out or a fall below the floor with a known position stops the ball. During the warm-up nothing else changes |
| GolfSystem.StopFrameRule | GolfSystem.ts:172-174 | past the warm-up with a known position, the ball stops exactly when the slow count exceeds 60, it is below -100, or the timer exceeds 300; otherwise the slow count grows by one exactly on a slow frame |
| GolfSystem.StopFrameWithoutPosition | GolfSystem.ts:170-171 | a frame without a position only counts up the ball timer |
| GolfSystem.StillBallNotReported | GolfSystem.ts:163 | a ball that is not moving is never reported and its counters do not change |
| GolfSystem.AtMostOneReport | GolfSystem.ts:174-199 | over any run of frames after a stroke, at most one stop is reported, and a reported ball ends stopped |
| GolfSystem.Detect | GolfSystem.ts:157-205 | over a run of frames a ball either keeps its status or goes from moving to stopped, and it changes only when a stop is reported |
| GolfSystem.NoReportDuringWarmUp | GolfSystem.ts:166-167 | during the warm-up nothing is reported and only the ball timer counts up |
| GolfSystem.StrokeStartsWarmUp | GolfSystem.ts:166-174 | with the ball timer reset at the stroke, nothing is reported for the first 60 frames, and while the position is known the ball is reported exactly once by the 301st frame |
| GolfSystem.StaleTimerReportsAtOnce | GolfSystem.ts:166-174 | as the stroke is written, a host whose ball timer reached 300 reports the new stroke's ball stopped on its first frame with a known position |
| GolfSystem.ReportedWithinTimeout | GolfSystem.ts:166-174 | while the position is known, a moving ball is reported exactly once by the 301st frame after its stroke |
| GolfSystem.DetectStop | GolfSystem.ts:157-205 | on the host, with the current ball moving, the counters take one frame step. On a stop the ball is stopped and one ball-stopped is dispatched: the turn holder's id, the position, in-hole as distance below the tolerance, and out-of-bounds as no ground hit. Otherwise nothing changes |
| GolfSystem.Tick | GolfSystem.ts:111-206 | the document is not changed and the invariant is kept; the pars of entering tees are appended. The balls and counters are the hit gate's followed by one stop-detection step. The dispatch is the host's leaves in order, then the stroke when the waiting ball was struck, then ball-stopped when that step stops the ball. Only leaves, strokes and ball-stopped are dispatched, and a non-host dispatches only strokes |

## Left out

- Rendering and UI are not modelled: scorecards, menus, the XR interface, routes, avatar rig set-up and player input set-up. So `setXRMode` is a no-op in the model; in the program it changes only the avatar rig on a client.
- Physics is not modelled. Velocities, positions and hole distances enter stop detection as an observation per frame, with the thresholds written as reals. The force and teleport of `hitBall` are not modelled; only its guard that the ball waits is kept, as the hit gate. Ball and club `update` calls are not modelled.
- Teleports are not modelled: the client-only teleports of the ball in `ballStopped`, including the out-of-bounds return to the tee, and of the spawn pose in `nextHole`; and the teleport of the ball in `resetBall`, which every participant does. Positions are carried as values; resetting a ball only sets it waiting.
- `setBallState` is not part of this model. The model assumes it changes nothing when the ball entity does not exist.
- Creating ball and club entities (`initializeGolfBall`, `initializeGolfClub`) is not part of this model. A spawned ball is assumed registered under its owner's player number. `spawnClub` changes nothing in the model. A ball spawned for a user not on the roster is not registered.
- The hookstate store, batching and ts-matches validation are not modelled. Payload shapes are the datatype's fields. A set of the whole document is a field assignment, and an array merge is an append.
- Networking is not modelled. `dispatchFrom` is the returned action list. A dispatch from the host is gated by being the host, and the stroke's dispatch from the local user is not gated. The recipient of the state snapshot is kept as a field.
- Avatar entities are not modelled. Comparing the owner's avatar entity with the current player's is modelled as comparing their user ids, and a local club is one whose owner is the local user.
- The bot hooks and console logging are not modelled.
- GolfStateReceptors.Match.ReceptorPlayerStroke: models the intended reset of the ball timer, not the plain property assignment the program writes (see Findings).
- GolfStateReceptors.Match.ReceptorPlayerLeave, GolfStateReceptors.Match.ReceptorNextTurn: the engine's removal of a departed user's ball is not modelled, so in the model a queued next turn for the leaver can still score them. NextTurnWithoutBall states what happens once the ball is gone.
- GolfStateReceptors.Match.ReceptorSpawnAvatar: the snapshot the host sends is the document after the turn rule (lines 75-78). The program passes the live store object at line 69 and the turn rule writes into it before the action leaves. The model takes that value and does not model the object reference itself.
- The action catalog declares no `playerLeave`, though the receptor and the tick use it. The model assumes an action carrying the leaver's user id, accepted only from the host like the catalog's other plain `matches`.
- The `resetBall` action declares a required `disconnect` flag, but no dispatch supplies it, so the field is optional in the model.
- The `spawnBall` and `spawnClub` actions declare a required `playerNumber`, but the dispatches in `spawnAvatar` supply only the user id. The model assumes the spawn is accepted without it, and takes the player number from the roster.
- The `addHole` action is declared but no handler matches it, so the receptor ignores it.
- GolfStateReceptors.Match.ReceptorNextHole: requires at least one par read, a non-empty roster and a tee for the new hole. Without them the program computes NaN or indexes an empty roster.
- GolfStateReceptors.Match.ReceptorNextTurn: requires a turn holder who is on the roster, and a tee for the current hole. The program fails without them.
- GolfStateReceptors.Match.ReceptorPlayerLeave: requires the tee for the current hole when the host must reset the leaver's ball.
- GolfStateReceptors.Match.ReceptorSendState: requires the snapshot to satisfy the document invariant (no duplicate ids, a member or nobody holding the turn, a non-negative hole). The program accepts any payload.
- GolfSystem.DetectHits: requires every club's number to index the roster, which the program also needs to look up the owner.
- GolfSystem.DetectHits: the loop over clubs first decides whether any club strikes, and the ball is then set moving at most once. The program interleaves the status test and the write per club. The result is the same, because a ball set moving no longer waits.
- The test file is stale and is not followed. Its expectation that the turn passes to the second player contradicts the code, which starts the rotation at the turn holder's own index; `CurrentKeepsTurn` proves the code's behaviour. The initial hole is 5, as the code says.
- `nextTurn` retires `u`'s ball before choosing the next player. When `u`'s ball is also the chosen player's ball, it ends waiting rather than inactive.

## Findings

| source | as written | input that shows it | evidently intended | confidence | as-written member | corrected member |
|---|---|---|---|---|---|---|
| GolfStateReceptors.ts:102 | `LocalGolfState.ballTimer = 0` assigns a property of the store object instead of calling its setter, so the counter that stop detection reads is not reset (the assignment either leaves the stored value or throws; it is the handler's last statement, so nothing else is lost) | a host whose ball timer reached 300 on an earlier stroke; the next stroke's first frame with a known position | the ball timer restarts at 0, so each stroke gets the 60-frame warm-up and up to 300 frames to stop | not executed | GolfSystem.StaleTimerReportsAtOnce | GolfSystem.StrokeStartsWarmUp |
