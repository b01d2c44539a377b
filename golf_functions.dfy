/**
 * Roster lookups and the names under which the ball, club, tee and hole
 * entities of the scene are registered.
 */
module GolfFunctions {
  import opened Wrappers
  import opened GolfState

  /** getGolfPlayerNumber: the index of the first entry with this user id, or -1. */
  function PlayerNumber(players: seq<Player>, u: UserId): (n: int)
    ensures -1 <= n < |players|
    ensures 0 <= n ==> players[n].userId == u
    ensures forall j :: 0 <= j < |players| && (n == -1 || j < n) ==> players[j].userId != u
  {
    if |players| == 0 then -1
    else if players[0].userId == u then 0
    else
      var k := PlayerNumber(players[1..], u);
      if k == -1 then -1 else k + 1
  }

  /** getGolfPlayerState: the first entry with this user id, if any. */
  function PlayerEntry(players: seq<Player>, u: UserId): (r: Option<Player>)
    ensures var n := PlayerNumber(players, u);
            r == if 0 <= n then Some(players[n]) else None
  {
    if |players| == 0 then None
    else if players[0].userId == u then Some(players[0])
    else PlayerEntry(players[1..], u)
  }

  /** isCurrentGolfPlayer: whether `u` holds the turn. */
  function IsCurrentGolfPlayer(currentPlayerId: Option<UserId>, u: UserId): (r: bool)
    ensures r <==> currentPlayerId.Some? && currentPlayerId.value == u
  {
    currentPlayerId == Some(u)
  }

  /**
   * getPlayerEntityFromNumber: the user whose avatar is the entity of player
   * number `n`; indexing outside the roster is an error in the program.
   */
  function PlayerIdFromNumber(players: seq<Player>, n: int): (u: UserId)
    requires 0 <= n < |players|
    ensures Distinct(players) ==> PlayerNumber(players, u) == n
  {
    players[n].userId
  }

  /** Two user ids of the roster with the same player number are the same user. */
  lemma PlayerNumberInjective(players: seq<Player>, u: UserId, v: UserId)
    requires 0 <= PlayerNumber(players, u)
    requires PlayerNumber(players, u) == PlayerNumber(players, v)
    ensures u == v
  {
  }

  /** Player numbers depend on the user ids of the roster only. */
  lemma {:induction false} SameIdsSameNumber(players: seq<Player>, others: seq<Player>, u: UserId)
    requires |players| == |others|
    requires forall i :: 0 <= i < |players| ==> players[i].userId == others[i].userId
    ensures PlayerNumber(players, u) == PlayerNumber(others, u)
  {
    if |players| > 0 && players[0].userId != u {
      SameIdsSameNumber(players[1..], others[1..], u);
    }
  }

  // ----- entity names -----

  function DigitChar(d: nat): (c: char)
    requires d < 10
    ensures '0' <= c <= '9'
  {
    (('0' as int) + d) as char
  }

  /** The decimal digits of `n` with no leading zero, as JavaScript prints an integer. */
  function NatToString(n: nat): (r: string)
    ensures 1 <= |r|
    ensures (|r| == 1) <==> (n < 10)
    ensures forall i :: 0 <= i < |r| ==> '0' <= r[i] <= '9'
  {
    if n < 10 then [DigitChar(n)] else NatToString(n / 10) + [DigitChar(n % 10)]
  }

  /** The text a template literal gives an integer: a '-' before the digits of a negative one. */
  function IntToString(i: int): (r: string)
    ensures 1 <= |r| && (r[0] == '-' <==> i < 0)
  {
    if i < 0 then "-" + NatToString(-i) else NatToString(i)
  }

  lemma {:induction false} NatToStringInjective(a: nat, b: nat)
    requires NatToString(a) == NatToString(b)
    ensures a == b
  {
    if a >= 10 {
      var ra, rb := NatToString(a), NatToString(b);
      assert ra == NatToString(a / 10) + [DigitChar(a % 10)];
      assert rb == NatToString(b / 10) + [DigitChar(b % 10)];
      assert NatToString(a / 10) == ra[..|ra| - 1];
      assert NatToString(b / 10) == rb[..|rb| - 1];
      NatToStringInjective(a / 10, b / 10);
      assert DigitChar(a % 10) == ra[|ra| - 1] == DigitChar(b % 10);
    }
  }

  lemma IntToStringInjective(a: int, b: int)
    requires IntToString(a) == IntToString(b)
    ensures a == b
  {
    if a < 0 && b < 0 {
      assert NatToString(-a) == IntToString(a)[1..];
      assert NatToString(-b) == IntToString(b)[1..];
      NatToStringInjective(-a, -b);
    } else if 0 <= a && 0 <= b {
      NatToStringInjective(a, b);
    }
  }

  /** The name of an entity of a family (ball, club, tee, hole) numbered `n`. */
  function EntityName(family: string, n: int): (r: string)
    ensures |family| + 1 < |r|
    ensures r[..|family| + 1] == family + "-" && r[|family| + 1..] == IntToString(n)
  {
    family + "-" + IntToString(n)
  }

  const BallFamily := "GolfBall"
  const ClubFamily := "GolfClub"
  const TeeFamily := "GolfTee"
  const HoleFamily := "GolfHole"

  /** getBall: a ball is registered under its owner's player number, -1 for a user off the roster. */
  function BallName(players: seq<Player>, u: UserId): string {
    EntityName(BallFamily, PlayerNumber(players, u))
  }

  /** getClub: a club is registered under its owner's player number, -1 for a user off the roster. */
  function ClubName(players: seq<Player>, u: UserId): string {
    EntityName(ClubFamily, PlayerNumber(players, u))
  }

  /** getTee: the tee of hole `h`. */
  function TeeName(h: int): string {
    EntityName(TeeFamily, h)
  }

  /** getHole: the hole entity of hole `h`. */
  function HoleName(h: int): string {
    EntityName(HoleFamily, h)
  }

  /** Within one family, different numbers give different names. */
  lemma EntityNameInjective(family: string, a: int, b: int)
    requires EntityName(family, a) == EntityName(family, b)
    ensures a == b
  {
    var p := family + "-";
    assert IntToString(a) == EntityName(family, a)[|p|..];
    assert IntToString(b) == EntityName(family, b)[|p|..];
    IntToStringInjective(a, b);
  }

  /** Two different players' balls (and clubs) have different names. */
  lemma DistinctPlayersDistinctNames(players: seq<Player>, u: UserId, v: UserId)
    requires 0 <= PlayerNumber(players, u) && 0 <= PlayerNumber(players, v)
    requires u != v
    ensures BallName(players, u) != BallName(players, v)
    ensures ClubName(players, u) != ClubName(players, v)
  {
    if BallName(players, u) == BallName(players, v) {
      EntityNameInjective(BallFamily, PlayerNumber(players, u), PlayerNumber(players, v));
    }
    if ClubName(players, u) == ClubName(players, v) {
      EntityNameInjective(ClubFamily, PlayerNumber(players, u), PlayerNumber(players, v));
    }
  }

  /** Different holes have different tee and hole entities. */
  lemma DistinctHolesDistinctNames(h: int, k: int)
    requires h != k
    ensures TeeName(h) != TeeName(k) && HoleName(h) != HoleName(k)
  {
    if TeeName(h) == TeeName(k) { EntityNameInjective(TeeFamily, h, k); }
    if HoleName(h) == HoleName(k) { EntityNameInjective(HoleFamily, h, k); }
  }

  /** getCoursePar: the par stored on the tee of hole `h`; a missing tee is an error in the program. */
  function CoursePar(tees: map<string, Tee>, h: int): (r: int)
    requires TeeName(h) in tees
    ensures tees[TeeName(h)] == Tee(r, TeePosition(tees, h))
  {
    tees[TeeName(h)].par
  }

  /** getTeePosition: where the tee of hole `h` stands; a missing tee is an error in the program. */
  function TeePosition(tees: map<string, Tee>, h: int): Position
    requires TeeName(h) in tees
  {
    tees[TeeName(h)].position
  }
}
