/**
 * The game store (src/store/gameStore.js): one mutable object holding the
 * turn state, the dice, the build tally and the players, changed only by the
 * actions rollDice, toggleLock, performBuild, endTurn and resetGame.
 *
 * The random faces of a roll are an argument of RollDice.
 */
module GameStore {
  import opened ResourceValidation
  import opened ResourceConsumption

  datatype Player = Player(id: string, name: string, score: int, turnsCompleted: int)

  datatype Status = Lobby | InProgress | Finished

  /** A build type, as the keys of the build tally; any other key is `OtherBuild`. */
  datatype BuildKind = Roads | Settlements | Cities | Knights | OtherBuild(name: string)

  /** How many of a build type may exist; an unknown type is capped at 999. */
  function Cap(t: BuildKind): nat {
    match t
    case Roads => 15
    case Settlements => 5
    case Cities => 4
    case Knights => 14
    case OtherBuild(_) => 999
  }

  /** Points per build of a type in the store's scoring; an unknown type scores nothing. */
  function PointValue(t: BuildKind): nat {
    match t
    case Roads => 1
    case Settlements => 3
    case Cities => 5
    case Knights => 2
    case OtherBuild(_) => 0
  }

  /** The tally of a build type; a type not in the tally counts as zero. */
  function Built(builds: map<BuildKind, nat>, t: BuildKind): nat {
    if t in builds then builds[t] else 0
  }

  /** The score of a build tally: each build weighted by its type's points. */
  function Score(builds: map<BuildKind, nat>): nat {
    Built(builds, Roads) * PointValue(Roads) + Built(builds, Settlements) * PointValue(Settlements) +
    Built(builds, Cities) * PointValue(Cities) + Built(builds, Knights) * PointValue(Knights)
  }

  /** A tally within the caps. */
  predicate WithinCaps(builds: map<BuildKind, nat>) {
    forall t :: t in builds ==> builds[t] <= Cap(t)
  }

  /** One more build of type `t` raises the score by exactly that type's points. */
  lemma ScoreOfBuild(builds: map<BuildKind, nat>, t: BuildKind)
    ensures Score(builds[t := Built(builds, t) + 1]) == Score(builds) + PointValue(t)
  {
  }

  /** Within the caps the store's score is at most 15 + 15 + 20 + 28 = 78. */
  lemma ScoreBound(builds: map<BuildKind, nat>)
    requires WithinCaps(builds)
    ensures Score(builds) <= 78
  {
    var r, s, c, k := Built(builds, Roads), Built(builds, Settlements), Built(builds, Cities), Built(builds, Knights);
    assert r <= 15 && s <= 5 && c <= 4 && k <= 14;
    assert Score(builds) == r + 3 * s + 5 * c + 2 * k;
  }

  /** What one accepted build does to the store's invariants: the tally stays
      within the caps, the score rises by the type's points, the dice keep their faces. */
  lemma BuildStep(builds: map<BuildKind, nat>, t: BuildKind, dice: seq<Die>, required: seq<Resource>)
    requires WithinCaps(builds) && Built(builds, t) < Cap(t) && FacesInRange(dice)
    ensures WithinCaps(builds[t := Built(builds, t) + 1])
    ensures Score(builds[t := Built(builds, t) + 1]) == Score(builds) + PointValue(t)
    ensures |Consumed(dice, required)| == |dice| && FacesInRange(Consumed(dice, required))
  {
    ScoreOfBuild(builds, t);
    ConsumedSpends(dice, required);
  }

  /** The dice as the store starts and restarts: faces 1..6, free and unused. */
  function InitialDice(): seq<Die> {
    [
    Die(1, false, false), Die(2, false, false), Die(3, false, false),
    Die(4, false, false), Die(5, false, false), Die(6, false, false)]
  }

  /** The four players the store starts with. */
  function InitialPlayers(): seq<Player> {
    [Player("1", "Player 1", 0, 0), Player("2", "Player 2", 0, 0),
     Player("3", "Player 3", 0, 0), Player("4", "Player 4", 0, 0)]
  }

  /** The empty build tally. */
  function NoBuilds(): map<BuildKind, nat> {
    map[Roads := 0, Settlements := 0, Cities := 0, Knights := 0]
  }

  /** Every face shows 1..6. */
  predicate FacesInRange(dice: seq<Die>) {
    forall i :: 0 <= i < |dice| ==> 1 <= dice[i].value <= 6
  }

  // ---------------------------------------------------------------------------
  // Per-action computations over the dice and the players

  /** The dice after a roll that drew `faces`: a locked die stays exactly as it
      was; an unlocked die shows its drawn face and is no longer used. */
  function Rolled(dice: seq<Die>, faces: seq<int>): (r: seq<Die>)
    requires |faces| == |dice|
    ensures |r| == |dice|
    ensures forall i :: 0 <= i < |dice| && dice[i].locked ==> r[i] == dice[i]
    ensures forall i :: 0 <= i < |dice| && !dice[i].locked ==>
      r[i].value == faces[i] && !r[i].locked && !r[i].used
  {
    seq(|dice|, i requires 0 <= i < |dice| =>
      if dice[i].locked then dice[i] else dice[i].(value := faces[i], used := false))
  }

  /** The dice with the lock of die `index` flipped; an index out of range changes nothing. */
  function FlipLock(dice: seq<Die>, index: int): (r: seq<Die>)
    ensures |r| == |dice|
    ensures forall i :: 0 <= i < |dice| && i != index ==> r[i] == dice[i]
    ensures 0 <= index < |dice| ==>
      r[index].locked == !dice[index].locked && r[index].value == dice[index].value &&
      r[index].used == dice[index].used
  {
    seq(|dice|, i requires 0 <= i < |dice| =>
      if i == index then dice[i].(locked := !dice[i].locked) else dice[i])
  }

  /** Toggling the same die twice gives back the dice. */
  lemma FlipLockTwice(dice: seq<Die>, index: int)
    ensures FlipLock(FlipLock(dice, index), index) == dice
  {
  }

  /** The dice at the end of a turn: every die unlocked and unused, faces kept. */
  function ClearedDice(dice: seq<Die>): (r: seq<Die>)
    ensures |r| == |dice|
    ensures forall i :: 0 <= i < |dice| ==> r[i] == Die(dice[i].value, false, false)
  {
    seq(|dice|, i requires 0 <= i < |dice| => dice[i].(locked := false, used := false))
  }

  /** The players with every player whose id is `id` given `score`. */
  function WithScore(players: seq<Player>, id: string, score: int): (r: seq<Player>)
    ensures |r| == |players|
    ensures forall i :: 0 <= i < |players| ==>
      r[i] == if players[i].id == id then players[i].(score := score) else players[i]
  {
    seq(|players|, i requires 0 <= i < |players| =>
      if players[i].id == id then players[i].(score := score) else players[i])
  }

  /** The position of the first player with id `id`, or -1 when there is none. */
  function FindIndex(players: seq<Player>, id: string): (r: int)
    ensures -1 <= r < |players|
    ensures r == -1 <==> forall j :: 0 <= j < |players| ==> players[j].id != id
    ensures r >= 0 ==> players[r].id == id && forall j :: 0 <= j < r ==> players[j].id != id
  {
    if players == [] then -1
    else if players[0].id == id then 0
    else
      var r := FindIndex(players[1..], id);
      if r == -1 then -1 else r + 1
  }

  /** The players with player `index` credited one more completed turn. */
  function CompleteTurn(players: seq<Player>, index: int): (r: seq<Player>)
    ensures |r| == |players|
    ensures forall i :: 0 <= i < |players| && i != index ==> r[i] == players[i]
    ensures 0 <= index < |players| ==>
      r[index] == players[index].(turnsCompleted := players[index].turnsCompleted + 1)
  {
    seq(|players|, i requires 0 <= i < |players| =>
      if i == index then players[i].(turnsCompleted := players[i].turnsCompleted + 1) else players[i])
  }

  // ---------------------------------------------------------------------------
  // Whose turn it is

  /** Whose turn it is and in which round. */
  datatype Seat = Seat(playerId: string, turnNumber: int)

  /** The seat after one endTurn: the next player in circular order, the round
      counter raised when play wraps back to the first player. A current id not
      found among the players counts as position -1, so play goes to the first
      player and the round counter rises. */
  function NextSeat(players: seq<Player>, s: Seat): Seat
    requires |players| > 0
  {
    var c := FindIndex(players, s.playerId);
    var next := if c + 1 == |players| then 0 else c + 1;
    Seat(players[next].id, if next == 0 then s.turnNumber + 1 else s.turnNumber)
  }

  /** One past a position, taken modulo the player count. */
  lemma WrapStep(m: int, n: int)
    requires 0 <= m <= n && n > 0
    ensures m % n == if m == n then 0 else m
  {
    if m == n {
      assert m % n == (0 + 1 * n) % n;
    }
  }

  /** The seat after `k` endTurns. */
  function SeatAfter(players: seq<Player>, s: Seat, k: nat): Seat
    requires |players| > 0
  {
    if k == 0 then s else NextSeat(players, SeatAfter(players, s, k - 1))
  }

  predicate DistinctIds(players: seq<Player>) {
    forall i, j :: 0 <= i < j < |players| ==> players[i].id != players[j].id
  }

  /** With distinct ids, a player's id is found at that player's own position. */
  lemma FindOwnIndex(players: seq<Player>, i: nat)
    requires DistinctIds(players) && i < |players|
    ensures FindIndex(players, players[i].id) == i
  {
  }

  /** With distinct ids, one endTurn from position i moves play to i + 1, or to
      position 0 in the next round after the last player. */
  lemma NextSeatAt(players: seq<Player>, i: nat, turn: int)
    requires DistinctIds(players) && i < |players|
    ensures NextSeat(players, Seat(players[i].id, turn)) ==
      if i + 1 == |players| then Seat(players[0].id, turn + 1) else Seat(players[i + 1].id, turn)
  {
    FindOwnIndex(players, i);
  }

  /** A position in the seating order and a round number. */
  datatype Place = Place(position: nat, round: int)

  /** One endTurn on positions: the next position, back to 0 in the next round
      after the last of `n` players. */
  function Advance(n: nat, p: Place): Place {
    if p.position + 1 >= n then Place(0, p.round + 1) else Place(p.position + 1, p.round)
  }

  function AdvanceBy(n: nat, p: Place, k: nat): Place {
    if k == 0 then p else Advance(n, AdvanceBy(n, p, k - 1))
  }

  /** The seat of the player at a place. */
  function SeatAt(players: seq<Player>, p: Place): Seat
    requires p.position < |players|
  {
    Seat(players[p.position].id, p.round)
  }

  /** With distinct ids, endTurns on seats follow endTurns on positions. */
  lemma {:induction false} SeatsFollowPlaces(players: seq<Player>, p: Place, k: nat)
    requires DistinctIds(players) && p.position < |players|
    ensures AdvanceBy(|players|, p, k).position < |players|
    ensures SeatAfter(players, SeatAt(players, p), k) == SeatAt(players, AdvanceBy(|players|, p, k))
  {
    if k > 0 {
      SeatsFollowPlaces(players, p, k - 1);
      var q := AdvanceBy(|players|, p, k - 1);
      NextSeatAt(players, q.position, q.round);
    }
  }

  /** `k <= n` steps from position `c` reach position c + k, wrapping past the
      last position into the next round. */
  lemma {:induction false} WalkPlaces(n: nat, c: nat, turn: int, k: nat)
    requires c < n && k <= n
    ensures AdvanceBy(n, Place(c, turn), k) ==
      if c + k < n then Place(c + k, turn) else Place(c + k - n, turn + 1)
  {
    if k > 0 {
      WalkPlaces(n, c, turn, k - 1);
    }
  }

  /** With distinct ids, `k <= n` endTurns from position `c` move play to
      position c + k, wrapping past the last player into the next round. */
  lemma Walk(players: seq<Player>, c: nat, turn: int, k: nat)
    requires DistinctIds(players) && c < |players| && k <= |players|
    ensures SeatAfter(players, Seat(players[c].id, turn), k) ==
      if c + k < |players| then Seat(players[c + k].id, turn)
      else Seat(players[c + k - |players|].id, turn + 1)
  {
    SeatsFollowPlaces(players, Place(c, turn), k);
    WalkPlaces(|players|, c, turn, k);
  }

  /** With distinct ids, a full round of endTurns gives the turn back to the
      same player, and the round counter has risen by exactly one. */
  lemma FullRound(players: seq<Player>, c: nat, turn: int)
    requires DistinctIds(players) && c < |players|
    ensures SeatAfter(players, Seat(players[c].id, turn), |players|) == Seat(players[c].id, turn + 1)
  {
    Walk(players, c, turn, |players|);
  }

  /** The new tally, players and dice of an accepted build of type `t`: the
      tally one higher for `t`, the dice paying for `required`, and player `id`
      given the score of the new tally. */
  method ApplyBuild(builds: map<BuildKind, nat>, t: BuildKind, dice: seq<Die>, required: seq<Resource>,
                    players: seq<Player>, id: string)
    returns (newBuilds: map<BuildKind, nat>, newPlayers: seq<Player>, newDice: seq<Die>)
    requires WithinCaps(builds) && Built(builds, t) < Cap(t) && FacesInRange(dice)
    ensures newBuilds == builds[t := Built(builds, t) + 1] && WithinCaps(newBuilds)
    ensures Score(newBuilds) == Score(builds) + PointValue(t)
    ensures newDice == Consumed(dice, required) && |newDice| == |dice| && FacesInRange(newDice)
    ensures newPlayers == WithScore(players, id, Score(newBuilds)) && |newPlayers| == |players|
  {
    newBuilds := builds[t := Built(builds, t) + 1];
    newDice := ConsumeResources(dice, required);
    BuildStep(builds, t, dice, required);
    var newScore := Score(newBuilds);
    newPlayers := WithScore(players, id, newScore);
  }

  // ---------------------------------------------------------------------------
  // The store

  class Store {
    var players: seq<Player>
    var currentPlayerId: string
    var turnNumber: int
    var rollCount: int
    const maxRolls: int := 3
    const maxTurns: int := 15
    var dice: seq<Die>
    var status: Status
    var builds: map<BuildKind, nat>

    /** What every action keeps true: the roll counter within its bound, six
        dice with faces 1..6, at least one player, the game finished exactly
        when the round counter has passed the turn limit, builds within caps. */
    ghost predicate Valid()
      reads this
    {
      && 0 <= rollCount <= maxRolls
      && |dice| == 6 && FacesInRange(dice)
      && |players| > 0
      && turnNumber >= 1
      && status != Lobby && (status == Finished <==> turnNumber > maxTurns)
      && WithinCaps(builds)
    }

    /** The store as first created: four players, player "1" to move, round 1. */
    constructor ()
      ensures Valid()
      ensures players == InitialPlayers() && currentPlayerId == "1"
      ensures turnNumber == 1 && rollCount == 0
      ensures dice == InitialDice() && status == InProgress && builds == NoBuilds()
    {
      players := InitialPlayers();
      currentPlayerId := "1";
      turnNumber := 1;
      rollCount := 0;
      dice := InitialDice();
      status := InProgress;
      builds := NoBuilds();
    }

    /** Rolls the unlocked dice, which show `faces` afterwards, unless the
        rolls of this turn are used up, in which case nothing changes. */
    method RollDice(faces: seq<int>)
      requires Valid()
      requires |faces| == |dice| && forall i :: 0 <= i < |faces| ==> 1 <= faces[i] <= 6
      modifies this
      ensures Valid()
      ensures old(rollCount) >= maxRolls ==> unchanged(this)
      ensures old(rollCount) < maxRolls ==>
        rollCount == old(rollCount) + 1 && dice == Rolled(old(dice), faces)
      ensures players == old(players) && currentPlayerId == old(currentPlayerId)
      ensures turnNumber == old(turnNumber) && status == old(status) && builds == old(builds)
    {
      if rollCount < maxRolls {
        dice := Rolled(dice, faces);
        rollCount := rollCount + 1;
      }
    }

    /** Flips the lock of die `index`; every other die, and everything else, stays. */
    method ToggleLock(index: int)
      requires Valid()
      modifies this
      ensures Valid()
      ensures dice == FlipLock(old(dice), index)
      ensures players == old(players) && currentPlayerId == old(currentPlayerId)
      ensures turnNumber == old(turnNumber) && rollCount == old(rollCount)
      ensures status == old(status) && builds == old(builds)
    {
      dice := FlipLock(dice, index);
    }

    /** Records one build of `buildType` unless its cap is reached: the tally
        rises by one, the dice pay for `required`, and the current player's
        score becomes the score of the whole tally. At the cap nothing changes. */
    method PerformBuild(buildType: BuildKind, required: seq<Resource>)
      requires Valid()
      modifies this`builds, this`players, this`dice
      ensures Valid()
      ensures Built(old(builds), buildType) >= Cap(buildType) ==> unchanged(this)
      ensures Built(old(builds), buildType) < Cap(buildType) ==>
        && builds == old(builds)[buildType := Built(old(builds), buildType) + 1]
        && dice == Consumed(old(dice), required)
        && players == WithScore(old(players), currentPlayerId, Score(builds))
      ensures currentPlayerId == old(currentPlayerId) && turnNumber == old(turnNumber)
      ensures rollCount == old(rollCount) && status == old(status)
    {
      var currentCount := Built(builds, buildType);
      var maxAllowed := Cap(buildType);
      if currentCount < maxAllowed {
        var newBuilds, updatedPlayers, updatedDice := ApplyBuild(builds, buildType, dice, required, players, currentPlayerId);
        builds, players, dice := newBuilds, updatedPlayers, updatedDice;
      }
    }

    /** Ends the current player's turn: credits them a completed turn, passes
        play to the next player in circular order (a new round when play wraps),
        resets the roll counter and frees every die, and finishes the game once
        the round counter passes the turn limit. */
    method EndTurn()
      requires Valid()
      modifies this
      ensures Valid()
      ensures Seat(currentPlayerId, turnNumber) == NextSeat(old(players), Seat(old(currentPlayerId), old(turnNumber)))
      ensures players == CompleteTurn(old(players), FindIndex(old(players), old(currentPlayerId)))
      ensures rollCount == 0 && dice == ClearedDice(old(dice))
      ensures status == (if turnNumber > maxTurns then Finished else InProgress)
      ensures builds == old(builds)
    {
      var currentPlayerIndex := FindIndex(players, currentPlayerId);
      var nextPlayerIndex := (currentPlayerIndex + 1) % |players|;
      WrapStep(currentPlayerIndex + 1, |players|);
      var isLastPlayer := nextPlayerIndex == 0;
      var updatedPlayers := CompleteTurn(players, currentPlayerIndex);
      var newTurnNumber := if isLastPlayer then turnNumber + 1 else turnNumber;
      var gameFinished := newTurnNumber > maxTurns;
      var nextId := players[nextPlayerIndex].id;
      var clearedDice := ClearedDice(dice);
      assert Seat(nextId, newTurnNumber) == NextSeat(players, Seat(currentPlayerId, turnNumber));
      assert newTurnNumber >= 1 && |updatedPlayers| > 0;
      assert |clearedDice| == 6 && FacesInRange(clearedDice);
      currentPlayerId := nextId;
      players := updatedPlayers;
      turnNumber := newTurnNumber;
      rollCount := 0;
      dice := clearedDice;
      status := if gameFinished then Finished else InProgress;
    }

    /** Starts the game over: round 1, player "1" to move, fresh dice showing
        1..6, an empty tally, in progress. The players are left as they are. */
    method ResetGame()
      requires Valid()
      modifies this
      ensures Valid()
      ensures turnNumber == 1 && rollCount == 0 && currentPlayerId == "1"
      ensures dice == InitialDice() && builds == NoBuilds() && status == InProgress
      ensures players == old(players)
    {
      turnNumber := 1;
      rollCount := 0;
      currentPlayerId := "1";
      dice := InitialDice();
      builds := NoBuilds();
      status := InProgress;
    }
  }
}
