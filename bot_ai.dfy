/**
 * The computer player (src/utils/botAI.js).
 *
 * The bot reads the dice and the game state and picks one action: roll, lock
 * the dice of its most common face, build the first affordable item in the
 * order settlement, road, city, knight, or end the turn. It keeps its own
 * face-to-resource table, in which faces 3 and 4 are wheat and wool, the
 * reverse of the table in resourceValidation.js.
 */
module BotAI {
  import opened Options
  import opened ResourceValidation
  import opened ResourceConsumption
  import opened GameStore

  // ---------------------------------------------------------------------------
  // The bot's resource table (getResourcesFromDice)

  /** The bot's resource tally, one counter per resource name. */
  datatype Stock = Stock(wood: nat, brick: nat, wheat: nat, wool: nat, ore: nat, gold: nat)

  /** Number of unused dice showing `face`. */
  function FaceCount(dice: seq<Die>, face: int): (n: nat)
    ensures n <= |dice|
  {
    if dice == [] then 0
    else
      var d := dice[|dice| - 1];
      FaceCount(dice[..|dice| - 1], face) + (if !d.used && d.value == face then 1 else 0)
  }

  /** The bot's table of the unused dice: 1 wood, 2 brick, 3 wheat, 4 wool,
      5 ore, 6 gold; other faces count for nothing. */
  function StockOf(dice: seq<Die>): Stock {
    Stock(FaceCount(dice, 1), FaceCount(dice, 2), FaceCount(dice, 3),
          FaceCount(dice, 4), FaceCount(dice, 5), FaceCount(dice, 6))
  }

  /** Tallies the unused dice into the bot's table, one die at a time. */
  method GetResourcesFromDice(dice: seq<Die>) returns (resources: Stock)
    ensures resources == StockOf(dice)
  {
    resources := Stock(0, 0, 0, 0, 0, 0);
    for i := 0 to |dice|
      invariant resources == StockOf(dice[..i])
    {
      assert dice[..i + 1][..i] == dice[..i];
      var die := dice[i];
      if !die.used {
        match die.value
        case 1 => resources := resources.(wood := resources.wood + 1);
        case 2 => resources := resources.(brick := resources.brick + 1);
        case 3 => resources := resources.(wheat := resources.wheat + 1);
        case 4 => resources := resources.(wool := resources.wool + 1);
        case 5 => resources := resources.(ore := resources.ore + 1);
        case 6 => resources := resources.(gold := resources.gold + 1);
        case _ =>
      }
    }
    assert dice[..|dice|] == dice;
  }

  /** Counting a face is counting the kind the game's own table gives it. */
  lemma {:induction false} FaceCountIsUnusedCount(dice: seq<Die>, k: Resource)
    requires k in DiceKinds
    ensures FaceCount(dice, FaceOf(k)) == UnusedCount(dice, k)
  {
    if dice != [] {
      FaceCountIsUnusedCount(dice[..|dice| - 1], k);
      var d := dice[|dice| - 1];
      if KindOf(d) == Some(k) {
        ResourceOfInjective(d.value, FaceOf(k));
      }
    }
  }

  /** The bot's table agrees with the game's on lumber, brick, ore and gold,
      and swaps the other two: what the bot calls wheat is the game's wool
      (face 3), and what it calls wool is the game's wheat (face 4). */
  lemma StockSwapsWheatAndWool(dice: seq<Die>)
    ensures var s := StockOf(dice); var a := Available(dice);
      && s.wood == Have(a, Lumber) && s.brick == Have(a, Brick)
      && s.wheat == Have(a, Wool) && s.wool == Have(a, Wheat)
      && s.ore == Have(a, Ore) && s.gold == Have(a, Gold)
  {
    forall k | k in DiceKinds
      ensures FaceCount(dice, FaceOf(k)) == Have(Available(dice), k)
    {
      FaceCountIsUnusedCount(dice, k);
      AvailableHave(dice, k);
    }
  }

  // ---------------------------------------------------------------------------
  // Choosing a build (decideBuild)

  /** How many of `k` the player already has; an absent entry is 0. */
  function Owned(builds: map<BuildKind, int>, k: BuildKind): int {
    if k in builds then builds[k] else 0
  }

  /** The build limits the bot respects. */
  function BotCap(k: BuildKind): int {
    match k
    case Settlements => 5
    case Roads => 15
    case Cities => 4
    case Knights => 14
    case OtherBuild(_) => 0
  }

  /** The recipes the bot checks: settlement wood, brick, wheat and wool; road
      wood and brick; city two wheat and three ore; knight wool and ore. Gold
      never counts. */
  predicate Affords(res: Stock, k: BuildKind) {
    match k
    case Settlements => res.wood >= 1 && res.brick >= 1 && res.wheat >= 1 && res.wool >= 1
    case Roads => res.wood >= 1 && res.brick >= 1
    case Cities => res.wheat >= 2 && res.ore >= 3
    case Knights => res.wool >= 1 && res.ore >= 1
    case OtherBuild(_) => false
  }

  /** A build the bot would take: affordable and below its limit. */
  predicate Eligible(res: Stock, builds: map<BuildKind, int>, k: BuildKind) {
    Affords(res, k) && Owned(builds, k) < BotCap(k)
  }

  /** The order in which the bot considers builds. */
  function Priority(): seq<BuildKind> {
    [Settlements, Roads, Cities, Knights]
  }

  /** The first eligible build in priority order, or none. */
  function DecideBuild(res: Stock, builds: map<BuildKind, int>): (r: Option<BuildKind>)
    ensures r.Some? ==> r.value in Priority() && Eligible(res, builds, r.value)
  {
    if res.wood >= 1 && res.brick >= 1 && res.wheat >= 1 && res.wool >= 1 && Owned(builds, Settlements) < 5 then
      Some(Settlements)
    else if res.wood >= 1 && res.brick >= 1 && Owned(builds, Roads) < 15 then
      Some(Roads)
    else if res.wheat >= 2 && res.ore >= 3 && Owned(builds, Cities) < 4 then
      Some(Cities)
    else if res.wool >= 1 && res.ore >= 1 && Owned(builds, Knights) < 14 then
      Some(Knights)
    else
      None
  }

  /** The bot takes the first eligible build in priority order: position `j`
      is chosen exactly when it is eligible and nothing before it is, and
      nothing is chosen exactly when nothing is eligible. */
  lemma DecideBuildPriority(res: Stock, builds: map<BuildKind, int>)
    ensures DecideBuild(res, builds).None? <==>
      forall j :: 0 <= j < |Priority()| ==> !Eligible(res, builds, Priority()[j])
    ensures forall j :: 0 <= j < |Priority()| ==>
      (DecideBuild(res, builds) == Some(Priority()[j]) <==>
        Eligible(res, builds, Priority()[j]) && forall j' :: 0 <= j' < j ==> !Eligible(res, builds, Priority()[j']))
  {
    var p := Priority();
    assert p[0] == Settlements && p[1] == Roads && p[2] == Cities && p[3] == Knights;
  }

  /** The bot's limits are the store's: whatever the bot proposes, a store
      holding the same tally would still accept. */
  lemma DecideBuildWithinStoreCap(res: Stock, builds: map<BuildKind, nat>)
    ensures var owned := map k | k in builds :: builds[k] as int;
      DecideBuild(res, owned).Some? ==>
        Built(builds, DecideBuild(res, owned).value) < Cap(DecideBuild(res, owned).value)
  {
  }

  // ---------------------------------------------------------------------------
  // Choosing dice to keep (decideDiceToLock)

  /** The indices of the unused dice showing `face`, in increasing order. */
  function UnusedIndicesOf(dice: seq<Die>, face: int): (r: seq<int>)
    ensures |r| == FaceCount(dice, face)
    ensures forall i :: i in r <==> 0 <= i < |dice| && !dice[i].used && dice[i].value == face
    ensures forall p :: 0 <= p < |r| ==> 0 <= r[p] < |dice|
    ensures forall p, q :: 0 <= p < q < |r| ==> r[p] < r[q]
  {
    if dice == [] then []
    else
      var n := |dice| - 1;
      var d := dice[n];
      var front := UnusedIndicesOf(dice[..n], face);
      front + (if !d.used && d.value == face then [n] else [])
  }

  /** `face` is the face the bot keeps: shown by the most unused dice, and by
      strictly more than every smaller face, so ties go to the smallest face. */
  ghost predicate IsModalFace(dice: seq<Die>, face: int) {
    && FaceCount(dice, face) > 0
    && (forall w :: FaceCount(dice, w) <= FaceCount(dice, face))
    && (forall w :: w < face ==> FaceCount(dice, w) < FaceCount(dice, face))
  }

  /** Some die is still unused. */
  predicate AnyUnused(dice: seq<Die>) {
    exists i :: 0 <= i < |dice| && !dice[i].used
  }

  /** A non-empty set has a member: the witness the `:|` in Least needs. */
  lemma Inhabited(s: set<int>)
    requires s != {}
    ensures exists y :: y in s
  {
    if forall y :: y !in s {
      assert false;
    }
  }

  /** The least element of a finite non-empty set of integers. */
  ghost function Least(s: set<int>): (m: int)
    requires s != {}
    ensures m in s
    ensures forall x :: x in s ==> m <= x
    decreases |s|
  {
    Inhabited(s);
    var y :| y in s;
    var rest := s - {y};
    assert forall x :: x in s ==> x == y || x in rest;
    if rest == {} then y
    else
      var m := Least(rest);
      if y < m then y else m
  }

  /** The smallest key of a non-empty key set. */
  function Smallest(s: set<int>): (m: int)
    requires s != {}
    ensures m in s && forall x :: x in s ==> m <= x
  {
    // Least is ghost and cannot be returned; naming it gives the solver a
    // witness for the `:|` below.
    var least := Least(s);
    var m :| m in s && forall x :: x in s ==> m <= x;
    m
  }

  /** Adding one die extends the index list of its face, if it is unused. */
  lemma UnusedIndicesStep(dice: seq<Die>, i: nat, face: int)
    requires i < |dice|
    ensures UnusedIndicesOf(dice[..i + 1], face) ==
      UnusedIndicesOf(dice[..i], face) + (if !dice[i].used && dice[i].value == face then [i] else [])
    ensures FaceCount(dice[..i + 1], face) ==
      FaceCount(dice[..i], face) + (if !dice[i].used && dice[i].value == face then 1 else 0)
  {
    assert dice[..i + 1][..i] == dice[..i];
  }

  /** `counts` groups the unused dice of `dice` by face: a face is a key exactly
      when some unused die shows it, and maps to those dice's indices in order. */
  ghost predicate Grouped(dice: seq<Die>, counts: map<int, seq<int>>) {
    && (forall v :: v in counts <==> FaceCount(dice, v) > 0)
    && (forall v :: v in counts ==> counts[v] == UnusedIndicesOf(dice, v))
  }

  /** Filing die `i` under its face, when it is unused, extends the grouping
      of the first `i` dice to the first i + 1. */
  lemma GroupStep(dice: seq<Die>, i: nat, counts: map<int, seq<int>>)
    requires i < |dice| && Grouped(dice[..i], counts)
    ensures var d := dice[i];
      Grouped(dice[..i + 1],
        if d.used then counts
        else counts[d.value := (if d.value in counts then counts[d.value] else []) + [i]])
  {
    var d := dice[i];
    var next := if d.used then counts
      else counts[d.value := (if d.value in counts then counts[d.value] else []) + [i]];
    forall v ensures (v in next <==> FaceCount(dice[..i + 1], v) > 0)
      && (v in next ==> next[v] == UnusedIndicesOf(dice[..i + 1], v))
    {
      UnusedIndicesStep(dice, i, v);
      if !d.used && v == d.value {
        assert next[v] == (if v in counts then counts[v] else []) + [i];
      } else {
        assert (v in next <==> v in counts) && (v in next ==> next[v] == counts[v]);
      }
    }
  }

  /** Groups the indices of the unused dice by face. */
  method GroupByFace(dice: seq<Die>) returns (counts: map<int, seq<int>>)
    ensures Grouped(dice, counts)
  {
    counts := map[];
    for i := 0 to |dice|
      invariant Grouped(dice[..i], counts)
    {
      GroupStep(dice, i, counts);
      var die := dice[i];
      if !die.used {
        var indices := if die.value in counts then counts[die.value] else [];
        counts := counts[die.value := indices + [i]];
      }
    }
    assert dice[..|dice|] == dice;
  }

  /** The state of the key scan after visiting `seen`, every key of which is at
      most `top` and below every key still `remaining`: `best` holds the first
      visited key of the longest list seen, of length `maxCount`, or nothing
      while every list seen is empty. */
  ghost predicate Scanned(counts: map<int, seq<int>>, seen: set<int>, remaining: set<int>, top: int,
                          best: Option<int>, maxCount: nat) {
    && seen + remaining == counts.Keys && seen !! remaining
    && (seen != {} ==> forall a :: a in seen ==> a <= top)
    && (seen != {} ==> forall b :: b in remaining ==> top < b)
    && (best.None? <==> maxCount == 0)
    && (best.Some? ==> best.value in seen && maxCount == |counts[best.value]|)
    && (forall w :: w in seen ==> |counts[w]| <= maxCount)
    && (best.Some? ==> forall w :: w in seen && w < best.value ==> |counts[w]| < maxCount)
  }

  /** Visiting the smallest remaining key keeps the scan state. */
  lemma ScanStep(counts: map<int, seq<int>>, seen: set<int>, remaining: set<int>, top: int,
                 best: Option<int>, maxCount: nat, value: int)
    requires Scanned(counts, seen, remaining, top, best, maxCount)
    requires value in remaining && forall x :: x in remaining ==> value <= x
    ensures var longer := |counts[value]| > maxCount;
      Scanned(counts, seen + {value}, remaining - {value}, value,
              if longer then Some(value) else best, if longer then |counts[value]| else maxCount)
  {
  }

  /** Once every key is visited, the scan state is the answer. */
  lemma ScanDone(counts: map<int, seq<int>>, seen: set<int>, top: int, best: Option<int>, maxCount: nat)
    requires Scanned(counts, seen, {}, top, best, maxCount)
    ensures best.None? <==> forall w :: w in counts ==> |counts[w]| == 0
    ensures best.Some? ==> best.value in counts
    ensures best.Some? ==> forall w :: w in counts ==> |counts[w]| <= |counts[best.value]|
    ensures best.Some? ==> forall w :: w in counts && w < best.value ==> |counts[w]| < |counts[best.value]|
  {
    assert seen == counts.Keys;
    if best.Some? {
      var b := best.value;
      assert b in counts && |counts[b]| == maxCount > 0;
      assert !(forall w :: w in counts ==> |counts[w]| == 0);
    } else {
      forall w | w in counts ensures |counts[w]| == 0 {
        assert w in seen;
      }
    }
  }

  /** Walks the keys in increasing order and keeps the first key whose list
      is strictly longer than every list seen before it: a key with a longest
      list, ahead of every smaller key of that length. */
  method PickLargest(counts: map<int, seq<int>>) returns (best: Option<int>)
    ensures best.None? <==> forall w :: w in counts ==> |counts[w]| == 0
    ensures best.Some? ==> best.value in counts
    ensures best.Some? ==> forall w :: w in counts ==> |counts[w]| <= |counts[best.value]|
    ensures best.Some? ==> forall w :: w in counts && w < best.value ==> |counts[w]| < |counts[best.value]|
  {
    var maxCount: nat := 0;
    best := None;
    var remaining := counts.Keys;
    ghost var seen: set<int> := {};
    ghost var top := 0;
    while remaining != {}
      invariant Scanned(counts, seen, remaining, top, best, maxCount)
      decreases |remaining|
    {
      var value := Smallest(remaining);
      ScanStep(counts, seen, remaining, top, best, maxCount, value);
      var indices := counts[value];
      if |indices| > maxCount {
        maxCount := |indices|;
        best := Some(value);
      }
      remaining := remaining - {value};
      seen := seen + {value};
      top := value;
    }
    ScanDone(counts, seen, top, best, maxCount);
  }

  /** Keeps the dice of the modal face: groups the unused dice by face and
      returns the largest group, ties going to the smallest face, or nothing
      when every die is used. */
  method DecideDiceToLock(dice: seq<Die>) returns (r: seq<int>)
    ensures !AnyUnused(dice) ==> r == []
    ensures AnyUnused(dice) ==> |r| > 0 && exists v :: IsModalFace(dice, v) && r == UnusedIndicesOf(dice, v)
  {
    var counts := GroupByFace(dice);
    if AnyUnused(dice) {
      var i :| 0 <= i < |dice| && !dice[i].used;
      assert i in UnusedIndicesOf(dice, dice[i].value);
      assert dice[i].value in counts && |counts[dice[i].value]| > 0;
    }
    var bestValue := PickLargest(counts);
    if bestValue.Some? {
      var v := bestValue.value;
      r := counts[v];
      LargestIsModal(dice, counts, v);
      assert IsModalFace(dice, v) && r[0] in UnusedIndicesOf(dice, v);
    } else {
      r := [];
    }
  }

  /** The face whose group is largest, ties going to the smallest face, is
      the modal face, and its group is not empty. */
  lemma LargestIsModal(dice: seq<Die>, counts: map<int, seq<int>>, v: int)
    requires Grouped(dice, counts) && v in counts
    requires forall w :: w in counts ==> |counts[w]| <= |counts[v]|
    requires forall w :: w in counts && w < v ==> |counts[w]| < |counts[v]|
    ensures IsModalFace(dice, v) && counts[v] == UnusedIndicesOf(dice, v) && |counts[v]| > 0
  {
    forall w ensures FaceCount(dice, w) <= FaceCount(dice, v) {
      if w in counts {
        assert |counts[w]| == FaceCount(dice, w);
      }
    }
  }

  // ---------------------------------------------------------------------------
  // One bot step (makeBotDecision)

  /** A player as the bot sees it: an id and a tally of builds. */
  datatype BotPlayer = BotPlayer(id: string, builds: map<BuildKind, int>)

  /** The part of the game state the bot reads. */
  datatype BotView = BotView(rollCount: int, maxRolls: int, dice: seq<Die>, hasBuilt: bool, players: seq<BotPlayer>)

  /** What the bot decides to do next. */
  datatype Action = Roll | Lock(indices: seq<int>) | Build(kind: BuildKind) | EndTurn

  /** The builds of the first player whose id is `id`; empty when none is. */
  function BuildsOf(players: seq<BotPlayer>, id: string): (r: map<BuildKind, int>)
    ensures (forall i :: 0 <= i < |players| ==> players[i].id != id) ==> r == map[]
    ensures forall i :: (0 <= i < |players| && players[i].id == id &&
                         (forall j :: 0 <= j < i ==> players[j].id != id)) ==> r == players[i].builds
  {
    if players == [] then map[]
    else if players[0].id == id then players[0].builds
    else
      var r := BuildsOf(players[1..], id);
      assert forall i :: 1 <= i < |players| ==> players[i] == players[1..][i - 1];
      r
  }

  /** The bot's build choice for `botId` in `view`. */
  function BuildChoice(view: BotView, botId: string): Option<BuildKind> {
    DecideBuild(StockOf(view.dice), BuildsOf(view.players, botId))
  }

  /** Players as the store keeps them: none carries build counts. */
  predicate StoreShaped(players: seq<BotPlayer>) {
    forall i :: 0 <= i < |players| ==> players[i].builds == map[]
  }

  /** Reading players that carry no build counts, the bot sees an empty tally. */
  lemma {:induction false} StoreShapedBuilds(players: seq<BotPlayer>, id: string)
    requires StoreShaped(players)
    ensures BuildsOf(players, id) == map[]
  {
    if players != [] && players[0].id != id {
      var rest := players[1..];
      assert StoreShaped(rest) by {
        forall i | 0 <= i < |rest| ensures rest[i].builds == map[] {
          assert rest[i] == players[i + 1];
        }
      }
      StoreShapedBuilds(rest, id);
    }
  }

  /** On a view of the store's players the bot's caps never bind: it chooses
      as with an empty tally, and with a settlement's dice it proposes a
      settlement whatever has been built. */
  lemma StoreViewIgnoresTally(view: BotView, botId: string)
    requires StoreShaped(view.players)
    ensures BuildChoice(view, botId) == DecideBuild(StockOf(view.dice), map[])
    ensures Affords(StockOf(view.dice), Settlements) ==> BuildChoice(view, botId) == Some(Settlements)
  {
    StoreShapedBuilds(view.players, botId);
  }

  /** The store's player records as the bot reads them: the same ids, and no
      build counts, since the store keeps its tally apart from the players. */
  function StoreSeen(players: seq<Player>): (r: seq<BotPlayer>)
    ensures |r| == |players| && StoreShaped(r)
    ensures forall i :: 0 <= i < |players| ==> r[i].id == players[i].id
  {
    seq(|players|, i requires 0 <= i < |players| => BotPlayer(players[i].id, map[]))
  }

  /** With the store's fresh dice and its four players, the bot proposes a
      settlement, although a tally within the caps that already holds five
      settlements makes the store's performBuild refuse one more. */
  lemma BotProposesPastStoreCap()
    ensures var view := BotView(1, 3, InitialDice(), false, StoreSeen(InitialPlayers()));
      var tally := NoBuilds()[Settlements := 5];
      && BuildChoice(view, "1") == Some(Settlements)
      && WithinCaps(tally) && Built(tally, Settlements) >= Cap(Settlements)
  {
    var view := BotView(1, 3, InitialDice(), false, StoreSeen(InitialPlayers()));
    var dice := InitialDice();
    FaceShown(dice, 0);
    FaceShown(dice, 1);
    FaceShown(dice, 2);
    FaceShown(dice, 3);
    StoreViewIgnoresTally(view, "1");
  }

  /** An unused die makes its face counted at least once. */
  lemma FaceShown(dice: seq<Die>, i: nat)
    requires i < |dice| && !dice[i].used
    ensures FaceCount(dice, dice[i].value) >= 1
  {
    assert i in UnusedIndicesOf(dice, dice[i].value);
  }

  /** Picks the bot's next action: roll before the first roll; build the first
      eligible item once rolled and not yet built; otherwise, with rolls left
      and nothing built, keep the dice of the modal face (or just roll when no
      die is unused); otherwise end the turn. */
  method MakeBotDecision(view: BotView, botId: string) returns (a: Action)
    ensures view.rollCount == 0 ==> a == Roll
    ensures view.maxRolls >= 1 && view.rollCount >= view.maxRolls ==> a.Build? || a == EndTurn
    ensures view.hasBuilt ==> !a.Build?
    ensures a.Build? <==> view.rollCount > 0 && !view.hasBuilt && BuildChoice(view, botId).Some?
    ensures a.Build? ==> BuildChoice(view, botId) == Some(a.kind)
    ensures a.Lock? <==>
      view.rollCount != 0 && view.rollCount < view.maxRolls && !view.hasBuilt &&
      (view.rollCount > 0 ==> BuildChoice(view, botId).None?) && AnyUnused(view.dice)
    ensures a.Lock? ==> exists v :: IsModalFace(view.dice, v) && a.indices == UnusedIndicesOf(view.dice, v)
    ensures a == EndTurn <==>
      view.rollCount != 0 && (view.rollCount >= view.maxRolls || view.hasBuilt) &&
      (view.rollCount > 0 && !view.hasBuilt ==> BuildChoice(view, botId).None?)
  {
    if view.rollCount == 0 {
      return Roll;
    }
    if view.rollCount > 0 && !view.hasBuilt {
      var resources := GetResourcesFromDice(view.dice);
      var currentBuilds := BuildsOf(view.players, botId);
      var buildDecision := DecideBuild(resources, currentBuilds);
      if buildDecision.Some? {
        return Build(buildDecision.value);
      }
    }
    if view.rollCount < view.maxRolls && !view.hasBuilt {
      var diceToLock := DecideDiceToLock(view.dice);
      if |diceToLock| > 0 {
        return Lock(diceToLock);
      }
      return Roll;
    }
    return EndTurn;
  }
}
