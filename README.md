# Settlers dice game: rules engine in Dafny

This project models the rules engine of a Catan-style dice game written in JavaScript. A turn goes like this:

- A player rolls six dice up to three times, locking dice between rolls.
- Each face produces a resource: 1 lumber, 2 brick, 3 wool, 4 wheat, 5 ore, 6 gold.
- The player spends the dice on builds (roads, settlements, cities, knights). Gold stands in for missing resources.
- The player then ends the turn.

A computer player makes the same choices with a fixed policy. The model covers four JavaScript modules:

- `resource_validation.dfy` (`src/utils/resourceValidation.js`): the face table, resource counting, the affordability check `canBuild`, the list of missing resources, and display names.
- `resource_consumption.dfy` (`src/utils/resourceConsumption.js`): how a build marks dice as used.
  - Pass one takes exact matches, lowest index first.
  - Pass two takes two gold dice per unit still short.
  - It also covers the counting of unused dice.
- `game_store.dfy` (`src/store/gameStore.js`): the mutable game store as the class `GameStore.Store`, with the actions `RollDice`, `ToggleLock`, `PerformBuild`, `EndTurn` and `ResetGame`, plus the value-level functions those actions use.
- `bot_ai.dfy` (`src/utils/botAI.js`): the computer player. It covers its resource table, its build priority, its choice of dice to lock, and its one-step decision.
- `options.dfy`: the `Option` type.

Each `for`/`forEach` loop of the source is a method with a loop; the `map`/`reduce`/`findIndex`/`find` calls and the `sum` helper are functions. The method is proved equal to a recursive specification function, and the lemmas about that function state what the source promises.

The random faces of a roll are an argument of `RollDice`: each unlocked die gets the face given for it, which must lie in 1..6.

Where the tests or the in-game help describe different rules from the code, the model follows the code:

- The store scores roads, settlements, cities and knights as 1/3/5/2 points (`src/store/gameStore.js:85-90`). `src/tests/scoringLogic.test.js:5-10` and `src/components/HelpModal.jsx:146-162` describe 0/1/2/0 plus bonuses.
- The store has no `hasBuilt` flag and no bonus holders. It finishes the game on the round count, not on victory points. `src/tests/gameStore.test.js` expects otherwise.
  - The bot reads `hasBuilt` from its view of the state, so the model keeps it as a field of `BotAI.BotView`.
- The build tally is one tally for the whole game, not one per player. A player's score is recomputed from this shared tally.
- `rollDice` checks only the roll counter. It does not check the game status or whether the player has built.
- `src/tests/goldTrading.test.js:6-35` expects `canBuild` to charge two gold per missing unit. The code charges one (see Findings).
- `getMissingResources` also lets one gold die cover one missing unit (`src/utils/resourceValidation.js:97-98`). With a lumber and a brick required and two gold dice on hand, it returns an empty list. `src/tests/resourceValidation.test.js:213-220` expects a non-empty list for that input, and `src/components/HelpModal.jsx:174-178` says gold is traded in pairs. This is modelled as written: `ResourceValidation.GoldPairCoversTwo`.
- The bot's own face table swaps faces 3 and 4 relative to the game's table. This is modelled as written: `BotAI.StockSwapsWheatAndWool`.

## Model

| member | source | states |
|---|---|---|
| ResourceValidation.ResourceOf | src/utils/resourceValidation.js:6-13 | a face produces a resource exactly when it is in 1..6, and that resource is one of the six dice kinds |
| ResourceValidation.FaceOf | src/utils/resourceValidation.js:6-13 | each of the six kinds comes from a face in 1..6 that the table maps back to it |
| ResourceValidation.ResourceOfInjective | src/utils/resourceValidation.js:6-13 | two faces that produce the same resource are the same face |
| ResourceValidation.Counts | src/utils/resourceValidation.js:21-28 | the count table has exactly the six dice kinds as keys |
| ResourceValidation.KindCount | src/utils/resourceValidation.js:30-35 | the count of one kind never exceeds the number of dice |
| ResourceValidation.CountsSnoc | src/utils/resourceValidation.js:30-35 | one more die adds one to the count of the kind it shows, and nothing when its face is outside 1..6 |
| ResourceValidation.GetDiceResources | src/utils/resourceValidation.js:20-38 | each count is the number of dice whose face produces that kind; the six counts add up to the number of dice with a face in 1..6 |
| ResourceValidation.CountsTotal | src/utils/resourceValidation.js:30-35 | the six counts add up to the number of dice with a face in 1..6 |
| ResourceValidation.CountsIgnoreFlags | src/utils/resourceValidation.js:30-35 | two dice lists with the same faces give the same counts, whatever their lock and used flags |
| ResourceValidation.Distinct | src/utils/resourceValidation.js:51-58 | the visited requirement keys hold the same names as the requirement, each once |
| ResourceValidation.Shortfall | src/utils/resourceValidation.js:59-62 | the shortage is zero exactly when what is on hand covers the need; otherwise on hand plus shortage equals the need |
| ResourceValidation.TallyRequired | src/utils/resourceValidation.js:48-53 | the tally has a key exactly for each name in the requirement, with the number of times it is asked for, and the keys come in first-occurrence order |
| ResourceValidation.TallyNext | src/utils/resourceValidation.js:51-53 | one more name tallied: it joins the keys if new, and its count rises by one |
| ResourceValidation.CanBuild | src/utils/resourceValidation.js:47-74 | true exactly when the summed shortfalls over all required kinds are at most the gold on hand, one gold per missing unit |
| ResourceValidation.CoverShortages | src/utils/resourceValidation.js:56-73 | the loop over the tallied kinds answers true exactly when their summed shortfalls are at most the gold, stopping at the first kind the remaining gold cannot cover |
| ResourceValidation.CoveredNeedsNoGold | src/utils/resourceValidation.js:58-71 | kinds whose need is met exactly add no shortage |
| ResourceValidation.CoveredIsAffordable | src/utils/resourceValidation.js:73 | an empty requirement, or one fully covered by exact resources, passes whatever the gold |
| ResourceValidation.GoldLeft | src/utils/resourceValidation.js:90-98 | the gold still unspent while listing missing resources never exceeds the gold on hand |
| ResourceValidation.MissingStep | src/utils/resourceValidation.js:92-106 | visiting one more kind deducts its shortfall from the gold when the gold covers it, and otherwise appends one entry per unit the gold leaves short |
| ResourceValidation.PushCopies | src/utils/resourceValidation.js:101-103 | the push loop appends exactly n copies of the kind |
| ResourceValidation.SettleKind | src/utils/resourceValidation.js:93-105 | one kind settled: gold is deducted only when it covers the whole shortfall; otherwise the shortfall minus the gold is appended as copies of the kind |
| ResourceValidation.ListMissing | src/utils/resourceValidation.js:89-108 | the loop over the tallied kinds builds exactly the missing list Missing |
| ResourceValidation.SettleNext | src/utils/resourceValidation.js:92-106 | one turn of the loop carries the gold left and the missing list from the first j kinds to the first j + 1 |
| ResourceValidation.Missing | src/utils/resourceValidation.js:89-108 | the missing list, kind by kind, each kind repeated by its shortfall beyond the gold left; its properties are stated by ResourceValidation.GetMissingResources and ResourceValidation.MissingMatchesCanBuild |
| ResourceValidation.CanAfford | src/utils/resourceConsumption.js:45-60 | affordability at two gold per missing unit, the corrected canBuild; ResourceConsumption.AffordablePaysInFull states that it holds exactly when consumption is paid in full |
| ResourceValidation.GetMissingResources | src/utils/resourceValidation.js:82-109 | the list is empty exactly when canBuild's condition holds; every entry is a required kind; a kind appears at most its own shortfall times |
| ResourceValidation.GoldPairCoversTwo | src/utils/resourceValidation.js:97-98 | with a lumber and a brick required and only two gold dice, the missing list is empty, while the requirement is not affordable at two gold per missing unit |
| ResourceValidation.MissingMatchesCanBuild | src/utils/resourceValidation.js:82-109 | the missing list of a whole requirement is empty exactly when the shortage is at most the gold, and it is bounded by the requirement |
| ResourceValidation.MissingEmptyIff | src/utils/resourceValidation.js:92-106 | the list is empty exactly when the gold covers the whole shortage, and then the gold left is the gold minus the shortage |
| ResourceValidation.MissingKinds | src/utils/resourceValidation.js:96-103 | every missing entry is one of the visited kinds |
| ResourceValidation.MissingCountStep | src/utils/resourceValidation.js:96-103 | visiting one more kind adds to the count of that kind only, and by the units the gold leaves short |
| ResourceValidation.MissingCount | src/utils/resourceValidation.js:96-103 | when the kinds are distinct, kind k appears at most need(k) − have(k) times |
| ResourceValidation.UpperCase | src/utils/resourceValidation.js:115 | a letter a–z becomes its capital; every other character is unchanged |
| ResourceValidation.FormatResourceName | src/utils/resourceValidation.js:114-116 | same length; the first character is upper-cased, the rest is unchanged |
| ResourceValidation.FormatIdempotent | src/utils/resourceValidation.js:114-116 | formatting twice is formatting once, and the empty name stays empty |
| ResourceValidation.FormattedKindNames | src/utils/resourceValidation.js:114-116 | the six dice resources display as Lumber, Brick, Wool, Wheat, Ore, Gold |
| ResourceConsumption.UnusedCount | src/utils/resourceConsumption.js:80-87 | the number of unused dice of a kind never exceeds the number of dice |
| ResourceConsumption.Available | src/utils/resourceConsumption.js:70-90 | the table of unused dice per kind; its properties are stated by ResourceConsumption.AvailableHave and ResourceConsumption.NothingAvailable |
| ResourceConsumption.Consumed | src/utils/resourceConsumption.js:15-62 | the dice after both passes of consumeResources; its properties are stated by ResourceConsumption.ConsumedAt, ResourceConsumption.ConsumedCounts and ResourceConsumption.AffordablePaysInFull |
| ResourceConsumption.GetAvailableResources | src/utils/resourceConsumption.js:70-90 | the table is getDiceResources applied to the unused dice only; each entry is the number of unused dice of that kind |
| ResourceConsumption.CountNext | src/utils/resourceConsumption.js:80-87 | one more die counted: an unused die adds one to the count of the resource it shows, a used die adds nothing |
| ResourceConsumption.UnusedCountIsCount | src/utils/resourceConsumption.js:80-87 | counting unused dice of a kind is counting that kind among the unused dice |
| ResourceConsumption.AvailableHave | src/utils/resourceConsumption.js:70-90 | the availability table reports, for any name, the number of unused dice showing it; a name no face produces reports zero |
| ResourceConsumption.NoDieShowsOther | src/utils/resourceConsumption.js:82-85 | no die produces a name outside the six kinds |
| ResourceConsumption.NothingAvailable | src/utils/resourceConsumption.js:70-90 | with every die used, or no dice, every count is zero |
| ResourceConsumption.MarkKind | src/utils/resourceConsumption.js:29-36 | marking keeps the number of dice |
| ResourceConsumption.MarkKindAt | src/utils/resourceConsumption.js:29-36 | die i is marked exactly when it is unused, shows the kind, and fewer than n such dice come before it, so the lowest-indexed dice are taken |
| ResourceConsumption.MarkKindSpends | src/utils/resourceConsumption.js:29-36 | a marking pass only turns `used` on, and only on dice that show the kind |
| ResourceConsumption.MarkKindCount | src/utils/resourceConsumption.js:29-36 | a marking pass spends min(n, unused dice of the kind) |
| ResourceConsumption.MarkKindOthers | src/utils/resourceConsumption.js:29-36 | a marking pass leaves the unused counts of other kinds unchanged |
| ResourceConsumption.SpendFirst | src/utils/resourceConsumption.js:27-36 | the scan marks the first n unused dice of the kind and reports min(n, unused dice of the kind) as found |
| ResourceConsumption.SpendNext | src/utils/resourceConsumption.js:29-35 | one turn of the scan marks die i exactly when it is unused and shows the kind, and counts it as found |
| ResourceConsumption.SpendDone | src/utils/resourceConsumption.js:29 | stopping at the end of the dice or once n dice are found leaves what marking all the dice would |
| ResourceConsumption.ExactPass | src/utils/resourceConsumption.js:26-43 | pass one keeps the number of dice |
| ResourceConsumption.ConsumeResources | src/utils/resourceConsumption.js:15-63 | the result is the two-pass marking Consumed: same length, faces and locks, only `used` turned on, and only on dice showing a required kind or gold |
| ResourceConsumption.SpendExact | src/utils/resourceConsumption.js:26-43 | pass one over the required kinds gives the pass-one marking, and its shortages add up to the units pass one leaves short |
| ResourceConsumption.ExactPassSpends | src/utils/resourceConsumption.js:26-43 | pass one only turns `used` on, and only on dice of a visited kind |
| ResourceConsumption.ExactPassAgrees | src/utils/resourceConsumption.js:26-43 | pass one leaves the dice of an unvisited kind as they were |
| ResourceConsumption.ExactPassAt | src/utils/resourceConsumption.js:26-43 | in pass one, die i is spent exactly when its kind is required, it is unused, and fewer than need(k) unused dice of k come before it |
| ResourceConsumption.ExactShortageIsShortage | src/utils/resourceConsumption.js:38-46 | the units pass one leaves short are the requirement's shortfalls measured against the unused dice |
| ResourceConsumption.OnlySpendsTrans | src/utils/resourceConsumption.js:22-62 | "only turns used on" composes over the two passes |
| ResourceConsumption.ConsumedAt | src/utils/resourceConsumption.js:15-62 | die by die: a die of kind k is spent exactly when it is unused and fewer than Quota(k) unused dice of k come before it, where Quota is need(k), or twice the total shortage for gold |
| ResourceConsumption.ConsumedSpends | src/utils/resourceConsumption.js:22-62 | same length, faces and locks kept, a used die stays as it is, and only dice of a required kind or gold are spent |
| ResourceConsumption.ConsumeNothing | src/utils/resourceConsumption.js:15-62 | an empty requirement leaves every die unchanged |
| ResourceConsumption.ConsumedCounts | src/utils/resourceConsumption.js:26-60 | a build spends exactly min(Quota(k), unused dice of k) dice of each kind k |
| ResourceConsumption.CanBuildUnderpays | src/utils/resourceValidation.js:64-65 | a lumber die and one gold die pass canBuild for a road, yet the build spends both dice and is one gold short of the two it charges |
| ResourceConsumption.RoadShortage | src/utils/resourceValidation.js:56-73 | with one lumber die and one gold die, a road is one brick short and one gold is on hand |
| ResourceConsumption.RoadConsumed | src/utils/resourceConsumption.js:15-62 | building the road with those dice spends both of them |
| ResourceConsumption.AffordablePaysInFull | src/utils/resourceConsumption.js:45-60 | the gold spent is twice the shortage exactly when CanAfford holds; each required kind is paid need(k) − shortfall(k) exact dice |
| GameStore.Cap | src/store/gameStore.js:58-66 | the store's caps: 15 roads, 5 settlements, 4 cities, 14 knights, 999 for any other type; GameStore.ScoreBound uses them |
| GameStore.PointValue | src/store/gameStore.js:85-94 | 1/3/5/2 points for roads, settlements, cities and knights, 0 otherwise; stated by GameStore.ScoreOfBuild |
| GameStore.Score | src/store/gameStore.js:85-94 | the sum of points over the tally; GameStore.ScoreOfBuild and GameStore.ScoreBound state its properties |
| GameStore.ScoreOfBuild | src/store/gameStore.js:85-94 | one more build of a type raises the score by that type's points (1/3/5/2; 0 for other types) |
| GameStore.ScoreBound | src/store/gameStore.js:58-63 | within the caps, the score is at most 78 |
| GameStore.BuildStep | src/store/gameStore.js:71-94 | an accepted build keeps the tally within the caps, adds the type's points, and leaves dice faces in 1..6 |
| GameStore.ApplyBuild | src/store/gameStore.js:76-101 | an accepted build raises only its type's tally, stays within the caps, adds the type's points to the score, pays with Consumed dice whose faces stay in 1..6, and gives only the current player the new score |
| GameStore.Rolled | src/store/gameStore.js:40-42 | a locked die is unchanged; an unlocked die shows its drawn face and is unused |
| GameStore.FlipLock | src/store/gameStore.js:50-54 | only die `index` changes, and only its lock; an index out of range changes nothing |
| GameStore.FlipLockTwice | src/store/gameStore.js:50-54 | toggling the same die twice restores the dice |
| GameStore.ClearedDice | src/store/gameStore.js:132 | every die is unlocked and unused with its face kept |
| GameStore.WithScore | src/store/gameStore.js:97-101 | the current player gets the new score; every other player is unchanged |
| GameStore.FindIndex | src/store/gameStore.js:113 | the first position whose id matches, or -1 exactly when none does |
| GameStore.CompleteTurn | src/store/gameStore.js:118-122 | only the player at the index gains one completed turn |
| GameStore.FindOwnIndex | src/store/gameStore.js:113 | with distinct ids, a player's id is found at that player's own position |
| GameStore.NextSeat | src/store/gameStore.js:113-115 | the seat after one endTurn; GameStore.NextSeatAt and GameStore.Store.EndTurn state its properties |
| GameStore.NextSeatAt | src/store/gameStore.js:113-124 | with distinct ids, one endTurn from position i moves play to position i + 1, or to position 0 and the next round after the last player |
| GameStore.SeatsFollowPlaces | src/store/gameStore.js:112-137 | with distinct ids, k endTurns on seats land on the seat of k steps along the positions |
| GameStore.WalkPlaces | src/store/gameStore.js:114-124 | k ≤ n steps from position c reach c + k, wrapping past the last position into the next round |
| GameStore.Walk | src/store/gameStore.js:112-137 | with distinct ids, k ≤ n endTurns from position c reach position c+k, in the next round once they wrap |
| GameStore.FullRound | src/store/gameStore.js:112-137 | with distinct ids, n endTurns give the turn back to the same player one round later |
| GameStore.Store.constructor | src/store/gameStore.js:4-34 | the initial store: four players, player "1" to move, round 1, dice 1..6 free, zero builds, in progress |
| GameStore.Store.RollDice | src/store/gameStore.js:37-48 | a no-op once the rolls are used up; otherwise the roll count rises by one and the dice are Rolled; nothing else changes |
| GameStore.Store.ToggleLock | src/store/gameStore.js:50-54 | the dice become FlipLock(dice, index); nothing else changes |
| GameStore.Store.PerformBuild | src/store/gameStore.js:56-110 | a no-op at the cap; otherwise only this type's tally rises, the dice become Consumed, the current player's score becomes the score of the new tally, and other players are unchanged |
| GameStore.Store.EndTurn | src/store/gameStore.js:112-137 | play passes to the player at position (i+1) mod n, which is NextSeat, with a new round exactly when that position is 0; only the current player gains a completed turn; the roll count is reset and the dice cleared; the game is finished exactly when the round exceeds 15 |
| GameStore.Store.ResetGame | src/store/gameStore.js:139-158 | round 1, roll count 0, player "1", dice 1..6 free, zero builds, in progress; players unchanged |
| BotAI.GetResourcesFromDice | src/utils/botAI.js:124-145 | the bot's tally counts unused dice only, under its own table 1 wood, 2 brick, 3 wheat, 4 wool, 5 ore, 6 gold |
| BotAI.FaceCountIsUnusedCount | src/utils/botAI.js:135-142 | counting unused dice of a face is counting the kind the game's table gives that face |
| BotAI.StockSwapsWheatAndWool | src/utils/botAI.js:126-133 | the bot agrees with getAvailableResources on lumber, brick, ore and gold; its wheat is the game's wool and its wool the game's wheat |
| BotAI.DecideBuild | src/utils/botAI.js:46-78 | a chosen build is one of the four types, is affordable by the bot's raw counts with no gold substitution, and is under its cap |
| BotAI.DecideBuildPriority | src/utils/botAI.js:46-78 | settlement, road, city, knight in that order: position j is chosen exactly when it is eligible and none before it is; null exactly when none is eligible |
| BotAI.DecideBuildWithinStoreCap | src/utils/botAI.js:51-73 | the bot's four caps equal the store's: on any tally, a build it proposes is below the store's cap for that type |
| BotAI.UnusedIndicesOf | src/utils/botAI.js:16-22 | the indices of the unused dice showing a face, in increasing order, all of them |
| BotAI.GroupStep | src/utils/botAI.js:16-22 | filing one more die under its face, when it is unused, extends the grouping to that die |
| BotAI.GroupByFace | src/utils/botAI.js:16-22 | a face is a key exactly when some unused die shows it, and maps to those dice's indices |
| BotAI.PickLargest | src/utils/botAI.js:25-33 | the chosen key has a longest list, strictly longer than every smaller key's; none exactly when every list is empty |
| BotAI.ScanDone | src/utils/botAI.js:25-33 | a finished scan holds the longest list, ties going to the smallest key, and none exactly when every list is empty |
| BotAI.DecideDiceToLock | src/utils/botAI.js:12-37 | [] when every die is used or there are none; otherwise all indices of the unused dice of the modal face, ties going to the smallest face |
| BotAI.LargestIsModal | src/utils/botAI.js:25-36 | the key with the longest group, ties going to the smallest, is the modal face of the unused dice and its group is not empty |
| BotAI.BuildsOf | src/utils/botAI.js:98 | the builds of the first player with the bot's id, or no builds when there is none |
| BotAI.StoreShapedBuilds | src/utils/botAI.js:98-99 | when no player record carries build counts, as in the store's player records (src/store/gameStore.js:7-12), the bot finds no builds for any id |
| BotAI.StoreViewIgnoresTally | src/utils/botAI.js:46-78 | on such a view the build choice is decideBuild with an empty tally, so any stock that affords a settlement yields a settlement |
| BotAI.StoreSeen | src/utils/botAI.js:98 | the store's player records as the bot reads them: the same ids, in order, and no build counts |
| BotAI.BotProposesPastStoreCap | src/utils/botAI.js:46-78 | on the initial dice, with the store's four initial players as the bot reads them, the bot picks a settlement, while a tally within the caps holding five settlements is at the cap where performBuild refuses one more |
| BotAI.FaceShown | src/utils/botAI.js:124-145 | an unused die's face is counted at least once |
| BotAI.StockOf | src/utils/botAI.js:124-145 | the bot's stock of the unused dice, per its own face table; its properties are stated by BotAI.StockSwapsWheatAndWool |
| BotAI.Affords | src/utils/botAI.js:49-75 | the bot's four recipes, with gold never counting; used by BotAI.DecideBuild and BotAI.StoreViewIgnoresTally |
| BotAI.MakeBotDecision | src/utils/botAI.js:86-117 | roll before the first roll; build exactly when rolled, not built, and a build is eligible; lock exactly when rolls remain, nothing is built or buildable, and a die is unused; end the turn otherwise; never roll or lock once rolls are used up (maxRolls ≥ 1), never build after building |

## Left out

- Requirement key order: the source visits a requirement's names in JavaScript object key order. The model uses first-occurrence order, which is the same for every resource name. It differs only for integer-like names, which JavaScript would visit first in numeric order.
- BotAI.DecideDiceToLock: it visits faces in increasing numeric order. JavaScript visits negative or non-integer face keys after the others, in insertion order. This only affects tie-breaks among faces that a roll never produces.
- ResourceValidation.UpperCase: it upper-cases only the ASCII letters a–z. JavaScript's `toUpperCase` also maps other Unicode letters, and can turn one character into several (`'ß'` becomes `'SS'`), so the same-length property of `ResourceValidation.FormatResourceName` holds for the model but not for every JavaScript name.
- ResourceConsumption.ConsumedAt, ResourceConsumption.ConsumedCounts, ResourceConsumption.DieSpent and ResourceConsumption.AffordablePaysInFull require that the requirement does not itself name gold. Every recipe the program passes is gold-free (src/components/GameTable.jsx:127-158, src/hooks/useBotTurn.js:89-94). `ConsumeResources` itself is modelled for every requirement.
- GameStore.Store.RollDice: `Math.random` is not modelled. The new faces are an argument constrained to 1..6.
- GameStore.Store: the zustand `set` plumbing, `roomCode` (never changed by an action) and the `console.log` calls are left out.
- BotAI.BuildsOf: the store's player records (src/store/gameStore.js:7-12) carry no build counts, so in the program the bot always sees an empty tally and its caps never bind; the store's shared tally is not passed to it. The model keeps the bot's lookup as written, and BotAI.BotProposesPastStoreCap shows a settlement proposed past the store's cap; the store then refuses it.
- Resource names and build types are modelled only in their canonical encoding: an `Other(name)` resource or `OtherBuild(name)` type stands for a name that is none of the canonical ones (`"lumber"`, `"roads"` and so on), since the source cannot tell the two apart.
- GameStore.Store.Valid requires six dice and at least one player, as the store always has. An empty player list, where `endTurn` would index out of range, is not modelled.
- Input shapes: null or missing arrays (`!dice` in decideDiceToLock) are not modelled.
- Untyped inputs: `available` maps that hold non-numeric values are not modelled.
- BotAI.MakeBotDecision: the bot's view is a value (`BotView`). Reading it from the store, the delays, and carrying out the action (src/hooks/useBotTurn.js) are not part of this model.
- The UI guard that checks caps and affordability before `performBuild` (src/components/GameTable.jsx) is not part of this model.
- React components, hooks, the API clients and the wallet code are not part of this model.

## Findings

| source | as written | input that shows it | evidently intended | confidence | as-written member | corrected member |
|---|---|---|---|---|---|---|
| src/utils/resourceValidation.js:64-65 | `canBuild` lets one gold die cover one missing unit. `consumeResources` (src/utils/resourceConsumption.js:47) charges two gold dice per missing unit. | dice showing 1 (lumber) and 6 (gold); requirement [lumber, brick]: canBuild is true, but the build has one gold die for a charge of two | affordability at two gold per missing unit, the rate consumption charges and src/tests/goldTrading.test.js expects | high (not executed) | ResourceConsumption.CanBuildUnderpays | ResourceConsumption.AffordablePaysInFull |
