# A two-world board game, modelled in Dafny

This project models the game engine of a turn-based board game for up to four
players. The game is played on two mirrored maps, the Real World and the
Upside Down (`gamelib.c`, built on the types of `gamelib.h`).

The model covers these parts of the engine:

- **Map building**: random generation of fifteen mirrored zone pairs, repaired
  to hold exactly one demotorzone. Also insertion and removal of a pair at an
  ordinal, the repair of player positions on removal, and closing the map.
- **Player creation**: one d20 feeds all three statistics. There is a ±3
  trade-off between attack and defense and a once-per-game
  "UndiciVirgolaCinque" variant, then every statistic is clamped to [1, 20].
- **Backpack**: collecting an item from a Real World zone, the four item
  effects, and using (consuming) the item of a slot.
- **Combat**: the enemy stat table, the damage formulas, the player-first
  exchange loop, and the outcomes. The outcomes are death, beating the
  demotorzone, and the 50% despawn of a beaten enemy.
- **A turn**: the "has moved" flag, the forced fight before a move, and the
  luck-gated switch to the Upside Down.
- **A match**: the start test, the placement on the first pair, rounds in a
  Fisher–Yates shuffled order of the live players, the end of the match, and
  the record of the last three winners.

The model is functional:

- A map is a `seq<Pair>`. The pair at index `i` is ordinal `i + 1`, and every
  pair holds a Real World zone and its Upside Down mirror. The two linked
  lists of the source, with their forward, backward and mirror pointers,
  therefore always have equal length, and their mirror links always match.
- A player position is an `Option<nat>` index, where `None` is a null pointer.
- A roster slot is an `Option<Player>`, where `None` is a dead or absent
  player.
- Each `randint(lo, hi)` becomes a parameter required to lie in `[lo, hi]`.
  Each bounded menu read (`leggi_intero`) becomes a parameter in the range the
  read enforces.
- A fight, a turn and a match consume finite scripts of such values. A script
  that runs out before the game ends gives an explicit "stuck" result.

Modules, one per component: `Types` (`types.dfy`), `Chance` (`chance.dfy`),
`ZoneMap` (`zonemap.dfy`), `PlayerSetup` (`setup.dfy`), `Inventory`
(`inventory.dfy`), `Combat` (`combat.dfy`), `Turn` (`turn.dfy`) and `Match`
(`match.dfy`).

Three facts about the code worth keeping in mind:

- An item is absent when the d100 is at most 40, so 40% of zones have no item.
- A billi has 12 HP. Hits of 4 damage bring it to 8, then 4, then 0, so it
  needs three hits (`Combat.BilliFallsToThreeHits`).
- The Upside Down zone of a pair reuses the Real World zone's kind draw.

## Model

| member | source | states |
|---|---|---|
| Types.KindOrdinalRoundTrip | gamelib.h:11-22 | there are exactly ten zone kinds: the cast from an int in [0, 9] and the enumeration value are inverse |
| Types.EnemyOrdinalRoundTrip | gamelib.h:25-30 | there are exactly four enemy tags, "none" included; the cast and the enumeration value are inverse |
| Types.ItemOrdinalRoundTrip | gamelib.h:33-39 | there are exactly five item tags, "none" included; the cast and the enumeration value are inverse |
| Chance.RandomKind | gamelib.c:324-327 | the drawn kind is the one whose enumeration value is the d10 draw in [0, 9] |
| Chance.RandomRealEnemy | gamelib.c:332-342 | d100 ≤ 40 gives none, 41..70 democane, 71..100 billi (each an iff); never a demotorzone |
| Chance.RandomUpsideEnemy | gamelib.c:347-357 | d100 ≤ 45 gives none, 46..80 democane, 81..100 demotorzone (each an iff); never a billi |
| Chance.RandomItem | gamelib.c:362-369 | no item iff the d100 is ≤ 40; otherwise the item is the second draw in [1, 4] |
| Chance.ChooseRealEnemy | gamelib.c:459-463 | the answer in [0, 2] is the enemy's enumeration value, never a demotorzone |
| Chance.ChooseUpsideEnemy | gamelib.c:468-484 | only answers 0, 2 and, while none exists, 3 are accepted; the result is never a billi and a demotorzone only when allowed |
| Chance.ChooseItem | gamelib.c:489-493 | the answer in [0, 4] is the item's enumeration value |
| ZoneMap.BossCountIsMultiplicity | gamelib.c:308-319 | the demotorzone count equals the multiplicity of demotorzone among the Upside Down enemy tags |
| ZoneMap.BossCountZero | gamelib.c:308-319 | the count is zero iff no Upside Down zone holds a demotorzone |
| ZoneMap.FirstBoss | gamelib.c:439-452 | the first demotorzone in map order: absent iff the count is zero, otherwise a demotorzone with none before it |
| ZoneMap.BuildPairs | gamelib.c:410-427 | one pair per draw, in draw order, with matching kinds, no Real World demotorzone and no Upside Down billi |
| ZoneMap.ForceBoss | gamelib.c:429-438 | a map without a demotorzone gets exactly one, at the drawn ordinal, which becomes the first; a map with one is unchanged |
| ZoneMap.DemoteExtras | gamelib.c:439-452 | every demotorzone after the first found becomes a democane; nothing else changes; at most one demotorzone is left |
| ZoneMap.RepairBoss | gamelib.c:429-452 | after the repair the count is exactly 1 and the kept demotorzone is the forced one or the first original; Real World zones and kinds are untouched |
| ZoneMap.Generate | gamelib.c:408-454 | 15 pairs, matching kinds, enemies in their own world, exactly one demotorzone, Real World zones as drawn |
| ZoneMap.GeneratedMapCloses | gamelib.c:408-454 | a freshly generated map always passes the closing test |
| ZoneMap.Insert | gamelib.c:524-554 | the new pair sits at the chosen ordinal, the pairs before and after keep their order, and the demotorzone count grows only by the new pair's |
| ZoneMap.Delete | gamelib.c:564-600 | the pair at the ordinal is gone, the others keep their order, and the demotorzone count drops only by the removed pair's |
| ZoneMap.DeleteUndoesInsert | gamelib.c:500-600 | removing the pair just inserted at an ordinal restores the map |
| ZoneMap.InsertUndoesDelete | gamelib.c:500-600 | reinserting a removed pair at its ordinal restores the map |
| ZoneMap.InsertZone | gamelib.c:500-557 | inserting a pair at an ordinal in [1, len+1] puts there a pair whose Real World kind is the d10 draw, whose enemies and item are the chosen ones, and whose Upside Down kind matches; the other pairs keep their order; enemies stay in their worlds and no second demotorzone is created |
| ZoneMap.DeleteZone | gamelib.c:564-617 | on an empty map nothing happens; otherwise one pair goes. A player on it moves to the new head, or null if none; a position before it is kept; a position after it drops by one, so it still names the same zone; other player fields are untouched |
| ZoneMap.Close | gamelib.c:694-708 | closed iff already closed or at least 15 pairs with exactly one demotorzone; otherwise nothing changes |
| PlayerSetup.Clamp | gamelib.c:790-807 | the result is in [1, 20], equals the input when in range, and is the nearer bound otherwise |
| PlayerSetup.InitPlayer | gamelib.c:757-810 | statistics in [1, 20]; Real World, null positions, three empty slots; the variant applies iff not used yet and chosen. Attack is the clamped d20 + 3 for trade 1, − 3 for trade 2, unchanged for trade 3, plus 4 with the variant; defense is the mirror trade plus the same bonus |
| PlayerSetup.VariantTradesLuckForFight | gamelib.c:778-787 | taking the variant never lowers attack or defense and never raises luck |
| PlayerSetup.InitPlayers | gamelib.c:826-837 | the players are created in order; player i is the variant iff the flag was clear on entry, i chose it and no earlier player chose it, so at most one of them is the variant |
| PlayerSetup.InitPlayersEach | gamelib.c:826-837 | each player is the single-player creation from its own answers with the flag as the earlier players left it |
| PlayerSetup.SetupRoster | gamelib.c:817-846 | slot i < count holds exactly the i-th player created in order with the once-per-game flag threaded through, with null positions; the others are empty |
| Inventory.FirstEmpty | gamelib.c:934-941 | the index of the first free slot, absent iff every slot is taken |
| Inventory.Collect | gamelib.c:918-943 | succeeds iff Real World, no enemy, an item, and a free slot; the item moves to the first free slot and leaves the zone; any failure changes nothing; items are conserved |
| Inventory.ApplyEffect | gamelib.c:948-992 | bicicletta +2 luck, maglietta +3 attack, bussola +2 defense, each capped at 20; schitarrata deals 5 to the enemy in a fight or +1/+1 (capped) outside one; no item has no effect |
| Inventory.UseItem | gamelib.c:999-1028 | applied iff the chosen slot holds an item; then exactly that slot is cleared and its effect applied; otherwise nothing changes |
| Combat.StatsOf | gamelib.c:194-221 | the stat table is non-negative and only "no enemy" has zero HP |
| Combat.StatsOrdered | gamelib.c:198-212 | billi, democane and demotorzone are strictly stronger in each statistic, in that order |
| Combat.PlayerDamage | gamelib.c:1057-1064 | a player hit deals 4 + attack/4 when the luck d20 does not exceed luck and 2 + attack/4 otherwise; between 2 and 9 |
| Combat.EnemyDamage | gamelib.c:1077-1087 | an enemy hit deals 2 + attack/5, reduced by 2 on a luck success but never below 1; with attack below 5 a luck success deals exactly 1 |
| Combat.EnemyDamageRange | gamelib.c:1077-1087 | each enemy of the table deals between 1 and 4 per hit |
| Combat.Start | gamelib.c:1042-1044 | the player's HP starts at 10 + defense and the enemy's at its table HP; both sides are up |
| Combat.PlayerActs | gamelib.c:1052-1069 | a strike hits iff d20 + attack ≥ d20 + enemy defense and then deals the player damage; an item use leaves the player and the enemy HP exactly as the backpack's use with the enemy's HP exposed does |
| Combat.EnemyActs | gamelib.c:1075-1091 | the enemy hits iff d20 + attack is strictly above d20 + player defense and then deals the enemy damage |
| Combat.Step | gamelib.c:1048-1092 | both sides are never down together; HPs never grow; an exchange that downs the enemy costs the player nothing; name, world and positions are kept |
| Combat.StepReplies | gamelib.c:1071-1091 | an exchange is the player's move followed by the enemy's reply exactly when the enemy's HP is still positive after that move; otherwise it is the move alone |
| Combat.Run | gamelib.c:1048-1092 | the loop stops exactly when one side is down or the script ends; an over fight is returned unchanged |
| Combat.RunStopsWhenOver | gamelib.c:1048 | once one side is down, further exchanges are never played |
| Combat.RunCons | gamelib.c:1048-1092 | while both sides stand, one pass of the loop plays the first exchange and then carries on with the rest |
| Combat.RunContinues | gamelib.c:1048 | while both sides stand, the loop continues with the next exchanges |
| Combat.Resolve | gamelib.c:1035-1116 | no enemy iff no fight; death iff the player's HP reached 0; a demotorzone victory iff the beaten enemy was the demotorzone; the beaten enemy leaves iff the d100 is ≤ 50; after a death or a win the player is the fight's end player, so items used in the fight stay consumed and their boosts stay |
| Combat.BilliFallsToThreeHits | gamelib.c:1048-1092 | with 4-damage hits a billi goes 12, 8, 4, 0; the third hit ends the fight without a reply |
| Turn.FightHere | gamelib.c:1035-1116 | the fight in the player's zone ends as the combat resolution does: stuck iff unfinished, dead iff the player died (and the slot is emptied), a victory iff the beaten enemy was the demotorzone; after a win the slot holds the fight's player and the zone the remaining enemy; a survivor stays put and in its world; after a win only the fought zone's enemy changes, to the remaining one |
| Turn.Move | gamelib.c:1123-1192 | the shared step of advancing and retreating: refused when the flag is set; otherwise the fight comes first and its outcome carries over; the player moves by the step iff it survives and the neighbour exists, in the same world, and only then sets the flag |
| Turn.Advance | gamelib.c:1123-1154 | refused when the flag is set; otherwise the zone's fight comes first and its outcome carries over (stuck, death, victory flag); the move happens iff the player survives and a next pair exists, stays in the same world and only then sets the flag |
| Turn.Retreat | gamelib.c:1161-1192 | as advancing, toward the previous pair, which exists iff the player is not on the first |
| Turn.SwitchWorld | gamelib.c:1200-1226 | Real to Upside Down: refused when the flag is set; otherwise the zone's fight comes first and its outcome carries over, then it succeeds iff the d20 is below luck and sets the flag. Upside Down to Real: always, with no fight and the flag untouched. The ordinal never changes |
| Turn.SwitchNeedsRollBelowLuck | gamelib.c:1208-1212 | with luck 15 a d20 of 20 fails and a d20 of 1 succeeds |
| Turn.Challenge | gamelib.c:1259-1265 | fighting on purpose ends as the zone's fight does, in its state, succeeding iff the player survives; it never moves the player or touches the flag |
| Turn.PickUp | gamelib.c:1272-1274 | the turn's collect action succeeds exactly as the backpack's collect and then holds one more item; the player's slot and the zone become exactly what the backpack's collect returns; only the Real World zone of the player's pair changes, the Upside Down half and every other pair are kept |
| Turn.UseOutside | gamelib.c:1275-1277 | the turn's item use (outside a fight) succeeds iff the slot holds an item and never changes the map; the player's slot becomes exactly what the backpack's use without an enemy returns |
| Turn.Perform | gamelib.c:1248-1283 | any menu entry keeps the game valid, changes only the acting player's slot and zone, and moves at most one ordinal, and only when the flag was clear; only the entries that fight can beat the demotorzone or run out of script |
| Turn.PerformDispatches | gamelib.c:1248-1283 | the menu dispatch: entries 1-4 and 7-8 are exactly advancing, retreating, switching world, fighting, collecting and using an item; showing the player, showing the zone and ending the turn change nothing |
| Turn.PlayTurn | gamelib.c:1233-1291 | a turn reads between 1 and all of its answers; a victory leaves the player alive; other slots are untouched; the map only loses enemies and items; a survivor keeps its name and moves at most one ordinal, none if it already moved |
| Turn.TurnContinues | gamelib.c:1238-1290 | a turn is its first answer, ending there with that answer's state and victory flag when it was "end turn", a victory or a death, and otherwise followed by the turn over the remaining answers from the state and flag it left, with one more answer used |
| Turn.TurnWonByLastAction | gamelib.c:1233-1291 | a turn won by the player ends on the answer that beat the demotorzone: there is a valid state, with the player alive, and a flag from which the last answer read, performed, beats it and gives the turn's final state |
| Turn.TurnEndsAtFirstEnd | gamelib.c:1233-1291 | the last answer a turn reads passed, beat the demotorzone or killed the player, and no earlier answer passed |
| Turn.TurnUnfinishedBeforeItsEnd | gamelib.c:1233-1291 | no shorter prefix of the answers ends the turn: the loop does not stop before its ending answer |
| Turn.TurnIgnoresLaterAnswers | gamelib.c:1233-1291 | answers after the ending one are never read: any script agreeing on the answers read plays the same turn |
| Match.RecordWinner | gamelib.c:864-878 | the record is the last three names of the history extended with the new one, and the match count grows by one |
| Match.RecordKeepsLastThree | gamelib.c:864-878 | after any sequence of matches the record holds exactly the last three names of the whole history, in arrival order |
| Match.LiveIndices | gamelib.c:1327-1332 | the live slots, in ascending order, and only those |
| Match.AllDeadIffNoneLive | gamelib.c:851-859 | the "all dead" test holds iff the list of live indices is empty |
| Match.ShuffleDown | gamelib.c:1333-1338 | each Fisher–Yates swap keeps a permutation and leaves the positions above the current one final; the position `i` ends up holding the element at the drawn index `d[i]` |
| Match.Shuffle | gamelib.c:1333-1338 | the turn order is a permutation of the live indices; its last position holds the element at the index drawn for it by the first swap |
| Match.PlayRound | gamelib.c:1340-1356 | a round keeps the game valid, never revives a player, leaves slots outside the order alone, names a live player as winner, and stops before the end of the order only on a victory or when everybody is dead |
| Match.RoundWinnerWonItsTurn | gamelib.c:1340-1356 | the winner of a round is the player in the slot played last, alive at the end: there is a valid state, with that slot alive, from which that slot's turn beat the demotorzone and gave the round's final state |
| Match.RoundShift | gamelib.c:1340-1356 | a winning turn found in the rest of the order is the winning turn of the whole order, one position later |
| Match.RoundOfOneTurn | gamelib.c:1340-1356 | a round of one slot skips it when empty; otherwise it ends as that slot's turn does, won iff the turn beat the demotorzone |
| Match.RoundContinues | gamelib.c:1340-1356 | a round is its first slot's turn followed by the round over the rest of the order, unless that turn won or killed everybody; an empty slot is skipped without any test |
| Match.TurnOrder | gamelib.c:1326-1338 | each round's order holds every live slot exactly once and nothing else |
| Match.PlayComposes | gamelib.c:1340-1357 | turns compose: the map only losing enemies and items, and dead players staying dead, both carry across consecutive turns |
| Match.PlayMatch | gamelib.c:1325-1357 | a match where nobody is alive ends at once with no winner; with players alive and no round left to play it is stuck; otherwise it ends with a live winner after at least one round, or with nobody alive and no winner; the map only loses enemies and items |
| Match.MatchContinues | gamelib.c:1325-1357 | a running match is its first round followed by the match over the remaining rounds, unless that round was won, in which case the match ends with it |
| Match.PlaceAtStart | gamelib.c:1296-1306 | every live player goes to the Real World on the first pair of both worlds and keeps its statistics and backpack |
| Match.NewSession | gamelib.c:817-846 | setup empties and reopens the map, creates the players with null positions, and keeps the winners record; slot i holds exactly the i-th player created in order |
| Match.Play | gamelib.c:1313-1366 | refuses to start iff the map is not closed, is empty, or the player count is zero; otherwise records the winner's name or "Nessuno" when everybody died |
| Match.PlayRecordsMatchWinner | gamelib.c:1313-1366 | a started session plays the match from the players placed on the first pair; it is unfinished iff the match is, and otherwise keeps the match's map and roster and records exactly its winner, or "Nessuno" |
| Match.WipedOutSessionRecordsNobody | gamelib.c:1315-1325 | a new match after everybody died starts, since the start test counts created players, and records "Nessuno" with no turn played |

## Left out

- Output and input plumbing are not modelled: the typewriter output, the
  printers, the credits, and the input loops behind the bounded reads and the
  name read. The map menu and the main menu are left out too. A bounded read is
  a parameter in its range, and the map menu's choices are calls of the map
  operations.
- Randomness is not modelled: the generator's seeding and the modulo bias of
  `randint`. A draw is a parameter in its range, and no probability is claimed.
- Memory management is not modelled: allocation, freeing, and the
  allocation-failure branches.
- The player's name is opaque. The variant's rename formats a name into its own
  buffer (undefined behaviour), so the model keeps the name as entered and
  records the variant as a flag of `PlayerSetup.Setup`. Names are not
  truncated to the 64-byte buffer either.
- Turn.PlayTurn: ends the turn on the player's death. The source tests its own
  local pointer, which the fight never clears, so after a death it keeps
  serving the menu on freed memory. The model does not reproduce that
  undefined behaviour.
- Combat.Resolve: each exchange carries a luck draw even after a miss, where it
  is ignored. The source draws it only after a hit, so the scripts differ but
  the possible outcomes do not. The same holds for the enemy's two reply draws
  and its luck draw in an exchange whose move downs the enemy, which the source
  does not draw either.
- ZoneMap.Generate: each pair's draws carry an item kind even when the item
  draw leaves the zone empty, and the boss position is a parameter even when a
  demotorzone was already drawn. The source draws neither in those cases, so
  again only the scripts differ.
- PlayerSetup.InitPlayers: every player's answers carry a variant choice,
  which is ignored once the variant is taken. The source asks the question
  only while the once-per-game flag is clear, so again only the scripts
  differ.
- Combat.Run, Turn.PlayTurn, Match.PlayRound and Match.PlayMatch: take finite
  scripts and report "stuck" when a script runs out. The source would keep
  reading input, so a fight, turn or match that never ends is not modelled.
- The start test's check that the first Real World zone exists is modelled as
  a non-empty map, because the head is null exactly when the map is empty.
- The map-menu loop that repeats until the map closes is not modelled. Editing
  operations are independent functions on the map.
