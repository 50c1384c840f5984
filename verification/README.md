# A verified model of the game server

The repository is an online role-playing game: a server that owns every match, world and player, and clients that
send commands and receive updates. This project models the server's authoritative parts, and the client's half of the
protocol, and proves what they are relied on for.

- `Placement`, `Worlds`, `WorldLaws`: the map, the breadth-first search that places things, the world grid with its
  occupancy matrix, players, NPCs and pending resurrections, and what each event does to them.
- `Names`, `Items`, `Inventories`, `Players`, `Trade`, `Grounds`: normalized names, the inventory with its stacks and
  worn items, levelled experience and capped gold, the bank and the city NPCs, and what lies on the ground.
- `Ledgers`, `LedgerLaws`, `Economies`: all players, their safes and the ground together, over any run: as values, what
  each event is worth, and the objects that follow them.
- `Saves`: saving a player and rebuilding it.
- `Wire`, `Updates`, `RoundTrips`, `Deliveries`, `Layouts`, `ServerProtocols`, `ClientProtocols`, `Connections`: the
  hand-written codecs for the server's updates, what arrives of each kind and how it looks on the wire, and the stream
  under them, whole or broken off.
- `Commands`, `CommandLaws`, `Dialogues`: the client's commands, their codec, the server's receiver thread, which
  commands it takes when, and the two ends together.
- `BlockingQueues`, `Sessions`, `SessionLaws`: the queue between threads, and logins, matches and disconnections, under
  every interleaving of their critical sections.
- `Clans`, `ClanLaws`, `GameLoops`: clan membership over every run, what each action means for the next ones, and the
  pacing of the game loop.

Objects whose methods change their fields are classes here, and their methods are verified against functions on
values; the theorems are lemmas about those functions, or invariants that every method keeps. The modules `...Laws`,
`Deliveries` and `Layouts` say what those functions mean in terms of their arguments alone: coordinates, coins, slots,
lists, bytes. `Prelude` and `Bytes` hold stock types. `dafny verify dfyconfig.toml` checks everything.

## What is taken for granted

- The level-up limit grows strictly with the level and the limit of level 1 is positive; the gold cap does not fall
  with the level; every level has a positive maximum of hit points. New players are of level 1. `Players.Rules`
  carries these formulas as functions of the level.
- The item registry files templates under normalized, non-empty names, each a weapon, a magic weapon, a potion or
  something defensive with a place to wear it, and knows every item in play; a save may name items it no longer knows.
  The code's loader accepts other types and places too; creating such an item throws, after its price has been taken.
- NPC ids are fresh, below the id the world hands out next. Players and NPCs never share an id where a statement says
  so; where they do, an NPC's chase moves the player, and the world's relations say so.
- Whatever the server draws at random or computes in floating point is a parameter: spawn draws, the length of a
  resurrection, whether a blow is fatal, the tick's length.
- Integers that the source keeps in 32 or 64 bits in memory are unbounded, except where they are narrowed: the level
  in a save, the counts and lengths on the wire, the tick counter, a match's player counter.
- The game loop's clock readings and durations are whole numbers of some unit, where the code has milliseconds in
  floating point.
- A disconnection does not throw, and no connection object is destroyed before its thread has ended.

## Where the code does not meet a stronger statement

- The spawn search never looks at the base row left of the base column, so it can fail with room left:
  `Worlds.World.SpawnPosition` says exactly when, `Worlds.SpawnFailsWithRoom` shows one such world.
- A producer waiting for room does not look at the closed flag again: `BlockingQueues.EnqueuedAfterClose` shows a
  value enqueued after the close, `BlockingQueues.PushesAfterClose` counts them.
- Admission to a clan does not look at the target's current clan, and a returning player's record starts without a
  clan: `Clans.FaithfulThroughout` says exactly in which runs lists and records agree, `Clans.TwoClansListOnePlayer`
  shows a run in which they do not.
- A saved item that no longer exists was meant to be skipped, but creating it throws before that is looked at:
  `Saves.Restore` says exactly when a save can be restored, `Saves.OneLostItem` shows a player lost for one item.
- Leaving destroys what is in hand and coming back restores the last autosave: `Ledgers.RoomyRunConserves` and
  `Ledgers.ReturnAfterLeaving` say exactly what a run gains or loses by it, `Economies.PotionTwice` shows an item
  doubled. A safe is filed under the id of a connection, so `Economies.Economy.Reconnect` loses it.
- A resurrection can be pending for the living: `Worlds.World.Do` says exactly which event brings that about,
  `Worlds.RevivedCannotMove` shows it.
- A save keeps 16 bits of the level: `Saves.SaveAndRestore` says exactly how much gold survives, and that gold and
  maximum vitals survive for every level below 65536; `Saves.HighLevelLosesGold` is a level for which they do not.
- Three counts are narrowed without a check: `RoundTrips.RoundTrip` says exactly which updates are read back. The worn
  items in a snapshot always fit (`Inventories.WornAtMostFour`), the members of a clan fit when its maximum does
  (`Clans.SoundAfter`), the applicants need not: `RoundTrips.CrowdIsGarbled`.
- An opcode rejected in a state leaves its payload in the stream: `Commands.RejectedOpcode` says exactly when the
  stream stays in step.
- One update that cannot be written ends the sending loop for that client: `Connections.RunSender`, and
  `Connections.StuckBehind` for a case.
- After one overrun the game loop stays one period late until a turn takes no time at all:
  `GameLoops.LateSinceOverrun`.
- Gold above the cap is lost, by withdrawals, sales and pick-ups: exactly how much is `Ledgers.Spilt`, and its sum over
  a run is part of `Ledgers.RunBalances`.
- What a dying player drops beyond the open cells is lost: `Ledgers.NothingUnlaid` says exactly when that
  happens, `Economies.CrowdedDeath` shows it.

## Model

| member | source | states |
|---|---|---|
| Names.NormalizeName | common/string_utils.h:10-86 | the index loop that skips two-byte accents computes the recursive normal form |
| Names.NormalizeIsPlain | common/string_utils.h:10-86 | on every byte string, stray and doubled lead bytes included, no accented letter and no capital is left; a non-empty name stays non-empty |
| Names.FixedPointsArePlain | common/string_utils.h:10-86 | a name is its own normal form exactly when it has no accented letter and no capital |
| Names.NormalizeIdempotent | common/string_utils.h:10-86 | normalizing twice is normalizing once |
| Names.NormalizedLength | common/string_utils.h:10-86 | the result is shorter by exactly one byte for each accented letter |
| Names.CasesAreOne | common/string_utils.h:10-86 | a capital and its small letter have one normal form, the small letter; a byte that is no capital is left as it is |
| Names.AccentsAreOne | common/string_utils.h:10-86 | each accented vowel, acute, grave or with a diaeresis, large or small, becomes its plain small vowel, and n with a tilde becomes n |
| Names.StrayLead | common/string_utils.h:10-86 | a lead byte in front of anything else is taken by itself, and so is what follows it |
| Names.PieceByPiece | common/string_utils.h:10-86 | a name is normalized piece by piece, as long as no accented letter is cut in two; with the letters above this fixes the normal form of every name |
| Placement.CloserCellsAreDone | server/world/world.cpp:185-213 | a valid cell closer to the start than everything queued has been looked at: the search goes outward |
| Placement.Expand | server/world/world.cpp:201-209 | enqueues each valid unvisited neighbour once, keeping the queue sorted by distance and free of repetitions |
| Placement.FindClosestFree | server/world/world.cpp:185-213 | the search ends with an unblocked accepted cell at the least Manhattan distance from the start, and with nothing exactly when the start is off the map or there is no such cell |
| Placement.GroundMeans | server/world/world_map.cpp:18-24 | blocked are the walls and all that is off the map; safe, and of a kind, is what a zone of the map covers |
| Placement.StepsApart | server/world/world.cpp:185-213 | the distance of two cells is the number of steps between them, and the four neighbours are exactly the cells one step away |
| Worlds.CellsAfterAdd | server/world/world.cpp:38-65 | adding an entry on a cell nobody stands on adds that cell, and no two entries come to share one |
| Worlds.CellsAfterRemove | server/world/world.cpp:67-75 | removing an entry frees exactly its cell |
| Worlds.CellsAfterMove | server/world/world.cpp:367-370 | moving an entry to a free cell frees the old cell and takes the new one |
| Worlds.World.constructor | server/world/world.cpp:26-36 | a world without players and NPCs, whose matrix marks nothing |
| Worlds.World.IsOccupied | server/world/world.cpp:138-140 | the matrix answers whether a player or NPC stands on a valid cell |
| Worlds.World.AddPlayer | server/world/world.cpp:38-65 | succeeds exactly for a new id on an unblocked, unoccupied cell, tells why otherwise, and then changes nothing; keeps the world invariant |
| Worlds.World.RemovePlayer | server/world/world.cpp:67-75 | the entry and its pending resurrection go, its cell becomes vacant, nothing else changes |
| Worlds.World.MoveCharacter | server/world/world.cpp:334-374 | moves one cell exactly when the id exists, no resurrection is pending, and the destination is vacant and may be entered; else nothing changes |
| Worlds.World.TeleportPlayer | server/world/world.cpp:382-397 | takes the player to a vacant cell nearest to the destination; fails exactly for an unknown id, an invalid destination or a full map |
| Worlds.World.ClosestVacant | server/world/world.cpp:222-225 | the search over the matrix finds a cell nobody stands on, nearest to the start |
| Worlds.World.AddNpc | server/world/world.cpp:475-483 | the NPC is entered exactly when its cell is vacant, whatever its id; the world stays in order when the id is new, the ground fits and the population has room |
| Worlds.World.ScanRow | server/world/world.cpp:159-167 | the first vacant cell of a row from a column on, or none exactly when there is none |
| Worlds.World.SpawnPosition | server/world/world.cpp:156-179 | fails exactly when every vacant cell lies in the base row left of the base column; else gives the first other vacant cell in scan order |
| Worlds.SpawnFailsWithRoom | server/world/world.cpp:156-179 | a world with a vacant cell in which the spawn search fails |
| Worlds.World.Strike | server/world/world.cpp:293-332 | damage to whoever an id names moves nobody and revives nobody |
| Worlds.World.PriestRevive | server/game/npcs/priest.cpp:32-41 | revives exactly a present dead player, on the spot, leaving a pending resurrection pending |
| Worlds.World.StartResurrection | server/world/world.cpp:447-473 | entered exactly for a dead player without one, towards the priest of a nearest city; the three answers told apart |
| Worlds.World.UpdateResurrections | server/world/world.cpp:1133-1149 | one count-down after another in order of id, each the specified step from the world the one before left; altogether every timer counts down; those due are carried out and dropped, moving and reviving the player when there is room, and the rest stay |
| Worlds.World.CountDown | server/world/world.cpp:1133-1149 | one pending resurrection: a due entry goes whether or not the teleport succeeds, which takes the player to a vacant cell nearest to the priest |
| Worlds.ClosestCity | server/world/world_map.cpp:61-77 | the first city, in loading order, whose priest is nearest; none exactly when there are no cities |
| Worlds.World.RandomSpawn | server/world/world.cpp:1033-1052 | the first of at most 50 draws that is vacant, not safe and of an allowed zone; none exactly when no draw is |
| Worlds.World.TrySpawn | server/world/world.cpp:1054-1077 | spawns exactly when the live hostile NPCs are below the limit and a draw fits; the new NPC has the next id and is alive, with its template's zones and range, on the first draw that fits |
| Worlds.World.SpawnCityNpcs | server/world/world.cpp:1082-1096 | the table afterwards exactly: three ids per city are used up, and each NPC whose cell is vacant when its turn comes stands there under its own id; other NPCs are left alone |
| Worlds.SettledWho | server/world/world.cpp:1082-1096 | of the NPCs meant for one cell, exactly the first is there, with its job, if the cell was vacant; nobody else is added or changed |
| Worlds.StartWorld | server/world/world.cpp:26-36 | a new world has its city NPCs, those whose cells are open and not taken by an earlier one, and besides them only live hostile NPCs; every one of as many attempts as the limit is made, and if some draw fits in each, the limit is reached exactly |
| Worlds.NoneInVain | server/world/world.cpp:26-36 | no attempt made by a new world meets the limit, so each adds an NPC exactly when one of its draws fits, and the earlier ones stay |
| Worlds.PopulationAfter | server/world/world.cpp:1054-1077 | an attempt adds one live hostile NPC exactly when there is room and a draw fits, and touches nobody |
| Worlds.FindPrey | server/game/npcs/hostile_npc.cpp:50-68 | the living player in range who is nearest, on a tie the one with the smallest id; none exactly when nobody is in range |
| Worlds.FirstLeast | server/game/npcs/hostile_npc.cpp:50-68 | the running minimum keeps the first of the least values |
| Worlds.World.Decide | server/game/npcs/hostile_npc.cpp:36-85 | still exactly while cooling down or with nobody in range; attack exactly an adjacent prey, chase any other; the timer restarts with an action |
| Worlds.ChaseClosesGap | server/world/world.cpp:983-993 | a chaser is adjacent exactly at gap 0, and each step of a chase closes the gap by one |
| Worlds.ChaseReachesTarget | server/world/world.cpp:983-999 | unhindered, a chaser is adjacent to a target that stays put after exactly gap steps and not before |
| Worlds.World.MoveTowards | server/world/world.cpp:983-999 | the NPC turns to its target and moves exactly when it can; a successful move lowers the gap by one |
| Worlds.World.Act | server/world/world.cpp:1171-1186 | a hostile NPC waits, strikes its prey or takes one chasing step, exactly as its timer and its surroundings have it |
| Worlds.World.Turn | server/world/world.cpp:1151-1190 | a dead NPC is removed, a peaceful one stays where it is, a hostile one acts |
| Worlds.World.UpdateNpcs | server/world/world.cpp:1151-1190 | the NPCs take their turns in order of id, each waiting, striking or stepping as it must from where the ones before left everybody; exactly those that were alive are left, each at most a step away, and no player has moved |
| Worlds.World.Do | server/world/world.cpp:38-1190 | each of the nine events turns the world before it into the one after it as the event's relation on players, NPCs, pending resurrections and the next NPC id has it, which `WorldLaws` spells out in coordinates, and keeps the world in order; whoever has a resurrection pending is dead until a priest is asked by one of them, and does not move as long as it is pending |
| Worlds.RevivedCannotMove | server/game/npcs/priest.cpp:32-41 | a player revived while being resurrected: alive, beside a vacant cell, and unable to move |
| Worlds.World.Run | server/world/world.cpp:38-1190 | after any sequence of joins, restores, leaves, moves, blows, resurrections, ticks and spawns: the worlds passed through follow one another as the events have it; the matrix marks exactly the cells of players and NPCs, no two share one, all stand on open ground, hostile NPCs on unsafe ground of their zones within the limit, and pending resurrections name present players, dead ones unless a priest was asked |
| WorldLaws.WalkSteps | server/world/world.cpp:334-374 | where nothing is pending and the next cell is open and may be entered, RIGHT raises x by one, LEFT lowers it, UP lowers y and DOWN raises it, and the player faces that way; otherwise nothing changes, and nobody else changes in any case |
| WorldLaws.NobodyNamed | server/commands/move_command.cpp:9-22 | who is no player walks nowhere, and a blow at nobody hurts nobody |
| WorldLaws.HitHurts | server/world/world.cpp:293-332 | whoever the id names is dead if the blow was deadly, and else as before; nobody else changes |
| WorldLaws.LeaveFrees | server/world/world.cpp:67-75 | the player and its pending resurrection are gone, its cell is open again, everybody else is as before |
| WorldLaws.JoinPlaces | server/world/world.cpp:156-179 | a player comes in alive at the base cell if that is open, and else at the first open cell row by row from there on and then from the top; refused exactly if already in or if only cells of the base row left of the base are open |
| WorldLaws.RestorePlaces | server/world/world.cpp:38-65 | a restored player stands alive on the saved cell exactly if that is open and the id new; else nothing changes |
| WorldLaws.PriestRaises | server/game/npcs/priest.cpp:32-41 | a dead player lives again on the spot; nothing else changes |
| WorldLaws.ResurrectionAsked | server/world/world.cpp:447-473 | a dead player without one pending waits as long as asked, for the priest that is nearest, the first of those equally near; in any other case nothing changes |
| WorldLaws.Squares | server/world/world_map.cpp:61-77 | the distance to priests and prey is the sum of the squares of columns and rows |
| WorldLaws.PopulateAdds | server/world/world.cpp:1054-1077 | below the limit, the first of fifty draws that is open, not safe and of the template's zones gets a live NPC of the template's zones and range, under the next id; nothing else changes |
| WorldLaws.PopulateInVain | server/world/world.cpp:1054-1077 | without templates, or with no such draw, nothing changes |
| WorldLaws.WaitShortens | server/world/world.cpp:1133-1149 | a resurrection that is not due waits a tick less; nobody moves |
| WorldLaws.DueIsCarried | server/world/world.cpp:1133-1149 | one that is due is dropped; if the priest's cell is on the map and any cell is open, the player lives, on an open cell that none is fewer steps from the priest than; else nobody changes |
| WorldLaws.TickTimers | server/world/world.cpp:1133-1149 | after a tick exactly those whose wait was longer than it still wait, each that much less |
| WorldLaws.QuietTurns | server/world/world.cpp:1151-1170 | a dead NPC disappears, a peaceful one stands still, and nobody else changes |
| WorldLaws.HostileRests | server/game/npcs/hostile_npc.cpp:36-85 | before its cooldown, or with nobody alive in range, a hostile NPC only rests on |
| WorldLaws.HostileStrikes | server/world/world.cpp:1171-1186 | the nearest living player in range, the one with the smallest id among equals, is struck when at most one column and one row away, and the NPC rests anew |
| WorldLaws.OneHeading | server/world/world.cpp:983-993 | there is exactly one step along the larger gap, and it closes that gap |
| WorldLaws.HostileChases | server/world/world.cpp:983-999 | a prey further away is chased: the NPC turns along the larger gap and takes the step if that cell is open and of its zones, and rests anew; nobody else changes |
| WorldLaws.TickOfOne | server/world/world.cpp:1201-1206 | with nobody waiting and one NPC, a tick is that NPC's turn |
| WorldLaws.TickOfTwo | server/world/world.cpp:1201-1206 | with two, it is the turn of the one with the smaller id and then of the other |
| WorldLaws.TickOfWait | server/world/world.cpp:1201-1206 | with no NPC and one player waiting, it is that player's count-down |
| WorldLaws.StandsUnlessWalked | server/world/world.cpp:334-374 | whatever else happens, a player who does not walk and waits for no resurrection stays in place |
| WorldLaws.DeadReckoning | server/world/world.cpp:334-374 | over any run in which a player stays and never waits for a resurrection, its column and row differ from where it began by exactly its steps right less left and down less up, whatever the others, the NPCs and the ticks do |
| WorldLaws.PostsInOrder | server/world/world.cpp:1082-1096 | each city's priest, merchant and banker in that order, city by city, each meant for its own cell |
| Items.SameKeySameItem | server/game/inventory.cpp:140-147 | two items of the registry have the same normalized name exactly when they have the same name, and then the same kind |
| Items.RegistryIgnoresAccents | server/game/npcs/merchant.cpp:15-29 | existence, price and kind of an item do not depend on accents and case |
| Items.RegistryFinds | server/game/items/item_registry.cpp:19-65 | a name spelt in whatever case and accents finds the template of that name: price, shown name and kind are the template's |
| Items.RegistryMisses | server/game/items/item_registry.cpp:34-38 | a name of no template does not exist, and costs nothing |
| Items.KnownItems | server/game/items/item_registry.cpp:40-64 | an item is known exactly when it has the name and the kind of a template |
| Items.WhereWorn | server/game/items/item_registry.cpp:42-64 | weapons of both sorts go to the hand, armour, helmets and shields to their places, potions nowhere |
| Inventories.FirstIndex | server/game/inventory.cpp:18-36 | the least index that satisfies a condition, or -1 exactly when there is none |
| Inventories.UnitsAfterAdd | server/game/inventory.cpp:38-65 | where an item can be added, exactly that many units are added under its name and none under any other |
| Inventories.SoundAfterAdd | server/game/inventory.cpp:38-65 | adding keeps the inventory sound: in particular no two stacks of one potion |
| Inventories.WornSlots | server/game/inventory.cpp:76-104 | what putting an item on or off does to each slot |
| Inventories.SoundAfterWear | server/game/inventory.cpp:76-104 | clearing one other slot is enough: at most one item is worn per place, and all units stay |
| Inventories.SoundAfterOneLess | server/game/inventory.cpp:122-138 | taking one unit keeps the inventory sound and changes the count of that name by one |
| Inventories.WornItemsAreOfTheirKind | server/game/inventory.cpp:174-181 | what is worn as a weapon is a weapon and what is worn elsewhere is a defensive item of that place, so the casts are safe |
| Inventories.LookupIgnoresAccents | server/game/inventory.cpp:140-147 | a name and its normalized form find the same slot |
| Inventories.AddableWhen | server/game/inventory.cpp:67-74 | an item fits exactly when a slot is empty or, for a potion, when there is a stack of its name |
| Inventories.AddedWhere | server/game/inventory.cpp:38-65 | a potion goes on the first stack of its name, anything else into the first empty slot, not worn; no other slot changes |
| Inventories.OneLessMeans | server/game/inventory.cpp:122-138 | a slot with more than one unit keeps one less, and one with a single unit is empty afterwards |
| Inventories.OccupiedUnits | server/game/inventory.cpp:209-220 | dropping everything drops exactly the units carried |
| Inventories.OccupiedSlots | server/game/inventory.cpp:209-220 | what is dropped are different items, each from a slot |
| Inventories.Inventory.CanAddItem | server/game/inventory.cpp:67-74 | true exactly when there is a stack of the potion or a free slot |
| Inventories.Inventory.AddItem | server/game/inventory.cpp:38-65 | adds exactly when the quantity is positive and there is room; else nothing changes; stays sound |
| Inventories.Inventory.Equip | server/game/inventory.cpp:76-104 | not carried, put on or off with the swap, or one unit drunk; stays sound |
| Inventories.Inventory.RemoveItem | server/game/inventory.cpp:122-138 | takes one unit; the item itself comes back exactly when it was the last |
| Inventories.Inventory.HasItemByName | server/game/inventory.cpp:149-151 | agrees with the lookup by normalized name |
| Inventories.Inventory.RemoveItemByName | server/game/inventory.cpp:153-158 | takes one unit of the first slot of that normalized name, or nothing |
| Inventories.Inventory.EquippedItem | server/game/inventory.cpp:174-181 | finds what is worn in a place, if anything, and it is of the kind that place takes |
| Inventories.WornAtMostFour | server/game/inventory.cpp:183-191 | a sound inventory wears at most four items |
| Inventories.Inventory.EquippedItems | server/game/inventory.cpp:183-191 | the worn items in slot order, at most four of them |
| Inventories.Inventory.PopSlot | server/game/inventory.cpp:197-207 | empties one slot and hands over its content; an index out of range changes nothing |
| Inventories.Inventory.DropAll | server/game/inventory.cpp:209-220 | hands over the occupied slots in order and leaves every slot empty |
| Players.LevelForFits | server/game/player.cpp:102-108 | levelling up ends at the first level whose limit is above the experience |
| Players.LevelIsDetermined | server/game/player.cpp:91-108 | an experience fits one level only |
| Players.LevelsInTwo | server/game/player.cpp:102-108 | levelling for a smaller gain first does not change the level reached |
| Players.GainInTwo | server/game/player.cpp:102-108 | gaining a and then b leaves the same level, experience and vitals as gaining a + b |
| Players.GainKeepsLevelled | server/game/player.cpp:102-108 | after a gain the experience lies between the limits of the level again |
| Players.LossKeepsLevel | server/game/player.cpp:91-100 | a loss takes what is above the floor of the level at most, and never costs a level |
| Players.GainMeans | server/game/player.cpp:102-108 | the experience adds up, the level is the one it fits, and the vitals stay, or are full ones of the new level |
| Players.LossMeans | server/game/player.cpp:91-100 | the loss is the amount, or what is above the limit of the level below |
| Players.Player.AddGold | server/game/player.cpp:72-78 | gold becomes the sum or the cap of the level, whichever is less, and never falls |
| Players.Player.RemoveGold | server/game/player.cpp:80-87 | pays exactly when there is enough, else changes nothing |
| Players.Player.LevelUp | server/game/player.cpp:157-169 | one level more, with the vitals of that level |
| Players.Player.AddExperience | server/game/player.cpp:102-108 | the loop ends, and leaves level, experience and vitals as the specification of a gain has them |
| Players.Player.RemoveExperience | server/game/player.cpp:91-100 | the loss of the specification; the level keeps fitting |
| Players.Player.CheatLevelUp | server/world/world.cpp:420-428 | a living player gains exactly one level, at the least experience of it |
| Players.Player.ReceiveDamage | server/game/character.cpp:13-23 | hit points fall to 0 at least and the player dies exactly at 0 |
| Players.Player.Heal | server/game/character.cpp:25-36 | hit points rise to the maximum at most, for the living, and the rise is reported |
| Players.Player.RestoreMana | server/game/player.cpp:299-307 | mana rises to the maximum at most, for living casters only |
| Players.Player.Resurrect | server/game/player.cpp:181-187 | a dead player lives with full vitals; a living one is left alone |
| Players.Player.Equip | server/game/player.cpp:279-281 | the inventory is refitted, or one potion is drunk and its effect capped |
| Players.Player.DropLoot | server/game/player.cpp:50-66 | gold kept and dropped add up, the part kept is at most the safe amount; the experience loss is floored; every slot is emptied into the loot |
| Trade.Bank.DepositGold | server/game/bank.cpp:11-16 | a positive amount is added to that safe and no other |
| Trade.Bank.WithdrawGold | server/game/bank.cpp:18-24 | taken exactly when the safe exists and holds enough |
| Trade.Bank.DepositItem | server/game/bank.cpp:31-36 | the item is appended to that safe |
| Trade.Bank.WithdrawItem | server/game/bank.cpp:38-54 | the first item of that normalized name is taken out, or nothing |
| Trade.StoredWithout | server/game/bank.cpp:38-54 | taking an item out of a safe lowers the count of its name by one and of no other |
| Trade.RoomWhen | server/game/npcs/merchant.cpp:34-43 | there is room for a purchase exactly when a slot is empty or there is a stack of that potion |
| Trade.OfferAnswers | server/game/npcs/merchant.cpp:15-44 | each answer to a purchase exactly in its case, by the price of the template the name goes by |
| Trade.Purchase | server/game/npcs/merchant.cpp:30-43 | the answer exactly; a refused purchase leaves gold and inventory as they were, the capped refund included; a successful one charges the price and adds one unit |
| Trade.MerchantBuy | server/game/npcs/merchant.cpp:15-44 | each of the six answers exactly in its case; a sale charges the price and adds one unit, a refusal changes nothing |
| Trade.MerchantSell | server/game/npcs/merchant.cpp:46-67 | each answer exactly in its case; one unit goes and the part of the price above the cap is lost |
| Trade.PriestBuy | server/game/npcs/priest.cpp:43-72 | each of the six answers exactly in its case, selling potions and magic weapons only; a refusal changes nothing |
| Trade.PriestHeal | server/game/npcs/priest.cpp:13-30 | refused for the dead and for the unhurt; else hit points, and a caster's mana, are full |
| Trade.PriestResurrect | server/game/npcs/priest.cpp:32-41 | revives exactly the dead |
| Trade.BankerDepositGold | server/game/npcs/banker.cpp:13-28 | each answer exactly in its case; hand and safe together keep their gold |
| Trade.BankerWithdrawGold | server/game/npcs/banker.cpp:49-64 | each answer exactly in its case; the safe gives the whole amount and exactly the part above the cap is lost |
| Trade.BankerDepositItem | server/game/npcs/banker.cpp:30-47 | each answer exactly in its case; units carried and stored stay the same for every name, a split stack included |
| Trade.BankerWithdrawItem | server/game/npcs/banker.cpp:66-85 | each answer exactly in its case; units carried and stored stay the same for every name, the way back from a full inventory included |
| Grounds.LaidKeepsPiles | server/world/world.cpp:227-241 | scattering overwrites no pile, and each parcel uses up one open cell |
| Grounds.LaidEach | server/world/world.cpp:227-241 | each parcel lies on an open cell of its own, unchanged |
| Grounds.LaidTotal | server/world/world.cpp:227-241 | by any measure, the ground holds what it held and what was laid |
| Grounds.LaidTidy | server/world/world.cpp:227-257 | every pile stays gold, or at least one unit of a known item, on open ground |
| Grounds.LootIsLayable | server/game/player.cpp:50-66 | what a sound inventory drops may be laid: known items, all different |
| Grounds.SlotToGround | server/world/world.cpp:944-961 | moving a slot to a pile keeps the units of every name |
| Grounds.RoomMeans | server/world/world.cpp:216-220 | open are the cells of the map without wall and pile |
| Grounds.ParcelsInOrder | server/world/world.cpp:224-241 | gold is laid first, if there is any, then each item with all its units, in order |
| Grounds.BuriedTotals | server/world/world.cpp:227-241 | gold and units before a death are those on the ground, those kept and those that found no cell |
| Grounds.Ground.ClosestOpen | server/world/world.cpp:216-220 | a nearest cell without a pile, whoever stands on it |
| Grounds.Ground.AddGroundItem | server/world/world.cpp:243-257 | lands on the cell named when that is open, else on a nearest open one, and nowhere exactly when there is none |
| Grounds.Ground.DropLoot | server/world/world.cpp:227-241 | lays as many parcels as there are open cells, gold first, each on a nearest one |
| Grounds.Ground.PickUp | server/world/world.cpp:913-941 | taken exactly when alive with a pile underfoot and room for it; units of every name are conserved and gold is capped |
| Grounds.Ground.DropItem | server/world/world.cpp:944-961 | the whole slot goes to a nearest open cell; units are conserved; without a cell or an item nothing changes |
| Grounds.Ground.Bury | server/world/world.cpp:227-241 | a death: gold and units are conserved up to what found no cell, and with enough open cells nothing is lost |
| Ledgers.PickUpBalances | server/world/world.cpp:913-941 | what leaves the ground is in the player's hands, units of every name and gold alike, but for exactly the gold above the cap |
| Ledgers.DropBalances | server/world/world.cpp:944-961 | what leaves a slot lies on the ground, for every name |
| Ledgers.DepositBalances | server/game/npcs/banker.cpp:30-47 | hand and safe together keep their units of every name, though a unit off a stack becomes a new item |
| Ledgers.WithdrawBalances | server/game/npcs/banker.cpp:66-85 | hand and safe together keep their units of every name, the way back from a full inventory included |
| Ledgers.GoldBalances | server/game/npcs/banker.cpp:13-64 | a deposit of gold loses nothing, a withdrawal exactly the part above the cap |
| Ledgers.BuyBalances | server/game/npcs/merchant.cpp:30-43 | a purchase brings one unit of that name for exactly its price |
| Ledgers.SellBalances | server/game/npcs/merchant.cpp:46-67 | a sale takes one unit of that name, and brings its price less exactly the part above the cap |
| Ledgers.UseBalances | server/world/world.cpp:963-981 | putting on or off keeps all units, drinking uses up one |
| Ledgers.HitBalances | server/world/world.cpp:227-241 | after a death, what was carried is kept, on the ground, or among the last parcels dropped, beyond the open cells there were |
| Ledgers.ReturnBalances | server/commands/restore_player_command.cpp:21-106 | a player who comes back brings exactly the units and the gold the save gives back |
| Ledgers.ComingAndGoingBalances | server/world/world.cpp:67-75 | leaving takes out exactly what is in hand, a new connection loses exactly the safe, beginning brings nothing |
| Ledgers.StepBalances | server/world/world.cpp:913-961 | whatever one player does, gold and units of every name are everywhere what they were, plus what trade and saves bring, less what trade and drink take, what spills over a cap, what a death strews with no cell left and what leaves the world with a player |
| Ledgers.RunBalances | server/world/world.cpp:913-961 | the same over every run, with the losses added up event by event |
| Ledgers.NothingUnlaid | server/world/world.cpp:227-241 | a run loses nothing on the ground exactly when every death met at least as many open cells as parcels dropped |
| Ledgers.RoomyRunConserves | server/world/world.cpp:227-241 | then, without trade and drink, the units of a name are at the end what they were exactly when saves brought back what leaving took |
| Ledgers.NobodyTravels | server/world/world.cpp:913-961 | and as long as nobody leaves, reconnects or comes back, neither happens |
| Ledgers.UnlaidSane | server/game/player.cpp:50-66 | all that is ever lost on the ground is gold or at least one unit of a known item: no loss makes anything |
| Ledgers.NothingMade | server/world/world.cpp:913-961 | no run makes gold or a unit of any item, but by trade and out of saves |
| Ledgers.AwayStays | server/server.cpp:355-378 | who is away does nothing, and the save stays as it is, until an autosave or the player comes back |
| Ledgers.ReturnAfterLeaving | server/receiver_thread.cpp:174-190 | leaving and coming back with no autosave in between changes the totals by what the save had less what was in hand, whatever the others do meanwhile |
| Ledgers.SavedOnLeaving | server/gameloop_thread.cpp:169-175 | saved at the last moment, every unit comes back, and gold exactly when it fits under the cap of the 16-bit level |
| Ledgers.ComesBackTwice | server/receiver_thread.cpp:174-190 | in every scene: saved, dropped, left and come back, the content of the slot is there twice |
| Ledgers.ApartAfter | server/world/world.cpp:913-961 | what one player does with own items, the ground and new items leaves every item in one place only |
| LedgerLaws.Bleeds | server/game/character.cpp:13-23 | a blow that leaves a hit point takes exactly its damage, and nothing falls to the ground |
| LedgerLaws.DeadFeelNothing | server/game/character.cpp:13-23 | a blow at the dead changes nothing |
| LedgerLaws.Dies | server/game/player.cpp:50-66 | any other blow kills: no hit points, no items, the safe part of the gold, experience less the loss but not below the level, the same safe |
| LedgerLaws.DeathDisturbsNothing | server/world/world.cpp:224-241 | a death leaves every pile as it was, and new ones lie on open ground |
| LedgerLaws.DeathDropsAll | server/world/world.cpp:224-241 | with room for all of it, each slot's content lies whole on an open cell, and the gold on one nearest to the place of death |
| LedgerLaws.PicksUpGold | server/world/world.cpp:913-941 | gold underfoot is taken as far as it fits under the cap, and the pile is gone |
| LedgerLaws.PicksUpItem | server/world/world.cpp:913-941 | an item underfoot is taken with all its units exactly when there is a slot or stack for it |
| LedgerLaws.NothingToPickUp | server/world/world.cpp:913-941 | the dead, and those with nothing underfoot, pick up nothing |
| LedgerLaws.DropsSlot | server/game/inventory.cpp:197-207 | what was in the slot lies on an open cell that none is nearer than, and the slot is empty |
| LedgerLaws.MovesGold | server/game/npcs/banker.cpp:13-28 | gold goes from hand to safe if there is that much, and back, as far as it fits, if there is that much there |
| LedgerLaws.DepositsUnit | server/game/npcs/banker.cpp:30-47 | one unit of that name leaves the slots and one item of it comes into the safe, exactly if one is carried |
| LedgerLaws.WithdrawsUnit | server/game/npcs/banker.cpp:66-85 | with a slot empty, one item of that name goes from safe to slots, exactly if there is one |
| LedgerLaws.BuysFor | server/game/npcs/merchant.cpp:15-44 | what is sold here, fits and costs no more than there is, is bought: one unit more, the template's price less; else nothing changes |
| LedgerLaws.SellsFor | server/game/npcs/merchant.cpp:46-67 | what is carried and no magic weapon is sold: one unit less, the template's price divided and capped more; else nothing changes |
| LedgerLaws.DrinksPotion | server/game/player.cpp:279-281 | a potion restores its hit points or mana, up to the maximum, and is one unit less |
| LedgerLaws.PutsOnOrOff | server/game/inventory.cpp:76-104 | what was worn comes off; else it goes on and what was worn in its place comes off; every other slot stays |
| LedgerLaws.Learns | server/game/player.cpp:102-108 | experience adds up and the level is the one it fits, with full vitals when it is a new one |
| LedgerLaws.Revives | server/game/player.cpp:181-187 | the dead live again with full vitals |
| LedgerLaws.GoesAndComes | server/world/world.cpp:67-75 | who leaves has nothing in hand afterwards; a new connection has an empty safe |
| LedgerLaws.ComesBack | server/commands/restore_player_command.cpp:21-106 | who comes back has the saved level, experience and gold, and slot by slot the saved items, names, units and what is worn |
| LedgerLaws.Begins | server/game/game_formulas.cpp:123-143 | a beginner has level 1, full vitals, no gold and no items |
| LedgerLaws.Autosaves | server/server.cpp:302-378 | an autosave has everybody who is here as they are, and nobody else |
| Economies.Economy.PickUp | server/world/world.cpp:913-941 | player and ground afterwards are those of the ledger, the capped gold included |
| Economies.Economy.Drop | server/world/world.cpp:944-961 | player and ground afterwards are those of the ledger |
| Economies.Economy.Deposit | server/game/npcs/banker.cpp:30-47 | inventory and safe afterwards are those of the ledger: the last unit itself, or a new item off a stack |
| Economies.Economy.Withdraw | server/game/npcs/banker.cpp:66-85 | inventory and safe afterwards are those of the ledger: with no room the item goes to the end of the safe |
| Economies.Economy.MoveGold | server/game/npcs/banker.cpp:13-64 | hand and safe afterwards are those of the ledger, exactly |
| Economies.Economy.Buy | server/game/npcs/merchant.cpp:15-44 | gold and inventory afterwards are those of the ledger, with merchant and priest |
| Economies.Economy.Sell | server/game/npcs/merchant.cpp:46-67 | gold and inventory afterwards are those of the ledger |
| Economies.Economy.Use | server/world/world.cpp:963-981 | what is worn, the stacks and the vitals afterwards are those of the ledger |
| Economies.Economy.Hit | server/world/world.cpp:227-298 | damage, and at death gold, experience and inventory, and every parcel on a nearest open cell, as many as there are open cells, gold first |
| Economies.Economy.Learn | server/game/player.cpp:102-108 | level, experience and vitals afterwards are those of a gain, and nothing else changes |
| Economies.Economy.Revive | server/game/player.cpp:181-187 | a dead player lives with full vitals, and nothing else changes |
| Economies.Economy.constructor | server/server.cpp:28-54 | new players with a new bank and a tidy ground are in order |
| Economies.Economy.Leave | server/world/world.cpp:67-75 | what is in hand is gone from the world, the safe stays |
| Economies.Economy.Reconnect | server/server.cpp:78-91 | a new connection has a new id, and the safe under the old one is out of reach |
| Economies.Economy.Return | server/commands/restore_player_command.cpp:21-106 | who is away and in the last autosave comes back alive, with new items like those saved, gold under the cap, and the safe of the connection |
| Economies.Economy.Begin | server/commands/select_race_class_command.cpp:13-48 | who is away begins at level 1 with nothing in hand |
| Economies.Economy.Autosave | server/server.cpp:302-378 | everybody here is saved as they are and the others are forgotten; with nobody anywhere the last save is kept |
| Economies.Rebuild | server/commands/restore_player_command.cpp:21-106 | a record gives back the player it was taken of, with new items |
| Economies.PotionTwice | server/receiver_thread.cpp:174-190 | a run from a new world after which one potion is two |
| Economies.CrowdedDeath | server/world/world.cpp:227-241 | a run in which a dying player loses an item for want of a cell |
| Economies.Economy.Do | server/world/world.cpp:913-961 | whatever a player does changes that player and the ground exactly as the ledger has it, nobody else, and keeps every inventory sound, gold under its cap, levels fitting and each item in one place |
| Economies.Economy.Run | server/world/world.cpp:913-961 | over any run of any players, leaving, reconnecting and coming back from saves included: the scenes passed through follow one another as the ledger has it; gold and units of every name are everywhere what they were, but for trade and drink, what saves brought, what left with players, the gold spilt over caps, and the parcels unlaid, each added up; these are gold or known units, and none exactly when every death met enough open cells |
| Saves.TakeSnapshot | server/server.cpp:319-349 | the save holds 16 bits of the level, the other statistics, and every slot in order |
| Saves.OccupiedSeparate | server/commands/restore_player_command.cpp:53-76 | in a sound inventory no later slot merges with an earlier one or replaces what it wears |
| Saves.ReplaySlot | server/commands/restore_player_command.cpp:53-76 | replaying a saved slot appends it after the others: it stacks onto nothing, and equipping it takes nothing off |
| Saves.ReplayedLevel | server/commands/restore_player_command.cpp:39-51 | replaying the experience from the saved level or a lower one ends at the level the experience fits |
| Saves.RebornFits | server/commands/restore_player_command.cpp:38-51 | whatever the save, the experience comes back, the level is at least the saved one, and both fit each other exactly when the experience reaches the saved level |
| Saves.RebuildStats | server/commands/restore_player_command.cpp:34-51 | for any save: level, experience and vitals are the saved experience replayed on the saved level, gold up to the cap of that level; vitals raised to 1 and 0 where the save has less |
| Saves.RebuildInventory | server/commands/restore_player_command.cpp:53-76 | complete exactly when every item named can be created: then the occupied slots come back in order, with name, quantity and whether worn, without the gaps |
| Saves.Restore | server/commands/restore_player_command.cpp:21-106 | succeeds exactly for an absent id, a save whose items can all be created, and a vacant cell; one unknown item and nobody is restored; else nothing in the world changes |
| Saves.SaveAndRestore | server/commands/restore_player_command.cpp:21-104 | the round trip, possible exactly when every item carried still exists: level, experience, position and, slot by slot, every item's name, kind, units and what is worn come back; gold exactly up to the cap of the 16-bit level; gold and maximum vitals for every level below 65536 |
| Saves.OneLostItem | server/commands/restore_player_command.cpp:57-62 | a player with a sword and a potion, restored by a registry without the potion: not even the sword, and no player, comes back |
| Saves.HighLevelLosesGold | server/commands/restore_player_command.cpp:36-51 | a level of 65536 starts over at level 1, whose cap takes gold fairly held |
| BlockingQueues.StepKeepsSound | common/queue.h:45-150 | every critical section keeps: popped and queued are what was pushed, the bound, sleeping consumers only on an empty open queue, sleeping producers only on a full one |
| BlockingQueues.RunKeepsSound | common/queue.h:45-150 | the same over every interleaving, and what consumers got is what was popped |
| BlockingQueues.FirstInFirstOut | common/queue.h:45-150 | consumers get a prefix of what was pushed, in order, and the rest is queued |
| BlockingQueues.NoStandstill | common/queue.h:101-139 | a consumer never sleeps while a producer is stuck: the producer can go on and wakes it |
| BlockingQueues.StepAfterClose | common/queue.h:101-150 | after the close only a producer that was already inside enqueues |
| BlockingQueues.PushesAfterClose | common/queue.h:101-150 | the number of values enqueued after the close is the number of waiting producers that got through |
| BlockingQueues.EnqueuedAfterClose | common/queue.h:108-116 | an interleaving in which a value is enqueued after the close |
| BlockingQueues.CloseWakesConsumersOnly | common/queue.h:141-150 | close wakes every sleeping consumer and no producer |
| BlockingQueues.PopAnswers | common/queue.h:64-139 | a pop that is let in answers a value exactly when one is queued, the first, closed or not; that the queue is closed exactly when it is empty and closed; and blocks, or finds nothing, exactly when it is empty and open |
| BlockingQueues.PushAnswers | common/queue.h:45-118 | a push on a closed queue is refused, on a full one waits or fails, and else the value is queued last; a woken producer does not look at the closed flag |
| BlockingQueues.CloseAnswers | common/queue.h:141-150 | closing keeps what is queued, and the next producer is turned away |
| BlockingQueues.NothingLeftWhenClosed | common/queue.h:120-139 | over every run: whenever a pop answers that the queue is closed, all that was ever pushed has been delivered |
| BlockingQueues.NextPopDelivers | common/queue.h:120-139 | over every run: as long as something pushed has not been delivered, the next pop delivers the first of that, closed or not |
| BlockingQueues.Queue.TryPush | common/queue.h:45-62 | the method takes the step of the specification, and what it answers and leaves in the queue is said outright |
| BlockingQueues.Queue.TryPop | common/queue.h:64-81 | the method takes the step of the specification, and what it answers and leaves in the queue is said outright |
| BlockingQueues.Queue.Push | common/queue.h:101-118 | the method takes the step of the specification, and what it answers and leaves in the queue is said outright |
| BlockingQueues.Queue.ResumePush | common/queue.h:108-118 | a woken producer looks at the size and not at the closed flag |
| BlockingQueues.Queue.Pop | common/queue.h:120-139 | the first value queued is handed out whether or not the queue is closed; closed is answered exactly when the queue is empty and closed, and the call blocks exactly when it is empty and open |
| BlockingQueues.Queue.Close | common/queue.h:141-150 | the queue is closed, and its values stay |
| Clans.SoundAfter | server/game/clan.cpp:26-84 | each change of a clan keeps the founder a member, the three sets disjoint and the size within the maximum |
| Clans.StepKeepsConsistent | server/world/world.cpp:540-753 | every action keeps: sound clans, different names and ids, and a present player's non-zero clan exists and lists them; no ban is lifted |
| Clans.RunKeepsConsistent | server/world/world.cpp:540-753 | the same over every run of actions, joins and leaves |
| Clans.BannedForGood | server/world/world.cpp:688-712 | a banned id is never again pending or a member, and a founder stays a member, over every run |
| Clans.FaithfulUnlessCrossed | server/world/world.cpp:643-664 | the converse, that a present member's record names the clan, survives an action exactly unless it admits somebody whose record names another clan or lets in somebody a clan still lists |
| Clans.TwoClansListOnePlayer | server/world/world.cpp:643-664 | from an empty hall, a run after which two clans list the same player, whose record names the second |
| Clans.FaithfulThroughout | server/world/world.cpp:540-753 | lists and records agree all through a run exactly when none of its actions crosses where it happens |
| Clans.AcceptFaithful | server/world/world.cpp:643-664 | for admissions: exactly when the target has no other clan on record |
| Clans.Clan.RequestJoin | server/game/clan.cpp:26-32 | the guard exactly, and the new sets, in plain set operations: the player becomes pending; refused, nothing changes |
| Clans.Clan.Accept | server/game/clan.cpp:34-44 | the guard exactly, and the new sets, in plain set operations: the player goes from pending to member; refused, nothing changes |
| Clans.Clan.Reject | server/game/clan.cpp:46-53 | the guard exactly, and the new sets, in plain set operations: the player is no longer pending; refused, nothing changes |
| Clans.Clan.Ban | server/game/clan.cpp:55-64 | the guard exactly, and the new sets, in plain set operations: the target enters banned and leaves members and pending; refused, nothing changes |
| Clans.Clan.Kick | server/game/clan.cpp:66-75 | the guard exactly, and the new sets, in plain set operations: the member is gone; refused, nothing changes |
| Clans.Clan.Leave | server/game/clan.cpp:77-84 | the guard exactly, and the new sets, in plain set operations: the member is gone; refused, nothing changes |
| Clans.ClanHall.FoundClan | server/world/world.cpp:588-610 | clans, players' records and status are those of the state machine's step |
| Clans.ClanHall.RequestJoin | server/world/world.cpp:612-641 | clans, players' records and status are those of the state machine's step |
| Clans.ClanHall.AcceptMember | server/world/world.cpp:643-664 | clans, players' records and status are those of the state machine's step |
| Clans.ClanHall.RejectMember | server/world/world.cpp:666-686 | clans, players' records and status are those of the state machine's step |
| Clans.ClanHall.BanMember | server/world/world.cpp:688-712 | clans, players' records and status are those of the state machine's step |
| Clans.ClanHall.KickMember | server/world/world.cpp:714-735 | clans, players' records and status are those of the state machine's step |
| Clans.ClanHall.LeaveClan | server/world/world.cpp:737-753 | clans, players' records and status are those of the state machine's step |
| Clans.ClanHall.ClanByName | server/world/world.cpp:556-563 | the clan of that name with the smallest id, or none |
| Clans.ClanHall.FindTarget | server/world/world.cpp:566-586 | the caller's clan and the player named, or the reason there is none |
| ClanLaws.NamedSo | server/world/world.cpp:556-563 | the name of a clan leads to that clan and no other |
| ClanLaws.Named | server/world/world.cpp:566-586 | a founder's action means the caller's own clan and the present player of that nick with the smallest id, or fails for want of one of them |
| ClanLaws.FoundsWhen | server/world/world.cpp:588-610 | succeeds exactly for a present player of enough level, without a clan, and a name that is not empty and not used |
| ClanLaws.FoundFounds | server/world/world.cpp:588-610 | the founder is alone in the new clan, which has no applicants and no bans, cannot leave it, and nobody can found another of that name |
| ClanLaws.RequestsWhen | server/world/world.cpp:612-641 | when a request succeeds, and which answer it gets otherwise: without a clan on record and banned there, PLAYER_BANNED |
| ClanLaws.RequestAsks | server/world/world.cpp:612-641 | a successful request makes the player pending in that clan and changes nothing else; asking again fails |
| ClanLaws.TargetsWhen | server/world/world.cpp:643-753 | accepting, rejecting, kicking and banning succeed exactly for the founder and for a target that is, in turn, pending with a place left, pending, a member other than the founder, or anybody other than the founder |
| ClanLaws.OthersStay | server/world/world.cpp:643-753 | they change nothing in any other clan and nobody but the target in this one |
| ClanLaws.AcceptAdmits | server/world/world.cpp:643-664 | the target is a member with the clan on record, can neither ask for nor found another, and can leave |
| ClanLaws.RejectTurnsAway | server/world/world.cpp:666-686 | the target is no longer pending, no member and not banned, and asking again succeeds exactly without a clan on record and with a place left |
| ClanLaws.KickRemoves | server/world/world.cpp:714-735 | the target is no member any more, has no clan on record, and asking again succeeds |
| ClanLaws.LeaveLeaves | server/world/world.cpp:737-753 | succeeds exactly for anybody but the founder, who then is no member any more, has no clan on record, and succeeds in asking again |
| ClanLaws.BanBans | server/world/world.cpp:688-712 | after a ban the target is neither member nor pending and stays so over every later run, and whenever it is present without a clan its request is answered PLAYER_BANNED |
| ClanLaws.ComingAndGoing | server/world/world.cpp:540-753 | whoever comes in has no clan on record, and whoever goes leaves every list as it is |
| GameLoops.Loop | server/gameloop_thread.cpp:37-194 | the loop's variables follow the specification of a turn; with no work above the period and no oversleep, n turns end at the start plus n periods with n ticks counted; the tick counter is the count modulo 2^32 |
| GameLoops.TurnTakes | server/gameloop_thread.cpp:177-194 | a turn counts one tick when there is time left, and else one more for each whole period it is late; it wakes at the next period, or else at the first later instant a whole number of periods away; the sleep is never negative and never longer than a period |
| GameLoops.PunctualRun | server/gameloop_thread.cpp:37-194 | with no work above the period and no oversleep, n turns count n ticks in n periods |
| GameLoops.OnTime | server/gameloop_thread.cpp:177-194 | a turn on time that ends in time is the first of a period again |
| GameLoops.ReferenceTimeIsTickCount | server/gameloop_thread.cpp:177-194 | at every loop head the reference time is the start plus one period per tick counted, skipped ticks included |
| GameLoops.LeadIsZeroOrOnePeriod | server/gameloop_thread.cpp:177-194 | whatever the work, the clock is ahead of the reference time by the last oversleep and either nothing or one period |
| GameLoops.LateNext | server/gameloop_thread.cpp:177-194 | a turn is late when it takes more than its period, and after a late one as soon as it takes any time at all |
| GameLoops.LateSinceOverrun | server/gameloop_thread.cpp:177-194 | the loop is one period late exactly when some turn overran its period and no turn since took no time at all |
| Wire.U16 | server/server_protocol.cpp:56-60 | what is written in front of any bytes is read back as the value and those bytes |
| Wire.U32 | server/server_protocol.cpp:62-66 | what is written in front of any bytes is read back as the value and those bytes |
| Wire.I32 | server/server_protocol.cpp:68-72 | what is written in front of any bytes is read back as the value and those bytes |
| Wire.U64 | server/server_protocol.cpp:74-77 | what is written in front of any bytes is read back as the value and those bytes |
| Wire.Flag | server/server_protocol.cpp:52-54 | what is written in front of any bytes is read back as the value and those bytes |
| Wire.PutText | server/server_protocol.cpp:79-85 | what is written in front of any bytes is read back as the value and those bytes |
| Wire.ManyReadBack | server/server_protocol.cpp:358-375 | a list written one by one is read back one by one, in order, up to what the reader makes of each element |
| Wire.Buffer.PutU8 | server/server_protocol.cpp:52-54 | appends exactly the encoding of the value |
| Wire.Buffer.PutU16 | server/server_protocol.cpp:56-60 | appends exactly the encoding of the value |
| Wire.Buffer.PutU32 | server/server_protocol.cpp:62-66 | appends exactly the encoding of the value |
| Wire.Buffer.PutI32 | server/server_protocol.cpp:68-72 | appends exactly the encoding of the value |
| Wire.Buffer.PutU64 | server/server_protocol.cpp:74-77 | appends exactly the encoding of the value |
| Wire.Buffer.PutString | server/server_protocol.cpp:79-85 | refuses exactly texts over 65535 bytes; else appends length and bytes |
| Wire.Socket.RecvAll | common/socket.cpp:322-354 | reads exactly the bytes asked for however the stream is cut up; end of stream and a cut are told apart |
| Wire.Socket.SendAll | common/socket.cpp:357-376 | sends everything, or a strict beginning when the connection fails; reports a clean close exactly when nothing went out |
| Wire.Socket.RecvU8 | server/server_protocol.cpp:88-94 | the value, and the stream left, are those of the reading function |
| Wire.Socket.RecvU16 | server/server_protocol.cpp:96-104 | the value, and the stream left, are those of the reading function |
| Wire.Socket.RecvU32 | server/server_protocol.cpp:106-114 | the value, and the stream left, are those of the reading function |
| Wire.Socket.RecvI32 | server/server_protocol.cpp:116-121 | the value, and the stream left, are those of the reading function |
| Wire.Socket.RecvU64 | server/server_protocol.cpp:123-127 | the value, and the stream left, are those of the reading function |
| Wire.Socket.RecvString | server/server_protocol.cpp:129-139 | the value, and the stream left, are those of the reading function |
| RoundTrips.PlayerBack | server/server_protocol.cpp:565-590 | a player snapshot with its nested list is read back, with what follows untouched |
| RoundTrips.SnapshotBack | server/server_protocol.cpp:555-622 | a world snapshot with its three lists is read back |
| RoundTrips.ClanReviewBack | server/server_protocol.cpp:690-712 | a clan review is read back, with pending members unmarked |
| RoundTrips.WorldMapBack | server/server_protocol.cpp:443-460 | width times height cells are read back |
| RoundTrips.DecodedCountsFit | client/client_protocol.cpp:295-633 | whatever bytes arrive, the client never ends up with more elements than a count field can carry |
| RoundTrips.RoundTrip | server/server_protocol.cpp:348-723 | of the 22 kinds of update the server sends, exactly those whose unchecked counts fit their field are read back as the client's view of them, with all later bytes left; `Deliveries` says kind by kind what that view is |
| RoundTrips.CrowdIsGarbled | server/server_protocol.cpp:690-712 | a clan review with 65536 applicants is sent and not read back |
| RoundTrips.StreamRoundTrip | client/client_protocol.cpp:295-346 | a run of updates and any later bytes: all are read back in order exactly when the counts of each fit |
| RoundTrips.ReceivedIsStable | client/client_protocol.cpp:295-633 | sending on what was received changes nothing more |
| Deliveries.LobbyDeliveries | server/server_protocol.cpp:348-399 | what the lobby sends arrives with every field as it was; errors without the player they were routed to |
| Deliveries.PlayerDeliveries | server/server_protocol.cpp:401-441 | joins, departures and moves arrive with every field as it was, and a spawn arrives as a join of the same player in the same place |
| Deliveries.WorldDeliveries | server/server_protocol.cpp:443-622 | maps and snapshots arrive with every cell, player, NPC and pile, in order and field by field |
| Deliveries.FightDeliveries | server/server_protocol.cpp:462-513 | blows, deaths and recoveries arrive with every field but the player they were routed to |
| Deliveries.TradeDeliveries | server/server_protocol.cpp:515-672 | inventories and catalogues arrive slot by slot, name by name; an interaction without its names |
| Deliveries.TalkDeliveries | server/server_protocol.cpp:636-688 | chat, system messages and clan results arrive with every field but the routing |
| Deliveries.ReviewDelivery | server/server_protocol.cpp:690-712 | a clan review arrives with its members as they are and its applicants in order, without a founder's mark |
| Deliveries.FirstBytes | common/protocol_constants.h:31-60 | the first byte on the wire tells the kinds of update apart |
| Deliveries.BigEndian | server/server_protocol.cpp:56-72 | integers travel with the most significant byte first, negative ones in two's complement |
| Deliveries.BigEndianLong | server/server_protocol.cpp:74-77 | a long integer travels as its upper and then its lower half |
| Deliveries.FlagsAndTexts | server/server_protocol.cpp:52-85 | a flag is one byte, 1 or 0; a text is its length in two bytes and then its bytes |
| Layouts.LobbyLayouts | server/server_protocol.cpp:348-399 | the fields of these updates in their order on the wire |
| Layouts.PlayerLayouts | server/server_protocol.cpp:401-441 | the fields of these updates in their order on the wire, a column before its row |
| Layouts.FightLayouts | server/server_protocol.cpp:484-513 | the fields of these updates in their order on the wire |
| Layouts.AttackLayout | server/server_protocol.cpp:462-482 | the twelve fields of a blow in their order on the wire |
| Layouts.TalkLayouts | server/server_protocol.cpp:636-688 | the fields of these updates in their order on the wire |
| Layouts.ListLayouts | server/server_protocol.cpp:358-672 | lists go behind their length, and what follows them after their last element |
| Layouts.MapLayout | server/server_protocol.cpp:443-460 | width, height and then the cells |
| Layouts.SnapshotLayout | server/server_protocol.cpp:555-622 | the tick, the players, the NPCs and the piles, each list behind its length |
| Layouts.ReviewLayout | server/server_protocol.cpp:690-712 | the name, the members and the applicants, each list behind its length |
| Layouts.SmallLayouts | server/server_protocol.cpp:358-712 | the fields of a list's elements in their order on the wire |
| Layouts.PlayerLayout | server/server_protocol.cpp:565-590 | the first eight fields of a player in a snapshot |
| Layouts.RestLayout | server/server_protocol.cpp:565-590 | the next eight |
| Layouts.OutfitLayout | server/server_protocol.cpp:565-590 | what is worn behind its number in one byte, and the last two |
| Layouts.NpcLayout | server/server_protocol.cpp:555-622 | the ten fields of an NPC in a snapshot |
| ServerProtocols.ServerProtocol.SendUpdate | server/server_protocol.cpp:270-346 | throws exactly for updates that cannot be written, sending nothing; else sends exactly the encoding, or a strict beginning when the connection fails |
| ServerProtocols.ServerProtocol.PutUpdate | server/server_protocol.cpp:270-346 | every kind of update is appended as specified or refused exactly when a text or a checked count is too long |
| ServerProtocols.ServerProtocol.PutLoginOk | server/server_protocol.cpp:348-356 | appends the body that the round trip is about, or refuses |
| ServerProtocols.ServerProtocol.PutMatchList | server/server_protocol.cpp:358-375 | appends the body that the round trip is about, or refuses |
| ServerProtocols.ServerProtocol.PutMatchCreated | server/server_protocol.cpp:377-385 | appends the body that the round trip is about, or refuses |
| ServerProtocols.ServerProtocol.PutMatchJoined | server/server_protocol.cpp:387-399 | appends the body that the round trip is about, or refuses |
| ServerProtocols.ServerProtocol.PutPlayerJoined | server/server_protocol.cpp:401-414 | appends the body that the round trip is about, or refuses |
| ServerProtocols.ServerProtocol.PutPlayerLeft | server/server_protocol.cpp:416-426 | appends the body that the round trip is about, or refuses |
| ServerProtocols.ServerProtocol.PutSpawned | server/server_protocol.cpp:428-441 | appends the body that the round trip is about, or refuses |
| ServerProtocols.ServerProtocol.PutWorldMapUpdate | server/server_protocol.cpp:443-460 | appends the body that the round trip is about, or refuses |
| ServerProtocols.ServerProtocol.PutSnapshot | server/server_protocol.cpp:555-622 | appends the body that the round trip is about, or refuses |
| ServerProtocols.ServerProtocol.PutMoved | server/server_protocol.cpp:624-634 | appends the body that the round trip is about, or refuses |
| ServerProtocols.ServerProtocol.PutAttacked | server/server_protocol.cpp:462-482 | appends the body that the round trip is about, or refuses |
| ServerProtocols.ServerProtocol.PutDeath | server/server_protocol.cpp:484-493 | appends the body that the round trip is about, or refuses |
| ServerProtocols.ServerProtocol.PutRevive | server/server_protocol.cpp:505-513 | appends the body that the round trip is about, or refuses |
| ServerProtocols.ServerProtocol.PutMeditate | server/server_protocol.cpp:495-503 | appends the body that the round trip is about, or refuses |
| ServerProtocols.ServerProtocol.PutInventoryUpdate | server/server_protocol.cpp:515-534 | appends the body that the round trip is about, or refuses |
| ServerProtocols.ServerProtocol.PutCatalog | server/server_protocol.cpp:536-553 | appends the body that the round trip is about, or refuses |
| ServerProtocols.ServerProtocol.PutNpcInteract | server/server_protocol.cpp:660-672 | appends the body that the round trip is about, or refuses |
| ServerProtocols.ServerProtocol.PutChatMsg | server/server_protocol.cpp:636-647 | appends the body that the round trip is about, or refuses |
| ServerProtocols.ServerProtocol.PutSystemMsg | server/server_protocol.cpp:649-658 | appends the body that the round trip is about, or refuses |
| ServerProtocols.ServerProtocol.PutClanResult | server/server_protocol.cpp:674-688 | appends the body that the round trip is about, or refuses |
| ServerProtocols.ServerProtocol.PutClanReview | server/server_protocol.cpp:690-712 | appends the body that the round trip is about, or refuses |
| ServerProtocols.ServerProtocol.PutErrorUpdate | server/server_protocol.cpp:714-723 | appends the body that the round trip is about, or refuses |
| ClientProtocols.ClientProtocol.ReceiveUpdate | client/client_protocol.cpp:295-346 | reads what the decoding function reads, leaves what it leaves, and fails when it fails |
| ClientProtocols.ClientProtocol.RecvMatchList | client/client_protocol.cpp:353-365 | reads the fields in order as the decoding function does |
| ClientProtocols.ClientProtocol.RecvMatchJoined | client/client_protocol.cpp:372-380 | reads the fields in order as the decoding function does |
| ClientProtocols.ClientProtocol.RecvPlayerJoined | client/client_protocol.cpp:382-390 | reads the fields in order as the decoding function does |
| ClientProtocols.ClientProtocol.RecvPlayerLeft | client/client_protocol.cpp:392-397 | reads the fields in order as the decoding function does |
| ClientProtocols.ClientProtocol.RecvAttacked | client/client_protocol.cpp:399-414 | reads the fields in order as the decoding function does |
| ClientProtocols.ClientProtocol.RecvInventory | client/client_protocol.cpp:432-446 | reads the fields in order as the decoding function does |
| ClientProtocols.ClientProtocol.RecvWorldMap | client/client_protocol.cpp:458-471 | reads the fields in order as the decoding function does |
| ClientProtocols.ClientProtocol.RecvSnapshot | client/client_protocol.cpp:473-541 | reads the fields in order as the decoding function does |
| ClientProtocols.ClientProtocol.RecvNpcInteract | client/client_protocol.cpp:565-572 | reads the fields in order as the decoding function does |
| ClientProtocols.ClientProtocol.RecvChatMsg | client/client_protocol.cpp:550-557 | reads the fields in order as the decoding function does |
| ClientProtocols.ClientProtocol.RecvClanResult | client/client_protocol.cpp:574-589 | reads the fields in order as the decoding function does |
| ClientProtocols.ClientProtocol.RecvClanReview | client/client_protocol.cpp:591-615 | reads the fields in order as the decoding function does |
| ClientProtocols.ClientProtocol.RecvCatalog | client/client_protocol.cpp:623-633 | reads the fields in order as the decoding function does |
| Connections.DecodeIsStable | client/client_protocol.cpp:295-633 | an update that can be read is read the same whatever bytes follow |
| Connections.CutUpdate | client/client_protocol.cpp:295-633 | a strict beginning of an update is never taken for an update |
| Connections.BrokenStream | client/client_protocol.cpp:295-346 | wherever the stream breaks off, the client has exactly the updates that came whole |
| Connections.RunSender | server/sender_thread.cpp:10-27 | the sending loop ends at the first unsendable update or where the connection fails; everything before is sent whole, in order |
| Connections.RunReceiver | client/client.cpp:23-46 | the receiving loop yields exactly the readable updates of its stream |
| Connections.StuckBehind | server/sender_thread.cpp:10-27 | behind one message that is too long nothing gets out |
| Connections.Converse | server/sender_thread.cpp:9-27 | end to end: the client receives exactly the updates sent whole, in order, each delivered as its kind is, field by field; and with a connection that holds all before the first unsendable one |
| Commands.PayloadBack | server/server_protocol.cpp:174-268 | each payload is read back, except races, classes and directions that do not exist, which throw |
| Commands.CommandFramed | server/receiver_thread.cpp:26-114 | a command is read back with nothing after it touched exactly when it is legal in the state it is read in |
| Commands.RejectedOpcode | server/receiver_thread.cpp:39-40 | a rejected opcode leaves its payload in the stream, which stays in step exactly when there is none |
| Commands.LegalRunFramed | server/receiver_thread.cpp:26-114 | over a run of commands each legal where it is read, whatever the server answers, the receiver takes exactly their bytes |
| Commands.StaysCoherent | server/receiver_thread.cpp:153-167 | as no match has id 0, a connection is in a match exactly when it has a match id, over every legal run |
| CommandLaws.FirstBytes | common/protocol_constants.h:6-29 | the first byte on the wire tells the nineteen commands apart |
| CommandLaws.Sends | client/client_protocol.cpp:128-293 | a command can be sent exactly if none of its texts is over 65535 bytes |
| CommandLaws.Understood | server/receiver_thread.cpp:26-114 | before the login only the login is read, in the lobby only its three commands, in a match only its fourteen, and from anywhere the leave-taking; of any other command only the opcode; a race, class or direction that does not exist throws |
| CommandLaws.LeadsTo | server/receiver_thread.cpp:133-191 | a login done leads to the lobby, a join done into that match, leaving back to the lobby, and nothing else anywhere |
| Layouts.LobbyCommandLayouts | client/client_protocol.cpp:128-293 | the fields of these commands in their order on the wire |
| Layouts.PlayCommandLayouts | client/client_protocol.cpp:128-293 | the fields of these commands in their order on the wire |
| Layouts.MorePlayCommandLayouts | client/client_protocol.cpp:128-293 | the fields of these commands in their order on the wire |
| Layouts.TalkCommandLayouts | client/client_protocol.cpp:128-293 | the fields of these commands in their order on the wire |
| Layouts.InteractLayout | client/client_protocol.cpp:128-293 | the fields of an interaction in their order on the wire |
| Commands.Receiver.Run | server/receiver_thread.cpp:26-131 | the loop with its handlers reads the rounds of the specification and ends where, why and in the state it does: an answer, to a rejected opcode too, may throw, before or after the thing is done |
| Commands.Receiver.RecvPayload | server/server_protocol.cpp:174-268 | reads what the specification of each payload reads |
| Commands.SendCommand | client/client_protocol.cpp:128-293 | a command leaves whole or not at all unless the connection fails, which leaves a strict beginning; texts too long throw |
| Commands.WritePayload | client/client_protocol.cpp:128-293 | appends the payload that the framing is about, or refuses |
| Dialogues.CutCommand | server/receiver_thread.cpp:26-114 | a strict beginning of a command legal where it is read is never taken for a command |
| Dialogues.BrokenRun | server/receiver_thread.cpp:26-114 | wherever the stream breaks off, the receiver has exactly the commands that came whole, and stops |
| Dialogues.RunClient | client/client_protocol.cpp:128-293 | the commands go out whole, in order, up to where the connection fails |
| Dialogues.Talk | server/receiver_thread.cpp:26-114 | end to end: of commands legal where they are read, the receiver takes exactly those sent whole, in order, in the session they lead to; with a connection that holds, all, and it sees the client leave |
| Sessions.StartedIsSound | server/server.cpp:28-54 | a server started from a save of differently named matches is sound |
| Sessions.Server.constructor | server/server.cpp:28-54 | the saved matches are recreated, empty, with ids from 1 |
| Sessions.StepKeepsSound | server/server.cpp:78-235 | every step of any connection keeps the lobby sound |
| Sessions.RunKeepsSound | server/server.cpp:78-235 | over every interleaving: counters equal the length of lists without repetition and within the maximum, lists agree with states and match ids as far as each thread has got, nicks in use are exactly those held and by one connection each, player ids differ |
| Sessions.JoinKeepsSound | server/server.cpp:127-143 | joining a match that is not full keeps the lobby sound |
| Sessions.LeavingKeepsSound | server/server.cpp:145-166 | leaving, or disconnecting from within a match, keeps the lobby sound |
| Sessions.FreeKeepsSound | server/server.cpp:210-216 | freeing the nick of a connection keeps the lobby sound |
| Sessions.ReapKeepsSound | server/server.cpp:224-235 | removing a dead connection keeps the lobby sound: the nicks in use stay those held |
| Sessions.ListsAtRest | server/game/basic_match.cpp:36-55 | with every thread between commands, a match lists exactly the connections in it, each once |
| Sessions.LoginRefused | server/server.cpp:78-91 | refused exactly for an empty nick or one held by a connection that has not disconnected |
| Sessions.OnlyOwnNickFreed | server/server.cpp:205-235 | a nick is freed exactly by the disconnection of the connection that holds it; reaping frees none |
| Sessions.ReclaimedNickKept | server/server.cpp:224-235 | a nick taken over from a dead connection stays taken whatever the others still do |
| Sessions.BasicMatch.AddPlayer | server/game/basic_match.cpp:40-48 | appends and counts exactly when fewer than the maximum are counted; else nothing changes |
| Sessions.BasicMatch.RemovePlayer | server/game/basic_match.cpp:50-55 | removes every occurrence and decrements the 8-bit counter |
| Sessions.Server.Login | server/server.cpp:78-91 | the critical section takes the step of the transition system: exactly a nick that is not empty and not used comes into use |
| Sessions.Server.CreateMatch | server/server.cpp:104-125 | the critical section takes the step; a match is created exactly when its name is not empty, no match has it, and it has a place |
| Sessions.Server.JoinMatch | server/server.cpp:127-143 | the critical section takes the step; the connection is appended to the list exactly when the match exists and counts fewer than its maximum |
| Sessions.Server.LeaveMatch | server/server.cpp:145-166 | the connection leaves the match its id names, if there is one |
| Sessions.Server.Disconnect | server/server.cpp:205-217 | the two critical sections take the two steps |
| Sessions.Server.RemoveClient | server/server.cpp:224-235 | the critical section takes the step |
| SessionLaws.Starts | server/server.cpp:28-54 | a server starts with the saved matches, empty, under the ids from 1 on, and nobody connected |
| SessionLaws.Connects | server/server.cpp:78-235 | a new connection has no nick, no match and is in no list |
| SessionLaws.LogsIn | server/server.cpp:78-91 | a nick that is not empty and not used is taken with the next player id and leads to the lobby; with any other nothing changes |
| SessionLaws.SecondLoginFails | server/server.cpp:78-91 | of two logins under one nick the second changes nothing |
| SessionLaws.Creates | server/server.cpp:104-125 | a match of a new name, with at least one place, is there afterwards under the next id, with that name, those places and nobody in it; else nothing changes |
| SessionLaws.SecondOfNameFails | server/server.cpp:104-125 | of two matches of one name only the first is created |
| SessionLaws.Joins | server/server.cpp:127-143 | exactly a match with a place left takes the connection, at the end of its list, and the connection is then in that match; nobody else changes |
| SessionLaws.LastPlace | server/game/basic_match.cpp:40-48 | the last place is given away, and the next to ask is refused |
| SessionLaws.Leaves | server/server.cpp:145-166 | whoever leaves is out of the list, in which the others keep their order, and back in the lobby |
| SessionLaws.Goes | server/server.cpp:205-217 | a connection that goes gives back its nick and, from within a match, its place; nobody else changes |
| SessionLaws.Reaped | server/server.cpp:224-235 | reaping a connection that has gone removes it and changes nothing else |

## Left out

- The Qt and SDL clients, rendering, audio and chat windows.
- Sockets below `recvall` and `sendall`: connecting, accepting, shutting down, the resolver.
- The loaders of configuration and maps, which draw cells and zones into the map, and writing and renaming the save file; a save is a value here.
- Attack and defence arithmetic, evasion, critical hits, regeneration and loot probabilities; their results are
  parameters where they matter.
- Meditation, chat and the remaining cheats, which only set a field or pass a text on.
- The routing of updates by `BasicMatch::tick`, and the list of matches, whose entries are copied as they stand.
- The specialisations of the queue for `void*` and `T*`, thread starting and joining, and the acceptor's clean-up.
- Stopping the receiver from outside, which shuts its socket down and shows here as the end of the stream.
- Worlds.World.constructor: the first NPCs, which the code places right there, are placed by `Worlds.StartWorld`.
- Worlds.World.Run: the world's commands are atomic here; a receiver thread that removes a player on leaving does so
  without the game loop's knowledge.
- Worlds.World.PriestRevive: the vitals a revived player gets are not in the world's part; see
  `Trade.PriestResurrect`.
- Worlds.World.Strike: how much damage a blow does, and the loot it leaves, are not part of the world's step; the loot
  is `Grounds.Ground.Bury`.
- Economies.Economy.Run: hostile NPCs' loot and the gold cheat, which put gold and items into the world, are not among
  the events; where a player stands, and whether there is room to come back to, is part of the event; joining and the
  restoring tick after it are one step.
- Saves.Restore: current hit points and mana are not restored by the code, which fills them up; a save is one of an
  inventory that was sound when it was taken.
- Trade.MerchantSell: the divisor of the price is a parameter, as it comes from the configuration.
- Connections.Converse: the queue is a sequence already filled; its own behaviour is `BlockingQueues`.
- Sessions.Server.Login: connection objects are values in a table of the server, with their program counters.
- Commands.Receiver.Run: what the server and the match answer is a parameter; an answer that throws ends the loop.
