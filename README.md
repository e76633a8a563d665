# Werewolf controller: rules and state machine

This project models the game controller of a Werewolf party game that runs on
an ESP32 (`src/main.cpp`). The controller keeps one game in global variables:
the role of each connected device, seat numbers, the dead, the night phase, the
witch's potions, the guard's, hunter's and idiot's state, and the timers of the
phase, the seer's turn, the skip delay and the start countdown. Devices send
actions over a WebSocket (`onWsEvent`). `loop()` runs the timed transitions and
the moderator's joystick lobby. After every change `syncGameState` checks for
victory, arms the skip delay of a dead guard, seer or witch, and sends each
device its view.

The model has eight modules:

- `StringOrder` (string_order.dfy) covers the iteration order of the ordered
  maps, which is byte-wise string order. `KeyOrder` is the ascending list of a
  key set and `SortKeys` computes it. `Count` is the shape of every counting
  loop.
- `RolePool` (role_pool.dfy) covers the roles and the role pool of
  `setupRoles`. The pool is built with `push_back` and filled with villagers by
  `MakePool`. It is then shuffled in place on an array by `Shuffle`, the
  Fisher–Yates loop. The random draws are an input.
- `NightRules` (night_rules.dfy) is the rule that combines the guard, the
  wolves' bite, the heal and the poison into the night's deaths.
- `DeathNote` (death_note.dfy) is the day's death report. `BuildReport` is the
  concatenation loop.
- `Rules` (rules.dfy) holds the whole global state as a `GameState` record,
  grouped as the source declares it. It defines one function per action
  handler, per timed section of `loop()`, and for `syncGameState`,
  `setupRoles` and `resetGame`.
- `Werewolf` (game.dfy) is the class `Game`, whose fields are those globals.
  Each method updates them in place as the source does, with the same loops.
  Each method is proved to produce the state that the matching `Rules`
  function describes. `resetGame` is modelled as written (see Findings).
- `Properties` (properties.dfy) and `Dealing` (deal_properties.dfy) prove what
  the rules promise:
  - how the night is settled;
  - the vote, the idiot and the hunter;
  - the timed waits;
  - the lobby and the restart quorum;
  - the invariants that every message and every pass of `loop()` keeps;
  - that seats 1..n go to the n dealt devices in key order, each receiving the
    pool entry at its seat;
  - what each device is shown.

The clock is a natural number `now`, passed to every operation that reads
`millis()`. The joystick and the cue player's busy pin are the `Inputs` of one
pass of `loop()`. The Fisher–Yates draws are a sequence `draws` with
`draws[i] <= i`.

## Model

| member | source | states |
|---|---|---|
| `StringOrder.LtTransitive` | src/main.cpp:143 | The map's key order is transitive. It is also irreflexive and total (`LtIrreflexive`, `LtTrichotomy`), so it is a strict total order. |
| `StringOrder.LtTrichotomy` | src/main.cpp:143 | Any two distinct device ids are ordered one way or the other. |
| `StringOrder.KeyOrderUnique` | src/main.cpp:143 | Two ascending enumerations of the same key set are equal, so the iteration order of a map is determined by its keys. |
| `StringOrder.SortKeys` | src/main.cpp:143 | Returns the ascending enumeration of the keys, as the ordered map iterates them. |
| `StringOrder.CountIsCardinality` | src/main.cpp:115-119 | Counting the matching elements of a list without repeats gives the size of the set of matching elements. |
| `StringOrder.RankIsPosition` | src/main.cpp:143 | In key order, the keys that satisfy a test and come before position i are exactly those counted among the first i. |
| `RolePool.PushSpecials` | src/main.cpp:146-151 | The pool after the base roles and the conditional pushes equals `SpecialRoles(t)`. |
| `RolePool.MakePool` | src/main.cpp:146-153 | The villager fill loop ends with the pool `BuildPool(t)`. |
| `RolePool.SpecialShare` | src/main.cpp:146-151 | Before the fill there is no villager, and every other role appears as often as `PoolShare` says. |
| `RolePool.PoolLength` | src/main.cpp:153 | For tables of 6..15 the filled pool has exactly t entries. |
| `RolePool.PoolComposition` | src/main.cpp:146-153 | For t in 6..15 the pool has t entries: 1 seer, 1 witch, 2+[t≥9]+[t≥12] wolves, a hunter iff t≥7, a guard iff t≥10, an idiot iff t≥13, villagers for the rest, and no other role. |
| `RolePool.ShufflePermutes` | src/main.cpp:155-158 | The Fisher–Yates result has the same length and the same multiset of roles as the pool. |
| `RolePool.Shuffle` | src/main.cpp:155-158 | The in-place array loop leaves `Shuffled(old pool, draws)`: each step i swaps entry i with the drawn entry j ≤ i. |
| `NightRules.OnlyTargetsDie` | src/main.cpp:373-380 | Only the wolves' target and the poisoned device can die at night. |
| `NightRules.GuardedAndHealedDies` | src/main.cpp:374-375 | A target that is both guarded and healed dies. |
| `NightRules.HealSavesUnguarded` | src/main.cpp:374-375 | A heal saves a target the guard did not protect. |
| `NightRules.GuardSavesWithoutHeal` | src/main.cpp:376-378 | Without a heal, the guard saves its charge. |
| `NightRules.PoisonAlwaysKills` | src/main.cpp:380 | A poisoned device always dies and is listed last. |
| `NightRules.DeathsNotDeduplicated` | src/main.cpp:376-380 | A device bitten and poisoned in the same night is recorded twice. |
| `NightRules.QuietNight` | src/main.cpp:373-380 | Nobody dies iff there is no poison and the bite was stopped or never made. |
| `DeathNote.DigitsRoundTrip` | src/main.cpp:256 | The decimal text appended for a seat number is all digits and reads back as that number. |
| `DeathNote.SafeNightIffNoDeaths` | src/main.cpp:251-261 | The report is the safe-night sentence iff nobody died last night. |
| `DeathNote.ReportSeparators` | src/main.cpp:254-260 | A report of k > 0 deaths contains exactly k − 1 separators "、". |
| `DeathNote.PiecesAreListing` | src/main.cpp:255-259 | After i rounds of the loop the text is the first i entries joined by "、", followed by a separator if more entries follow. |
| `DeathNote.BuildReport` | src/main.cpp:248-261 | The concatenation loop builds exactly `Report(dead, seats)`. |
| `Rules.Touch` | src/main.cpp:356 | Indexing the role map with unknown ids inserts them with the empty role and changes no existing entry. |
| `Rules.TouchKeepsRoles` | src/main.cpp:370 | Reading a role through an inserting lookup gives the same role as before the insertion. |
| `Rules.LivingCounts` | src/main.cpp:114-119 | Counting in key order finds exactly the living wolves and the living players on the humans' side. |
| `Rules.Rank` | src/main.cpp:143 | A dealt device's seat lies between 1 and the number of dealt devices. |
| `Rules.SeatsAlongIsSeatMap` | src/main.cpp:143 | Numbering in key order gives each dealt device its rank and keeps the other entries. |
| `Rules.SeatedCount` | src/main.cpp:160-165 | In key order, the deal loop meets every dealt device exactly once. |
| `Rules.AlongStep` | src/main.cpp:143 | One turn of the seat and deal loops numbers the current key with the next seat and gives it the next pool entry. |
| `Rules.DealAlongIsDealt` | src/main.cpp:160-165 | Dealing in key order gives each dealt device the pool entry at its seat, and the last idiot it deals is the last idiot holder in key order. |
| `Rules.ShuffledPool` | src/main.cpp:146-158 | The shuffled pool has the length of the built pool. |
| `Rules.DemoteAlongIsDemote` | src/main.cpp:176 | Demoting the keys one at a time in any order covering them turns every role except spectator into "Joined". |
| `Rules.DemoteKeepsSeated` | src/main.cpp:176 | Demotion changes nobody's status as dealt or spectator. |
| `Rules.HunterAmongStep` | src/main.cpp:385-390 | One more turn of the settling loop finds a hunter iff one was already found or the current device is a hunter. |
| `Rules.EarlySectionsKeepLobby` | src/main.cpp:668-720 | The skip, seer and unlock sections of `loop()` leave alone everything the lobby section reads. |
| `Werewolf.Game.constructor` | src/main.cpp:44-84 | The globals start at their declared initial values. |
| `Werewolf.Game.IsAlive` | src/main.cpp:100-103 | The scan answers true iff the device is not in the death list. |
| `Werewolf.Game.IsRoleAlive` | src/main.cpp:105-110 | The scan answers true iff some living device holds the role. |
| `Werewolf.Game.CountSides` | src/main.cpp:114-119 | The loop counts exactly the living wolves and the living non-"Joined", non-spectator others. |
| `Werewolf.Game.CheckVictory` | src/main.cpp:112-138 | The new state is `Judge` of the old: the game ends only while running and not over, with the winner given by `Verdict`. |
| `Werewolf.Game.Sync` | src/main.cpp:184-198 | The new state is the victory check followed by arming the skip delay for a dead guard, seer or witch. |
| `Werewolf.Game.EnterPhase` | src/main.cpp:398-400 | Sets the phase, restarts the phase clock and locks input. |
| `Werewolf.Game.RoleAt` | src/main.cpp:356 | Returns the role read and inserts an unknown id with the empty role. |
| `Werewolf.Game.NextNight` | src/main.cpp:423-432 | Nightfall clears the night's data, starts one more round, and calls the guard if one lives, else the wolves. |
| `Werewolf.Game.SeatNumbers` | src/main.cpp:143 | The seat loop gives the result `SeatsAlong` of the keys walked. |
| `Werewolf.Game.DealRoles` | src/main.cpp:160-165 | The deal loop gives the result `DealAlong` of the keys walked, and the last idiot it dealt. |
| `Werewolf.Game.ShuffledDeck` | src/main.cpp:146-158 | The shuffled pool for the current table size. |
| `Werewolf.Game.Deal` | src/main.cpp:141-166 | Seats are the old seats plus `SeatMap`, the roles are `Dealt` from the shuffled pool, and the idiot is the last idiot holder in key order. |
| `Werewolf.Game.SetupRoles` | src/main.cpp:140-166 | The new state is `Rules.SetupRoles`. |
| `Werewolf.Game.Demoted` | src/main.cpp:176 | The demotion loop gives `Demote` of the role map. |
| `Werewolf.Game.ResetGame` | src/main.cpp:168-180 | The new state is `Rules.ResetAsWritten`: every game flag is cleared except a pending hunter shot (see Findings). |
| `Werewolf.Game.Connect` | src/main.cpp:321-328 | The new state is `Rules.OnConnect`. |
| `Werewolf.Game.Restart` | src/main.cpp:329-341 | The new state is `Rules.OnRestart`, which resets as written, deals and starts the countdown. |
| `Werewolf.Game.GuardProtect` | src/main.cpp:343-348 | The new state is `Rules.OnGuardProtect`. |
| `Werewolf.Game.WolfKill` | src/main.cpp:349-353 | The new state is `Rules.OnWolfKill`. |
| `Werewolf.Game.SeerCheck` | src/main.cpp:354-362 | Answers the target's role unless a check is pending; the new state is `Rules.OnSeerCheck`. |
| `Werewolf.Game.Settle` | src/main.cpp:384-390 | The settling loop appends the deaths, inserts unknown ids, and notes whether a hunter with a bullet died. |
| `Werewolf.Game.WitchUse` | src/main.cpp:364-371 | Spends the heal, or spends the poison and disarms a poisoned hunter. |
| `Werewolf.Game.NightDeathList` | src/main.cpp:373-380 | The list built is `NightDeaths` of the current targets. |
| `Werewolf.Game.WitchActs` | src/main.cpp:363-403 | The new state is `Rules.OnWitch`. |
| `Werewolf.Game.ChampExile` | src/main.cpp:404-435 | The new state is `Rules.OnExile`. |
| `Werewolf.Game.HunterShoot` | src/main.cpp:436-472 | The new state is `Rules.OnHunterShoot`. |
| `Werewolf.Game.HandleEvent` | src/main.cpp:314-473 | Dispatches on the action; the new state is `Rules.OnEvent`, and only a seer check replies. |
| `Werewolf.Game.SkipSection` | src/main.cpp:668-698 | The new state is `Rules.SkipSection`. |
| `Werewolf.Game.SeerSection` | src/main.cpp:703-707 | The new state is `Rules.SeerSection`. |
| `Werewolf.Game.UnlockSection` | src/main.cpp:710-720 | The new state is `Rules.UnlockSection`. |
| `Werewolf.Game.LobbySection` | src/main.cpp:723-757 | The new state is `Rules.LobbySection`. |
| `Werewolf.Game.CountdownSection` | src/main.cpp:760-773 | The new state is `Rules.CountdownSection`. |
| `Werewolf.Game.ApproveSection` | src/main.cpp:775-780 | The new state is `Rules.ApproveSection`. |
| `Werewolf.Game.Tick` | src/main.cpp:663-780 | One pass of `loop()` leaves `Rules.Tick` of the old state. |
| `Werewolf.Game.Targets` | src/main.cpp:200-207 | The target loop lists exactly the numbered devices that are alive, with their seats. |
| `Werewolf.Game.Countdown` | src/main.cpp:209 | The seconds shown are `CountdownSeconds`: 3 minus the whole seconds elapsed, at least 0, and 0 without a countdown. |
| `Werewolf.Game.RoleNotes` | src/main.cpp:265-270 | The guard's last protected device in the guard's turn, and the witch's potions and the wolves' target with its seat in her turn. |
| `Werewolf.Game.Message` | src/main.cpp:211-270 | Every field of the update message equals `Rules.View`. |
| `Properties.SyncFrame` | src/main.cpp:184-198 | syncGameState changes only the outcome, the skip delay and the lock, and never changes a decided outcome. |
| `Properties.VictoryRule` | src/main.cpp:112-133 | In a running game: no living wolf means the humans win; otherwise wolves at least as many as the other living players means the wolves win; otherwise nothing changes. |
| `Properties.VictoryOnlyWhileRunning` | src/main.cpp:113 | checkVictory changes nothing before the start, during the countdown, or once the game is over. |
| `Properties.WitchSettlesNight` | src/main.cpp:363-403 | The recorded deaths are exactly `NightDeaths` and are appended to the dead. The used potion is gone. A hunter shot becomes pending iff `HunterTriggered`. Day comes iff it does not. The round is unchanged. |
| `Properties.HunterTriggerRule` | src/main.cpp:370-390 | A shot becomes pending iff the hunter still has a bullet, was not just poisoned, and some device that died tonight holds the hunter's role. |
| `Properties.PoisonedHunterCannotShoot` | src/main.cpp:370 | Poisoning the hunter removes the bullet: no shot becomes pending and day comes. |
| `Properties.ExileSparesIdiot` | src/main.cpp:408-410 | The unrevealed idiot is revealed, not killed, and night falls. |
| `Properties.ExileArmedHunter` | src/main.cpp:411-421 | Exiling an armed hunter kills it and holds the game with a pending shot, with the phase and round unchanged. |
| `Properties.ExileBringsNight` | src/main.cpp:404-433 | Any other exile (including the empty one, which kills nobody) clears the targets and last night's deaths, adds exactly one round, and calls the guard (phase 4) if one lives, else the wolves (0). |
| `Properties.HunterShotRule` | src/main.cpp:436-470 | A named target dies and the bullet is always spent. A pending shot is released: from the day a new night starts with one more round, otherwise day comes with the same round. Without a pending shot the night is unchanged. |
| `Properties.SeerCheckOnce` | src/main.cpp:355 | A check while one is pending changes nothing and sends no answer. |
| `Properties.SeerCheckStarts` | src/main.cpp:356-360 | A check answers the target's role (empty if unknown), locks input and starts the seer wait. |
| `Properties.SeerWait` | src/main.cpp:703-707 | The seer wait fires iff a check is pending and at least 5500 ms have passed; it then clears the check and moves to phase 2. |
| `Properties.SkipCodes` | src/main.cpp:672-693 | The skip delay maps phase 4 to 0, 1 to 2 and 2 to 3. |
| `Properties.SkipWait` | src/main.cpp:668-698 | The skip delay fires iff it is armed and at least 3000 ms have passed. It then moves to the next phase, disarms and locks. It never sets a pending hunter shot. |
| `Properties.DeadWitchNight` | src/main.cpp:688-691 | Skipping a dead witch's turn kills the wolves' target unless it was guarded, and records it in last night's deaths. |
| `Properties.LivingRoleNotSkipped` | src/main.cpp:191-198 | A living guard, seer or witch never has its turn skipped. |
| `Properties.DeadRoleSkipped` | src/main.cpp:191-198 | The open, uninterrupted turn of a dead guard, seer or witch arms the skip delay at the current time and locks input, unless the victory check ends the game. |
| `Properties.GuardProtectRule` | src/main.cpp:343-348 | The guarded device is recorded, also as the last guarded one; the wolves' turn (phase 0) begins with input locked; nothing else in the tables changes. |
| `Properties.WolfKillRule` | src/main.cpp:349-353 | The wolves' target is recorded; the seer's turn (phase 1) begins with input locked; nothing else in the tables or powers changes. |
| `Properties.UnlockRule` | src/main.cpp:710-720 | Input opens only in a running game that is not over, when locked, with no seer check pending, 2000 ms after the phase began and with the cue over; it then stays open unless the phase is a dead role's turn. Otherwise nothing changes. |
| `Properties.CountdownRule` | src/main.cpp:760-773 | 4000 ms into the countdown the game starts: the countdown ends and the guard's turn begins if a guard lives, else the wolves', with input locked. Before that nothing changes. |
| `Properties.ApproveRule` | src/main.cpp:775-780 | The moderator's button on a finished, unapproved game opens the restart vote with no votes; nothing else changes. |
| `Properties.ConnectCountsOnce` | src/main.cpp:321-328 | Only a device seen for the first time is registered, as spectator or "Joined", and counted. A repeat connect counts nothing. |
| `Properties.ResizeClamped` | src/main.cpp:729-740 | The joystick keeps the table size in 6..15 and moves it by one in the pushed direction, or not at all. |
| `Properties.RestartVoteIdempotent` | src/main.cpp:331 | A second vote from the same device changes nothing more. |
| `Properties.RestartNeedsApproval` | src/main.cpp:330 | Votes before the moderator's approval are ignored. |
| `Properties.QuorumRestarts` | src/main.cpp:332-338 | The vote that completes the quorum resets and deals: each non-spectator gets a seat in 1..n and the shuffled pool's entry at that seat, and spectators stay spectators. The countdown starts. The dead, the votes and the outcome are cleared and the round is 1. Of the phase clock only the lock and the seer's check are cleared, so a pending hunter shot stays pending. |
| `Properties.DealtLikeBefore` | src/main.cpp:334-335 | Dealing right after resetGame's demotion gives each device that held a role before a seat in 1..n and the shuffled pool's entry at that seat. Spectators stay spectators. |
| `Properties.InitialInv` | src/main.cpp:51-83 | The initial globals satisfy the invariants: table size in 6..15, round at least 1, a pending seer check implies locked input, and the game is over iff it has a winner. |
| `Properties.TickKeeps` | src/main.cpp:663-780 | A pass of `loop()` keeps the round. The dead stay dead. A decided outcome stays. The invariants hold. |
| `Properties.EventAdvances` | src/main.cpp:314-473 | Every message keeps the invariants. A message other than the quorum vote moves the round by at most one, and only into a new night. It keeps the dead and any decided outcome. The quorum vote starts over at round 1 with nobody dead. |
| `Properties.ExiledHunterOfferedShot` | src/main.cpp:411-421 | After the armed hunter is exiled, that device is offered the shot and every device is locked while it is pending. |
| `Properties.NightHunterOfferedShot` | src/main.cpp:384-394 | When the night's settling sets a pending shot, some device on last night's death list is offered it. |
| `Properties.ReportOnlyByDay` | src/main.cpp:245-262 | The death report is sent during the day only, and it reads "safe night" iff nobody died. |
| `Properties.CountdownShown` | src/main.cpp:209 | The countdown shown lies in 0..3 and is 0 when no countdown runs. |
| `Properties.SyncHoldsForShot` | src/main.cpp:191 | While a shot is pending, syncGameState changes neither the phase clock nor the tables. |
| `Properties.PendingShotSurvivesReset` | src/main.cpp:168-180 | As written, a pending shot survives the quorum vote, the countdown and the first unlock: the new game runs, every device is locked, nobody is dead so nobody is offered the shot, and the skip delay is never armed. |
| `Properties.GameEndsWithShotPending` | src/main.cpp:411-422 | Exiling the hunter when only one wolf is left alive with it ends the game in the wolves' favour while the shot is pending; the message carries the game-over flag next to the offered shot. |
| `Properties.ResetReleasesShot` | src/main.cpp:168-180 | The corrected reset leaves no pending shot and no device locked. |
| `Properties.RestartReleasingResets` | src/main.cpp:332-338 | The restart with the corrected reset starts the countdown with no shot or seer check pending and nobody dead. |
| `Properties.FirstNightOpens` | src/main.cpp:710-773 | With nothing pending, the countdown and then, 2000 ms later, an idle cue open input for the first night unless the game is already decided. |
| `Properties.RestartReleasingOpens` | src/main.cpp:332-338 | With the corrected reset, the first night after a restart has no shot pending, no device offered one, and every device open unless the game is already decided. |
| `Dealing.SeatsAscend` | src/main.cpp:143 | Seats follow key order. |
| `Dealing.SeatsDistinct` | src/main.cpp:143 | No two dealt devices share a seat. |
| `Dealing.SeatsAreOneToN` | src/main.cpp:143 | The seats of the n dealt devices are exactly 1..n. |
| `Dealing.EachEntryDealtOnce` | src/main.cpp:160-165 | Each of the first n pool entries is dealt to exactly one device, the one at its seat. |
| `Dealing.DealtAtSeat` | src/main.cpp:143-165 | A dealt device gets its seat and the pool entry at that seat. Any other device keeps its role and its old seat entry. |
| `Dealing.DealRule` | src/main.cpp:140-166 | setupRoles keeps the keys and deals each non-spectator the entry at its seat in 1..n. Spectators stay spectators. The idiot's and hunter's flags are reset. |
| `Dealing.DealtPoolComposition` | src/main.cpp:146-158 | The pool that is dealt has t entries with the composition of `PoolComposition`. |
| `Dealing.LastHolderFinds` | src/main.cpp:163 | The last holder of a role in a key list is a listed key holding it, with no holder after it, or "" when none holds it. |
| `Dealing.IdiotRecorded` | src/main.cpp:142-165 | After dealing, if some device holds the idiot's role the recorded idiot is such a device; if none does it is "". A device whose id is "" can be dealt the idiot too. |

## Left out

- Wi-Fi, DNS, the HTTP server and the WebSocket transport are left out. So are the JSON (de)serialisation and the browser client. Actions arrive as an `Action` value from a device id. The view is the `PlayerView` record with every field of the update message; the targets and the votes are a map and a set, so the order in which the source lists them is not modelled.
- OLED drawing, the DFPlayer voice cues, the buzzer and serial debug output are left out. They change no game state.
- The cue-player busy pin is read once per pass as `cueIdle`. The blocking busy-wait loops with `delay()` are modelled as their outcome. The several `millis()` readings of one pass are one clock reading `now` per pass, taken after any wait; a trigger that held on an earlier reading (the skip delay's, src/main.cpp:668) also holds on it.
- `random()` is not modelled. The Fisher–Yates draws are an input, with draw i in 0..i.
- `millis()` wrap-around is not modelled. Elapsed time is `now − start`, or 0 when `now` is earlier.
- The `isAudioPlaying` flag and the periodic OLED refresh are left out. The refresh calls syncGameState before the game starts, when it changes no state.
- The `clientIdToDeviceId` table is left out. Every device that receives a view has connected, so its id is already in the role map.
- The view, the witch's note and the death report read the seat map with an inserting lookup. For a device without a seat this adds an entry with value 0, and the model leaves these entries out.
  - For the seat shown to a device, the witch's note and the death report, such an entry reads the same as a missing one (`DeathNote.SeatOf`).
  - The target list is different. `m["index"] = playerIndexMap[devId]` (src/main.cpp:216) inserts an entry for every connected device without a seat, such as a spectator or a device that joined during the countdown. From the next sync on, the target loop (src/main.cpp:202-206) lists each such living device with index 0, and the client offers it as a "0號" target.
  - `Rules.LivingTargets` lists only devices with a real seat. The model's `targets` therefore omit these seat-0 entries, which the source sends.
- Dealing requires at least as many pool entries as dealt devices (`Rules.Fits`). With more non-spectators than entries the source reads past the end of the pool.
- Each message and each pass of `loop()` is one atomic step. The WebSocket callbacks of the asynchronous server can run between or during the sections of `loop()` on the real device; that interleaving is not modelled.
- The handlers do not check the phase, the sender's role or whether the sender is alive, and the model does not either. The guard's "not the same device twice" rule exists only in the client.

## Findings

| source | as written | input that shows it | evidently intended | confidence | as-written member | corrected member |
|---|---|---|---|---|---|---|
| src/main.cpp:168-180 | `resetGame` clears every game flag except `hunterActionPending`. | Devices "a" (wolf) and "b" (hunter) are alive and "b" is exiled. The shot becomes pending and the wolves win at once. The message sets `gameOver` next to `canShoot`, and the browser client, which is not part of this model, shows the win screen on `gameOver`. When the restart quorum is reached, the new game starts with the shot still pending. Every device is shown "waiting for the hunter". Nobody is dead, so nobody can shoot, and the skip delay never arms. | Starting a new game releases a pending shot, as `hunterShoot` does. | not executed | `Properties.PendingShotSurvivesReset` (with `Rules.ResetAsWritten` and `Properties.GameEndsWithShotPending`) | `Properties.ResetReleasesShot` and `Properties.RestartReleasingOpens` (with `Rules.Reset` and `Rules.RestartReleasing`); `Rules.OnRestart` and `Werewolf.Game.ResetGame` keep the code as written |
