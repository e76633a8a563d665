/**
 What the rules promise about one message or one pass of loop(), stated
 on the functions of module Rules: how the night is settled, what the
 day's vote and the hunter's shot do, when the timed waits fire, how the
 session counts devices and restarts, and the invariants every handler
 keeps.
 */
module Properties {
  import opened StringOrder
  import opened RolePool
  import opened NightRules
  import opened Rules
  import Dealing

  // ------------------------------------------------------- syncGameState

  /** syncGameState changes only the outcome, and the skip delay with its lock. */
  lemma SyncFrame(s: GameState, now: nat)
    ensures var r := Sync(s, now);
            && r.table == s.table && r.night == s.night && r.powers == s.powers
            && r.progress == s.progress.(over := r.progress.over, winner := r.progress.winner)
            && r.clock == s.clock.(delayStart := r.clock.delayStart, locked := r.clock.locked)
            && (s.clock.locked ==> r.clock == s.clock)
            && (s.progress.over ==> r.progress == s.progress)
  {
  }

  /** checkVictory in a running game: humans win with no wolf alive, wolves once they are at least as many as the other living players; otherwise nothing changes. */
  lemma VictoryRule(s: GameState)
    requires s.progress.started && !s.progress.countingDown && !s.progress.over
    ensures var r := Judge(s);
            var wolves, humans := |LivingWolves(s)|, |LivingHumans(s)|;
            && (wolves == 0 ==> r.progress.over && r.progress.winner == Humans)
            && (0 < wolves && humans <= wolves ==> r.progress.over && r.progress.winner == Wolves)
            && (0 < wolves && wolves < humans ==> r == s)
  {
  }

  /** checkVictory does nothing before the game runs, during the countdown, or once the game is over. */
  lemma VictoryOnlyWhileRunning(s: GameState)
    requires !s.progress.started || s.progress.countingDown || s.progress.over
    ensures Judge(s) == s
  {
  }

  // ------------------------------------------------------------ the witch

  /** The witch's action settles the night: the recorded deaths are exactly `NightDeaths`, the used potion is gone, and day comes unless a hunter shot is now pending. */
  lemma WitchSettlesNight(s: GameState, choice: WitchChoice, now: nat)
    ensures var poison := if choice.Poison? then choice.target else s.night.poisonTarget;
            var deaths := NightDeaths(choice.Heal?, s.night.wolfTarget, s.powers.guarded, poison);
            var r := OnWitch(s, choice, now);
            && r.table.lastNightDead == deaths
            && r.table.dead == s.table.dead + deaths
            && r.night.hasHeal == (s.night.hasHeal && !choice.Heal?)
            && r.night.hasPoison == (s.night.hasPoison && !choice.Poison?)
            && r.clock.hunterPending == (s.clock.hunterPending || HunterTriggered(s, choice))
            && r.night.phase == (if HunterTriggered(s, choice) then s.night.phase else Day)
            && r.night.round == s.night.round
  {
    var settled := Bury(WitchUses(s, choice), WitchDeaths(s, choice));
    SyncFrame(if HunterTriggered(s, choice) then Interrupt(settled) else EnterPhase(settled, Day, now), now);
  }

  /** A hunter shot becomes pending exactly when a device that died tonight holds the hunter's role and the hunter still has a bullet, which a poisoned hunter does not. */
  lemma HunterTriggerRule(s: GameState, choice: WitchChoice)
    ensures var poison := if choice.Poison? then choice.target else s.night.poisonTarget;
            var deaths := NightDeaths(choice.Heal?, s.night.wolfTarget, s.powers.guarded, poison);
            HunterTriggered(s, choice)
            <==> (s.powers.hunterCanShoot && !(choice.Poison? && RoleOf(s.table.roles, choice.target) == Hunter)
                  && exists x :: x in deaths && RoleOf(s.table.roles, x) == Hunter)
  {
    var used := WitchUses(s, choice);
    var deaths := WitchDeaths(s, choice);
    forall x
      ensures RoleOf(used.table.roles, x) == RoleOf(s.table.roles, x)
    {
      if choice.Poison? {
        TouchKeepsRoles(s.table.roles, {choice.target}, x);
      }
    }
    if HunterAmong(used.table.roles, deaths) {
      var i :| 0 <= i < |deaths| && RoleOf(used.table.roles, deaths[i]) == Hunter;
      assert deaths[i] in deaths;
    }
    if exists x :: x in deaths && RoleOf(s.table.roles, x) == Hunter {
      var x :| x in deaths && RoleOf(s.table.roles, x) == Hunter;
      var i :| 0 <= i < |deaths| && deaths[i] == x;
      assert RoleOf(used.table.roles, deaths[i]) == Hunter;
    }
  }

  /** Poisoning the hunter takes the bullet away: no shot becomes pending and day comes. */
  lemma PoisonedHunterCannotShoot(s: GameState, x: Id, now: nat)
    requires RoleOf(s.table.roles, x) == Hunter
    ensures !HunterTriggered(s, Poison(x))
    ensures var r := OnWitch(s, Poison(x), now);
            !r.powers.hunterCanShoot && r.night.phase == Day && r.clock.hunterPending == s.clock.hunterPending
  {
    HunterTriggerRule(s, Poison(x));
    WitchSettlesNight(s, Poison(x), now);
    var settled := Bury(WitchUses(s, Poison(x)), WitchDeaths(s, Poison(x)));
    SyncFrame(EnterPhase(settled, Day, now), now);
  }

  // ------------------------------------------------------------- the vote

  /** The unrevealed idiot survives the vote and is revealed; night falls. */
  lemma ExileSparesIdiot(s: GameState, target: Id, now: nat)
    requires SparesIdiot(s, target)
    ensures var r := OnExile(s, target, now);
            r.powers.idiotRevealed && r.table.dead == s.table.dead && r.night.round == s.night.round + 1
  {
    SyncFrame(NextNight(Exiled(s, target), now), now);
  }

  /** Exiling the armed hunter holds the game for the shot: the phase and round stay. */
  lemma ExileArmedHunter(s: GameState, target: Id, now: nat)
    requires ExilesArmedHunter(s, target)
    ensures var r := OnExile(s, target, now);
            && r.clock.hunterPending && r.table.dead == s.table.dead + [target]
            && r.night.phase == s.night.phase && r.night.round == s.night.round
  {
    SyncFrame(Interrupt(Exiled(s, target)), now);
  }

  /** Any other vote ends the day: the night's data is cleared, one more round begins, with the guard if one lives. */
  lemma ExileBringsNight(s: GameState, target: Id, now: nat)
    requires !ExilesArmedHunter(s, target)
    ensures var r := OnExile(s, target, now);
            && r.night.round == s.night.round + 1
            && r.night.wolfTarget == "" && r.night.poisonTarget == "" && r.powers.guarded == ""
            && r.table.lastNightDead == []
            && r.night.phase.Code() == (if RoleAlive(Exiled(s, target), Guard) then 4 else 0)
            && r.table.dead == s.table.dead + (if target != "" && !SparesIdiot(s, target) then [target] else [])
  {
    SyncFrame(NextNight(Exiled(s, target), now), now);
  }

  // -------------------------------------------------------- the hunter

  /** The shot: a named target dies, the bullet is spent, and a pending shot resumes the interrupted transition. */
  lemma HunterShotRule(s: GameState, target: Id, now: nat)
    ensures var r := OnHunterShoot(s, target, now);
            && r.table.dead == s.table.dead + (if target != "" then [target] else [])
            && !r.powers.hunterCanShoot
            && !r.clock.hunterPending
            && (!s.clock.hunterPending ==> r.night == s.night)
            && (s.clock.hunterPending && s.night.phase == Day ==>
                  r.night.round == s.night.round + 1 && r.night.phase.Code() == (if RoleAlive(Shot(s, target), Guard) then 4 else 0))
            && (s.clock.hunterPending && s.night.phase != Day ==> r.night.round == s.night.round && r.night.phase == Day)
  {
    var shot := Shot(s, target);
    var released := shot.(clock := shot.clock.(hunterPending := false));
    SyncFrame(if !s.clock.hunterPending then shot
              else if s.night.phase == Day then NextNight(released, now)
              else EnterPhase(released, Day, now), now);
  }

  // ------------------------------------------------------ guard and wolves

  /** `guardProtect` records the guarded device, also as the one guarded last, and hands the night to the wolves with input locked. */
  lemma GuardProtectRule(s: GameState, target: Id, now: nat)
    ensures var r := OnGuardProtect(s, target, now);
            && r.powers.guarded == target && r.powers.lastGuarded == target
            && r.night.phase == WolfTurn && r.night.phase.Code() == 0 && r.clock.phaseStart == now && r.clock.locked
            && r.clock.delayStart == s.clock.delayStart
            && r.table == s.table && r.night.round == s.night.round && r.night.wolfTarget == s.night.wolfTarget
  {
    SyncFrame(EnterPhase(s.(powers := s.powers.(guarded := target, lastGuarded := target)), WolfTurn, now), now);
  }

  /** `wolfKill` records the wolves' target and hands the night to the seer with input locked. */
  lemma WolfKillRule(s: GameState, target: Id, now: nat)
    ensures var r := OnWolfKill(s, target, now);
            && r.night.wolfTarget == target
            && r.night.phase == SeerTurn && r.night.phase.Code() == 1 && r.clock.phaseStart == now && r.clock.locked
            && r.clock.delayStart == s.clock.delayStart
            && r.table == s.table && r.powers == s.powers && r.night.round == s.night.round
  {
    SyncFrame(EnterPhase(s.(night := s.night.(wolfTarget := target)), SeerTurn, now), now);
  }

  // ------------------------------------------------------------ the seer

  /** A second check while one is pending changes nothing and tells nothing. */
  lemma SeerCheckOnce(s: GameState, target: Id, now: nat)
    requires s.clock.seerPending
    ensures OnSeerCheck(s, target, now) == s && SeerAnswer(s, target) == None
  {
  }

  /** A check answers the target's role, locks input and starts the seer wait. */
  lemma SeerCheckStarts(s: GameState, target: Id, now: nat)
    requires !s.clock.seerPending
    ensures SeerAnswer(s, target) == Some(if target in s.table.roles then s.table.roles[target] else Blank)
    ensures var r := OnSeerCheck(s, target, now);
            r.clock.seerPending && r.clock.locked && r.clock.seerDelayStart == now && r.night == s.night
  {
    SyncFrame(s.(table := s.table.(roles := Touch(s.table.roles, {target})),
                 clock := s.clock.(seerPending := true, seerDelayStart := now, locked := true)), now);
  }

  /** The seer wait ends the seer's turn exactly when a check is pending and 5500 ms have passed. */
  lemma SeerWait(s: GameState, now: nat)
    ensures var r := SeerSection(s, now);
            if s.clock.seerPending && now >= s.clock.seerDelayStart + 5500 then
              !r.clock.seerPending && r.night.phase == WitchTurn && r.clock.phaseStart == now
            else r == s
  {
    if s.clock.seerPending && Elapsed(now, s.clock.seerDelayStart) >= 5500 {
      SyncFrame(EnterPhase(s.(clock := s.clock.(seerPending := false)), WitchTurn, now), now);
    }
  }

  // ------------------------------------------------------- the skip delay

  /** Where the skip delay leads, in the source's phase numbers: 4 to 0, 1 to 2, 2 to 3. */
  lemma SkipCodes()
    ensures SkipTo(GuardTurn).Code() == 0 && SkipTo(SeerTurn).Code() == 2 && SkipTo(WitchTurn).Code() == 3
  {
  }

  /** The skip delay fires exactly when armed and 3000 ms have passed; it moves to the next phase and disarms, and never holds for a hunter. */
  lemma SkipWait(s: GameState, now: nat)
    ensures var r := SkipSection(s, now);
            if 0 < s.clock.delayStart && s.clock.delayStart + 3000 <= now then
              && r.night.phase == SkipTo(s.night.phase) && r.clock.delayStart == 0 && r.clock.locked
              && r.clock.hunterPending == s.clock.hunterPending
              && r.night.round == s.night.round
            else r == s
  {
    if s.clock.delayStart > 0 && Elapsed(now, s.clock.delayStart) >= 3000 {
      var cleared := s.(clock := s.clock.(delayStart := 0));
      var settled := if s.night.phase == WitchTurn then UnwitchedNight(cleared) else cleared;
      SyncFrame(EnterPhase(settled, SkipTo(s.night.phase), now), now);
    }
  }

  /** With the witch dead, her skipped turn kills the wolves' target unless it was guarded. */
  lemma DeadWitchNight(s: GameState, now: nat)
    requires s.night.phase == WitchTurn && 0 < s.clock.delayStart && s.clock.delayStart + 3000 <= now
    ensures var r := SkipSection(s, now);
            var killed := if s.night.wolfTarget != "" && s.night.wolfTarget != s.powers.guarded then [s.night.wolfTarget] else [];
            r.table.dead == s.table.dead + killed && r.table.lastNightDead == s.table.lastNightDead + killed
  {
    var cleared := s.(clock := s.clock.(delayStart := 0));
    SyncFrame(EnterPhase(UnwitchedNight(cleared), Day, now), now);
  }

  /** A live guard, seer or witch never arms the skip delay. */
  lemma LivingRoleNotSkipped(s: GameState, now: nat)
    requires s.night.phase == GuardTurn ==> RoleAlive(s, Guard)
    requires s.night.phase == SeerTurn ==> RoleAlive(s, Seer)
    requires s.night.phase == WitchTurn ==> RoleAlive(s, Witch)
    ensures Sync(s, now).clock.delayStart == s.clock.delayStart
  {
  }

  /** The turn of a dead guard, seer or witch, open and not interrupted, arms the skip delay at `now` and locks input, unless the victory check ends the game first. */
  lemma DeadRoleSkipped(s: GameState, now: nat)
    requires s.progress.started && !s.progress.over && !s.clock.locked && s.clock.delayStart == 0 && !s.clock.hunterPending
    requires SkipDue(s)
    ensures var r := Sync(s, now);
            !r.progress.over ==> r.clock.delayStart == now && r.clock.locked && r.night.phase == s.night.phase
  {
    SyncFrame(s, now);
  }

  // ------------------------------------------------------- opening input

  /** Input opens exactly when the game runs and is not over, the phase is locked, no seer check is pending, 2000 ms have passed since the phase began and the cue is over; if the phase is not a dead role's turn it stays open. */
  lemma UnlockRule(s: GameState, now: nat, cueIdle: bool)
    ensures var r := UnlockSection(s, now, cueIdle);
            if s.progress.started && !s.progress.over && s.clock.locked && !s.clock.seerPending
               && s.clock.phaseStart + 2000 <= now && cueIdle then
              && (!SkipDue(s) ==> !r.clock.locked)
              && r.night == s.night && r.table == s.table && r.clock.phaseStart == s.clock.phaseStart
            else r == s
  {
    SyncFrame(s.(clock := s.clock.(locked := false)), now);
  }

  // ------------------------------------------------------------ the lobby

  /** `connect` registers and counts a device only the first time it is seen. */
  lemma ConnectCountsOnce(s: GameState, dev: Id, now: nat)
    ensures var r := OnConnect(s, dev, now);
            && r.table.roles.Keys == s.table.roles.Keys + {dev}
            && r.progress.currentCount == s.progress.currentCount + (if dev in s.table.roles then 0 else 1)
            && (dev !in s.table.roles ==> r.table.roles[dev] == (if s.progress.started then Spectator else Joined))
            && OnConnect(r, dev, now).progress.currentCount == r.progress.currentCount
  {
    var added := if dev in s.table.roles then s
                 else s.(table := s.table.(roles := s.table.roles[dev := if s.progress.started then Spectator else Joined]),
                         progress := s.progress.(currentCount := s.progress.currentCount + 1));
    SyncFrame(added, now);
    SyncFrame(Sync(added, now), now);
  }

  /** The joystick keeps the table size within 6..15 and moves it by at most one, in the pushed direction. */
  lemma ResizeClamped(t: int, stick: Stick)
    requires 6 <= t <= 15
    ensures var r := Resized(t, stick);
            && 6 <= r <= 15
            && (stick == Right ==> r == t + 1 || r == 15)
            && (stick == Left ==> r == t - 1 || r == 6)
            && (stick == Centered ==> r == t)
  {
  }

  /** Restart votes are a set: a second vote from the same device changes nothing more. */
  lemma RestartVoteIdempotent(s: GameState, dev: Id, draws: seq<nat>, now: nat)
    requires s.progress.adminApproved && dev in s.table.votes && |s.table.votes| < s.progress.targetCount
    ensures OnRestart(s, dev, draws, now) == Sync(s, now)
  {
    assert s.table.votes + {dev} == s.table.votes;
  }

  /** Votes before the moderator's approval are ignored. */
  lemma RestartNeedsApproval(s: GameState, dev: Id, draws: seq<nat>, now: nat)
    requires !s.progress.adminApproved
    ensures OnRestart(s, dev, draws, now) == Sync(s, now)
  {
  }

  /** The last vote of a quorum starts a fresh game: the table is reset and dealt (every non-spectator gets the
      shuffled pool's entry at its seat in 1..n), and the countdown runs.
      The phase clock only loses its lock and the seer's check; a pending hunter shot stays pending. */
  lemma QuorumRestarts(s: GameState, dev: Id, draws: seq<nat>, now: nat)
    requires Quorum(s, dev) && Fits(s, draws)
    ensures var r := OnRestart(s, dev, draws, now);
            && r.progress.countingDown && r.progress.countdownStart == now && !r.progress.started
            && !r.progress.over && r.progress.winner == NoWinner
            && r.table.dead == [] && r.table.votes == {} && r.night.round == 1 && r.night.phase == Idle
            && r.clock == s.clock.(locked := false, seerPending := false)
            && r.table.roles.Keys == s.table.roles.Keys
            && var pool := ShuffledPool(s.progress.targetCount, draws);
               && (forall k :: IsSeated(s.table.roles, k) ==>
                     && k in r.table.seats && 1 <= r.table.seats[k] <= |SeatedKeys(s.table.roles)|
                     && r.table.roles[k] == pool[r.table.seats[k] - 1])
               && (forall k :: k in s.table.roles && !IsSeated(s.table.roles, k) ==> r.table.roles[k] == Spectator)
  {
    var voted := s.(table := s.table.(votes := s.table.votes + {dev}));
    DemoteKeepsSeated(s.table.roles);
    DealtLikeBefore(s.table.roles, ResetAsWritten(voted), draws);
    var dealt := SetupRoles(ResetAsWritten(voted), draws);
    SyncFrame(StartCountdown(dealt, now), now);
    assert OnRestart(s, dev, draws, now).table == dealt.table;
  }

  /** Dealing a table demoted from `before`: each device dealt before is dealt again by its seat, spectators stay. */
  lemma DealtLikeBefore(before: map<Id, Role>, s: GameState, draws: seq<nat>)
    requires Fits(s, draws) && s.table.roles == Demote(before)
    ensures var r := SetupRoles(s, draws);
            var pool := ShuffledPool(s.progress.targetCount, draws);
            && r.table.roles.Keys == before.Keys
            && (forall k :: IsSeated(before, k) ==>
                  && k in r.table.seats && 1 <= r.table.seats[k] <= |SeatedKeys(before)|
                  && r.table.roles[k] == pool[r.table.seats[k] - 1])
            && (forall k :: k in before && !IsSeated(before, k) ==> r.table.roles[k] == Spectator)
  {
    assert SeatedKeys(s.table.roles) == SeatedKeys(before) by {
      DemoteKeepsSeated(before);
    }
    assert forall k :: IsSeated(s.table.roles, k) <==> IsSeated(before, k);
    Dealing.DealRule(s, draws);
  }

  /** The countdown starts the first night exactly when it runs and 4000 ms have passed: the game starts with the guard's turn if a guard lives, else the wolves', input locked. */
  lemma CountdownRule(s: GameState, now: nat)
    ensures var r := CountdownSection(s, now);
            if s.progress.countingDown && s.progress.countdownStart + 4000 <= now then
              && r.progress.started && !r.progress.countingDown
              && r.night.phase == (if RoleAlive(s, Guard) then GuardTurn else WolfTurn)
              && r.clock.phaseStart == now && r.clock.locked && r.clock.delayStart == s.clock.delayStart
              && r.table == s.table && r.night.round == s.night.round
            else r == s
  {
    SyncFrame(EnterPhase(s.(progress := s.progress.(countingDown := false, started := true)),
                         NextNightPhase(RoleAlive(s, Guard)), now), now);
  }

  /** The moderator's button on a finished game opens the restart vote with no votes cast; it does nothing otherwise. */
  lemma ApproveRule(s: GameState, now: nat, button: bool)
    ensures var r := ApproveSection(s, now, button);
            if s.progress.over && !s.progress.adminApproved && button then
              r == s.(progress := s.progress.(adminApproved := true), table := s.table.(votes := {}))
            else r == s
  {
    SyncFrame(s.(progress := s.progress.(adminApproved := true), table := s.table.(votes := {})), now);
  }

  // --------------------------------------------------- across all steps

  lemma InitialInv()
    ensures Inv(Initial())
  {
  }

  /** What a pass of loop() never undoes: the round stays, the dead stay dead, a decided game stays decided, and the invariants hold. */
  ghost predicate Keeps(s: GameState, r: GameState)
  {
    && r.night.round == s.night.round
    && s.table.dead <= r.table.dead
    && (s.progress.over ==> r.progress.over && r.progress.winner == s.progress.winner)
    && (Inv(s) ==> Inv(r))
  }

  lemma KeepsTransitive(a: GameState, b: GameState, c: GameState)
    requires Keeps(a, b) && Keeps(b, c)
    ensures Keeps(a, c)
  {
  }

  lemma SyncKeeps(s: GameState, now: nat)
    ensures Keeps(s, Sync(s, now))
  {
    SyncFrame(s, now);
  }

  lemma SkipSectionKeeps(s: GameState, now: nat)
    ensures Keeps(s, SkipSection(s, now))
  {
    if s.clock.delayStart > 0 && Elapsed(now, s.clock.delayStart) >= 3000 {
      var cleared := s.(clock := s.clock.(delayStart := 0));
      var settled := if s.night.phase == WitchTurn then UnwitchedNight(cleared) else cleared;
      SyncKeeps(EnterPhase(settled, SkipTo(s.night.phase), now), now);
    }
  }

  lemma SeerSectionKeeps(s: GameState, now: nat)
    ensures Keeps(s, SeerSection(s, now))
  {
    if s.clock.seerPending && Elapsed(now, s.clock.seerDelayStart) >= 5500 {
      SyncKeeps(EnterPhase(s.(clock := s.clock.(seerPending := false)), WitchTurn, now), now);
    }
  }

  lemma UnlockSectionKeeps(s: GameState, now: nat, cueIdle: bool)
    ensures Keeps(s, UnlockSection(s, now, cueIdle))
  {
    SyncKeeps(s.(clock := s.clock.(locked := false)), now);
  }

  lemma LobbySectionKeeps(s: GameState, now: nat, stick: Stick, button: bool, draws: seq<nat>)
    requires LobbyFits(s, draws)
    ensures Keeps(s, LobbySection(s, now, stick, button, draws))
  {
    if s.progress.started || s.progress.countingDown {
    } else if !s.progress.confirmPressed {
      var t := Resized(s.progress.targetCount, stick);
      if 6 <= s.progress.targetCount <= 15 {
        ResizeClamped(s.progress.targetCount, stick);
      }
      var resized := s.(progress := s.progress.(targetCount := t));
      SyncKeeps(resized, now);
      var sized := if t != s.progress.targetCount then Sync(resized, now) else s;
      assert Keeps(s, sized);
      SyncKeeps(sized.(progress := sized.progress.(confirmPressed := true)), now);
    } else if s.progress.currentCount >= s.progress.targetCount {
      SyncKeeps(StartCountdown(SetupRoles(s, draws), now), now);
    }
  }

  lemma CountdownSectionKeeps(s: GameState, now: nat)
    ensures Keeps(s, CountdownSection(s, now))
  {
    if s.progress.countingDown && Elapsed(now, s.progress.countdownStart) >= 4000 {
      SyncKeeps(EnterPhase(s.(progress := s.progress.(countingDown := false, started := true)),
                           NextNightPhase(RoleAlive(s, Guard)), now), now);
    }
  }

  lemma ApproveSectionKeeps(s: GameState, now: nat, button: bool)
    ensures Keeps(s, ApproveSection(s, now, button))
  {
    SyncKeeps(s.(progress := s.progress.(adminApproved := true), table := s.table.(votes := {})), now);
  }

  /** A pass of loop() keeps the round, the dead, a decided outcome and the invariants. */
  lemma {:induction false} TickKeeps(s: GameState, now: nat, input: Inputs, draws: seq<nat>)
    requires LobbyFits(s, draws)
    ensures Keeps(s, Tick(s, now, input, draws))
  {
    var s1 := SkipSection(s, now);
    var s2 := SeerSection(s1, now);
    var s3 := UnlockSection(s2, now, input.cueIdle);
    EarlySectionsKeepLobby(s, now, input.cueIdle);
    var s4 := LobbySection(s3, now, input.stick, input.button, draws);
    var s5 := CountdownSection(s4, now);
    SkipSectionKeeps(s, now);
    SeerSectionKeeps(s1, now);
    UnlockSectionKeeps(s2, now, input.cueIdle);
    LobbySectionKeeps(s3, now, input.stick, input.button, draws);
    CountdownSectionKeeps(s4, now);
    ApproveSectionKeeps(s5, now, input.button);
    KeepsTransitive(s, s1, s2);
    KeepsTransitive(s, s2, s3);
    KeepsTransitive(s, s3, s4);
    KeepsTransitive(s, s4, s5);
    KeepsTransitive(s, s5, ApproveSection(s5, now, input.button));
  }

  /** What a message never undoes: the round moves by at most one, and only into a new night; the dead stay dead; a decided game stays decided; the invariants hold. Only the vote that completes a restart quorum starts over. */
  ghost predicate Advances(s: GameState, r: GameState)
  {
    && (r.night.round == s.night.round
        || (r.night.round == s.night.round + 1 && (r.night.phase == GuardTurn || r.night.phase == WolfTurn)))
    && s.table.dead <= r.table.dead
    && (s.progress.over ==> r.progress.over && r.progress.winner == s.progress.winner)
    && (Inv(s) ==> Inv(r))
  }

  lemma NightfallAdvances(s: GameState, now: nat)
    ensures Advances(s, Sync(NextNight(s, now), now))
  {
    SyncFrame(NextNight(s, now), now);
  }

  lemma WitchAdvances(s: GameState, choice: WitchChoice, now: nat)
    ensures Advances(s, OnWitch(s, choice, now))
  {
    var settled := Bury(WitchUses(s, choice), WitchDeaths(s, choice));
    SyncKeeps(if HunterTriggered(s, choice) then Interrupt(settled) else EnterPhase(settled, Day, now), now);
  }

  lemma ExileAdvances(s: GameState, target: Id, now: nat)
    ensures Advances(s, OnExile(s, target, now))
  {
    var voted := Exiled(s, target);
    if ExilesArmedHunter(s, target) {
      SyncKeeps(Interrupt(voted), now);
    } else {
      NightfallAdvances(voted, now);
    }
  }

  lemma ShootAdvances(s: GameState, target: Id, now: nat)
    ensures Advances(s, OnHunterShoot(s, target, now))
  {
    var shot := Shot(s, target);
    var released := shot.(clock := shot.clock.(hunterPending := false));
    if !s.clock.hunterPending {
      SyncKeeps(shot, now);
    } else if s.night.phase == Day {
      NightfallAdvances(released, now);
    } else {
      SyncKeeps(EnterPhase(released, Day, now), now);
    }
  }

  lemma ConnectAdvances(s: GameState, dev: Id, now: nat)
    ensures Advances(s, OnConnect(s, dev, now))
  {
    SyncKeeps(if dev in s.table.roles then s
              else s.(table := s.table.(roles := s.table.roles[dev := if s.progress.started then Spectator else Joined]),
                      progress := s.progress.(currentCount := s.progress.currentCount + 1)), now);
  }

  lemma RestartAdvances(s: GameState, dev: Id, draws: seq<nat>, now: nat)
    requires RestartFits(s, dev, draws)
    ensures var r := OnRestart(s, dev, draws, now);
            if Quorum(s, dev) then (Inv(s) ==> Inv(r)) && r.night.round == 1 && r.table.dead == [] && !r.progress.over
            else Advances(s, r)
  {
    if Quorum(s, dev) {
      QuorumRestarts(s, dev, draws, now);
    } else {
      SyncKeeps(if s.progress.adminApproved then s.(table := s.table.(votes := s.table.votes + {dev})) else s, now);
    }
  }

  lemma NightActionAdvances(s: GameState, a: Action, now: nat)
    requires a.GuardProtect? || a.WolfKill? || a.SeerCheck?
    ensures Advances(s, OnEvent(s, "", a, [], now))
  {
    match a
    case GuardProtect(x) =>
      SyncKeeps(EnterPhase(s.(powers := s.powers.(guarded := x, lastGuarded := x)), WolfTurn, now), now);
    case WolfKill(x) =>
      SyncKeeps(EnterPhase(s.(night := s.night.(wolfTarget := x)), SeerTurn, now), now);
    case SeerCheck(x) =>
      SyncKeeps(s.(table := s.table.(roles := Touch(s.table.roles, {x})),
                   clock := s.clock.(seerPending := true, seerDelayStart := now, locked := true)), now);
  }

  /** Every message advances the game as `Advances` says, except the vote completing a restart quorum, which starts over at round 1 with nobody dead. */
  lemma EventAdvances(s: GameState, dev: Id, a: Action, draws: seq<nat>, now: nat)
    requires EventFits(s, dev, a, draws)
    ensures var r := OnEvent(s, dev, a, draws, now);
            if a == Restart && Quorum(s, dev) then (Inv(s) ==> Inv(r)) && r.night.round == 1 && r.table.dead == [] && !r.progress.over
            else Advances(s, r)
  {
    match a
    case Connect => ConnectAdvances(s, dev, now);
    case Restart => RestartAdvances(s, dev, draws, now);
    case GuardProtect(x) => NightActionAdvances(s, a, now);
    case WolfKill(x) => NightActionAdvances(s, a, now);
    case SeerCheck(x) => NightActionAdvances(s, a, now);
    case WitchActs(c) => WitchAdvances(s, c, now);
    case ChampExile(x) => ExileAdvances(s, x, now);
    case HunterShoot(x) => ShootAdvances(s, x, now);
    case Unknown =>
  }

  // ------------------------------------------------- what devices are shown

  /** Exiling the armed hunter offers the shot to that device, and holds every device's input while it is pending. */
  lemma ExiledHunterOfferedShot(s: GameState, target: Id, now: nat, later: nat, dev: Id)
    requires ExilesArmedHunter(s, target)
    ensures var r := OnExile(s, target, now);
            View(r, target, later).canShoot && View(r, dev, later).locked && View(r, dev, later).hunterPending
  {
    ExileArmedHunter(s, target, now);
    SyncFrame(Interrupt(Exiled(s, target)), now);
    TouchKeepsRoles(s.table.roles, {target}, target);
  }

  /** A hunter killed in the night is offered the shot: some device on last night's death list may fire. */
  lemma NightHunterOfferedShot(s: GameState, choice: WitchChoice, now: nat, later: nat)
    requires HunterTriggered(s, choice)
    ensures var r := OnWitch(s, choice, now);
            exists d :: d in r.table.lastNightDead && View(r, d, later).canShoot
  {
    var used := WitchUses(s, choice);
    var deaths := WitchDeaths(s, choice);
    var r := OnWitch(s, choice, now);
    SyncFrame(Interrupt(Bury(used, deaths)), now);
    var i :| 0 <= i < |deaths| && RoleOf(used.table.roles, deaths[i]) == Hunter;
    TouchKeepsRoles(used.table.roles, (set x | x in deaths), deaths[i]);
    assert r.table.dead == s.table.dead + deaths;
    assert deaths[i] in r.table.lastNightDead && View(r, deaths[i], later).canShoot;
  }

  /** The death report is sent during the day only; it reads "safe night" exactly when nobody died. */
  lemma ReportOnlyByDay(s: GameState, dev: Id, now: nat)
    ensures View(s, dev, now).deathNote.Some? <==> s.night.phase == Day
    ensures View(s, dev, now).deathNote.Some? ==>
              (View(s, dev, now).deathNote.value == DeathNote.SafeNight <==> s.table.lastNightDead == [])
  {
    DeathNote.SafeNightIffNoDeaths(s.table.lastNightDead, s.table.seats);
  }

  /** The countdown shown counts down from 3 and never goes below 0. */
  lemma CountdownShown(s: GameState, now: nat)
    ensures 0 <= CountdownSeconds(s, now) <= 3
    ensures !s.progress.countingDown ==> CountdownSeconds(s, now) == 0
  {
  }

  // --------------------------------------------------------- the finding

  /** A handler or a section of loop() while a shot is pending: syncGameState arms no skip and ends nothing new. */
  lemma SyncHoldsForShot(s: GameState, now: nat)
    requires s.clock.hunterPending
    ensures Sync(s, now).clock == s.clock && Sync(s, now).table == s.table
  {
    SyncFrame(s, now);
  }

  /** resetGame as written carries a pending shot into the new game: after the quorum vote, the countdown and the first unlock, the shot is still pending, every device is locked, nobody is dead so no device is offered the shot, and the skip delay is never armed. */
  lemma PendingShotSurvivesReset(s: GameState, dev: Id, draws: seq<nat>, now1: nat, now2: nat, now3: nat, cueIdle: bool)
    requires s.clock.hunterPending && Quorum(s, dev) && Fits(s, draws)
    ensures var r1 := OnRestart(s, dev, draws, now1);
            var r3 := UnlockSection(CountdownSection(r1, now2), now3, cueIdle);
            && r3.clock.hunterPending && r3.table.dead == [] && r3.clock.delayStart == s.clock.delayStart
            && (now1 + 4000 <= now2 ==> r3.progress.started)
            && forall d :: View(r3, d, now3).locked && !View(r3, d, now3).canShoot
  {
    var r1 := OnRestart(s, dev, draws, now1);
    QuorumRestarts(s, dev, draws, now1);
    var r2 := CountdownSection(r1, now2);
    CountdownRule(r1, now2);
    if r1.progress.countingDown && Elapsed(now2, r1.progress.countdownStart) >= 4000 {
      SyncHoldsForShot(EnterPhase(r1.(progress := r1.progress.(countingDown := false, started := true)),
                                  NextNightPhase(RoleAlive(r1, Guard)), now2), now2);
    }
    SyncHoldsForShot(r2.(clock := r2.clock.(locked := false)), now3);
  }

  /** A game that ends with a shot pending: wolf "a" and hunter "b", the hunter exiled, the wolves win while the shot is pending; the message still offers "b" the shot, alongside the game-over flag. */
  lemma GameEndsWithShotPending(now: nat)
    ensures var s := Initial().(table := Initial().table.(roles := map["a" := Wolf, "b" := Hunter]),
                                progress := Initial().progress.(started := true));
            var r := OnExile(s, "b", now);
            && r.progress.over && r.progress.winner == Wolves && r.clock.hunterPending
            && View(r, "b", now).gameOver && View(r, "b", now).canShoot
  {
    var s := Initial().(table := Initial().table.(roles := map["a" := Wolf, "b" := Hunter]),
                        progress := Initial().progress.(started := true));
    assert ExilesArmedHunter(s, "b");
    var v := Interrupt(Exiled(s, "b"));
    assert v.table.dead == ["b"];
    assert LivingWolves(v) == {"a"};
    assert LivingHumans(v) == {};
  }

  /** resetGame, releasing the pending shot: the new game starts unlocked for every device. */
  lemma ResetReleasesShot(s: GameState, dev: Id, now: nat)
    ensures !Reset(s).clock.hunterPending
    ensures !View(Reset(s), dev, now).locked && !View(Reset(s), dev, now).canShoot
  {
  }

  /** The corrected restart leaves a counting-down game with no shot pending, no seer check and nobody dead. */
  lemma RestartReleasingResets(s: GameState, dev: Id, draws: seq<nat>, now: nat)
    requires Quorum(s, dev) && Fits(s, draws)
    ensures var r := RestartReleasing(s, dev, draws, now);
            && r.progress.countingDown && r.progress.countdownStart == now
            && !r.clock.hunterPending && !r.clock.seerPending && r.table.dead == []
  {
    var voted := s.(table := s.table.(votes := s.table.votes + {dev}));
    DemoteKeepsSeated(s.table.roles);
    SyncFrame(StartCountdown(SetupRoles(Reset(voted), draws), now), now);
  }

  /** With no shot and no seer check pending, the countdown followed, 2000 ms later, by an idle cue opens input for the first night, unless the game is already decided. */
  lemma FirstNightOpens(s: GameState, now2: nat, now3: nat)
    requires s.progress.countingDown && s.progress.countdownStart + 4000 <= now2 && now2 + 2000 <= now3
    requires !s.clock.hunterPending && !s.clock.seerPending
    ensures var r3 := UnlockSection(CountdownSection(s, now2), now3, true);
            && r3.progress.started && !r3.clock.hunterPending && r3.table == s.table
            && (!r3.progress.over ==> !r3.clock.locked)
  {
    var r2 := CountdownSection(s, now2);
    CountdownRule(s, now2);
    var entered := EnterPhase(s.(progress := s.progress.(countingDown := false, started := true)),
                              NextNightPhase(RoleAlive(s, Guard)), now2);
    SyncFrame(entered, now2);
    UnlockRule(r2, now3, true);
    if !r2.progress.over {
      assert Judge(entered) == entered;
      assert !SkipDue(r2);
    }
  }

  /** The restart with the corrected reset: after the quorum vote, 4000 ms of countdown and 2000 ms of cue, no shot is pending and, unless the new game is already decided, every device's input is open. */
  lemma RestartReleasingOpens(s: GameState, dev: Id, draws: seq<nat>, now1: nat, now2: nat, now3: nat)
    requires Quorum(s, dev) && Fits(s, draws) && now1 + 4000 <= now2 && now2 + 2000 <= now3
    ensures var r2 := CountdownSection(RestartReleasing(s, dev, draws, now1), now2);
            var r3 := UnlockSection(r2, now3, true);
            && !r3.clock.hunterPending && r3.progress.started
            && forall d :: !View(r3, d, now3).canShoot && (!r3.progress.over ==> !View(r3, d, now3).locked)
  {
    RestartReleasingResets(s, dev, draws, now1);
    FirstNightOpens(RestartReleasing(s, dev, draws, now1), now2, now3);
  }
}
