/**
 The controller's globals and the code that updates them in place
 (src/main.cpp). `Game` keeps the globals in five fields, one per group of
 declarations of the source (the per-device tables, the session's
 progress, the night, the special powers, the phase clock); `State` reads
 them as a `Rules.GameState`, and every method is proved to leave the
 state that the matching function of `Rules` describes.
 */
module Werewolf {
  import opened StringOrder
  import opened RolePool
  import opened NightRules
  import DeathNote
  import Rules

  class Game {
    var table: Rules.Table
    var progress: Rules.Progress
    var night: Rules.Night
    var powers: Rules.Powers
    var clock: Rules.Clock

    function State(): Rules.GameState
      reads this
    {
      Rules.GameState(table, progress, night, powers, clock)
    }

    constructor()
      ensures State() == Rules.Initial()
    {
      var s := Rules.Initial();
      table, progress, night, powers, clock := s.table, s.progress, s.night, s.powers, s.clock;
    }

    /** isAlive: a scan of the death list. */
    method IsAlive(id: Id) returns (alive: bool)
      ensures alive <==> id !in table.dead
    {
      var dead := table.dead;
      var i := 0;
      while i < |dead|
        invariant 0 <= i <= |dead|
        invariant id !in dead[..i]
      {
        if dead[i] == id {
          return false;
        }
        i := i + 1;
      }
      assert dead[..i] == dead;
      return true;
    }

    /** isRoleAlive: a scan of the role table; the outcome does not depend on the order of the scan. */
    method IsRoleAlive(r: Role) returns (found: bool)
      ensures found <==> Rules.RoleAlive(State(), r)
    {
      var roles := table.roles;
      ghost var dead := table.dead;
      var rest := roles.Keys;
      found := false;
      while rest != {} && !found
        invariant rest <= roles.Keys
        invariant found ==> Rules.HeldByLiving(roles, dead, r)
        invariant !found ==> forall k :: k in roles && k !in rest && roles[k] == r ==> k in dead
        decreases |rest|
      {
        var k :| k in rest;
        if roles[k] == r {
          found := IsAlive(k);
        }
        rest := rest - {k};
      }
    }

    /** The counting loop of checkVictory: living wolves, and living players on the humans' side. */
    method CountSides() returns (wolves: nat, humans: nat)
      ensures wolves == |Rules.LivingWolves(State())| && humans == |Rules.LivingHumans(State())|
    {
      var roles := table.roles;
      var order := SortKeys(roles.Keys);
      Rules.LivingCounts(State(), order);
      assert forall k :: k in roles <==> k in order;
      ghost var wolf := Rules.LivingWolf(roles, table.dead);
      ghost var human := Rules.LivingHuman(roles, table.dead);
      wolves, humans := 0, 0;
      var i := 0;
      while i < |order|
        invariant 0 <= i <= |order|
        invariant wolves == Count(order[..i], wolf) && humans == Count(order[..i], human)
      {
        var k := order[i];
        var alive := IsAlive(k);
        CountStep(order, i, wolf);
        CountStep(order, i, human);
        if alive {
          if roles[k] == Wolf {
            wolves := wolves + 1;
          } else if roles[k] != Joined && roles[k] != Spectator {
            humans := humans + 1;
          }
        }
        i := i + 1;
      }
      assert order[..i] == order;
    }

    /** checkVictory: once a game is running, no wolves left means the humans won; as many wolves as humans, the wolves. */
    method CheckVictory()
      modifies this
      ensures State() == Rules.Judge(old(State()))
    {
      if !progress.started || progress.countingDown || progress.over {
        return;
      }
      var wolves, humans := CountSides();
      var w := Rules.Verdict(wolves, humans);
      if w != Rules.NoWinner {
        progress := progress.(over := true, winner := w);
      }
    }

    /** The state effects of syncGameState. */
    method Sync(now: nat)
      modifies this
      ensures State() == Rules.Sync(old(State()), now)
    {
      CheckVictory();
      ghost var v := State();
      if progress.started && !progress.over && !clock.locked && clock.delayStart == 0 && !clock.hunterPending {
        var skip := false;
        if night.phase == Rules.GuardTurn {
          var alive := IsRoleAlive(Guard);
          skip := !alive;
        } else if night.phase == Rules.SeerTurn {
          var alive := IsRoleAlive(Seer);
          skip := !alive;
        } else if night.phase == Rules.WitchTurn {
          var alive := IsRoleAlive(Witch);
          skip := !alive;
        }
        assert skip <==> Rules.SkipDue(v);
        if skip {
          clock := clock.(delayStart := now, locked := true);
        }
      }
    }

    /** Sets the phase, restarts the phase clock and locks input until the phase's cue is over. */
    method EnterPhase(p: Rules.Phase, now: nat)
      modifies this
      ensures State() == Rules.EnterPhase(old(State()), p, now)
    {
      night := night.(phase := p);
      clock := clock.(phaseStart := now, locked := true);
    }

    /** `playerRoleMap[id]`: reads the role, inserting the empty role for an unknown device. */
    method RoleAt(id: Id) returns (role: Role)
      modifies this
      ensures role == Rules.RoleOf(old(table.roles), id)
      ensures State() == old(State()).(table := old(table).(roles := Rules.Touch(old(table.roles), {id})))
    {
      if id !in table.roles {
        table := table.(roles := table.roles[id := Blank]);
      }
      assert table.roles == Rules.Touch(old(table.roles), {id});
      role := table.roles[id];
    }

    /** Nightfall: clears the night's data and calls the guard, or the wolves when no guard is alive. */
    method NextNight(now: nat)
      modifies this
      ensures State() == Rules.NextNight(old(State()), now)
    {
      night := night.(wolfTarget := "", poisonTarget := "");
      powers := powers.(guarded := "");
      table := table.(lastNightDead := []);
      var guardAlive := IsRoleAlive(Guard);
      night := night.(round := night.round + 1);
      EnterPhase(if guardAlive then Rules.GuardTurn else Rules.WolfTurn, now);
    }

    // ------------------------------------------------------------ setupRoles

    /** The seat loop of setupRoles over the keys `order`: dealt devices are numbered 1, 2, ... */
    method SeatNumbers(order: seq<Id>) returns (numbered: map<Id, nat>)
      requires forall j :: 0 <= j < |order| ==> order[j] in table.roles
      ensures numbered == Rules.SeatsAlong(table.roles, order, table.seats)
    {
      var roles := table.roles;
      ghost var seated := Rules.SeatedTest(roles);
      numbered := table.seats;
      var next := 1;
      var i := 0;
      while i < |order|
        invariant 0 <= i <= |order|
        invariant next == 1 + Count(order[..i], seated)
        invariant numbered == Rules.SeatsAlong(roles, order[..i], table.seats)
      {
        var k := order[i];
        Rules.AlongStep(roles, [], table.seats, order, i);
        if roles[k] != Spectator {
          numbered := numbered[k := next];
          next := next + 1;
        }
        i := i + 1;
      }
      assert order[..i] == order;
    }

    /** The deal loop of setupRoles over the keys `order`: each dealt device takes the next pool entry; the last idiot dealt is remembered. */
    method DealRoles(order: seq<Id>, pool: seq<Role>) returns (dealt: map<Id, Role>, idiot: Id)
      requires forall j :: 0 <= j < |order| ==> order[j] in table.roles
      requires Count(order, Rules.SeatedTest(table.roles)) <= |pool|
      ensures dealt == Rules.DealAlong(table.roles, pool, order)
      ensures idiot == Rules.IdiotAlong(table.roles, pool, order)
    {
      var roles := table.roles;
      ghost var seated := Rules.SeatedTest(roles);
      dealt, idiot := roles, "";
      var next := 0;
      var i := 0;
      while i < |order|
        invariant 0 <= i <= |order|
        invariant next == Count(order[..i], seated)
        invariant dealt == Rules.DealAlong(roles, pool, order[..i])
        invariant idiot == Rules.IdiotAlong(roles, pool, order[..i])
      {
        var k := order[i];
        Rules.AlongStep(roles, pool, map[], order, i);
        if roles[k] != Spectator {
          dealt := dealt[k := pool[next]];
          if pool[next] == Idiot {
            idiot := k;
          }
          next := next + 1;
        }
        i := i + 1;
      }
      assert order[..i] == order;
    }

    /** The role pool of setupRoles for the current table size, shuffled in place with the given draws. */
    method ShuffledDeck(draws: seq<nat>) returns (deck: seq<Role>)
      requires |draws| >= |BuildPool(progress.targetCount)| && IsDraws(draws)
      ensures deck == Rules.ShuffledPool(progress.targetCount, draws)
    {
      var pool := MakePool(progress.targetCount);
      var cards := new Role[|pool|](i requires 0 <= i < |pool| => pool[i]);
      assert cards[..] == pool;
      Shuffle(cards, draws);
      deck := cards[..];
    }

    /** Seats, the shuffled pool and the deal of setupRoles, computed from the current table. */
    method Deal(draws: seq<nat>) returns (numbered: map<Id, nat>, dealt: map<Id, Role>, idiot: Id)
      requires Rules.Fits(State(), draws)
      ensures numbered == table.seats + Rules.SeatMap(table.roles)
      ensures dealt == Rules.Dealt(table.roles, Rules.ShuffledPool(progress.targetCount, draws))
      ensures idiot == Rules.LastHolder(KeyOrder(table.roles.Keys), dealt, Idiot)
    {
      var order := SortKeys(table.roles.Keys);
      assert forall j :: 0 <= j < |order| ==> order[j] in table.roles;
      numbered := SeatNumbers(order);
      Rules.SeatsAlongIsSeatMap(table.roles, order, table.seats);
      var deck := ShuffledDeck(draws);
      Rules.SeatedCount(table.roles, order);
      dealt, idiot := DealRoles(order, deck);
      Rules.DealAlongIsDealt(table.roles, deck, order);
    }

    /** setupRoles: seats, the role pool, the shuffle and the deal. */
    method SetupRoles(draws: seq<nat>)
      requires Rules.Fits(State(), draws)
      modifies this
      ensures State() == Rules.SetupRoles(old(State()), draws)
    {
      powers := powers.(idiotId := "", idiotRevealed := false, hunterCanShoot := true);
      var numbered, dealt, idiot := Deal(draws);
      table := table.(seats := numbered, roles := dealt);
      powers := powers.(idiotId := idiot);
    }

    // ------------------------------------------------------------- resetGame

    /** The demotion loop of resetGame. */
    method Demoted(order: seq<Id>) returns (demoted: map<Id, Role>)
      requires forall k :: k in table.roles <==> k in order
      ensures demoted == Rules.Demote(table.roles)
    {
      var roles := table.roles;
      demoted := roles;
      var i := 0;
      while i < |order|
        invariant 0 <= i <= |order|
        invariant demoted == Rules.DemoteAlong(roles, order[..i])
      {
        var k := order[i];
        assert order[..i + 1][..i] == order[..i];
        assert k in demoted;
        if demoted[k] != Spectator {
          demoted := demoted[k := Joined];
        }
        i := i + 1;
      }
      assert order[..i] == order;
      Rules.DemoteAlongIsDemote(roles, order);
    }

    /** resetGame: a pending hunter shot is left pending. */
    method ResetGame()
      modifies this
      ensures State() == Rules.ResetAsWritten(old(State()))
    {
      var order := SortKeys(table.roles.Keys);
      assert forall k :: k in table.roles <==> k in order;
      var demoted := Demoted(order);
      progress := progress.(started := false, over := false, countingDown := false,
                            adminApproved := false, winner := Rules.NoWinner, confirmPressed := false);
      night := night.(phase := Rules.Idle, round := 1, wolfTarget := "", poisonTarget := "",
                      hasHeal := true, hasPoison := true);
      table := table.(dead := [], lastNightDead := [], votes := {}, roles := demoted);
      powers := powers.(lastGuarded := "", guarded := "", hunterCanShoot := true, idiotRevealed := false);
      clock := clock.(locked := false, seerPending := false);
    }

    // ------------------------------------------------------- action handlers

    /** `connect`. */
    method Connect(dev: Id, now: nat)
      modifies this
      ensures State() == Rules.OnConnect(old(State()), dev, now)
    {
      if dev !in table.roles {
        table := table.(roles := table.roles[dev := if progress.started then Spectator else Joined]);
        progress := progress.(currentCount := progress.currentCount + 1);
      }
      Sync(now);
    }

    /** `restart`. */
    method Restart(dev: Id, draws: seq<nat>, now: nat)
      requires Rules.RestartFits(State(), dev, draws)
      modifies this
      ensures State() == Rules.OnRestart(old(State()), dev, draws, now)
    {
      if progress.adminApproved {
        table := table.(votes := table.votes + {dev});
        if |table.votes| >= progress.targetCount {
          ResetGame();
          Rules.DemoteKeepsSeated(old(table.roles));
          SetupRoles(draws);
          progress := progress.(countingDown := true, countdownStart := now);
        }
      }
      Sync(now);
    }

    /** `guardProtect`. */
    method GuardProtect(target: Id, now: nat)
      modifies this
      ensures State() == Rules.OnGuardProtect(old(State()), target, now)
    {
      powers := powers.(guarded := target, lastGuarded := target);
      EnterPhase(Rules.WolfTurn, now);
      Sync(now);
    }

    /** `wolfKill`. */
    method WolfKill(target: Id, now: nat)
      modifies this
      ensures State() == Rules.OnWolfKill(old(State()), target, now)
    {
      night := night.(wolfTarget := target);
      EnterPhase(Rules.SeerTurn, now);
      Sync(now);
    }

    /** `seerCheck`: the answer sent back to the seer, or nothing when a check is already pending. */
    method SeerCheck(target: Id, now: nat) returns (answer: Rules.Option<Role>)
      modifies this
      ensures answer == Rules.SeerAnswer(old(State()), target)
      ensures State() == Rules.OnSeerCheck(old(State()), target, now)
    {
      if clock.seerPending {
        return Rules.None;
      }
      var role := RoleAt(target);
      answer := Rules.Some(role);
      clock := clock.(seerPending := true, seerDelayStart := now, locked := true);
      Sync(now);
    }

    /** The settling loop of the witch actions: record each death, and note a hunter with a bullet among them. */
    method Settle(deaths: seq<Id>) returns (dead: seq<Id>, roles: map<Id, Role>, hunterDied: bool)
      ensures dead == table.dead + deaths
      ensures roles == Rules.Touch(table.roles, set x | x in deaths)
      ensures hunterDied == (powers.hunterCanShoot && Rules.HunterAmong(table.roles, deaths))
    {
      dead, roles, hunterDied := table.dead, table.roles, false;
      ghost var seen: set<Id> := {};
      var i := 0;
      while i < |deaths|
        invariant 0 <= i <= |deaths|
        invariant dead == table.dead + deaths[..i]
        invariant forall x :: x in seen <==> x in deaths[..i]
        invariant roles == Rules.Touch(table.roles, seen)
        invariant hunterDied == (powers.hunterCanShoot && Rules.HunterAmong(table.roles, deaths[..i]))
      {
        var id := deaths[i];
        assert deaths[..i + 1] == deaths[..i] + [id];
        dead := dead + [id];
        var role := Rules.RoleOf(roles, id);
        Rules.TouchKeepsRoles(table.roles, seen, id);
        Rules.TouchStep(table.roles, seen, id);
        Rules.HunterAmongStep(table.roles, deaths, i);
        if id !in roles {
          roles := roles[id := Blank];
        }
        assert roles == Rules.Touch(Rules.Touch(table.roles, seen), {id});
        seen := seen + {id};
        if role == Hunter && powers.hunterCanShoot {
          hunterDied := true;
        }
        i := i + 1;
      }
      assert deaths[..i] == deaths;
      assert seen == set x | x in deaths;
    }

    /** The witch's own effect: the heal or the poison is spent; a poisoned hunter loses the shot. */
    method WitchUse(choice: Rules.WitchChoice)
      modifies this
      ensures State() == Rules.WitchUses(old(State()), choice)
    {
      match choice {
        case Heal =>
          night := night.(hasHeal := false);
        case Poison(x) =>
          night := night.(hasPoison := false, poisonTarget := x);
          var role := RoleAt(x);
          if role == Hunter {
            powers := powers.(hunterCanShoot := false);
          }
        case Pass =>
      }
    }

    /** The night's deaths once the witch has acted: the unprotected wolf target, then the poisoned device. */
    method NightDeathList(healed: bool) returns (deaths: seq<Id>)
      ensures deaths == NightDeaths(healed, night.wolfTarget, powers.guarded, night.poisonTarget)
    {
      deaths := [];
      if healed {
        if night.wolfTarget == powers.guarded {
          deaths := [night.wolfTarget];
        }
      } else if night.wolfTarget != "" && night.wolfTarget != powers.guarded {
        deaths := [night.wolfTarget];
      }
      if night.poisonTarget != "" {
        deaths := deaths + [night.poisonTarget];
      }
    }

    /** `witchHeal`, `witchPoison`, `witchSkip`. */
    method WitchActs(choice: Rules.WitchChoice, now: nat)
      modifies this
      ensures State() == Rules.OnWitch(old(State()), choice, now)
    {
      WitchUse(choice);
      var deaths := NightDeathList(choice.Heal?);
      table := table.(lastNightDead := deaths);
      var dead, roles, hunterDied := Settle(deaths);
      table := table.(dead := dead, roles := roles);
      if hunterDied {
        clock := clock.(hunterPending := true);
      } else {
        EnterPhase(Rules.Day, now);
      }
      Sync(now);
    }

    /** `champExile`. */
    method ChampExile(target: Id, now: nat)
      modifies this
      ensures State() == Rules.OnExile(old(State()), target, now)
    {
      var hunterExiled := false;
      if target != "" {
        if target == powers.idiotId && !powers.idiotRevealed {
          powers := powers.(idiotRevealed := true);
        } else {
          table := table.(dead := table.dead + [target]);
          var role := RoleAt(target);
          if role == Hunter && powers.hunterCanShoot {
            hunterExiled := true;
          }
        }
      }
      assert State() == Rules.Exiled(old(State()), target);
      if hunterExiled {
        clock := clock.(hunterPending := true);
      } else {
        NextNight(now);
      }
      Sync(now);
    }

    /** `hunterShoot`. */
    method HunterShoot(target: Id, now: nat)
      modifies this
      ensures State() == Rules.OnHunterShoot(old(State()), target, now)
    {
      if target != "" {
        table := table.(dead := table.dead + [target]);
      }
      powers := powers.(hunterCanShoot := false);
      if clock.hunterPending {
        clock := clock.(hunterPending := false);
        if night.phase == Rules.Day {
          NextNight(now);
        } else {
          EnterPhase(Rules.Day, now);
        }
      }
      Sync(now);
    }

    /** onWsEvent: dispatches one message; the seer's check is the one action with a reply. */
    method HandleEvent(dev: Id, a: Rules.Action, draws: seq<nat>, now: nat) returns (reply: Rules.Option<Role>)
      requires Rules.EventFits(State(), dev, a, draws)
      modifies this
      ensures reply == if a.SeerCheck? then Rules.SeerAnswer(old(State()), a.target) else Rules.None
      ensures State() == Rules.OnEvent(old(State()), dev, a, draws, now)
    {
      reply := Rules.None;
      match a {
        case Connect => Connect(dev, now);
        case Restart => Restart(dev, draws, now);
        case GuardProtect(x) => GuardProtect(x, now);
        case WolfKill(x) => WolfKill(x, now);
        case SeerCheck(x) => reply := SeerCheck(x, now);
        case WitchActs(c) => WitchActs(c, now);
        case ChampExile(x) => ChampExile(x, now);
        case HunterShoot(x) => HunterShoot(x, now);
        case Unknown =>
      }
    }

    // ------------------------------------------------------------------ loop

    /** The skip delay of a dead guard, seer or witch. */
    method SkipSection(now: nat)
      modifies this
      ensures State() == Rules.SkipSection(old(State()), now)
    {
      if clock.delayStart > 0 && Rules.Elapsed(now, clock.delayStart) >= 3000 {
        var current := night.phase;
        clock := clock.(delayStart := 0);
        var next := current;
        if current == Rules.GuardTurn {
          next := Rules.WolfTurn;
        } else if current == Rules.SeerTurn {
          next := Rules.WitchTurn;
        } else if current == Rules.WitchTurn {
          if night.wolfTarget != "" && night.wolfTarget != powers.guarded {
            table := table.(lastNightDead := table.lastNightDead + [night.wolfTarget],
                            dead := table.dead + [night.wolfTarget]);
          }
          next := Rules.Day;
        }
        EnterPhase(next, now);
        Sync(now);
      }
    }

    /** The end of the seer's turn. */
    method SeerSection(now: nat)
      modifies this
      ensures State() == Rules.SeerSection(old(State()), now)
    {
      if clock.seerPending && Rules.Elapsed(now, clock.seerDelayStart) >= 5500 {
        clock := clock.(seerPending := false);
        EnterPhase(Rules.WitchTurn, now);
        Sync(now);
      }
    }

    /** Unlocks the phase once its cue is over. */
    method UnlockSection(now: nat, cueIdle: bool)
      modifies this
      ensures State() == Rules.UnlockSection(old(State()), now, cueIdle)
    {
      if progress.started && !progress.over && clock.locked && !clock.seerPending
         && Rules.Elapsed(now, clock.phaseStart) >= 2000 && cueIdle {
        clock := clock.(locked := false);
        Sync(now);
      }
    }

    /** The lobby: table size, confirmation and the deal. */
    method LobbySection(now: nat, stick: Rules.Stick, button: bool, draws: seq<nat>)
      requires Rules.LobbyFits(State(), draws)
      modifies this
      ensures State() == Rules.LobbySection(old(State()), now, stick, button, draws)
    {
      if !progress.started && !progress.countingDown {
        if !progress.confirmPressed {
          if stick == Rules.Right && progress.targetCount < 15 {
            progress := progress.(targetCount := progress.targetCount + 1);
            Sync(now);
          } else if stick == Rules.Left && progress.targetCount > 6 {
            progress := progress.(targetCount := progress.targetCount - 1);
            Sync(now);
          }
          if button {
            progress := progress.(confirmPressed := true);
            Sync(now);
          }
        } else if progress.currentCount >= progress.targetCount {
          SetupRoles(draws);
          progress := progress.(countingDown := true, countdownStart := now);
          Sync(now);
        }
      }
    }

    /** The first night, once the countdown is over. */
    method CountdownSection(now: nat)
      modifies this
      ensures State() == Rules.CountdownSection(old(State()), now)
    {
      if progress.countingDown && Rules.Elapsed(now, progress.countdownStart) >= 4000 {
        progress := progress.(countingDown := false, started := true);
        var guardAlive := IsRoleAlive(Guard);
        EnterPhase(if guardAlive then Rules.GuardTurn else Rules.WolfTurn, now);
        Sync(now);
      }
    }

    /** The moderator's approval of a new game. */
    method ApproveSection(now: nat, button: bool)
      modifies this
      ensures State() == Rules.ApproveSection(old(State()), now, button)
    {
      if progress.over && !progress.adminApproved && button {
        progress := progress.(adminApproved := true);
        table := table.(votes := {});
        Sync(now);
      }
    }

    /** One pass of loop(). */
    method Tick(now: nat, input: Rules.Inputs, draws: seq<nat>)
      requires Rules.LobbyFits(State(), draws)
      modifies this
      ensures State() == Rules.Tick(old(State()), now, input, draws)
    {
      SkipSection(now);
      SeerSection(now);
      UnlockSection(now, input.cueIdle);
      Rules.EarlySectionsKeepLobby(old(State()), now, input.cueIdle);
      LobbySection(now, input.stick, input.button, draws);
      CountdownSection(now);
      ApproveSection(now, input.button);
    }

    // ------------------------------------------------------- per-device view

    /** The target list of syncGameState: every numbered device that is alive, with its seat. */
    method Targets() returns (targets: map<Id, nat>)
      ensures targets == Rules.LivingTargets(table.seats, table.dead)
    {
      var seats := table.seats;
      var rest := seats.Keys;
      targets := map[];
      while rest != {}
        invariant rest <= seats.Keys
        invariant targets == map k | k in seats && k !in rest && k !in table.dead :: seats[k]
        decreases |rest|
      {
        var k :| k in rest;
        var alive := IsAlive(k);
        if alive {
          targets := targets[k := seats[k]];
        }
        rest := rest - {k};
      }
    }

    /** The seconds shown during the start countdown: 3 minus the whole seconds elapsed, never below 0. */
    method Countdown(now: nat) returns (sec: int)
      ensures sec == Rules.CountdownSeconds(State(), now)
    {
      sec := 0;
      if progress.countingDown {
        var c := 3 - Rules.Elapsed(now, progress.countdownStart) / 1000;
        sec := if c > 0 then c else 0;
      }
    }

    /** The role-specific fields: the guard's last protected device, the witch's potions and the wolves' target. */
    method RoleNotes(role: Role) returns (guardNote: Rules.Option<Id>, witchNote: Rules.Option<Rules.WitchView>)
      ensures guardNote == Rules.GuardNote(State(), role) && witchNote == Rules.WitchNote(State(), role)
    {
      guardNote := Rules.None;
      if night.phase == Rules.GuardTurn && role == Guard {
        guardNote := Rules.Some(powers.lastGuarded);
      }
      witchNote := Rules.None;
      if night.phase == Rules.WitchTurn && role == Witch {
        var t := night.wolfTarget;
        var seat := if t != "" then DeathNote.SeatOf(table.seats, t) else 0;
        witchNote := Rules.Some(Rules.WitchView(night.hasHeal, night.hasPoison, seat, t));
      }
    }

    /** The message syncGameState sends to device `dev`. */
    method Message(dev: Id, now: nat) returns (v: Rules.PlayerView)
      ensures v == Rules.View(State(), dev, now)
    {
      var targets := Targets();
      var note: Rules.Option<string> := Rules.None;
      if night.phase == Rules.Day {
        var text := DeathNote.BuildReport(table.lastNightDead, table.seats);
        note := Rules.Some(text);
      }
      var role := Rules.RoleOf(table.roles, dev);
      var alive := IsAlive(dev);
      var countdown := Countdown(now);
      var voted := if progress.over && progress.adminApproved then table.votes else {};
      var guardNote, witchNote := RoleNotes(role);
      v := Rules.PlayerView(role, DeathNote.SeatOf(table.seats, dev), !alive, night.phase.Code(),
                            progress.over, progress.winner, progress.adminApproved, targets,
                            clock.locked || clock.hunterPending, clock.hunterPending, countdown,
                            progress.countingDown, dev == powers.idiotId && powers.idiotRevealed,
                            !progress.started && progress.confirmPressed && !progress.countingDown,
                            progress.currentCount, progress.targetCount, voted,
                            role == Hunter && !alive && powers.hunterCanShoot, note, guardNote, witchNote);
    }
  }
}
