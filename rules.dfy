/**
 The rules of the Werewolf controller (src/main.cpp) as functions on a
 snapshot of its global state.

 `GameState` holds every global variable that the rules read or write,
 grouped as the source declares them: the per-device tables, the progress
 of the session, the night, the special roles' powers, and the phase clock.
 Each action handler of onWsEvent and each timed section of loop() is a
 function from the state before to the state after; the `Game` class
 (module Werewolf) performs the same steps in place and is proved to agree
 with these functions. Every handler ends, as in the source, by calling
 syncGameState, whose effects on the state are `Sync`: the victory check
 and the arming of the skip delay for a dead guard, seer or witch.

 Time is the millisecond clock reading `now`, passed in. Phases keep the
 source's numbering through `Phase.Code`.
 */
module Rules {
  import opened StringOrder
  import opened RolePool
  import opened NightRules
  import DeathNote

  datatype Option<T> = None | Some(value: T)

  /** The night phase counter `nightPhase`. */
  datatype Phase = Idle | GuardTurn | WolfTurn | SeerTurn | WitchTurn | Day
  {
    function Code(): int
    {
      match this
      case Idle => -1
      case GuardTurn => 4
      case WolfTurn => 0
      case SeerTurn => 1
      case WitchTurn => 2
      case Day => 3
    }
  }

  datatype Winner = NoWinner | Humans | Wolves

  /** The moderator joystick, read once per loop pass: pushed right (> 3600), left (< 400) or neither. */
  datatype Stick = Centered | Right | Left

  /** What one pass of loop() reads from the hardware. */
  datatype Inputs = Inputs(cueIdle: bool, stick: Stick, button: bool)

  /** The witch's three actions. */
  datatype WitchChoice = Heal | Poison(target: Id) | Pass

  /** A participant action, as named in the `action` field of a message. */
  datatype Action =
    | Connect
    | Restart
    | GuardProtect(target: Id)
    | WolfKill(target: Id)
    | SeerCheck(target: Id)
    | WitchActs(choice: WitchChoice)
    | ChampExile(target: Id)
    | HunterShoot(target: Id)
    | Unknown

  /** The per-device tables. */
  datatype Table = Table(
    roles: map<Id, Role>,      // playerRoleMap
    seats: map<Id, nat>,       // playerIndexMap
    dead: seq<Id>,             // deadPlayers
    lastNightDead: seq<Id>,    // lastNightDeadPlayers
    votes: set<Id>)            // restartVotes

  /** Table size, lobby and outcome. */
  datatype Progress = Progress(
    targetCount: int,          // targetPlayerCount
    currentCount: int,         // currentPlayerCount
    started: bool,             // gameStarted
    countingDown: bool,        // isStartingCountdown
    countdownStart: nat,       // countdownStartTime
    confirmPressed: bool,
    over: bool,                // gameOver
    adminApproved: bool,       // adminApprovedReset
    winner: Winner)

  /** The night in progress and the witch's potions. */
  datatype Night = Night(
    phase: Phase,              // nightPhase
    round: int,                // roundCount
    wolfTarget: Id,            // wolfTargetId
    poisonTarget: Id,          // witchPoisonId
    hasHeal: bool,             // witchHasHeal
    hasPoison: bool)           // witchHasPoison

  /** The guard's, hunter's and idiot's state. */
  datatype Powers = Powers(
    lastGuarded: Id,           // lastGuardedId
    guarded: Id,               // currentGuardedId
    hunterCanShoot: bool,
    idiotRevealed: bool,
    idiotId: Id)

  /** Phase timing, input lock and the pending interrupts. */
  datatype Clock = Clock(
    phaseStart: nat,           // phaseStartTime
    locked: bool,              // isPhaseLocked
    seerDelayStart: nat,       // seerCheckDelayStart
    seerPending: bool,         // isSeerCheckPending
    hunterPending: bool,       // hunterActionPending
    delayStart: nat)           // phaseDelayStartTime (0 = no skip delay armed)

  datatype GameState = GameState(table: Table, progress: Progress, night: Night, powers: Powers, clock: Clock)

  /** The globals' initial values. */
  function Initial(): GameState
  {
    GameState(Table(map[], map[], [], [], {}),
              Progress(7, 0, false, false, 0, false, false, false, NoWinner),
              Night(Idle, 1, "", "", true, true),
              Powers("", "", true, false, ""),
              Clock(0, false, 0, false, false, 0))
  }

  /** Invariants every reachable state keeps: the table size in 6..15, rounds from 1, a pending seer check
      holds the lock, and a game is over exactly when it has a winner. */
  ghost predicate Inv(s: GameState)
  {
    && 6 <= s.progress.targetCount <= 15 && s.night.round >= 1 && (s.clock.seerPending ==> s.clock.locked)
    && (s.progress.over <==> s.progress.winner != NoWinner)
  }

  /** Milliseconds since `start`; a reading earlier than `start` counts as none. */
  function Elapsed(now: nat, start: nat): nat
  {
    if now >= start then now - start else 0
  }

  /** The step every phase change takes: set the phase, restart the phase clock, lock input until the cue. */
  function EnterPhase(s: GameState, p: Phase, now: nat): GameState
  {
    s.(night := s.night.(phase := p), clock := s.clock.(phaseStart := now, locked := true))
  }

  // ---------------------------------------------------------------- lookups

  /** `playerRoleMap[id]`: an unknown device reads as the empty role. */
  function RoleOf(roles: map<Id, Role>, id: Id): Role
  {
    if id in roles then roles[id] else Blank
  }

  /** The side effect of `playerRoleMap[id]` for each `id` in `ids`: unknown ids are inserted with the empty role. */
  function Touch(roles: map<Id, Role>, ids: set<Id>): (r: map<Id, Role>)
    ensures r.Keys == roles.Keys + ids
    ensures forall k :: k in roles ==> r[k] == roles[k]
    ensures forall k :: k in ids && k !in roles ==> r[k] == Blank
  {
    map k | k in roles.Keys + ids :: RoleOf(roles, k)
  }

  /** Inserting one more unknown id is inserting the larger set. */
  lemma TouchStep(roles: map<Id, Role>, ids: set<Id>, x: Id)
    ensures Touch(Touch(roles, ids), {x}) == Touch(roles, ids + {x})
  {
  }

  /** Insertion never changes what a lookup reads. */
  lemma TouchKeepsRoles(roles: map<Id, Role>, ids: set<Id>, x: Id)
    ensures RoleOf(Touch(roles, ids), x) == RoleOf(roles, x)
  {
  }

  ghost predicate HeldByLiving(roles: map<Id, Role>, dead: seq<Id>, r: Role)
  {
    exists k :: k in roles && roles[k] == r && k !in dead
  }

  /** `isRoleAlive`: some living device holds role `r`. */
  ghost predicate RoleAlive(s: GameState, r: Role)
  {
    HeldByLiving(s.table.roles, s.table.dead, r)
  }

  ghost function LivingWolves(s: GameState): set<Id>
  {
    set k | k in s.table.roles && k !in s.table.dead && s.table.roles[k] == Wolf
  }

  /** Roles counted on the humans' side by checkVictory: everything but wolves, "Joined" and spectators. */
  predicate CountsAsHuman(r: Role)
  {
    r != Wolf && r != Joined && r != Spectator
  }

  ghost function LivingHumans(s: GameState): set<Id>
  {
    set k | k in s.table.roles && k !in s.table.dead && CountsAsHuman(s.table.roles[k])
  }

  /** The tests of checkVictory's counting loop, one key at a time. */
  function LivingWolf(roles: map<Id, Role>, dead: seq<Id>): Id -> bool
  {
    k => k in roles && k !in dead && roles[k] == Wolf
  }

  function LivingHuman(roles: map<Id, Role>, dead: seq<Id>): Id -> bool
  {
    k => k in roles && k !in dead && CountsAsHuman(roles[k])
  }

  /** Counting along the key order finds exactly the living wolves and the living humans. */
  lemma LivingCounts(s: GameState, order: seq<Id>)
    requires IsKeyOrder(order, s.table.roles.Keys)
    ensures Count(order, LivingWolf(s.table.roles, s.table.dead)) == |LivingWolves(s)|
    ensures Count(order, LivingHuman(s.table.roles, s.table.dead)) == |LivingHumans(s)|
  {
    AscendingIsDistinct(order);
    CountIsCardinality(order, LivingWolf(s.table.roles, s.table.dead));
    CountIsCardinality(order, LivingHuman(s.table.roles, s.table.dead));
    assert Matching(order, LivingWolf(s.table.roles, s.table.dead)) == LivingWolves(s);
    assert Matching(order, LivingHuman(s.table.roles, s.table.dead)) == LivingHumans(s);
  }

  // --------------------------------------------------------- syncGameState

  /** The side that has won, given the living wolves and the living humans. */
  function Verdict(wolves: nat, humans: nat): Winner
  {
    if wolves == 0 then Humans else if wolves >= humans then Wolves else NoWinner
  }

  /** checkVictory: only a running game that is not yet over can end. */
  ghost function Judge(s: GameState): GameState
  {
    if !s.progress.started || s.progress.countingDown || s.progress.over then s
    else
      var w := Verdict(|LivingWolves(s)|, |LivingHumans(s)|);
      if w == NoWinner then s else s.(progress := s.progress.(over := true, winner := w))
  }

  /** The current night phase belongs to a guard, seer or witch who is no longer alive. */
  ghost predicate SkipDue(s: GameState)
  {
    (s.night.phase == GuardTurn && !RoleAlive(s, Guard))
    || (s.night.phase == SeerTurn && !RoleAlive(s, Seer))
    || (s.night.phase == WitchTurn && !RoleAlive(s, Witch))
  }

  ghost predicate ArmsSkip(s: GameState)
  {
    s.progress.started && !s.progress.over && !s.clock.locked && s.clock.delayStart == 0
    && !s.clock.hunterPending && SkipDue(s)
  }

  /** The state effects of syncGameState: the victory check, then arming the skip delay. */
  ghost function Sync(s: GameState, now: nat): GameState
  {
    var v := Judge(s);
    if ArmsSkip(v) then v.(clock := v.clock.(delayStart := now, locked := true)) else v
  }

  // ------------------------------------------------------------ setupRoles

  predicate IsSeated(roles: map<Id, Role>, k: Id)
  {
    k in roles && roles[k] != Spectator
  }

  /** The test of the seat and deal loops, as a predicate value. */
  function SeatedTest(roles: map<Id, Role>): Id -> bool
  {
    k => k in roles && roles[k] != Spectator
  }

  /** The devices that are dealt a role: every registered device that is not a spectator. */
  ghost function SeatedKeys(roles: map<Id, Role>): set<Id>
  {
    set k | k in roles && roles[k] != Spectator
  }

  lemma SubsetCardinality<T>(a: set<T>, b: set<T>)
    requires a <= b
    ensures |a| <= |b|
  {
    assert b == a + (b - a);
  }

  /** The seat of a dealt device: one more than the number of dealt devices before it in key order. */
  ghost function Rank(roles: map<Id, Role>, k: Id): (r: nat)
    requires IsSeated(roles, k)
    ensures 1 <= r <= |SeatedKeys(roles)|
  {
    var below := Below(roles.Keys, SeatedTest(roles), k);
    var others := SeatedKeys(roles) - {k};
    LtIrreflexive(k);
    assert below <= others;
    assert SeatedKeys(roles) == others + {k};
    SubsetCardinality(below, others);
    1 + |below|
  }

  /** The role a device holds after dealing from `pool`: the pool entry at its seat; spectators keep theirs. */
  ghost function DealtRole(roles: map<Id, Role>, pool: seq<Role>, k: Id): Role
    requires k in roles && |SeatedKeys(roles)| <= |pool|
  {
    if roles[k] != Spectator then pool[Rank(roles, k) - 1] else roles[k]
  }

  ghost function Dealt(roles: map<Id, Role>, pool: seq<Role>): (r: map<Id, Role>)
    requires |SeatedKeys(roles)| <= |pool|
    ensures r.Keys == roles.Keys
  {
    map k | k in roles :: DealtRole(roles, pool, k)
  }

  /** The seats of the dealt devices among `keys`. */
  ghost function SeatsAmong(roles: map<Id, Role>, keys: set<Id>): map<Id, nat>
  {
    map k | k in keys && IsSeated(roles, k) :: Rank(roles, k)
  }

  ghost function SeatMap(roles: map<Id, Role>): map<Id, nat>
  {
    SeatsAmong(roles, roles.Keys)
  }

  /** Numbering one more key extends the seat map by that key's seat, if it is dealt one. */
  lemma SeatsStep(roles: map<Id, Role>, keys: set<Id>, k: Id)
    ensures SeatsAmong(roles, keys + {k})
            == if IsSeated(roles, k) then SeatsAmong(roles, keys)[k := Rank(roles, k)] else SeatsAmong(roles, keys)
  {
  }

  /** The seat loop of setupRoles run over the keys `order`: each dealt key takes the next number, from 1. */
  function SeatsAlong(roles: map<Id, Role>, order: seq<Id>, seats: map<Id, nat>): map<Id, nat>
    decreases |order|
  {
    if order == [] then seats
    else
      var prefix := order[..|order| - 1];
      var k := order[|order| - 1];
      var m := SeatsAlong(roles, prefix, seats);
      if IsSeated(roles, k) then m[k := 1 + Count(prefix, SeatedTest(roles))] else m
  }

  lemma UpdateUnion<K, V>(a: map<K, V>, b: map<K, V>, k: K, v: V)
    ensures (a + b)[k := v] == a + b[k := v]
  {
  }

  /** One step of the seat loop: numbering `k` with its rank extends the seat map by `k`. */
  lemma SeatsAlongStep(roles: map<Id, Role>, prefix: seq<Id>, k: Id, seats: map<Id, nat>, done: set<Id>)
    requires SeatsAlong(roles, prefix, seats) == seats + SeatsAmong(roles, done)
    requires IsSeated(roles, k) ==> Rank(roles, k) == 1 + Count(prefix, SeatedTest(roles))
    ensures SeatsAlong(roles, prefix + [k], seats) == seats + SeatsAmong(roles, done + {k})
  {
    var m := SeatsAlong(roles, prefix, seats);
    assert (prefix + [k])[..|prefix|] == prefix;
    assert SeatsAlong(roles, prefix + [k], seats)
           == if IsSeated(roles, k) then m[k := 1 + Count(prefix, SeatedTest(roles))] else m;
    SeatsStep(roles, done, k);
    if IsSeated(roles, k) {
      UpdateUnion(seats, SeatsAmong(roles, done), k, Rank(roles, k));
    }
  }

  lemma {:induction false} SeatsAlongPrefix(roles: map<Id, Role>, order: seq<Id>, seats: map<Id, nat>, n: nat)
    requires IsKeyOrder(order, roles.Keys) && n <= |order|
    ensures SeatsAlong(roles, order[..n], seats) == seats + SeatsAmong(roles, set x | x in order[..n])
  {
    if n == 0 {
      assert (set x | x in order[..0]) == {};
    } else {
      SeatsAlongPrefix(roles, order, seats, n - 1);
      var prefix := order[..n - 1];
      var k := order[n - 1];
      assert order[..n] == prefix + [k];
      assert (set x | x in order[..n]) == (set x | x in prefix) + {k};
      if IsSeated(roles, k) {
        RankIsPosition(order, roles.Keys, n - 1, SeatedTest(roles));
      }
      SeatsAlongStep(roles, prefix, k, seats, set x | x in prefix);
    }
  }

  /** Numbering the dealt keys in key order gives every dealt device its rank as its seat. */
  lemma SeatsAlongIsSeatMap(roles: map<Id, Role>, order: seq<Id>, seats: map<Id, nat>)
    requires IsKeyOrder(order, roles.Keys)
    ensures SeatsAlong(roles, order, seats) == seats + SeatMap(roles)
  {
    SeatsAlongPrefix(roles, order, seats, |order|);
    assert order[..|order|] == order;
    assert (set x | x in order) == roles.Keys;
  }

  /** The deal loop of setupRoles run over the keys `order`: each dealt key takes the next pool entry. */
  function DealAlong(roles: map<Id, Role>, pool: seq<Role>, order: seq<Id>): map<Id, Role>
    decreases |order|
  {
    if order == [] then roles
    else
      var prefix := order[..|order| - 1];
      var k := order[|order| - 1];
      var m := DealAlong(roles, pool, prefix);
      var n := Count(prefix, SeatedTest(roles));
      if IsSeated(roles, k) && n < |pool| then m[k := pool[n]] else m
  }

  /** The idiot remembered by the deal loop run over `order`: the last key dealt the idiot's card. */
  function IdiotAlong(roles: map<Id, Role>, pool: seq<Role>, order: seq<Id>): Id
    decreases |order|
  {
    if order == [] then ""
    else
      var prefix := order[..|order| - 1];
      var k := order[|order| - 1];
      var n := Count(prefix, SeatedTest(roles));
      if IsSeated(roles, k) && n < |pool| && pool[n] == Idiot then k else IdiotAlong(roles, pool, prefix)
  }

  /** One more key dealt: the keys seen so far hold their dealt roles, the others keep theirs. */
  lemma DealAlongStep(roles: map<Id, Role>, pool: seq<Role>, prefix: seq<Id>, k: Id)
    requires |SeatedKeys(roles)| <= |pool| && k in roles
    requires DealAlong(roles, pool, prefix).Keys == roles.Keys
    requires forall x :: x in roles ==>
               DealAlong(roles, pool, prefix)[x] == if x in prefix then DealtRole(roles, pool, x) else roles[x]
    requires IsSeated(roles, k) ==> Rank(roles, k) == 1 + Count(prefix, SeatedTest(roles))
    ensures DealAlong(roles, pool, prefix + [k]).Keys == roles.Keys
    ensures forall x :: x in roles ==>
              DealAlong(roles, pool, prefix + [k])[x] == if x in prefix + [k] then DealtRole(roles, pool, x) else roles[x]
  {
    assert (prefix + [k])[..|prefix|] == prefix;
    assert forall x :: x in prefix + [k] <==> x in prefix || x == k;
  }

  lemma {:induction false} DealAlongPrefix(roles: map<Id, Role>, pool: seq<Role>, order: seq<Id>, n: nat)
    requires IsKeyOrder(order, roles.Keys) && |SeatedKeys(roles)| <= |pool| && n <= |order|
    ensures DealAlong(roles, pool, order[..n]).Keys == roles.Keys
    ensures forall x :: x in roles ==>
              DealAlong(roles, pool, order[..n])[x] == if x in order[..n] then DealtRole(roles, pool, x) else roles[x]
  {
    if n > 0 {
      DealAlongPrefix(roles, pool, order, n - 1);
      var k := order[n - 1];
      assert order[..n] == order[..n - 1] + [k];
      if IsSeated(roles, k) {
        RankIsPosition(order, roles.Keys, n - 1, SeatedTest(roles));
      }
      DealAlongStep(roles, pool, order[..n - 1], k);
    }
  }

  /** One more key dealt: the idiot found so far is the last holder of the idiot's card among the keys seen. */
  lemma IdiotAlongStep(roles: map<Id, Role>, pool: seq<Role>, prefix: seq<Id>, k: Id)
    requires |SeatedKeys(roles)| <= |pool| && k in roles
    requires IdiotAlong(roles, pool, prefix) == LastHolder(prefix, Dealt(roles, pool), Idiot)
    requires IsSeated(roles, k) ==> Rank(roles, k) == 1 + Count(prefix, SeatedTest(roles))
    ensures IdiotAlong(roles, pool, prefix + [k]) == LastHolder(prefix + [k], Dealt(roles, pool), Idiot)
  {
    assert (prefix + [k])[..|prefix|] == prefix;
  }

  lemma {:induction false} IdiotAlongPrefix(roles: map<Id, Role>, pool: seq<Role>, order: seq<Id>, n: nat)
    requires IsKeyOrder(order, roles.Keys) && |SeatedKeys(roles)| <= |pool| && n <= |order|
    ensures IdiotAlong(roles, pool, order[..n]) == LastHolder(order[..n], Dealt(roles, pool), Idiot)
  {
    if n > 0 {
      IdiotAlongPrefix(roles, pool, order, n - 1);
      var k := order[n - 1];
      assert order[..n] == order[..n - 1] + [k];
      if IsSeated(roles, k) {
        RankIsPosition(order, roles.Keys, n - 1, SeatedTest(roles));
      }
      IdiotAlongStep(roles, pool, order[..n - 1], k);
    }
  }

  /** In key order, the dealt devices are counted exactly once each. */
  lemma SeatedCount(roles: map<Id, Role>, order: seq<Id>)
    requires IsKeyOrder(order, roles.Keys)
    ensures Count(order, SeatedTest(roles)) == |SeatedKeys(roles)|
  {
    AscendingIsDistinct(order);
    CountIsCardinality(order, SeatedTest(roles));
    assert Matching(order, SeatedTest(roles)) == SeatedKeys(roles);
  }

  /** One turn of the seat and deal loops over `order`: the key `order[i]` is numbered and dealt the next entry. */
  lemma AlongStep(roles: map<Id, Role>, pool: seq<Role>, seats: map<Id, nat>, order: seq<Id>, i: nat)
    requires i < |order|
    ensures var c := Count(order[..i], SeatedTest(roles));
            && Count(order[..i + 1], SeatedTest(roles)) == c + (if IsSeated(roles, order[i]) then 1 else 0)
            && Count(order[..i + 1], SeatedTest(roles)) <= Count(order, SeatedTest(roles))
            && SeatsAlong(roles, order[..i + 1], seats)
               == (if IsSeated(roles, order[i]) then SeatsAlong(roles, order[..i], seats)[order[i] := 1 + c]
                   else SeatsAlong(roles, order[..i], seats))
            && DealAlong(roles, pool, order[..i + 1])
               == (if IsSeated(roles, order[i]) && c < |pool| then DealAlong(roles, pool, order[..i])[order[i] := pool[c]]
                   else DealAlong(roles, pool, order[..i]))
            && IdiotAlong(roles, pool, order[..i + 1])
               == (if IsSeated(roles, order[i]) && c < |pool| && pool[c] == Idiot then order[i]
                   else IdiotAlong(roles, pool, order[..i]))
  {
    assert order[..i + 1][..i] == order[..i];
    CountPrefix(order, i + 1, SeatedTest(roles));
  }

  /** Dealing the pool in key order gives each dealt device the pool entry at its seat, and finds the idiot. */
  lemma DealAlongIsDealt(roles: map<Id, Role>, pool: seq<Role>, order: seq<Id>)
    requires IsKeyOrder(order, roles.Keys) && |SeatedKeys(roles)| <= |pool|
    ensures DealAlong(roles, pool, order) == Dealt(roles, pool)
    ensures IdiotAlong(roles, pool, order) == LastHolder(order, Dealt(roles, pool), Idiot)
  {
    DealAlongPrefix(roles, pool, order, |order|);
    IdiotAlongPrefix(roles, pool, order, |order|);
    assert order[..|order|] == order;
  }

  /** The last key in `order` that holds role `r` in `m`, or "" when none does. */
  function LastHolder(order: seq<Id>, m: map<Id, Role>, r: Role): Id
  {
    if order == [] then ""
    else if RoleOf(m, order[|order| - 1]) == r then order[|order| - 1]
    else LastHolder(order[..|order| - 1], m, r)
  }

  /** Enough pool entries for every dealt device, and a draw for every shuffle step. */
  ghost predicate Fits(s: GameState, draws: seq<nat>)
  {
    |SeatedKeys(s.table.roles)| <= |BuildPool(s.progress.targetCount)|
    && |draws| >= |BuildPool(s.progress.targetCount)| && IsDraws(draws)
  }

  ghost function ShuffledPool(t: int, draws: seq<nat>): (pool: seq<Role>)
    requires |draws| >= |BuildPool(t)| && IsDraws(draws)
    ensures |pool| == |BuildPool(t)|
  {
    ShufflePermutes(BuildPool(t), draws);
    Shuffled(BuildPool(t), draws)
  }

  /** setupRoles: number the seats, deal the shuffled pool in key order, and remember the idiot. */
  ghost function SetupRoles(s: GameState, draws: seq<nat>): GameState
    requires Fits(s, draws)
  {
    var roles := s.table.roles;
    var dealt := Dealt(roles, ShuffledPool(s.progress.targetCount, draws));
    s.(table := s.table.(seats := s.table.seats + SeatMap(roles), roles := dealt),
       powers := s.powers.(idiotId := LastHolder(KeyOrder(roles.Keys), dealt, Idiot),
                           idiotRevealed := false, hunterCanShoot := true))
  }

  // ------------------------------------------------------------- resetGame

  /** Every dealt role goes back to "Joined"; spectators stay spectators. */
  function Demote(roles: map<Id, Role>): (r: map<Id, Role>)
    ensures r.Keys == roles.Keys
  {
    map k | k in roles :: if roles[k] != Spectator then Joined else Spectator
  }

  /** The demotion loop of resetGame run over the keys `order`. */
  function DemoteAlong(roles: map<Id, Role>, order: seq<Id>): (r: map<Id, Role>)
    ensures r.Keys == roles.Keys
    decreases |order|
  {
    if order == [] then roles
    else
      var k := order[|order| - 1];
      var m := DemoteAlong(roles, order[..|order| - 1]);
      if k in m && m[k] != Spectator then m[k := Joined] else m
  }

  lemma {:induction false} DemoteAlongPrefix(roles: map<Id, Role>, order: seq<Id>, n: nat)
    requires n <= |order|
    ensures DemoteAlong(roles, order[..n]) == map k | k in roles :: if k in order[..n] then Demote(roles)[k] else roles[k]
  {
    if n > 0 {
      DemoteAlongPrefix(roles, order, n - 1);
      assert order[..n][..n - 1] == order[..n - 1];
      assert forall x :: x in order[..n] <==> x in order[..n - 1] || x == order[n - 1];
    }
  }

  /** Demoting every key, one at a time in any order covering the keys, is `Demote`. */
  lemma DemoteAlongIsDemote(roles: map<Id, Role>, order: seq<Id>)
    requires forall k :: k in roles <==> k in order
    ensures DemoteAlong(roles, order) == Demote(roles)
  {
    DemoteAlongPrefix(roles, order, |order|);
    assert order[..|order|] == order;
  }

  /** resetGame as written: hunterActionPending is left as it was. */
  function ResetAsWritten(s: GameState): GameState
  {
    s.(table := s.table.(dead := [], lastNightDead := [], votes := {}, roles := Demote(s.table.roles)),
       progress := s.progress.(started := false, over := false, countingDown := false,
                               adminApproved := false, winner := NoWinner, confirmPressed := false),
       night := Night(Idle, 1, "", "", true, true),
       powers := s.powers.(lastGuarded := "", guarded := "", hunterCanShoot := true, idiotRevealed := false),
       clock := s.clock.(locked := false, seerPending := false))
  }

  /** resetGame, also releasing a hunter shot still pending from the game that ended. */
  function Reset(s: GameState): GameState
  {
    var r := ResetAsWritten(s);
    r.(clock := r.clock.(hunterPending := false))
  }

  // ------------------------------------------------------- action handlers

  function NextNightPhase(guardAlive: bool): Phase
  {
    if guardAlive then GuardTurn else WolfTurn
  }

  /** Nightfall: the night's data cleared, the guard (if alive) or the wolves to act, one more round. */
  ghost function NextNight(s: GameState, now: nat): GameState
  {
    var cleared := s.(night := s.night.(wolfTarget := "", poisonTarget := "", round := s.night.round + 1),
                      powers := s.powers.(guarded := ""),
                      table := s.table.(lastNightDead := []));
    EnterPhase(cleared, NextNightPhase(RoleAlive(s, Guard)), now)
  }

  /** `connect`: only a device seen for the first time is registered and counted. */
  ghost function OnConnect(s: GameState, dev: Id, now: nat): GameState
  {
    Sync(if dev in s.table.roles then s
         else s.(table := s.table.(roles := s.table.roles[dev := if s.progress.started then Spectator else Joined]),
                 progress := s.progress.(currentCount := s.progress.currentCount + 1)), now)
  }

  /** A restart vote from `dev` completes the quorum. */
  predicate Quorum(s: GameState, dev: Id)
  {
    s.progress.adminApproved && |s.table.votes + {dev}| >= s.progress.targetCount
  }

  ghost predicate RestartFits(s: GameState, dev: Id, draws: seq<nat>)
  {
    Quorum(s, dev) ==> Fits(s, draws)
  }

  lemma DemoteKeepsSeated(roles: map<Id, Role>)
    ensures SeatedKeys(Demote(roles)) == SeatedKeys(roles)
  {
  }

  /** Starts the countdown to the first night. */
  function StartCountdown(s: GameState, now: nat): GameState
  {
    s.(progress := s.progress.(countingDown := true, countdownStart := now))
  }

  /** `restart`: votes count only after the moderator approved; a full quorum resets, deals and starts the countdown. */
  ghost function OnRestart(s: GameState, dev: Id, draws: seq<nat>, now: nat): GameState
    requires RestartFits(s, dev, draws)
  {
    if !s.progress.adminApproved then Sync(s, now)
    else
      var voted := s.(table := s.table.(votes := s.table.votes + {dev}));
      if |voted.table.votes| >= s.progress.targetCount then
        DemoteKeepsSeated(s.table.roles);
        Sync(StartCountdown(SetupRoles(ResetAsWritten(voted), draws), now), now)
      else Sync(voted, now)
  }

  /** The vote completing a restart quorum, with the corrected reset that releases a pending shot. */
  ghost function RestartReleasing(s: GameState, dev: Id, draws: seq<nat>, now: nat): GameState
    requires Quorum(s, dev) && Fits(s, draws)
  {
    var voted := s.(table := s.table.(votes := s.table.votes + {dev}));
    DemoteKeepsSeated(s.table.roles);
    Sync(StartCountdown(SetupRoles(Reset(voted), draws), now), now)
  }

  ghost function OnGuardProtect(s: GameState, target: Id, now: nat): GameState
  {
    Sync(EnterPhase(s.(powers := s.powers.(guarded := target, lastGuarded := target)), WolfTurn, now), now)
  }

  ghost function OnWolfKill(s: GameState, target: Id, now: nat): GameState
  {
    Sync(EnterPhase(s.(night := s.night.(wolfTarget := target)), SeerTurn, now), now)
  }

  /** `seerCheck`: ignored while an earlier check is still pending. */
  ghost function OnSeerCheck(s: GameState, target: Id, now: nat): GameState
  {
    if s.clock.seerPending then s
    else Sync(s.(table := s.table.(roles := Touch(s.table.roles, {target})),
                 clock := s.clock.(seerPending := true, seerDelayStart := now, locked := true)), now)
  }

  /** What the seer is told: the target's role, or nothing when the check is ignored. */
  function SeerAnswer(s: GameState, target: Id): Option<Role>
  {
    if s.clock.seerPending then None else Some(RoleOf(s.table.roles, target))
  }

  /** The witch's own effect before the night is settled: spend the heal, or spend the poison (disarming a poisoned hunter). */
  function WitchUses(s: GameState, choice: WitchChoice): GameState
  {
    match choice
    case Heal => s.(night := s.night.(hasHeal := false))
    case Poison(x) =>
      s.(night := s.night.(hasPoison := false, poisonTarget := x),
         table := s.table.(roles := Touch(s.table.roles, {x})),
         powers := s.powers.(hunterCanShoot := if RoleOf(s.table.roles, x) == Hunter then false else s.powers.hunterCanShoot))
    case Pass => s
  }

  /** Some listed device holds the hunter's role. */
  predicate HunterAmong(roles: map<Id, Role>, ids: seq<Id>)
  {
    exists i :: 0 <= i < |ids| && RoleOf(roles, ids[i]) == Hunter
  }

  lemma HunterAmongStep(roles: map<Id, Role>, ids: seq<Id>, i: int)
    requires 0 <= i < |ids|
    ensures HunterAmong(roles, ids[..i + 1]) <==> HunterAmong(roles, ids[..i]) || RoleOf(roles, ids[i]) == Hunter
  {
    if HunterAmong(roles, ids[..i]) {
      var j :| 0 <= j < i && RoleOf(roles, ids[..i][j]) == Hunter;
      assert ids[..i + 1][j] == ids[..i][j];
    }
    if RoleOf(roles, ids[i]) == Hunter {
      assert ids[..i + 1][i] == ids[i];
    }
    if HunterAmong(roles, ids[..i + 1]) {
      var j :| 0 <= j < i + 1 && RoleOf(roles, ids[..i + 1][j]) == Hunter;
      if j < i {
        assert ids[..i][j] == ids[..i + 1][j];
      }
    }
  }

  function WitchDeaths(s: GameState, choice: WitchChoice): seq<Id>
  {
    var used := WitchUses(s, choice);
    NightDeaths(choice.Heal?, used.night.wolfTarget, used.powers.guarded, used.night.poisonTarget)
  }

  /** A hunter with a bullet left died tonight, so the shot becomes pending. */
  predicate HunterTriggered(s: GameState, choice: WitchChoice)
  {
    var used := WitchUses(s, choice);
    used.powers.hunterCanShoot && HunterAmong(used.table.roles, WitchDeaths(s, choice))
  }

  /** Records the night's deaths, as the settling loop of the witch actions does. */
  function Bury(s: GameState, deaths: seq<Id>): GameState
  {
    s.(table := s.table.(lastNightDead := deaths, dead := s.table.dead + deaths,
                         roles := Touch(s.table.roles, set x | x in deaths)))
  }

  /** Holds the game until the hunter has fired. */
  function Interrupt(s: GameState): GameState
  {
    s.(clock := s.clock.(hunterPending := true))
  }

  /** `witchHeal`, `witchPoison`, `witchSkip`: settle the night; go to day unless a hunter shot is now pending. */
  ghost function OnWitch(s: GameState, choice: WitchChoice, now: nat): GameState
  {
    var settled := Bury(WitchUses(s, choice), WitchDeaths(s, choice));
    Sync(if HunterTriggered(s, choice) then Interrupt(settled) else EnterPhase(settled, Day, now), now)
  }

  /** The exile target is the idiot, not yet revealed: the idiot survives. */
  predicate SparesIdiot(s: GameState, target: Id)
  {
    target != "" && target == s.powers.idiotId && !s.powers.idiotRevealed
  }

  predicate ExilesArmedHunter(s: GameState, target: Id)
  {
    target != "" && !SparesIdiot(s, target) && RoleOf(s.table.roles, target) == Hunter && s.powers.hunterCanShoot
  }

  /** The direct effect of the day's vote on its target. */
  function Exiled(s: GameState, target: Id): GameState
  {
    if target == "" then s
    else if SparesIdiot(s, target) then s.(powers := s.powers.(idiotRevealed := true))
    else s.(table := s.table.(dead := s.table.dead + [target], roles := Touch(s.table.roles, {target})))
  }

  /** `champExile`: the day's vote, then nightfall unless an armed hunter was exiled. */
  ghost function OnExile(s: GameState, target: Id, now: nat): GameState
  {
    var voted := Exiled(s, target);
    Sync(if ExilesArmedHunter(s, target) then Interrupt(voted) else NextNight(voted, now), now)
  }

  /** The shot itself: "" declines; either way the bullet is spent. */
  function Shot(s: GameState, target: Id): GameState
  {
    s.(table := s.table.(dead := if target != "" then s.table.dead + [target] else s.table.dead),
       powers := s.powers.(hunterCanShoot := false))
  }

  /** `hunterShoot`: fire, then resume what the hunter's death interrupted. */
  ghost function OnHunterShoot(s: GameState, target: Id, now: nat): GameState
  {
    var shot := Shot(s, target);
    var released := shot.(clock := shot.clock.(hunterPending := false));
    Sync(if !s.clock.hunterPending then shot
         else if s.night.phase == Day then NextNight(released, now)
         else EnterPhase(released, Day, now), now)
  }

  ghost predicate EventFits(s: GameState, dev: Id, a: Action, draws: seq<nat>)
  {
    a == Restart ==> RestartFits(s, dev, draws)
  }

  /** onWsEvent: one message from device `dev`. */
  ghost function OnEvent(s: GameState, dev: Id, a: Action, draws: seq<nat>, now: nat): GameState
    requires EventFits(s, dev, a, draws)
  {
    match a
    case Connect => OnConnect(s, dev, now)
    case Restart => OnRestart(s, dev, draws, now)
    case GuardProtect(x) => OnGuardProtect(s, x, now)
    case WolfKill(x) => OnWolfKill(s, x, now)
    case SeerCheck(x) => OnSeerCheck(s, x, now)
    case WitchActs(c) => OnWitch(s, c, now)
    case ChampExile(x) => OnExile(s, x, now)
    case HunterShoot(x) => OnHunterShoot(s, x, now)
    case Unknown => s
  }

  // ------------------------------------------------------------------ loop

  /** Where the skip delay of a dead role's phase leads. */
  function SkipTo(p: Phase): Phase
  {
    match p
    case GuardTurn => WolfTurn
    case SeerTurn => WitchTurn
    case WitchTurn => Day
    case _ => p
  }

  /** A dead witch cannot act: the wolves' victim dies unless guarded. */
  function UnwitchedNight(s: GameState): GameState
  {
    if s.night.wolfTarget != "" && s.night.wolfTarget != s.powers.guarded then
      s.(table := s.table.(lastNightDead := s.table.lastNightDead + [s.night.wolfTarget],
                           dead := s.table.dead + [s.night.wolfTarget]))
    else s
  }

  /** Fires the skip delay of a dead guard, seer or witch, 3 s after it was armed. */
  ghost function SkipSection(s: GameState, now: nat): GameState
  {
    if s.clock.delayStart > 0 && Elapsed(now, s.clock.delayStart) >= 3000 then
      var cleared := s.(clock := s.clock.(delayStart := 0));
      var settled := if s.night.phase == WitchTurn then UnwitchedNight(cleared) else cleared;
      Sync(EnterPhase(settled, SkipTo(s.night.phase), now), now)
    else s
  }

  /** Ends the seer's turn 5.5 s after the check. */
  ghost function SeerSection(s: GameState, now: nat): GameState
  {
    if s.clock.seerPending && Elapsed(now, s.clock.seerDelayStart) >= 5500 then
      Sync(EnterPhase(s.(clock := s.clock.(seerPending := false)), WitchTurn, now), now)
    else s
  }

  /** Opens the current phase to input once its cue is over, at least 2 s after the phase began. */
  ghost function UnlockSection(s: GameState, now: nat, cueIdle: bool): GameState
  {
    if s.progress.started && !s.progress.over && s.clock.locked && !s.clock.seerPending
       && Elapsed(now, s.clock.phaseStart) >= 2000 && cueIdle then
      Sync(s.(clock := s.clock.(locked := false)), now)
    else s
  }

  /** The lobby deals only if the pool fits the devices that joined. */
  ghost predicate LobbyFits(s: GameState, draws: seq<nat>)
  {
    (!s.progress.started && !s.progress.countingDown && s.progress.confirmPressed
     && s.progress.currentCount >= s.progress.targetCount) ==> Fits(s, draws)
  }

  /** The joystick moves the table size by one within 6..15. */
  function Resized(t: int, stick: Stick): int
  {
    if stick == Right && t < 15 then t + 1
    else if stick == Left && t > 6 then t - 1
    else t
  }

  /** The lobby: set the table size within 6..15, confirm it, and deal once enough devices joined. */
  ghost function LobbySection(s: GameState, now: nat, stick: Stick, button: bool, draws: seq<nat>): GameState
    requires LobbyFits(s, draws)
  {
    if s.progress.started || s.progress.countingDown then s
    else if !s.progress.confirmPressed then
      var t := Resized(s.progress.targetCount, stick);
      var sized := if t != s.progress.targetCount then Sync(s.(progress := s.progress.(targetCount := t)), now) else s;
      if button then Sync(sized.(progress := sized.progress.(confirmPressed := true)), now) else sized
    else if s.progress.currentCount >= s.progress.targetCount then
      Sync(StartCountdown(SetupRoles(s, draws), now), now)
    else s
  }

  /** Starts the first night 4 s after the countdown began. */
  ghost function CountdownSection(s: GameState, now: nat): GameState
  {
    if s.progress.countingDown && Elapsed(now, s.progress.countdownStart) >= 4000 then
      Sync(EnterPhase(s.(progress := s.progress.(countingDown := false, started := true)),
                      NextNightPhase(RoleAlive(s, Guard)), now), now)
    else s
  }

  /** The moderator's button after a game ends opens the restart vote. */
  ghost function ApproveSection(s: GameState, now: nat, button: bool): GameState
  {
    if s.progress.over && !s.progress.adminApproved && button then
      Sync(s.(progress := s.progress.(adminApproved := true), table := s.table.(votes := {})), now)
    else s
  }

  /** The state the lobby section reads, unchanged by the three sections before it. */
  ghost predicate SameLobby(a: GameState, b: GameState)
  {
    a.table.roles == b.table.roles && a.progress.started == b.progress.started
    && a.progress.countingDown == b.progress.countingDown && a.progress.confirmPressed == b.progress.confirmPressed
    && a.progress.currentCount == b.progress.currentCount && a.progress.targetCount == b.progress.targetCount
  }

  lemma SyncKeepsLobby(s: GameState, now: nat)
    ensures SameLobby(s, Sync(s, now))
  {
  }

  lemma EarlySectionsKeepLobby(s: GameState, now: nat, cueIdle: bool)
    ensures SameLobby(s, UnlockSection(SeerSection(SkipSection(s, now), now), now, cueIdle))
  {
    var s1 := SkipSection(s, now);
    var s2 := SeerSection(s1, now);
    if s.clock.delayStart > 0 && Elapsed(now, s.clock.delayStart) >= 3000 {
      var cleared := s.(clock := s.clock.(delayStart := 0));
      var settled := if s.night.phase == WitchTurn then UnwitchedNight(cleared) else cleared;
      SyncKeepsLobby(EnterPhase(settled, SkipTo(s.night.phase), now), now);
    }
    if s1.clock.seerPending && Elapsed(now, s1.clock.seerDelayStart) >= 5500 {
      SyncKeepsLobby(EnterPhase(s1.(clock := s1.clock.(seerPending := false)), WitchTurn, now), now);
    }
    SyncKeepsLobby(s2.(clock := s2.clock.(locked := false)), now);
  }

  /** One pass of loop(). */
  ghost function Tick(s: GameState, now: nat, input: Inputs, draws: seq<nat>): GameState
    requires LobbyFits(s, draws)
  {
    var s3 := UnlockSection(SeerSection(SkipSection(s, now), now), now, input.cueIdle);
    EarlySectionsKeepLobby(s, now, input.cueIdle);
    var s4 := LobbySection(s3, now, input.stick, input.button, draws);
    ApproveSection(CountdownSection(s4, now), now, input.button)
  }

  // ------------------------------------------------------- per-device view

  /** The witch's extra fields, sent to her during her turn. */
  datatype WitchView = WitchView(hasHeal: bool, hasPoison: bool, wolfTargetSeat: nat, wolfTarget: Id)

  /** The fields of the per-device `update` message. */
  datatype PlayerView = PlayerView(
    role: Role, seat: nat, isDead: bool, phase: int,
    gameOver: bool, winner: Winner, adminApproved: bool,
    targets: map<Id, nat>,
    locked: bool, hunterPending: bool, countdown: int, isStarting: bool, idiotRevealed: bool,
    waitingForPlayers: bool, currentCount: int, targetCount: int,
    votedPlayers: set<Id>,
    canShoot: bool, deathNote: Option<string>,
    lastGuarded: Option<Id>, witch: Option<WitchView>)

  /** Seconds left on the start countdown, never below zero. */
  function CountdownSeconds(s: GameState, now: nat): int
  {
    if s.progress.countingDown then
      var c := 3 - Elapsed(now, s.progress.countdownStart) / 1000;
      if c > 0 then c else 0
    else 0
  }

  /** The vote targets: every numbered device still alive, with its seat. The 0 entries that the source's
      inserting lookups add for devices without a seat are not in `seats`, so they are not listed here. */
  function LivingTargets(seats: map<Id, nat>, dead: seq<Id>): (r: map<Id, nat>)
    ensures forall k :: k in r <==> k in seats && k !in dead
  {
    map k | k in seats && k !in dead :: seats[k]
  }

  /** The guard is told, in the guard's turn, whom they guarded last. */
  function GuardNote(s: GameState, role: Role): Option<Id>
  {
    if s.night.phase == GuardTurn && role == Guard then Some(s.powers.lastGuarded) else None
  }

  /** The witch is told, in her turn, her potions and the wolves' target with its seat (0 for none). */
  function WitchNote(s: GameState, role: Role): Option<WitchView>
  {
    var t := s.night.wolfTarget;
    if s.night.phase == WitchTurn && role == Witch
    then Some(WitchView(s.night.hasHeal, s.night.hasPoison, if t != "" then DeathNote.SeatOf(s.table.seats, t) else 0, t))
    else None
  }

  /** The message syncGameState sends to device `dev`. */
  function View(s: GameState, dev: Id, now: nat): PlayerView
  {
    var role := RoleOf(s.table.roles, dev);
    PlayerView(
      role,
      DeathNote.SeatOf(s.table.seats, dev),
      dev in s.table.dead,
      s.night.phase.Code(),
      s.progress.over,
      s.progress.winner,
      s.progress.adminApproved,
      LivingTargets(s.table.seats, s.table.dead),
      s.clock.locked || s.clock.hunterPending,
      s.clock.hunterPending,
      CountdownSeconds(s, now),
      s.progress.countingDown,
      dev == s.powers.idiotId && s.powers.idiotRevealed,
      !s.progress.started && s.progress.confirmPressed && !s.progress.countingDown,
      s.progress.currentCount,
      s.progress.targetCount,
      if s.progress.over && s.progress.adminApproved then s.table.votes else {},
      role == Hunter && dev in s.table.dead && s.powers.hunterCanShoot,
      if s.night.phase == Day then Some(DeathNote.Report(s.table.lastNightDead, s.table.seats)) else None,
      GuardNote(s, role),
      WitchNote(s, role))
  }
}
