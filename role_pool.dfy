/**
 Roles and the role pool dealt at the start of a game (src/main.cpp, setupRoles).

 The pool always holds two wolves, a seer and a witch; larger tables add a
 hunter (7+), a third wolf (9+), a guard (10+), a fourth wolf (12+) and an
 idiot (13+), and villagers fill the rest. The pool is shuffled with
 Fisher-Yates; the random draws are an input of the model.
 */
module RolePool {

  /**
   The role strings of the source. `Blank` is the empty string that the
   source's ordered map inserts when it is indexed with an unknown device;
   `Joined` marks a registered device before dealing, `Spectator` a device
   that connected while a game was running.
   */
  datatype Role = Blank | Joined | Spectator | Wolf | Seer | Witch | Hunter | Guard | Idiot | Villager

  /** The conditional pushes of setupRoles, in order: each role joins the pool from the table size paired with it. */
  const Extras: seq<(int, Role)> := [(7, Hunter), (9, Wolf), (10, Guard), (12, Wolf), (13, Idiot)]

  /** The roles every pool starts from. */
  const BasePool: seq<Role> := [Wolf, Wolf, Seer, Witch]

  /** `[x]` when `b` holds, else nothing: one conditional `push_back`. */
  function IfThen(b: bool, x: Role): (r: seq<Role>)
    ensures |r| == OneIf(b)
  {
    if b then [x] else []
  }

  function OneIf(b: bool): nat
  {
    if b then 1 else 0
  }

  /** The pool after the first `n` conditional pushes, at a table of `t`. */
  function PushedUpTo(t: int, n: nat): seq<Role>
    requires n <= |Extras|
  {
    if n == 0 then BasePool else PushedUpTo(t, n - 1) + IfThen(t >= Extras[n - 1].0, Extras[n - 1].1)
  }

  /** The fixed part of the pool, before villagers are added. */
  function SpecialRoles(t: int): seq<Role>
  {
    PushedUpTo(t, 5)
  }

  /** `n` villagers. */
  function Villagers(n: nat): (r: seq<Role>)
    ensures |r| == n
  {
    if n == 0 then [] else [Villager] + Villagers(n - 1)
  }

  /** Villagers pushed onto `pool` until it holds `t` roles. */
  function FillVillagers(pool: seq<Role>, t: int): seq<Role>
    decreases t - |pool|
  {
    if |pool| < t then FillVillagers(pool + [Villager], t) else pool
  }

  /** The pool for a table of `t` players: the fixed roles, then villagers until it has `t` roles. */
  function BuildPool(t: int): seq<Role>
  {
    FillVillagers(SpecialRoles(t), t)
  }

  lemma {:induction false} FillAppends(pool: seq<Role>, t: int)
    requires |pool| <= t
    ensures FillVillagers(pool, t) == pool + Villagers(t - |pool|)
    decreases t - |pool|
  {
    if |pool| < t {
      FillAppends(pool + [Villager], t);
      assert pool + [Villager] + Villagers(t - |pool| - 1) == pool + Villagers(t - |pool|);
    } else {
      assert pool + Villagers(0) == pool;
    }
  }

  /** The conditional pushes of setupRoles: the fixed roles for a table of `t`. */
  method PushSpecials(t: int) returns (pool: seq<Role>)
    ensures pool == SpecialRoles(t)
  {
    pool := [Wolf, Wolf, Seer, Witch];
    assert pool == PushedUpTo(t, 0);
    if t >= 7 { pool := pool + [Hunter]; }
    assert pool == PushedUpTo(t, 1);
    if t >= 9 { pool := pool + [Wolf]; }
    assert pool == PushedUpTo(t, 2);
    if t >= 10 { pool := pool + [Guard]; }
    assert pool == PushedUpTo(t, 3);
    if t >= 12 { pool := pool + [Wolf]; }
    assert pool == PushedUpTo(t, 4);
    if t >= 13 { pool := pool + [Idiot]; }
    assert pool == PushedUpTo(t, 5);
  }

  /** The pool construction of setupRoles: the fixed roles by table size, then villagers up to `t`. */
  method MakePool(t: int) returns (pool: seq<Role>)
    ensures pool == BuildPool(t)
  {
    pool := PushSpecials(t);
    while |pool| < t
      invariant FillVillagers(pool, t) == BuildPool(t)
      decreases t - |pool|
    {
      pool := pool + [Villager];
    }
  }

  lemma {:induction false} VillagersOnly(n: nat, r: Role)
    ensures multiset(Villagers(n))[r] == if r == Villager then n else 0
  {
    if n > 0 {
      VillagersOnly(n - 1, r);
    }
  }

  /** Number of wolves dealt at a table of `t`: 2, plus one at 9 and one at 12. */
  function WolfCount(t: int): nat
  {
    2 + OneIf(t >= 9) + OneIf(t >= 12)
  }

  /** How many of `r` the first `n` conditional pushes add. */
  function ExtraCount(t: int, r: Role, n: nat): nat
    requires n <= |Extras|
  {
    if n == 0 then 0 else ExtraCount(t, r, n - 1) + OneIf(t >= Extras[n - 1].0 && Extras[n - 1].1 == r)
  }

  /** How many roles the first `n` conditional pushes add. */
  function ExtraSize(t: int, n: nat): nat
    requires n <= |Extras|
  {
    if n == 0 then 0 else ExtraSize(t, n - 1) + OneIf(t >= Extras[n - 1].0)
  }

  lemma AppendCount(a: seq<Role>, b: seq<Role>, r: Role)
    ensures multiset(a + b)[r] == multiset(a)[r] + multiset(b)[r]
  {
    assert multiset(a + b) == multiset(a) + multiset(b);
  }

  lemma IfThenCount(b: bool, x: Role, r: Role)
    ensures multiset(IfThen(b, x))[r] == OneIf(b && x == r)
  {
  }

  lemma BaseCount(r: Role)
    ensures multiset(BasePool)[r] == (if r == Wolf then 2 else 0) + OneIf(r == Seer) + OneIf(r == Witch)
  {
  }

  lemma ExtraUnrolled(t: int, r: Role)
    ensures ExtraCount(t, r, 5)
            == OneIf(t >= 7 && Hunter == r) + OneIf(t >= 9 && Wolf == r) + OneIf(t >= 10 && Guard == r)
               + OneIf(t >= 12 && Wolf == r) + OneIf(t >= 13 && Idiot == r)
  {
    assert ExtraCount(t, r, 1) == OneIf(t >= 7 && Hunter == r);
    assert ExtraCount(t, r, 2) == ExtraCount(t, r, 1) + OneIf(t >= 9 && Wolf == r);
    assert ExtraCount(t, r, 3) == ExtraCount(t, r, 2) + OneIf(t >= 10 && Guard == r);
    assert ExtraCount(t, r, 4) == ExtraCount(t, r, 3) + OneIf(t >= 12 && Wolf == r);
  }

  lemma {:induction false} PushedLength(t: int, n: nat)
    requires n <= |Extras|
    ensures |PushedUpTo(t, n)| == |BasePool| + ExtraSize(t, n)
  {
    if n > 0 {
      PushedLength(t, n - 1);
    }
  }

  lemma {:induction false} PushedCount(t: int, r: Role, n: nat)
    requires n <= |Extras|
    ensures multiset(PushedUpTo(t, n))[r] == multiset(BasePool)[r] + ExtraCount(t, r, n)
  {
    if n > 0 {
      PushedCount(t, r, n - 1);
      var x := Extras[n - 1];
      AppendCount(PushedUpTo(t, n - 1), IfThen(t >= x.0, x.1), r);
      IfThenCount(t >= x.0, x.1, r);
    }
  }

  /** The number of fixed roles at a table of `t`. */
  function SpecialSize(t: int): nat
  {
    4 + OneIf(t >= 7) + OneIf(t >= 9) + OneIf(t >= 10) + OneIf(t >= 12) + OneIf(t >= 13)
  }

  /** The advertised composition: how many of role `r` a table of `t` is dealt. */
  function PoolShare(t: int, r: Role): int
  {
    match r
    case Wolf => WolfCount(t)
    case Seer => 1
    case Witch => 1
    case Hunter => OneIf(t >= 7)
    case Guard => OneIf(t >= 10)
    case Idiot => OneIf(t >= 13)
    case Villager => t - WolfCount(t) - 2 - OneIf(t >= 7) - OneIf(t >= 10) - OneIf(t >= 13)
    case _ => 0
  }

  /** The five pushes, unrolled: the fixed roles number `SpecialSize(t)`. */
  lemma SpecialLength(t: int)
    ensures |SpecialRoles(t)| == SpecialSize(t)
  {
    PushedLength(t, 5);
    assert ExtraSize(t, 1) == OneIf(t >= 7);
    assert ExtraSize(t, 2) == ExtraSize(t, 1) + OneIf(t >= 9);
    assert ExtraSize(t, 3) == ExtraSize(t, 2) + OneIf(t >= 10);
    assert ExtraSize(t, 4) == ExtraSize(t, 3) + OneIf(t >= 12);
    assert ExtraSize(t, 5) == ExtraSize(t, 4) + OneIf(t >= 13);
  }

  /** The pushes add up to the advertised share of every role but the villager. */
  lemma PushesMakeShare(t: int, r: Role)
    ensures (if r == Wolf then 2 else 0) + OneIf(r == Seer) + OneIf(r == Witch)
            + OneIf(t >= 7 && Hunter == r) + OneIf(t >= 9 && Wolf == r) + OneIf(t >= 10 && Guard == r)
            + OneIf(t >= 12 && Wolf == r) + OneIf(t >= 13 && Idiot == r)
            == if r == Villager then 0 else PoolShare(t, r)
  {
    match r {
      case Blank =>
      case Joined =>
      case Spectator =>
      case Wolf =>
      case Seer =>
      case Witch =>
      case Hunter =>
      case Guard =>
      case Idiot =>
      case Villager =>
    }
  }

  /** The five pushes, unrolled: the fixed roles hold the advertised share of every role but the villager. */
  lemma SpecialShare(t: int, r: Role)
    ensures multiset(SpecialRoles(t))[r] == if r == Villager then 0 else PoolShare(t, r)
  {
    PushedCount(t, r, 5);
    BaseCount(r);
    ExtraUnrolled(t, r);
    assert multiset(SpecialRoles(t))[r]
           == (if r == Wolf then 2 else 0) + OneIf(r == Seer) + OneIf(r == Witch)
              + OneIf(t >= 7 && Hunter == r) + OneIf(t >= 9 && Wolf == r) + OneIf(t >= 10 && Guard == r)
              + OneIf(t >= 12 && Wolf == r) + OneIf(t >= 13 && Idiot == r);
    PushesMakeShare(t, r);
  }

  /** At every legal table size the fixed roles fit, and villagers fill the pool up to `t`. */
  lemma PoolLength(t: int)
    requires 6 <= t <= 15
    ensures |SpecialRoles(t)| <= t
    ensures BuildPool(t) == SpecialRoles(t) + Villagers(t - |SpecialRoles(t)|)
    ensures |BuildPool(t)| == t
  {
    SpecialLength(t);
    FillAppends(SpecialRoles(t), t);
  }

  /** Villagers added to any pool raise its villager count only. */
  lemma WithVillagers(pool: seq<Role>, n: nat, r: Role)
    ensures multiset(pool + Villagers(n))[r] == multiset(pool)[r] + (if r == Villager then n else 0)
  {
    VillagersOnly(n, r);
    assert multiset(pool + Villagers(n)) == multiset(pool) + multiset(Villagers(n));
  }

  /** For every legal table size the pool has exactly the advertised composition. */
  lemma PoolComposition(t: int)
    requires 6 <= t <= 15
    ensures |BuildPool(t)| == t
    ensures forall r :: multiset(BuildPool(t))[r] == PoolShare(t, r)
  {
    PoolLength(t);
    SpecialLength(t);
    forall r ensures multiset(BuildPool(t))[r] == PoolShare(t, r) {
      WithVillagers(SpecialRoles(t), t - SpecialSize(t), r);
      SpecialShare(t, r);
    }
  }

  /** Exchanges positions `i` and `j` (a no-op when they coincide). */
  function Swap<T>(s: seq<T>, i: nat, j: nat): (r: seq<T>)
    requires i < |s| && j < |s|
    ensures |r| == |s|
  {
    s[i := s[j]][j := s[i]]
  }

  lemma SwapPermutes<T>(s: seq<T>, i: nat, j: nat)
    requires i < |s| && j < |s|
    ensures multiset(Swap(s, i, j)) == multiset(s)
  {
  }

  /** Draws of `random(0, i + 1)`: the draw used at step `i` lies in `0..i`. */
  ghost predicate IsDraws(draws: seq<nat>)
  {
    forall i :: 0 <= i < |draws| ==> draws[i] <= i
  }

  /** Fisher-Yates steps `i`, `i - 1`, ..., `1` applied to `s`. */
  ghost function ShuffleDown<T>(s: seq<T>, draws: seq<nat>, i: nat): seq<T>
    requires i < |s| && i < |draws| && IsDraws(draws)
    decreases i
  {
    if i == 0 then s else ShuffleDown(Swap(s, i, draws[i]), draws, i - 1)
  }

  /** The pool after the shuffle loop of setupRoles, for the given draws. */
  ghost function Shuffled<T>(s: seq<T>, draws: seq<nat>): seq<T>
    requires |draws| >= |s| && IsDraws(draws)
  {
    if |s| == 0 then s else ShuffleDown(s, draws, |s| - 1)
  }

  lemma {:induction false} ShuffleDownPermutes<T>(s: seq<T>, draws: seq<nat>, i: nat)
    requires i < |s| && i < |draws| && IsDraws(draws)
    ensures |ShuffleDown(s, draws, i)| == |s|
    ensures multiset(ShuffleDown(s, draws, i)) == multiset(s)
    decreases i
  {
    if i > 0 {
      SwapPermutes(s, i, draws[i]);
      ShuffleDownPermutes(Swap(s, i, draws[i]), draws, i - 1);
    }
  }

  /** The shuffle only permutes the pool: same length, same multiset of roles. */
  lemma ShufflePermutes<T>(s: seq<T>, draws: seq<nat>)
    requires |draws| >= |s| && IsDraws(draws)
    ensures |Shuffled(s, draws)| == |s|
    ensures multiset(Shuffled(s, draws)) == multiset(s)
  {
    if |s| > 0 {
      ShuffleDownPermutes(s, draws, |s| - 1);
    }
  }

  /** The in-place Fisher-Yates loop of setupRoles. */
  method Shuffle<T>(a: array<T>, draws: seq<nat>)
    requires |draws| >= a.Length && IsDraws(draws)
    modifies a
    ensures a[..] == Shuffled(old(a[..]), draws)
  {
    if a.Length == 0 {
      return;
    }
    var i := a.Length - 1;
    while i > 0
      invariant 0 <= i < a.Length
      invariant ShuffleDown(a[..], draws, i) == Shuffled(old(a[..]), draws)
    {
      var j := draws[i];
      ghost var before := a[..];
      var t := a[i];
      a[i] := a[j];
      a[j] := t;
      assert a[..] == Swap(before, i, j);
      assert ShuffleDown(before, draws, i) == ShuffleDown(a[..], draws, i - 1);
      i := i - 1;
    }
  }
}
