/**
 What dealing promises (src/main.cpp, setupRoles): seats 1..n go to the n
 dealt devices one each, in key order; each dealt device receives the pool
 entry at its seat, so every one of the first n entries reaches exactly one
 device; spectators keep their role; the pool is only permuted by the
 shuffle; and the recorded idiot is a device holding the idiot's role, or
 "" when nobody does.
 */
module Dealing {
  import opened StringOrder
  import opened RolePool
  import opened Rules

  /** Seats follow key order. */
  lemma SeatsAscend(roles: map<Id, Role>, j: Id, k: Id)
    requires IsSeated(roles, j) && IsSeated(roles, k) && Lt(j, k)
    ensures Rank(roles, j) < Rank(roles, k)
  {
    var below := Below(roles.Keys, SeatedTest(roles), j);
    var above := Below(roles.Keys, SeatedTest(roles), k);
    forall x | x in below ensures x in above {
      LtTransitive(x, j, k);
    }
    LtIrreflexive(j);
    assert j !in below && j in above;
    SubsetCardinality(below + {j}, above);
  }

  /** No two dealt devices share a seat. */
  lemma SeatsDistinct(roles: map<Id, Role>, j: Id, k: Id)
    requires IsSeated(roles, j) && IsSeated(roles, k) && j != k
    ensures Rank(roles, j) != Rank(roles, k)
  {
    LtTrichotomy(j, k);
    if Lt(j, k) {
      SeatsAscend(roles, j, k);
    } else {
      SeatsAscend(roles, k, j);
    }
  }

  /** The seats held by the dealt devices among `keys`. */
  ghost function SeatsOf(roles: map<Id, Role>, keys: set<Id>): set<nat>
    requires keys <= SeatedKeys(roles)
  {
    set k | k in keys :: Rank(roles, k)
  }

  lemma {:induction false} SeatsOfSize(roles: map<Id, Role>, keys: set<Id>)
    requires keys <= SeatedKeys(roles)
    ensures |SeatsOf(roles, keys)| == |keys|
    decreases |keys|
  {
    if keys != {} {
      var x :| x in keys;
      var rest := keys - {x};
      SeatsOfSize(roles, rest);
      forall k | k in rest ensures Rank(roles, k) != Rank(roles, x) {
        SeatsDistinct(roles, k, x);
      }
      assert SeatsOf(roles, keys) == SeatsOf(roles, rest) + {Rank(roles, x)};
    }
  }

  /** The seat numbers 1..n. */
  ghost function OneTo(n: nat): set<nat>
  {
    if n == 0 then {} else OneTo(n - 1) + {n}
  }

  lemma {:induction false} OneToHas(n: nat, i: int)
    ensures i in OneTo(n) <==> 1 <= i <= n
  {
    if n > 0 {
      OneToHas(n - 1, i);
    }
  }

  lemma {:induction false} OneToSize(n: nat)
    ensures |OneTo(n)| == n
  {
    if n > 0 {
      OneToSize(n - 1);
      OneToHas(n - 1, n);
    }
  }

  lemma SubsetOfSameSize<T>(a: set<T>, b: set<T>)
    requires a <= b && |a| == |b|
    ensures a == b
  {
    assert |b - a| == |b| - |a|;
  }

  /** The seats of the n dealt devices are exactly 1..n. */
  lemma SeatsAreOneToN(roles: map<Id, Role>)
    ensures SeatsOf(roles, SeatedKeys(roles)) == OneTo(|SeatedKeys(roles)|)
  {
    SeatsOfSize(roles, SeatedKeys(roles));
    OneToSize(|SeatedKeys(roles)|);
    forall x | x in SeatsOf(roles, SeatedKeys(roles)) ensures x in OneTo(|SeatedKeys(roles)|) {
      OneToHas(|SeatedKeys(roles)|, x);
    }
    SubsetOfSameSize(SeatsOf(roles, SeatedKeys(roles)), OneTo(|SeatedKeys(roles)|));
  }

  /** Each of the first n pool entries is dealt to exactly one device: the one seated at its position. */
  lemma EachEntryDealtOnce(roles: map<Id, Role>, pool: seq<Role>, i: nat)
    requires |SeatedKeys(roles)| <= |pool| && i < |SeatedKeys(roles)|
    ensures exists k :: IsSeated(roles, k) && Rank(roles, k) == i + 1 && Dealt(roles, pool)[k] == pool[i]
    ensures forall j, k :: IsSeated(roles, j) && IsSeated(roles, k) && Rank(roles, j) == i + 1 && Rank(roles, k) == i + 1 ==> j == k
  {
    SeatsAreOneToN(roles);
    OneToHas(|SeatedKeys(roles)|, i + 1);
    var k :| k in SeatedKeys(roles) && Rank(roles, k) == i + 1;
    assert Dealt(roles, pool)[k] == pool[i];
    forall j, k | IsSeated(roles, j) && IsSeated(roles, k) && Rank(roles, j) == i + 1 && Rank(roles, k) == i + 1
      ensures j == k
    {
      if j != k {
        SeatsDistinct(roles, j, k);
      }
    }
  }

  /** Numbering and dealing: a dealt device gets its seat and the pool entry there; any other device keeps its role and its old seat entry. */
  lemma DealtAtSeat(roles: map<Id, Role>, pool: seq<Role>, seats: map<Id, nat>)
    requires |SeatedKeys(roles)| <= |pool|
    ensures var numbered := seats + SeatMap(roles);
            && (forall k :: IsSeated(roles, k) ==>
                  && k in numbered && 1 <= numbered[k] <= |SeatedKeys(roles)|
                  && Dealt(roles, pool)[k] == pool[numbered[k] - 1])
            && (forall k :: k in roles && !IsSeated(roles, k) ==>
                  Dealt(roles, pool)[k] == roles[k] && (k in numbered <==> k in seats))
  {
    var numbered := seats + SeatMap(roles);
    forall k | IsSeated(roles, k)
      ensures k in numbered && numbered[k] == Rank(roles, k)
    {
      assert k in SeatMap(roles);
    }
    forall k | k in roles && !IsSeated(roles, k)
      ensures k in numbered <==> k in seats
    {
      assert k !in SeatMap(roles);
    }
  }

  /** setupRoles numbers and deals every dealt device, leaves spectators as they were, and clears the idiot's and hunter's flags. */
  lemma DealRule(s: GameState, draws: seq<nat>)
    requires Fits(s, draws)
    ensures var r := SetupRoles(s, draws);
            var pool := ShuffledPool(s.progress.targetCount, draws);
            && r.table.roles.Keys == s.table.roles.Keys
            && (forall k :: IsSeated(s.table.roles, k) ==>
                  && k in r.table.seats && 1 <= r.table.seats[k] <= |SeatedKeys(s.table.roles)|
                  && r.table.roles[k] == pool[r.table.seats[k] - 1])
            && (forall k :: k in s.table.roles && !IsSeated(s.table.roles, k) ==>
                  r.table.roles[k] == Spectator && (k in r.table.seats <==> k in s.table.seats))
            && !r.powers.idiotRevealed && r.powers.hunterCanShoot
            && r.table.dead == s.table.dead && r.night == s.night
  {
    var pool := ShuffledPool(s.progress.targetCount, draws);
    var r := SetupRoles(s, draws);
    assert r.table.roles == Dealt(s.table.roles, pool);
    assert r.table.seats == s.table.seats + SeatMap(s.table.roles);
    DealtAtSeat(s.table.roles, pool, s.table.seats);
  }

  /** The pool that is dealt is a permutation of the pool built for the table size, with its advertised composition. */
  lemma DealtPoolComposition(t: int, draws: seq<nat>)
    requires 6 <= t <= 15 && |draws| >= |BuildPool(t)| && IsDraws(draws)
    ensures |ShuffledPool(t, draws)| == t
    ensures forall r :: multiset(ShuffledPool(t, draws))[r] == PoolShare(t, r)
  {
    ShufflePermutes(BuildPool(t), draws);
    PoolComposition(t);
  }

  /** The last key in `order` holding role `r`, or "" when none does. */
  lemma {:induction false} LastHolderFinds(order: seq<Id>, m: map<Id, Role>, r: Role)
    ensures var h := LastHolder(order, m, r);
            if exists i :: 0 <= i < |order| && RoleOf(m, order[i]) == r then
              exists i :: 0 <= i < |order| && h == order[i] && RoleOf(m, h) == r
                          && forall j :: i < j < |order| ==> RoleOf(m, order[j]) != r
            else h == ""
    decreases |order|
  {
    if order != [] {
      var n := |order| - 1;
      var init := order[..n];
      LastHolderFinds(init, m, r);
      if RoleOf(m, order[n]) != r {
        if exists i :: 0 <= i < |order| && RoleOf(m, order[i]) == r {
          var i :| 0 <= i < |order| && RoleOf(m, order[i]) == r;
          assert init[i] == order[i];
          var h := LastHolder(init, m, r);
          var i' :| 0 <= i' < |init| && h == init[i'] && RoleOf(m, h) == r
                    && forall j :: i' < j < |init| ==> RoleOf(m, init[j]) != r;
          assert h == order[i'];
          forall j | i' < j < |order| ensures RoleOf(m, order[j]) != r {
            if j < n {
              assert order[j] == init[j];
            }
          }
        } else {
          forall i | 0 <= i < |init| ensures RoleOf(m, init[i]) != r {
            assert init[i] == order[i];
          }
        }
      }
    }
  }

  /** When some device was dealt the idiot, the recorded idiot is such a device; when none was, it is "".
      (A device whose id is "" can itself be dealt the idiot, so "" alone does not mean there is none.) */
  lemma IdiotRecorded(s: GameState, draws: seq<nat>)
    requires Fits(s, draws)
    ensures var r := SetupRoles(s, draws);
            if exists k :: k in r.table.roles && r.table.roles[k] == Idiot then
              r.powers.idiotId in r.table.roles && r.table.roles[r.powers.idiotId] == Idiot
            else r.powers.idiotId == ""
  {
    var order := KeyOrder(s.table.roles.Keys);
    var dealt := Dealt(s.table.roles, ShuffledPool(s.progress.targetCount, draws));
    assert SetupRoles(s, draws).table.roles == dealt;
    assert SetupRoles(s, draws).powers.idiotId == LastHolder(order, dealt, Idiot);
    HolderInOrder(order, dealt, Idiot);
  }

  /** Over an enumeration of a map's keys, the last holder of a role is a key holding it, or "" when no key does. */
  lemma HolderInOrder(order: seq<Id>, m: map<Id, Role>, r: Role)
    requires forall k :: k in m <==> k in order
    ensures if exists k :: k in m && m[k] == r then LastHolder(order, m, r) in m && m[LastHolder(order, m, r)] == r
            else LastHolder(order, m, r) == ""
  {
    LastHolderFinds(order, m, r);
    if exists k :: k in m && m[k] == r {
      var k :| k in m && m[k] == r;
      var i :| 0 <= i < |order| && order[i] == k;
      assert RoleOf(m, order[i]) == r;
    } else {
      forall i | 0 <= i < |order| ensures RoleOf(m, order[i]) != r {
        assert order[i] in m;
      }
    }
  }
}
