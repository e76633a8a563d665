/**
 The order in which the controller walks its per-device tables.

 Every table of the controller is keyed by a device identifier and is
 iterated in ascending key order (byte-wise string comparison, as the
 ordered dictionary of the source does). Seat numbers and role dealing
 follow that order, so the model needs it explicitly: `Lt` is the string
 order, `KeyOrder` is the ascending enumeration of a key set, and
 `SortKeys` computes it. `Count` counts the elements of a sequence that
 satisfy a predicate, the shape of every counting loop in the source.
 */
module StringOrder {

  /** A device identifier; "" stands for "no player" throughout the source. */
  type Id = string

  /** Strict lexicographic order on strings, character by character. */
  predicate Lt(a: Id, b: Id)
  {
    if |a| == 0 then |b| > 0
    else if |b| == 0 then false
    else a[0] < b[0] || (a[0] == b[0] && Lt(a[1..], b[1..]))
  }

  lemma {:induction false} LtIrreflexive(a: Id)
    ensures !Lt(a, a)
  {
    if |a| > 0 {
      LtIrreflexive(a[1..]);
    }
  }

  lemma {:induction false} LtTransitive(a: Id, b: Id, c: Id)
    requires Lt(a, b) && Lt(b, c)
    ensures Lt(a, c)
  {
    if |a| > 0 && |b| > 0 && |c| > 0 && a[0] == b[0] && b[0] == c[0] {
      LtTransitive(a[1..], b[1..], c[1..]);
    }
  }

  lemma {:induction false} LtTrichotomy(a: Id, b: Id)
    ensures a == b || Lt(a, b) || Lt(b, a)
  {
    if |a| > 0 && |b| > 0 && a[0] == b[0] {
      LtTrichotomy(a[1..], b[1..]);
      if a[1..] == b[1..] {
        assert a == [a[0]] + a[1..] && b == [b[0]] + b[1..];
      }
    }
  }

  lemma {:induction false} LtAsymmetric(a: Id, b: Id)
    requires Lt(a, b)
    ensures !Lt(b, a)
  {
    if Lt(b, a) {
      LtTransitive(a, b, a);
      LtIrreflexive(a);
    }
  }

  /** `s` lists its elements in strictly ascending order (hence without repeats). */
  ghost predicate Ascending(s: seq<Id>)
  {
    forall i, j {:trigger Lt(s[i], s[j])} :: 0 <= i < j < |s| ==> Lt(s[i], s[j])
  }

  ghost predicate Distinct<T>(s: seq<T>)
  {
    forall i, j :: 0 <= i < j < |s| ==> s[i] != s[j]
  }

  /** `s` is the ascending enumeration of `keys`. */
  ghost predicate IsKeyOrder(s: seq<Id>, keys: set<Id>)
  {
    Ascending(s) && (forall k :: k in keys <==> k in s)
  }

  lemma AscendingIsDistinct(s: seq<Id>)
    requires Ascending(s)
    ensures Distinct(s)
  {
    forall i, j | 0 <= i < j < |s| ensures s[i] != s[j] {
      LtIrreflexive(s[i]);
    }
  }

  /** Position and order agree in an ascending sequence. */
  lemma AscendingIndex(s: seq<Id>, i: int, j: int)
    requires Ascending(s) && 0 <= i < |s| && 0 <= j < |s|
    ensures Lt(s[i], s[j]) <==> i < j
  {
    if j < i {
      LtAsymmetric(s[j], s[i]);
    } else if i == j {
      LtIrreflexive(s[i]);
    }
  }

  ghost predicate IsLeast(m: Id, keys: set<Id>)
  {
    m in keys && forall k :: k in keys ==> !Lt(k, m)
  }

  lemma {:induction false} LeastExists(keys: set<Id>)
    requires keys != {}
    ensures exists m :: IsLeast(m, keys)
    decreases |keys|
  {
    var x :| x in keys;
    if keys == {x} {
      LtIrreflexive(x);
      assert IsLeast(x, keys);
    } else {
      var rest := keys - {x};
      LeastExists(rest);
      var m :| IsLeast(m, rest);
      if Lt(x, m) {
        forall k | k in keys ensures !Lt(k, x) {
          if k == x {
            LtIrreflexive(x);
          } else if Lt(k, x) {
            LtTransitive(k, x, m);
          }
        }
        assert IsLeast(x, keys);
      } else {
        assert IsLeast(m, keys);
      }
    }
  }

  /** The ascending enumeration of a finite key set: the order of map iteration. */
  ghost function KeyOrder(keys: set<Id>): (r: seq<Id>)
    ensures IsKeyOrder(r, keys) && |r| == |keys|
    decreases |keys|
  {
    if keys == {} then []
    else
      LeastExists(keys);
      var m :| IsLeast(m, keys);
      var rest := KeyOrder(keys - {m});
      assert forall k :: k in rest ==> Lt(m, k) by {
        forall k | k in rest ensures Lt(m, k) {
          LtTrichotomy(m, k);
        }
      }
      [m] + rest
  }

  /** Two ascending enumerations of the same keys are the same sequence. */
  lemma {:induction false} KeyOrderUnique(s: seq<Id>, t: seq<Id>, keys: set<Id>)
    requires IsKeyOrder(s, keys) && IsKeyOrder(t, keys)
    ensures s == t
    decreases |s|
  {
    KeyOrderLength(s, keys);
    KeyOrderLength(t, keys);
    if s != [] {
      var a, b := s[0], t[0];
      assert b in s;
      assert a in t;
      if a != b {
        var i :| 0 <= i < |s| && s[i] == b;
        var j :| 0 <= j < |t| && t[j] == a;
        AscendingIndex(s, 0, i);
        AscendingIndex(t, 0, j);
        LtAsymmetric(a, b);
      }
      var rest := keys - {a};
      AscendingIsDistinct(s);
      AscendingIsDistinct(t);
      forall k ensures k in rest <==> k in s[1..] {
        if k in s[1..] {
          var i :| 1 <= i < |s| && s[i] == k;
        }
      }
      forall k ensures k in rest <==> k in t[1..] {
        if k in t[1..] {
          var i :| 1 <= i < |t| && t[i] == k;
        }
      }
      KeyOrderUnique(s[1..], t[1..], rest);
    }
  }

  lemma KeyOrderLength(s: seq<Id>, keys: set<Id>)
    requires IsKeyOrder(s, keys)
    ensures |s| == |keys|
  {
    var all := (x: Id) => true;
    AscendingIsDistinct(s);
    CountIsCardinality(s, all);
    CountAll(s, all);
    assert Matching(s, all) == keys;
  }

  /** The least key of a non-empty set, found by one pass over it. */
  method LeastKey(keys: set<Id>) returns (m: Id)
    requires keys != {}
    ensures IsLeast(m, keys)
  {
    m :| m in keys;
    var rest := keys - {m};
    LtIrreflexive(m);
    while rest != {}
      invariant m in keys && rest <= keys
      invariant forall k :: k in keys && k !in rest ==> !Lt(k, m)
      decreases |rest|
    {
      var k :| k in rest;
      if Lt(k, m) {
        forall x | x in keys && x !in rest ensures !Lt(x, k) {
          if Lt(x, k) {
            LtTransitive(x, k, m);
          }
        }
        LtIrreflexive(k);
        m := k;
      }
      rest := rest - {k};
    }
  }

  /** Enumerates a key set in map iteration order, by repeated selection of the least key. */
  method SortKeys(keys: set<Id>) returns (order: seq<Id>)
    ensures order == KeyOrder(keys)
  {
    order := [];
    var rest := keys;
    while rest != {}
      invariant rest <= keys
      invariant forall k :: k in keys <==> k in rest || k in order
      invariant forall k :: k in order ==> k !in rest
      invariant Ascending(order)
      invariant forall a, b :: a in order && b in rest ==> Lt(a, b)
      decreases |rest|
    {
      var m := LeastKey(rest);
      forall b | b in rest - {m} ensures Lt(m, b) {
        LtTrichotomy(m, b);
      }
      order := order + [m];
      rest := rest - {m};
    }
    KeyOrderUnique(order, KeyOrder(keys), keys);
  }

  /** Number of elements of `s` satisfying `p`, counted left to right. */
  function Count<T>(s: seq<T>, p: T -> bool): nat
  {
    if s == [] then 0 else Count(s[..|s| - 1], p) + (if p(s[|s| - 1]) then 1 else 0)
  }

  /** The elements of `s` that satisfy `p`. */
  function Matching<T>(s: seq<T>, p: T -> bool): set<T>
  {
    set x | x in s && p(x)
  }

  /** The keys satisfying `p` that come strictly before `k` in iteration order. */
  ghost function Below(keys: set<Id>, p: Id -> bool, k: Id): set<Id>
  {
    set j | j in keys && p(j) && Lt(j, k)
  }

  lemma {:induction false} CountAll<T>(s: seq<T>, p: T -> bool)
    requires forall x :: p(x)
    ensures Count(s, p) == |s|
  {
    if s != [] {
      CountAll(s[..|s| - 1], p);
    }
  }

  lemma CountStep<T>(s: seq<T>, i: int, p: T -> bool)
    requires 0 <= i < |s|
    ensures Count(s[..i + 1], p) == Count(s[..i], p) + (if p(s[i]) then 1 else 0)
  {
    assert s[..i + 1][..i] == s[..i];
  }

  /** A prefix holds no more matches than the whole sequence. */
  lemma {:induction false} CountPrefix<T>(s: seq<T>, n: nat, p: T -> bool)
    requires n <= |s|
    ensures Count(s[..n], p) <= Count(s, p)
    decreases |s|
  {
    if n < |s| {
      assert s[..n] == s[..|s| - 1][..n];
      CountPrefix(s[..|s| - 1], n, p);
    } else {
      assert s[..n] == s;
    }
  }

  /** Counting a repeat-free sequence gives the size of the satisfying set. */
  lemma {:induction false} CountIsCardinality<T>(s: seq<T>, p: T -> bool)
    requires Distinct(s)
    ensures Count(s, p) == |Matching(s, p)|
  {
    if s != [] {
      var init, last := s[..|s| - 1], s[|s| - 1];
      assert s == init + [last];
      assert Distinct(init) by {
        forall i, j | 0 <= i < j < |init| ensures init[i] != init[j] {
          assert init[i] == s[i] && init[j] == s[j];
        }
      }
      CountIsCardinality(init, p);
      var before := Matching(init, p);
      var after := Matching(s, p);
      assert last !in init by {
        forall j | 0 <= j < |init| ensures init[j] != last {
          assert init[j] == s[j];
        }
      }
      if p(last) {
        assert after == before + {last};
        assert last !in before;
      } else {
        assert after == before;
      }
    }
  }

  /**
   In ascending order, the satisfying keys strictly below `s[i]` are exactly
   the satisfying keys among the first `i`: the "rank" of a key is its position.
   */
  lemma RankIsPosition(s: seq<Id>, keys: set<Id>, i: int, p: Id -> bool)
    requires IsKeyOrder(s, keys) && 0 <= i < |s|
    ensures |Below(keys, p, s[i])| == Count(s[..i], p)
  {
    var below := Below(keys, p, s[i]);
    var prefix := Matching(s[..i], p);
    forall k ensures k in below <==> k in prefix {
      if k in below {
        var j :| 0 <= j < |s| && s[j] == k;
        AscendingIndex(s, j, i);
        assert k == s[..i][j];
      }
      if k in prefix {
        var j :| 0 <= j < i && s[..i][j] == k;
        AscendingIndex(s, j, i);
      }
    }
    assert below == prefix;
    AscendingIsDistinct(s);
    assert Distinct(s[..i]);
    CountIsCardinality(s[..i], p);
  }
}
