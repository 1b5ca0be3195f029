/** Sums over sequences and how one changed term changes them, and positions picked from a sequence. */
module Sums {

  ghost predicate Increasing(s: seq<nat>)
  {
    forall i, j :: 0 <= i < j < |s| ==> s[i] < s[j]
  }

  /** The elements at the given positions, in order. */
  ghost predicate Picks<T(!new)>(all: seq<T>, at: seq<nat>, kept: seq<T>)
  {
    && Increasing(at) && |kept| == |at|
    && forall i :: 0 <= i < |at| ==> at[i] < |all| && kept[i] == all[at[i]]
  }

  function Upto(n: nat): seq<nat>
  {
    seq(n, i requires 0 <= i < n => i)
  }

  lemma UptoAll(n: nat)
    ensures Increasing(Upto(n)) && forall k: nat :: k in Upto(n) <==> k < n
  {
    forall k: nat
      ensures k in Upto(n) <==> k < n
    {
      if k < n {
        assert Upto(n)[k] == k;
      }
    }
  }

  function SumNat(s: seq<nat>): nat
  {
    if s == [] then 0 else SumNat(s[..|s| - 1]) + s[|s| - 1]
  }

  lemma {:induction false} SumNatUpdate(s: seq<nat>, i: nat, v: nat)
    requires i < |s|
    ensures SumNat(s[i := v]) + s[i] == SumNat(s) + v
    ensures s[i] <= SumNat(s)
  {
    var front := s[..|s| - 1];
    if i == |s| - 1 {
      assert s[i := v][..|s| - 1] == front;
    } else {
      assert s[i := v][..|s| - 1] == front[i := v];
      SumNatUpdate(front, i, v);
    }
  }

  lemma {:induction false} SumNatZero(s: seq<nat>)
    ensures SumNat(s) == 0 <==> forall i :: 0 <= i < |s| ==> s[i] == 0
  {
    if s != [] {
      SumNatZero(s[..|s| - 1]);
      assert forall i :: 0 <= i < |s| - 1 ==> s[..|s| - 1][i] == s[i];
    }
  }

  lemma {:induction false} SumNatPrefix(s: seq<nat>, m: nat)
    requires m <= |s|
    ensures SumNat(s[..m]) <= SumNat(s)
  {
    if m == |s| {
      assert s[..m] == s;
    } else {
      SumNatPrefix(s[..|s| - 1], m);
      assert s[..|s| - 1][..m] == s[..m];
    }
  }

  /** Where every term outside a set is at least 1, the sum and the set together cover all positions. */
  lemma {:induction false} SumCovers(s: seq<nat>, done: set<nat>)
    requires forall i: nat :: i < |s| && i !in done ==> s[i] >= 1
    ensures SumNat(s) + |done| >= |s|
  {
    if s != [] {
      var last: nat := |s| - 1;
      var front := s[..last];
      assert forall i: nat :: i < |front| ==> front[i] == s[i];
      if last in done {
        SumCovers(front, done - {last});
      } else {
        SumCovers(front, done);
      }
    }
  }

  lemma SumOfTwo(s: seq<nat>, i: nat, j: nat)
    requires i < |s| && j < |s| && i != j
    ensures s[i] + s[j] <= SumNat(s)
  {
    SumNatUpdate(s, i, 0);
    SumNatUpdate(s[i := 0], j, 0);
  }

  /** Flags that are not all up sum to less than their number. */
  lemma SumFlagsBelow(s: seq<nat>, i: nat)
    requires i < |s| && s[i] == 0 && forall k :: 0 <= k < |s| ==> s[k] <= 1
    ensures SumNat(s) < |s|
  {
    SumNatUpdate(s, i, 1);
    SumFlagsAtMost(s[i := 1]);
  }

  lemma {:induction false} SumFlagsAtMost(s: seq<nat>)
    requires forall k :: 0 <= k < |s| ==> s[k] <= 1
    ensures SumNat(s) <= |s|
  {
    if s != [] {
      SumFlagsAtMost(s[..|s| - 1]);
    }
  }

  function SumReal(s: seq<real>): real
  {
    if s == [] then 0.0 else SumReal(s[..|s| - 1]) + s[|s| - 1]
  }

  lemma {:induction false} SumRealUpdate(s: seq<real>, i: nat, v: real)
    requires i < |s|
    ensures SumReal(s[i := v]) + s[i] == SumReal(s) + v
  {
    var front := s[..|s| - 1];
    if i == |s| - 1 {
      assert s[i := v][..|s| - 1] == front;
    } else {
      assert s[i := v][..|s| - 1] == front[i := v];
      SumRealUpdate(front, i, v);
    }
  }

  /** The sum of a map's values; SumMapRemove shows that no order of the keys matters. */
  ghost function SumMap(m: map<string, real>): real
    decreases |m|
  {
    if m == map[] then 0.0
    else
      var key :| key in m;
      m[key] + SumMap(m - {key})
  }

  lemma {:induction false} SumMapRemove(m: map<string, real>, key: string)
    requires key in m
    ensures SumMap(m) == m[key] + SumMap(m - {key})
    decreases |m|
  {
    var first :| first in m && SumMap(m) == m[first] + SumMap(m - {first});
    if first != key {
      SumMapRemove(m - {first}, key);
      SumMapRemove(m - {key}, first);
      assert m - {first} - {key} == m - {key} - {first};
    }
  }

  lemma SumMapAdd(m: map<string, real>, key: string, v: real)
    requires key !in m
    ensures SumMap(m[key := v]) == SumMap(m) + v
  {
    SumMapRemove(m[key := v], key);
    assert m[key := v] - {key} == m;
  }

  function SumBag<T>(s: seq<multiset<T>>): multiset<T>
  {
    if s == [] then multiset{} else SumBag(s[..|s| - 1]) + s[|s| - 1]
  }

  /** Filling an empty term adds what it is filled with. */
  lemma {:induction false} SumBagFill<T>(s: seq<multiset<T>>, i: nat, v: multiset<T>)
    requires i < |s| && s[i] == multiset{}
    ensures SumBag(s[i := v]) == SumBag(s) + v
  {
    var front := s[..|s| - 1];
    if i == |s| - 1 {
      assert s[i := v][..|s| - 1] == front;
    } else {
      assert s[i := v][..|s| - 1] == front[i := v];
      SumBagFill(front, i, v);
    }
  }

  lemma {:induction false} SumBagEmpty<T>(s: seq<multiset<T>>)
    requires forall i :: 0 <= i < |s| ==> s[i] == multiset{}
    ensures SumBag(s) == multiset{}
  {
    if s != [] {
      SumBagEmpty(s[..|s| - 1]);
    }
  }

  function Singletons<T>(s: seq<T>): seq<multiset<T>>
  {
    seq(|s|, i requires 0 <= i < |s| => multiset{s[i]})
  }

  lemma {:induction false} SumBagSingletons<T>(s: seq<T>)
    ensures SumBag(Singletons(s)) == multiset(s)
  {
    if s != [] {
      SumBagSingletons(s[..|s| - 1]);
      assert Singletons(s)[..|s| - 1] == Singletons(s[..|s| - 1]);
      assert s == s[..|s| - 1] + [s[|s| - 1]];
    }
  }
}
