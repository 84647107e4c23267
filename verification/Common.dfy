/** Small vocabulary shared by every model: options, map lookup, and enumerations of a set,
    which stand for the order in which a Go `range` over a map happens to visit it. */
module Common {

  datatype Option<+T> = None | Some(value: T)

  function Lookup<K, V>(m: map<K, V>, k: K): Option<V> {
    if k in m then Some(m[k]) else None
  }

  ghost predicate NoDuplicates<T>(s: seq<T>) {
    forall i, j :: 0 <= i < j < |s| ==> s[i] != s[j]
  }

  /** `order` visits every element of `s` exactly once. */
  ghost predicate Enumerates<T(!new)>(order: seq<T>, s: set<T>) {
    NoDuplicates(order) && forall x :: x in order <==> x in s
  }

  ghost function Elements<T>(s: seq<T>): set<T> {
    set x | x in s
  }

  /** Positions in a sequence of length `n`, from left to right. */
  ghost predicate Positions(at: seq<nat>, n: nat) {
    (forall k :: 0 <= k < |at| ==> at[k] < n) && forall j, k :: 0 <= j < k < |at| ==> at[j] < at[k]
  }

  function Keep<T>(s: seq<T>, p: T -> bool): seq<T> {
    if s == [] then [] else Keep(s[..|s| - 1], p) + (if p(s[|s| - 1]) then [s[|s| - 1]] else [])
  }

  lemma {:induction false} KeepInOrder<T>(s: seq<T>, p: T -> bool) returns (at: seq<nat>)
    ensures Positions(at, |s|) && forall i: nat :: i in at <==> i < |s| && p(s[i])
    ensures |Keep(s, p)| == |at| && forall k :: 0 <= k < |at| ==> Keep(s, p)[k] == s[at[k]]
  {
    if s == [] {
      at := [];
    } else {
      var n := |s| - 1;
      at := KeepInOrder(s[..n], p);
      if p(s[n]) { at := at + [n]; }
    }
  }

  lemma {:induction false} KeepSame<T>(s: seq<T>, p: T -> bool, q: T -> bool)
    requires forall x <- s :: p(x) == q(x)
    ensures Keep(s, p) == Keep(s, q)
  {
    if s == [] {
    } else {
      KeepSame(s[..|s| - 1], p, q);
    }
  }

  lemma {:induction false} KeepTwice<T>(s: seq<T>, p: T -> bool, q: T -> bool, both: T -> bool)
    requires forall x <- s :: both(x) == (p(x) && q(x))
    ensures Keep(Keep(s, p), q) == Keep(s, both)
  {
    if s == [] {
    } else {
      var n := |s| - 1;
      KeepTwice(s[..n], p, q, both);
      assert s[n] in s;
      if p(s[n]) {
        assert Keep(s, p)[..|Keep(s, p)| - 1] == Keep(s[..n], p);
      } else {
        assert Keep(s, p) == Keep(s[..n], p);
      }
    }
  }

  lemma EnumerationIsEmpty<T(!new)>(order: seq<T>, s: set<T>)
    requires Enumerates(order, s)
    ensures order == [] <==> s == {}
  {
    if order != [] { assert order[0] in s; }
  }

  lemma SameLookups<K(!new), V>(a: map<K, V>, c: map<K, V>)
    requires forall k :: Lookup(a, k) == Lookup(c, k)
    ensures a == c
  {
    assert forall k :: k in a <==> Lookup(a, k).Some?;
    assert forall k :: k in c <==> Lookup(c, k).Some?;
    assert forall k <- a :: Lookup(a, k) == Some(a[k]);
  }

  lemma EnumeratesMore<T(!new)>(order: seq<T>, s: set<T>, x: T)
    requires Enumerates(order, s) && x !in s
    ensures Enumerates(order + [x], s + {x})
  {
  }

  lemma InPrefixOrLast<T>(s: seq<T>, x: T)
    requires s != []
    ensures x in s <==> x in s[..|s| - 1] || x == s[|s| - 1]
  {
    assert s == s[..|s| - 1] + [s[|s| - 1]];
  }

  lemma LastIsNew<T>(s: seq<T>)
    requires s != [] && NoDuplicates(s)
    ensures NoDuplicates(s[..|s| - 1]) && s[|s| - 1] !in s[..|s| - 1]
  {
  }
}
