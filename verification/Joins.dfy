/** Hash joins over groups of series, and the nested loops they refine.

    A row is a list of series hashes.  An index (seriesTagIndex) is a map of rows whose keys play
    no part in a join; a rehashed set groups rows by the join key of their first series. */
module Joins {
  import opened Common

  type Row = seq<int>
  /** A key of an index: a tag hash, or the running number that flatten assigns. */
  datatype Slot = Slot(n: int)
  type Index = map<Slot, Row>
  type Metric = map<string, string>
  type Groups = map<string, seq<Row>>

  datatype JoinKind = InnerJoin | LeftJoin | RightJoin | LeftExclude | RightExclude
  datatype Join = Join(kind: JoinKind, ref: string, on: seq<string>)

  /** GetTargetTagHash, before digesting: the values of the labels to join on. */
  function TargetTag(m: Metric, on: seq<string>): string {
    if on == [] then ""
    else
      var k := on[|on| - 1];
      TargetTag(m, on[..|on| - 1]) + "/" + k + "/" + (if k in m then m[k] else "")
  }

  /** The series known by hash, and the labels to join on. */
  datatype Keying = Keying(store: map<int, Metric>, on: seq<string>) {
    /** The join key of a row; rows that are empty or whose first series is unknown have none. */
    function Of(r: Row): Option<string> {
      if r == [] || r[0] !in store then None else Some(TargetTag(store[r[0]], on))
    }
  }

  // ------------------------------------------------- what a join key tells

  function LabelValue(m: Metric, k: string): string {
    if k in m then m[k] else ""
  }

  function Slashes(s: string): nat {
    if s == "" then 0 else Slashes(s[..|s| - 1]) + if s[|s| - 1] == '/' then 1 else 0
  }

  lemma {:induction false} SlashesConcat(s: string, t: string)
    ensures Slashes(s + t) == Slashes(s) + Slashes(t)
  {
    if t == "" {
      assert s + t == s;
    } else {
      assert (s + t)[..|s + t| - 1] == s + t[..|t| - 1];
      SlashesConcat(s, t[..|t| - 1]);
    }
  }

  lemma {:induction false} NoSlashes(s: string)
    ensures Slashes(s) == 0 <==> '/' !in s
  {
    if s == "" {
    } else {
      NoSlashes(s[..|s| - 1]);
      InPrefixOrLast(s, '/');
    }
  }

  lemma TagSlashes(t: string, k: string, v: string)
    ensures Slashes(t + "/" + k + "/" + v) == Slashes(t) + Slashes(k) + Slashes(v) + 2
  {
    var slash: string := "/";
    assert slash[..0] == "";
    assert Slashes(slash) == 1;
    SlashesConcat(t + slash + k + slash, v);
    SlashesConcat(t + slash + k, slash);
    SlashesConcat(t + slash, k);
    SlashesConcat(t, slash);
  }

  predicate NoSlashIn(m: Metric, on: seq<string>) {
    forall k <- on :: '/' !in LabelValue(m, k)
  }

  /** The slashes that the labels themselves bring into a key. */
  function Weight(on: seq<string>): nat {
    if on == [] then 0 else Weight(on[..|on| - 1]) + Slashes(on[|on| - 1]) + 2
  }

  lemma {:induction false} TagWeight(m: Metric, on: seq<string>)
    ensures Slashes(TargetTag(m, on)) >= Weight(on)
    ensures Slashes(TargetTag(m, on)) == Weight(on) <==> NoSlashIn(m, on)
  {
    if on == [] {
    } else {
      var before, k := on[..|on| - 1], on[|on| - 1];
      TagWeight(m, before);
      TagSlashes(TargetTag(m, before), k, LabelValue(m, k));
      NoSlashes(LabelValue(m, k));
      assert on == before + [k];
    }
  }

  lemma LastSlash(a: string, v: string, a': string, v': string)
    requires '/' !in v && '/' !in v' && a + "/" + v == a' + "/" + v'
    ensures a == a' && v == v'
  {
    var s := a + "/" + v;
    assert s[|a|] == '/' && s[|a'|] == '/';
    assert a == s[..|a|] && a' == s[..|a'|];
    assert v == s[|a| + 1..] && v' == s[|a'| + 1..];
  }

  lemma SameTags(t: string, t': string, k: string, v: string, v': string)
    requires '/' !in v && '/' !in v'
    ensures t + "/" + k + "/" + v == t' + "/" + k + "/" + v' <==> t == t' && v == v'
  {
    var a, a' := t + "/" + k, t' + "/" + k;
    if a + "/" + v == a' + "/" + v' {
      LastSlash(a, v, a', v');
      assert t == a[..|a| - |k| - 1] && t' == a'[..|a'| - |k| - 1];
    }
  }

  /** A key without slashes in its label values is shared by exactly the series with the same label values. */
  lemma {:induction false} KeyIsValues(m: Metric, m': Metric, on: seq<string>)
    requires NoSlashIn(m, on)
    ensures TargetTag(m, on) == TargetTag(m', on) <==> forall k <- on :: LabelValue(m, k) == LabelValue(m', k)
  {
    if on == [] {
    } else {
      var before, k := on[..|on| - 1], on[|on| - 1];
      assert on == before + [k];
      KeyIsValues(m, m', before);
      assert TargetTag(m, on) == TargetTag(m', on) ==> NoSlashIn(m', on) by {
        TagWeight(m, on);
        TagWeight(m', on);
      }
      var v, v' := LabelValue(m, k), LabelValue(m', k);
      if '/' !in v' { SameTags(TargetTag(m, before), TargetTag(m', before), k, v, v'); }
    }
  }

  /** Slashes can make the keys of different values agree. */
  lemma KeysCollide(m: Metric, m': Metric, on: seq<string>)
    requires on == ["a", "b"] && m == map["a" := "1/b/2", "b" := "3"] && m' == map["a" := "1", "b" := "2/b/3"]
    ensures TargetTag(m, on) == TargetTag(m', on) && LabelValue(m, "a") != LabelValue(m', "a")
  {
    assert on[..1] == ["a"] && on[..1][..0] == [];
    assert TargetTag(m, on[..1]) == "/a/1/b/2";
    assert TargetTag(m', on[..1]) == "/a/1";
    assert m["a"][0] == m'["a"][0] && |m["a"]| != |m'["a"]|;
  }

  // ------------------------------------------------- nested-loop reference

  /** For each row of `bs` whose key is `k`: `a` followed by that row. */
  function Matches(c: Keying, a: Row, k: Option<string>, bs: seq<Row>): seq<Row> {
    if bs == [] then []
    else
      var b := bs[|bs| - 1];
      Matches(c, a, k, bs[..|bs| - 1]) + (if c.Of(b) == k then [a + b] else [])
  }

  predicate HasMatch(c: Keying, k: Option<string>, bs: seq<Row>) {
    exists b <- bs :: c.Of(b) == k
  }

  /** Two nested loops over the rows that have a key. */
  function Matched(c: Keying, ls: seq<Row>, rs: seq<Row>): seq<Row> {
    if ls == [] then []
    else
      var a := ls[|ls| - 1];
      Matched(c, ls[..|ls| - 1], rs) + (if c.Of(a).Some? then Matches(c, a, c.Of(a), rs) else [])
  }

  /** The rows with a key that no row of the other side shares. */
  function Unmatched(c: Keying, ls: seq<Row>, rs: seq<Row>): seq<Row> {
    if ls == [] then []
    else
      var a := ls[|ls| - 1];
      Unmatched(c, ls[..|ls| - 1], rs) + (if c.Of(a).Some? && !HasMatch(c, c.Of(a), rs) then [a] else [])
  }

  function Reference(c: Keying, kind: JoinKind, ls: seq<Row>, rs: seq<Row>): seq<Row> {
    match kind
    case InnerJoin => Matched(c, ls, rs)
    case LeftJoin => Matched(c, ls, rs) + Unmatched(c, ls, rs)
    case RightJoin => Matched(c, rs, ls) + Unmatched(c, rs, ls)
    case LeftExclude => Unmatched(c, ls, rs)
    case RightExclude => Unmatched(c, rs, ls)
  }

  /** The rows that have a key. */
  function Keyed(c: Keying, rows: seq<Row>): seq<Row> {
    if rows == [] then []
    else Keyed(c, rows[..|rows| - 1]) + (if c.Of(rows[|rows| - 1]).Some? then [rows[|rows| - 1]] else [])
  }

  /** A chain of joins by nested loops, each over the rows of its own query. */
  function ReferenceChain(c: Keying, base: seq<Row>, joins: seq<(JoinKind, seq<Row>)>): seq<Row> {
    if joins == [] then Keyed(c, base)
    else
      var j := joins[|joins| - 1];
      Reference(c, j.0, ReferenceChain(c, base, joins[..|joins| - 1]), j.1)
  }

  // ---------------------------------------------------------- hash joins

  /** All rows of a rehashed set, key by key. */
  function RowsIn(g: Groups, order: seq<string>): seq<Row>
    requires forall k <- order :: k in g
  {
    if order == [] then [] else RowsIn(g, order[..|order| - 1]) + g[order[|order| - 1]]
  }

  /** Append a row to its group. */
  function Extended(g: Groups, k: string, r: Row): Groups {
    g[k := (if k in g then g[k] else []) + [r]]
  }

  /** The rehashed set of `rows`. */
  function Regroup(c: Keying, rows: seq<Row>): Groups {
    if rows == [] then map[]
    else
      var r := rows[|rows| - 1];
      var g := Regroup(c, rows[..|rows| - 1]);
      if c.Of(r).None? then g
      else Extended(g, c.Of(r).value, r)
  }

  function Pairs(ls: seq<Row>, rs: seq<Row>): seq<Row> {
    if ls == [] then []
    else Pairs(ls[..|ls| - 1], rs) + Prefixed(ls[|ls| - 1], rs)
  }

  /** `a` in front of every row. */
  function Prefixed(a: Row, rs: seq<Row>): seq<Row> {
    seq(|rs|, i requires 0 <= i < |rs| => a + rs[i])
  }

  /** Combine the groups of equal key; keep the unmatched left groups unless the join is inner. */
  function OnJoin(g: Groups, d: Groups, inner: bool): Groups {
    map k | k in g && (if k in d then Pairs(g[k], d[k]) != [] else !inner) :: if k in d then Pairs(g[k], d[k]) else g[k]
  }

  function Exclude(g: Groups, d: Groups): Groups {
    map k | k in g && k !in d :: g[k]
  }

  function HashJoin(kind: JoinKind, last: Groups, cur: Groups): Groups {
    match kind
    case InnerJoin => OnJoin(last, cur, true)
    case LeftJoin => OnJoin(last, cur, false)
    case RightJoin => OnJoin(cur, last, false)
    case LeftExclude => Exclude(last, cur)
    case RightExclude => Exclude(cur, last)
  }

  function HashChain(c: Keying, base: seq<Row>, joins: seq<(JoinKind, seq<Row>)>): Groups {
    if joins == [] then Regroup(c, base)
    else
      var j := joins[|joins| - 1];
      HashJoin(j.0, HashChain(c, base, joins[..|joins| - 1]), Regroup(c, j.1))
  }

  // ------------------------------------------------------- bags of rows

  /** Summing a bag over a list does not depend on the list's order. */
  ghost function Sum<T>(f: T -> multiset<Row>, s: seq<T>): multiset<Row> {
    if s == [] then multiset{} else Sum(f, s[..|s| - 1]) + f(s[|s| - 1])
  }

  lemma {:induction false} SumConcat<T>(f: T -> multiset<Row>, s: seq<T>, t: seq<T>)
    ensures Sum(f, s + t) == Sum(f, s) + Sum(f, t)
  {
    if t == [] {
      assert s + t == s;
    } else {
      assert (s + t)[..|s + t| - 1] == s + t[..|t| - 1];
      SumConcat(f, s, t[..|t| - 1]);
    }
  }

  lemma TakeOut<T>(t: seq<T>, i: nat)
    requires i < |t|
    ensures multiset(t) == multiset(t[..i] + t[i + 1..]) + multiset{t[i]}
  {
    assert t == t[..i] + [t[i]] + t[i + 1..];
  }

  lemma Cancel<T>(a: multiset<T>, c: multiset<T>, x: T)
    requires a + multiset{x} == c + multiset{x}
    ensures a == c
  {
    assert a == (a + multiset{x}) - multiset{x};
    assert c == (c + multiset{x}) - multiset{x};
  }

  lemma {:induction false} SumTakeOut<T>(f: T -> multiset<Row>, t: seq<T>, i: nat)
    requires i < |t|
    ensures Sum(f, t) == Sum(f, t[..i] + t[i + 1..]) + f(t[i])
  {
    assert t == t[..i] + ([t[i]] + t[i + 1..]);
    SumConcat(f, t[..i], [t[i]] + t[i + 1..]);
    SumConcat(f, [t[i]], t[i + 1..]);
    SumConcat(f, t[..i], t[i + 1..]);
    assert [t[i]][..0] == [];
    assert Sum(f, [t[i]]) == multiset{} + f(t[i]);
  }

  lemma {:induction false} SumPermutes<T>(f: T -> multiset<Row>, s: seq<T>, t: seq<T>)
    requires multiset(s) == multiset(t)
    ensures Sum(f, s) == Sum(f, t)
  {
    if s == [] {
      assert |multiset(t)| == |t|;
    } else {
      var n := |s| - 1;
      assert s[n] in multiset(t);
      var i :| 0 <= i < |t| && t[i] == s[n];
      TakeOut(s, n);
      TakeOut(t, i);
      assert s[..n] + s[n + 1..] == s[..n];
      Cancel(multiset(s[..n]), multiset(t[..i] + t[i + 1..]), s[n]);
      SumPermutes(f, s[..n], t[..i] + t[i + 1..]);
      SumTakeOut(f, t, i);
    }
  }

  lemma {:induction false} SumCongruent<T>(f: T -> multiset<Row>, f': T -> multiset<Row>, s: seq<T>)
    requires forall x <- s :: f(x) == f'(x)
    ensures Sum(f, s) == Sum(f', s)
  {
    if s == [] {
    } else {
      SumCongruent(f, f', s[..|s| - 1]);
    }
  }

  lemma {:induction false} SameElements<T(!new)>(o: seq<T>, o': seq<T>, s: set<T>)
    requires Enumerates(o, s) && Enumerates(o', s)
    ensures multiset(o) == multiset(o')
  {
    forall x ensures multiset(o)[x] == multiset(o')[x] {
      CountInEnumeration(o, s, x);
      CountInEnumeration(o', s, x);
    }
  }

  lemma {:induction false} CountInEnumeration<T(!new)>(o: seq<T>, s: set<T>, x: T)
    requires Enumerates(o, s)
    ensures multiset(o)[x] == if x in s then 1 else 0
  {
    if o == [] {
    } else {
      var n := |o| - 1;
      assert o == o[..n] + [o[n]];
      assert Enumerates(o[..n], s - {o[n]}) by {
        assert forall y :: y in o <==> y in o[..n] || y == o[n];
      }
      CountInEnumeration(o[..n], s - {o[n]}, x);
    }
  }

  // ------------------------------------ the reference is a join of bags

  ghost function MatchBag(c: Keying, a: Row, k: Option<string>): Row -> multiset<Row> {
    b => if c.Of(b) == k then multiset{a + b} else multiset{}
  }

  ghost function MatchedBag(c: Keying, rs: seq<Row>): Row -> multiset<Row> {
    a => if c.Of(a).Some? then multiset(Matches(c, a, c.Of(a), rs)) else multiset{}
  }

  ghost function UnmatchedBag(c: Keying, rs: seq<Row>): Row -> multiset<Row> {
    a => if c.Of(a).Some? && !HasMatch(c, c.Of(a), rs) then multiset{a} else multiset{}
  }

  lemma {:induction false} MatchesIsSum(c: Keying, a: Row, k: Option<string>, bs: seq<Row>)
    ensures multiset(Matches(c, a, k, bs)) == Sum(MatchBag(c, a, k), bs)
  {
    if bs == [] {
    } else {
      MatchesIsSum(c, a, k, bs[..|bs| - 1]);
    }
  }

  lemma {:induction false} MatchedIsSum(c: Keying, ls: seq<Row>, rs: seq<Row>)
    ensures multiset(Matched(c, ls, rs)) == Sum(MatchedBag(c, rs), ls)
  {
    if ls == [] {
    } else {
      MatchedIsSum(c, ls[..|ls| - 1], rs);
    }
  }

  lemma {:induction false} UnmatchedIsSum(c: Keying, ls: seq<Row>, rs: seq<Row>)
    ensures multiset(Unmatched(c, ls, rs)) == Sum(UnmatchedBag(c, rs), ls)
  {
    if ls == [] {
    } else {
      UnmatchedIsSum(c, ls[..|ls| - 1], rs);
    }
  }

  lemma MatchedPermutes(c: Keying, ls: seq<Row>, ls': seq<Row>, rs: seq<Row>, rs': seq<Row>)
    requires multiset(ls) == multiset(ls') && multiset(rs) == multiset(rs')
    ensures multiset(Matched(c, ls, rs)) == multiset(Matched(c, ls', rs'))
  {
    MatchedIsSum(c, ls, rs);
    MatchedIsSum(c, ls', rs');
    forall a <- ls ensures MatchedBag(c, rs)(a) == MatchedBag(c, rs')(a) {
      MatchesIsSum(c, a, c.Of(a), rs);
      MatchesIsSum(c, a, c.Of(a), rs');
      SumPermutes(MatchBag(c, a, c.Of(a)), rs, rs');
    }
    SumCongruent(MatchedBag(c, rs), MatchedBag(c, rs'), ls);
    SumPermutes(MatchedBag(c, rs'), ls, ls');
  }

  lemma UnmatchedPermutes(c: Keying, ls: seq<Row>, ls': seq<Row>, rs: seq<Row>, rs': seq<Row>)
    requires multiset(ls) == multiset(ls') && multiset(rs) == multiset(rs')
    ensures multiset(Unmatched(c, ls, rs)) == multiset(Unmatched(c, ls', rs'))
  {
    UnmatchedIsSum(c, ls, rs);
    UnmatchedIsSum(c, ls', rs');
    assert forall r :: r in rs <==> r in multiset(rs);
    assert forall r :: r in rs' <==> r in multiset(rs');
    SumCongruent(UnmatchedBag(c, rs), UnmatchedBag(c, rs'), ls);
    SumPermutes(UnmatchedBag(c, rs'), ls, ls');
  }

  /** The nested loops yield the same bag whatever the order of the operands' rows. */
  lemma ReferencePermutes(c: Keying, kind: JoinKind, ls: seq<Row>, ls': seq<Row>, rs: seq<Row>, rs': seq<Row>)
    requires multiset(ls) == multiset(ls') && multiset(rs) == multiset(rs')
    ensures multiset(Reference(c, kind, ls, rs)) == multiset(Reference(c, kind, ls', rs'))
  {
    MatchedPermutes(c, ls, ls', rs, rs');
    MatchedPermutes(c, rs, rs', ls, ls');
    UnmatchedPermutes(c, ls, ls', rs, rs');
    UnmatchedPermutes(c, rs, rs', ls, ls');
  }

  // ---------------------------------------------- rows without a key

  lemma {:induction false} KeyedMatches(c: Keying, a: Row, k: Option<string>, bs: seq<Row>)
    requires k.Some?
    ensures Matches(c, a, k, Keyed(c, bs)) == Matches(c, a, k, bs)
  {
    if bs == [] {
    } else {
      KeyedMatches(c, a, k, bs[..|bs| - 1]);
      var before, b := Keyed(c, bs[..|bs| - 1]), bs[|bs| - 1];
      assert (before + [b])[..|before|] == before;
      assert before + [] == before;
    }
  }

  lemma {:induction false} KeyedMembers(c: Keying, rows: seq<Row>)
    ensures forall r :: r in Keyed(c, rows) <==> r in rows && c.Of(r).Some?
  {
    if rows == [] {
    } else {
      KeyedMembers(c, rows[..|rows| - 1]);
      assert rows == rows[..|rows| - 1] + [rows[|rows| - 1]];
    }
  }

  lemma {:induction false} KeyedMatched(c: Keying, ls: seq<Row>, rs: seq<Row>)
    ensures Matched(c, Keyed(c, ls), Keyed(c, rs)) == Matched(c, ls, rs)
    ensures Unmatched(c, Keyed(c, ls), Keyed(c, rs)) == Unmatched(c, ls, rs)
  {
    if ls == [] {
    } else {
      KeyedMatched(c, ls[..|ls| - 1], rs);
      var before, a := Keyed(c, ls[..|ls| - 1]), ls[|ls| - 1];
      assert (before + [a])[..|before|] == before;
      assert before + [] == before;
      KeyedMembers(c, rs);
      if c.Of(a).Some? { KeyedMatches(c, a, c.Of(a), rs); }
    }
  }

  lemma KeyedReference(c: Keying, kind: JoinKind, ls: seq<Row>, rs: seq<Row>)
    ensures Reference(c, kind, Keyed(c, ls), Keyed(c, rs)) == Reference(c, kind, ls, rs)
  {
    KeyedMatched(c, ls, rs);
    KeyedMatched(c, rs, ls);
  }

  lemma {:induction false} KeyedTwice(c: Keying, rows: seq<Row>)
    requires forall r <- rows :: c.Of(r).Some?
    ensures Keyed(c, rows) == rows
  {
    if rows == [] {
    } else {
      KeyedTwice(c, rows[..|rows| - 1]);
      assert rows == rows[..|rows| - 1] + [rows[|rows| - 1]];
    }
  }

  // --------------------------------------------- hash joins as bag joins

  /** Every group is nonempty and holds rows of its own key only. */
  ghost predicate Grouped(c: Keying, g: Groups) {
    forall k <- g :: g[k] != [] && forall r <- g[k] :: c.Of(r) == Some(k)
  }

  ghost function GroupBag(g: Groups): string -> multiset<Row> {
    k => if k in g then multiset(g[k]) else multiset{}
  }

  lemma {:induction false} RowsInIsSum(g: Groups, order: seq<string>)
    requires forall k <- order :: k in g
    ensures multiset(RowsIn(g, order)) == Sum(GroupBag(g), order)
  {
    if order == [] {
    } else {
      RowsInIsSum(g, order[..|order| - 1]);
    }
  }

  /** The rows of a rehashed set, as a bag. */
  ghost function Bag(g: Groups): multiset<Row> {
    Sum(GroupBag(g), SomeOrder(g.Keys))
  }

  ghost function SomeOrder<T(!new)>(s: set<T>): (order: seq<T>)
    ensures Enumerates(order, s)
  {
    if s == {} then []
    else
      var x :| x in s;
      EnumeratesMore(SomeOrder(s - {x}), s - {x}, x);
      assert s - {x} + {x} == s;
      SomeOrder(s - {x}) + [x]
  }

  lemma BagInAnyOrder(g: Groups, order: seq<string>)
    requires Enumerates(order, g.Keys)
    ensures Bag(g) == multiset(RowsIn(g, order)) == Sum(GroupBag(g), order)
  {
    RowsInIsSum(g, order);
    SameElements(order, SomeOrder(g.Keys), g.Keys);
    SumPermutes(GroupBag(g), order, SomeOrder(g.Keys));
  }

  lemma {:induction false} RegroupIsGrouped(c: Keying, rows: seq<Row>)
    ensures Grouped(c, Regroup(c, rows))
  {
    if rows == [] {
    } else {
      RegroupIsGrouped(c, rows[..|rows| - 1]);
    }
  }

  lemma BagSplit(g: Groups, k: string)
    ensures Bag(g) == Sum(GroupBag(g), SomeOrder(g.Keys - {k})) + GroupBag(g)(k)
  {
    var order := SomeOrder(g.Keys - {k});
    if k in g {
      EnumeratesMore(order, g.Keys - {k}, k);
      assert g.Keys - {k} + {k} == g.Keys;
      BagInAnyOrder(g, order + [k]);
      SumConcat(GroupBag(g), order, [k]);
      SumOne(GroupBag(g), k);
    } else {
      assert g.Keys - {k} == g.Keys;
      BagInAnyOrder(g, order);
    }
  }

  lemma SumOne<T>(f: T -> multiset<Row>, x: T)
    ensures Sum(f, [x]) == f(x)
  {
    assert [x][..0] == [];
    assert Sum(f, [x]) == multiset{} + f(x);
  }

  lemma SameElsewhere(g: Groups, k: string, r: Row, order: seq<string>)
    requires k !in order
    ensures Sum(GroupBag(g), order) == Sum(GroupBag(Extended(g, k, r)), order)
  {
    forall j <- order ensures GroupBag(g)(j) == GroupBag(Extended(g, k, r))(j) { GroupBagExtended(g, k, r, j); }
    SumCongruent(GroupBag(g), GroupBag(Extended(g, k, r)), order);
  }

  lemma BagUpdate(g: Groups, k: string, r: Row)
    ensures Bag(Extended(g, k, r)) == Bag(g) + multiset{r}
  {
    var g', order := Extended(g, k, r), SomeOrder(g.Keys - {k});
    calc {
      Bag(g');
      { BagSplit(g', k); assert g'.Keys - {k} == g.Keys - {k}; }
      Sum(GroupBag(g'), order) + GroupBag(g')(k);
      { SameElsewhere(g, k, r, order); GroupBagExtended(g, k, r, k); }
      Sum(GroupBag(g), order) + (GroupBag(g)(k) + multiset{r});
      { BagSplit(g, k); }
      Bag(g) + multiset{r};
    }
  }

  lemma GroupBagExtended(g: Groups, k: string, r: Row, j: string)
    ensures GroupBag(Extended(g, k, r))(j) == GroupBag(g)(j) + (if j == k then multiset{r} else multiset{})
  {
    var old' := if k in g then g[k] else [];
    assert multiset(old' + [r]) == multiset(old') + multiset{r};
  }

  /** Rehashing loses no row that has a key and invents none. */
  lemma {:induction false} RegroupBag(c: Keying, rows: seq<Row>)
    ensures Bag(Regroup(c, rows)) == multiset(Keyed(c, rows))
  {
    if rows != [] {
      var before, r := rows[..|rows| - 1], rows[|rows| - 1];
      RegroupBag(c, before);
      if c.Of(r).Some? { BagUpdate(Regroup(c, before), c.Of(r).value, r); }
    } else {
      EnumerationIsEmpty(SomeOrder(Regroup(c, rows).Keys), {});
    }
  }

  /** The rows of key `k`, in order. */
  function WithKey(c: Keying, k: Option<string>, rs: seq<Row>): seq<Row> {
    if rs == [] then []
    else WithKey(c, k, rs[..|rs| - 1]) + (if c.Of(rs[|rs| - 1]) == k then [rs[|rs| - 1]] else [])
  }

  lemma {:induction false} MatchesWithKey(c: Keying, a: Row, k: Option<string>, rs: seq<Row>)
    ensures Matches(c, a, k, rs) == Prefixed(a, WithKey(c, k, rs))
  {
    if rs == [] {
    } else {
      MatchesWithKey(c, a, k, rs[..|rs| - 1]);
    }
  }

  lemma {:induction false} WithKeyConcat(c: Keying, k: Option<string>, rs: seq<Row>, ts: seq<Row>)
    ensures WithKey(c, k, rs + ts) == WithKey(c, k, rs) + WithKey(c, k, ts)
  {
    if ts == [] {
      assert rs + ts == rs;
    } else {
      assert (rs + ts)[..|rs + ts| - 1] == rs + ts[..|ts| - 1];
      WithKeyConcat(c, k, rs, ts[..|ts| - 1]);
    }
  }

  lemma {:induction false} WithKeyUniform(c: Keying, k: Option<string>, rs: seq<Row>, own: bool)
    requires forall r <- rs :: (c.Of(r) == k) == own
    ensures WithKey(c, k, rs) == if own then rs else []
  {
    if rs == [] {
    } else {
      WithKeyUniform(c, k, rs[..|rs| - 1], own);
      assert rs == rs[..|rs| - 1] + [rs[|rs| - 1]];
    }
  }

  /** Picking a key out of a rehashed set gives its group. */
  lemma {:induction false} WithKeyOfGroups(c: Keying, d: Groups, order: seq<string>, k: string)
    requires Grouped(c, d) && NoDuplicates(order) && forall j <- order :: j in d
    ensures WithKey(c, Some(k), RowsIn(d, order)) == if k in order then d[k] else []
  {
    if order == [] {
    } else {
      var n := |order| - 1;
      WithKeyOfGroups(c, d, order[..n], k);
      WithKeyConcat(c, Some(k), RowsIn(d, order[..n]), d[order[n]]);
      WithKeyUniform(c, Some(k), d[order[n]], order[n] == k);
      InPrefixOrLast(order, k);
      LastIsNew(order);
    }
  }

  lemma {:induction false} PairsAreMatched(c: Keying, ls: seq<Row>, k: string, rs: seq<Row>)
    requires forall a <- ls :: c.Of(a) == Some(k)
    ensures Matched(c, ls, rs) == Pairs(ls, WithKey(c, Some(k), rs))
  {
    if ls == [] {
    } else {
      var n := |ls| - 1;
      PairsAreMatched(c, ls[..n], k, rs);
      MatchesWithKey(c, ls[n], Some(k), rs);
      assert c.Of(ls[n]) == Some(k);
    }
  }

  lemma {:induction false} NoneUnmatched(c: Keying, ls: seq<Row>, k: string, rs: seq<Row>)
    requires HasMatch(c, Some(k), rs) && forall a <- ls :: c.Of(a) == Some(k)
    ensures Unmatched(c, ls, rs) == []
  {
    if ls == [] {
    } else {
      NoneUnmatched(c, ls[..|ls| - 1], k, rs);
      assert c.Of(ls[|ls| - 1]) == Some(k);
    }
  }

  lemma {:induction false} AllUnmatched(c: Keying, ls: seq<Row>, k: string, rs: seq<Row>)
    requires !HasMatch(c, Some(k), rs) && forall a <- ls :: c.Of(a) == Some(k)
    ensures Unmatched(c, ls, rs) == ls
  {
    if ls == [] {
    } else {
      AllUnmatched(c, ls[..|ls| - 1], k, rs);
      assert c.Of(ls[|ls| - 1]) == Some(k);
      assert ls == ls[..|ls| - 1] + [ls[|ls| - 1]];
    }
  }

  lemma {:induction false} MatchedConcat(c: Keying, ls: seq<Row>, ts: seq<Row>, rs: seq<Row>)
    ensures Matched(c, ls + ts, rs) == Matched(c, ls, rs) + Matched(c, ts, rs)
  {
    if ts == [] {
      assert ls + ts == ls;
    } else {
      var n := |ts| - 1;
      assert (ls + ts)[..|ls + ts| - 1] == ls + ts[..n];
      assert (ls + ts)[|ls + ts| - 1] == ts[n];
      MatchedConcat(c, ls, ts[..n], rs);
    }
  }

  lemma {:induction false} UnmatchedConcat(c: Keying, ls: seq<Row>, ts: seq<Row>, rs: seq<Row>)
    ensures Unmatched(c, ls + ts, rs) == Unmatched(c, ls, rs) + Unmatched(c, ts, rs)
  {
    if ts == [] {
      assert ls + ts == ls;
    } else {
      var n := |ts| - 1;
      assert (ls + ts)[..|ls + ts| - 1] == ls + ts[..n];
      assert (ls + ts)[|ls + ts| - 1] == ts[n];
      UnmatchedConcat(c, ls, ts[..n], rs);
    }
  }

  lemma {:induction false} WithKeyNonempty(c: Keying, k: Option<string>, rs: seq<Row>)
    ensures WithKey(c, k, rs) != [] <==> HasMatch(c, k, rs)
  {
    if rs == [] {
    } else {
      WithKeyNonempty(c, k, rs[..|rs| - 1]);
      assert rs == rs[..|rs| - 1] + [rs[|rs| - 1]];
    }
  }

  /** What one left group contributes to a join with `d`. */
  lemma GroupJoin(c: Keying, g: Groups, d: Groups, order: seq<string>, k: string)
    requires Grouped(c, g) && Grouped(c, d) && Enumerates(order, d.Keys) && k in g
    ensures Matched(c, g[k], RowsIn(d, order)) == if k in d then Pairs(g[k], d[k]) else []
    ensures Unmatched(c, g[k], RowsIn(d, order)) == if k in d then [] else g[k]
  {
    PairsAreMatched(c, g[k], k, RowsIn(d, order));
    if HasMatch(c, Some(k), RowsIn(d, order)) {
      NoneUnmatched(c, g[k], k, RowsIn(d, order));
    } else {
      AllUnmatched(c, g[k], k, RowsIn(d, order));
    }
    WithKeyOfGroups(c, d, order, k);
    WithKeyNonempty(c, Some(k), RowsIn(d, order));
    PairsWithNone(g[k]);
  }

  lemma {:induction false} PairsWithNone(ls: seq<Row>)
    ensures Pairs(ls, []) == []
  {
    if ls == [] {
    } else {
      PairsWithNone(ls[..|ls| - 1]);
    }
  }

  /** The bag of a join, summed over all left keys. */
  lemma {:induction false} MatchedByKey(c: Keying, g: Groups, d: Groups, lo: seq<string>, ro: seq<string>)
    requires Grouped(c, g) && Grouped(c, d) && Enumerates(ro, d.Keys) && forall k <- lo :: k in g
    ensures multiset(Matched(c, RowsIn(g, lo), RowsIn(d, ro))) == Sum(GroupBag(OnJoin(g, d, true)), lo)
    ensures multiset(Unmatched(c, RowsIn(g, lo), RowsIn(d, ro))) == Sum(GroupBag(Exclude(g, d)), lo)
  {
    if lo == [] {
    } else {
      var n := |lo| - 1;
      var k := lo[n];
      MatchedByKey(c, g, d, lo[..n], ro);
      MatchedConcat(c, RowsIn(g, lo[..n]), g[k], RowsIn(d, ro));
      UnmatchedConcat(c, RowsIn(g, lo[..n]), g[k], RowsIn(d, ro));
      GroupJoin(c, g, d, ro, k);
      assert k in g;
    }
  }

  function Inside(lo: seq<string>, h: Groups): seq<string> {
    if lo == [] then []
    else Inside(lo[..|lo| - 1], h) + (if lo[|lo| - 1] in h then [lo[|lo| - 1]] else [])
  }

  lemma {:induction false} InsideMembers(lo: seq<string>, h: Groups)
    requires NoDuplicates(lo)
    ensures NoDuplicates(Inside(lo, h)) && forall k :: k in Inside(lo, h) <==> k in lo && k in h
  {
    if lo == [] {
    } else {
      LastIsNew(lo);
      InsideMembers(lo[..|lo| - 1], h);
      forall k ensures k in lo <==> k in lo[..|lo| - 1] || k == lo[|lo| - 1] { InPrefixOrLast(lo, k); }
    }
  }

  lemma {:induction false} InsideSum(lo: seq<string>, h: Groups)
    ensures Sum(GroupBag(h), lo) == Sum(GroupBag(h), Inside(lo, h))
  {
    if lo == [] {
    } else {
      var before, k := Inside(lo[..|lo| - 1], h), lo[|lo| - 1];
      InsideSum(lo[..|lo| - 1], h);
      SumConcat(GroupBag(h), before, [k]);
      SumOne(GroupBag(h), k);
      assert before + [] == before;
    }
  }

  /** Keys that contribute nothing can be left out of a sum. */
  lemma SumOverMore(h: Groups, lo: seq<string>)
    requires NoDuplicates(lo) && forall k <- h :: k in lo
    ensures Sum(GroupBag(h), lo) == Bag(h)
  {
    InsideMembers(lo, h);
    InsideSum(lo, h);
    BagInAnyOrder(h, Inside(lo, h));
  }

  /** An outer join is the inner join and the exclusion, side by side. */
  lemma OuterIsInnerPlusExclude(c: Keying, g: Groups, d: Groups)
    requires Grouped(c, g) && Grouped(c, d)
    ensures Bag(OnJoin(g, d, false)) == Bag(OnJoin(g, d, true)) + Bag(Exclude(g, d))
  {
    var lo := SomeOrder(g.Keys);
    SumOverMore(OnJoin(g, d, false), lo);
    SumOverMore(OnJoin(g, d, true), lo);
    SumOverMore(Exclude(g, d), lo);
    OuterSum(g, d, lo);
  }

  lemma OuterBag(g: Groups, d: Groups, k: string)
    requires k in g
    ensures GroupBag(OnJoin(g, d, false))(k) == GroupBag(OnJoin(g, d, true))(k) + GroupBag(Exclude(g, d))(k)
  {
  }

  lemma AddBags<T>(a: multiset<T>, b: multiset<T>, a1: multiset<T>, b1: multiset<T>, a2: multiset<T>, b2: multiset<T>)
    requires a == a1 + a2 && b == b1 + b2
    ensures a + b == (a1 + b1) + (a2 + b2)
  {
  }

  lemma {:induction false} OuterSum(g: Groups, d: Groups, lo: seq<string>)
    requires forall k <- lo :: k in g
    ensures Sum(GroupBag(OnJoin(g, d, false)), lo) ==
            Sum(GroupBag(OnJoin(g, d, true)), lo) + Sum(GroupBag(Exclude(g, d)), lo)
  {
    if lo == [] {
    } else {
      var n := |lo| - 1;
      var outer, inner, rest := GroupBag(OnJoin(g, d, false)), GroupBag(OnJoin(g, d, true)), GroupBag(Exclude(g, d));
      OuterSum(g, d, lo[..n]);
      OuterBag(g, d, lo[n]);
      AddBags(Sum(outer, lo[..n]), outer(lo[n]), Sum(inner, lo[..n]), inner(lo[n]), Sum(rest, lo[..n]), rest(lo[n]));
    }
  }

  lemma JoinsAreBags(c: Keying, g: Groups, d: Groups, lo: seq<string>, ro: seq<string>)
    requires Grouped(c, g) && Grouped(c, d) && Enumerates(lo, g.Keys) && Enumerates(ro, d.Keys)
    ensures Bag(OnJoin(g, d, true)) == multiset(Matched(c, RowsIn(g, lo), RowsIn(d, ro)))
    ensures Bag(Exclude(g, d)) == multiset(Unmatched(c, RowsIn(g, lo), RowsIn(d, ro)))
  {
    MatchedByKey(c, g, d, lo, ro);
    SumOverMore(OnJoin(g, d, true), lo);
    SumOverMore(Exclude(g, d), lo);
  }

  /** One hash join of any kind yields exactly the rows of the nested loops. */
  lemma HashJoinIsReference(c: Keying, kind: JoinKind, g: Groups, d: Groups, lo: seq<string>, ro: seq<string>)
    requires Grouped(c, g) && Grouped(c, d) && Enumerates(lo, g.Keys) && Enumerates(ro, d.Keys)
    ensures Bag(HashJoin(kind, g, d)) == multiset(Reference(c, kind, RowsIn(g, lo), RowsIn(d, ro)))
  {
    JoinsAreBags(c, g, d, lo, ro);
    JoinsAreBags(c, d, g, ro, lo);
    OuterIsInnerPlusExclude(c, g, d);
    OuterIsInnerPlusExclude(c, d, g);
  }

  lemma {:induction false} PairsKeepKey(c: Keying, ls: seq<Row>, rs: seq<Row>, k: string)
    requires forall a <- ls :: c.Of(a) == Some(k)
    ensures forall r <- Pairs(ls, rs) :: c.Of(r) == Some(k)
  {
    if ls == [] {
    } else {
      PairsKeepKey(c, ls[..|ls| - 1], rs, k);
      var a := ls[|ls| - 1];
      assert c.Of(a) == Some(k);
      assert forall i :: 0 <= i < |rs| ==> (a + rs[i])[0] == a[0];
    }
  }

  lemma HashJoinIsGrouped(c: Keying, kind: JoinKind, g: Groups, d: Groups)
    requires Grouped(c, g) && Grouped(c, d)
    ensures Grouped(c, HashJoin(kind, g, d))
  {
    forall k | k in g && k in d
      ensures forall r <- Pairs(g[k], d[k]) :: c.Of(r) == Some(k)
      ensures forall r <- Pairs(d[k], g[k]) :: c.Of(r) == Some(k)
    {
      PairsKeepKey(c, g[k], d[k], k);
      PairsKeepKey(c, d[k], g[k], k);
    }
  }

  lemma {:induction false} MatchesKeepKey(c: Keying, a: Row, k: Option<string>, rs: seq<Row>)
    requires c.Of(a).Some?
    ensures forall r <- Matches(c, a, k, rs) :: c.Of(r) == c.Of(a)
  {
    if rs == [] {
    } else {
      MatchesKeepKey(c, a, k, rs[..|rs| - 1]);
    }
  }

  lemma {:induction false} JoinedHaveKeys(c: Keying, ls: seq<Row>, rs: seq<Row>)
    ensures forall r <- Matched(c, ls, rs) :: c.Of(r).Some?
    ensures forall r <- Unmatched(c, ls, rs) :: c.Of(r).Some?
  {
    if ls == [] {
    } else {
      JoinedHaveKeys(c, ls[..|ls| - 1], rs);
      var a := ls[|ls| - 1];
      if c.Of(a).Some? { MatchesKeepKey(c, a, c.Of(a), rs); }
    }
  }

  lemma ChainIsKeyed(c: Keying, base: seq<Row>, joins: seq<(JoinKind, seq<Row>)>)
    ensures forall r <- ReferenceChain(c, base, joins) :: c.Of(r).Some?
  {
    if joins == [] {
      KeyedMembers(c, base);
    } else {
      var j := joins[|joins| - 1];
      var ls := ReferenceChain(c, base, joins[..|joins| - 1]);
      JoinedHaveKeys(c, ls, j.1);
      JoinedHaveKeys(c, j.1, ls);
    }
  }

  /** Hash joins refine nested loops, for any chain of them that shares one `On`: the output is, as
      a bag, exactly what the nested loops produce. */
  lemma {:induction false} HashChainIsReference(c: Keying, base: seq<Row>, joins: seq<(JoinKind, seq<Row>)>)
    ensures Grouped(c, HashChain(c, base, joins))
    ensures Bag(HashChain(c, base, joins)) == multiset(ReferenceChain(c, base, joins))
  {
    if joins == [] {
      RegroupIsGrouped(c, base);
      RegroupBag(c, base);
    } else {
      var j := joins[|joins| - 1];
      var before := joins[..|joins| - 1];
      HashChainIsReference(c, base, before);
      var g, d := HashChain(c, base, before), Regroup(c, j.1);
      RegroupIsGrouped(c, j.1);
      RegroupBag(c, j.1);
      HashJoinIsGrouped(c, j.0, g, d);
      var lo, ro := SomeOrder(g.Keys), SomeOrder(d.Keys);
      HashJoinIsReference(c, j.0, g, d, lo, ro);
      BagInAnyOrder(g, lo);
      BagInAnyOrder(d, ro);
      var ls := ReferenceChain(c, base, before);
      ReferencePermutes(c, j.0, RowsIn(g, lo), ls, RowsIn(d, ro), Keyed(c, j.1));
      ChainIsKeyed(c, base, before);
      KeyedTwice(c, ls);
      KeyedReference(c, j.0, ls, j.1);
    }
  }

  // ------------------------------------- inner joins, spelled out

  function InnerJoins(rels: seq<seq<Row>>): seq<(JoinKind, seq<Row>)> {
    seq(|rels|, i requires 0 <= i < |rels| => (InnerJoin, rels[i]))
  }

  function Concat(parts: seq<Row>): Row {
    if parts == [] then [] else Concat(parts[..|parts| - 1]) + parts[|parts| - 1]
  }

  /** Every choice in `ts` followed by every row of `rel`, position by position. */
  function ChooseMore(ts: seq<seq<Row>>, rel: seq<Row>): seq<seq<Row>> {
    if ts == [] then [] else ChooseMore(ts[..|ts| - 1], rel) + Continue(ts[|ts| - 1], rel)
  }

  function Continue(t: seq<Row>, rel: seq<Row>): seq<seq<Row>> {
    if rel == [] then [] else Continue(t, rel[..|rel| - 1]) + [t + [rel[|rel| - 1]]]
  }

  /** All ways to choose a position in the base and in each further query, as the rows chosen; a row that
      occurs several times is chosen as often. */
  function Choices(base: seq<Row>, rels: seq<seq<Row>>): seq<seq<Row>> {
    if rels == [] then Continue([], base)
    else ChooseMore(Choices(base, rels[..|rels| - 1]), rels[|rels| - 1])
  }

  /** The rows have keys, and one and the same. */
  predicate Agree(c: Keying, parts: seq<Row>) {
    parts != [] && c.Of(parts[0]).Some? && forall i :: 0 < i < |parts| ==> c.Of(parts[i]) == c.Of(parts[0])
  }

  /** The concatenations of the choices whose keys agree. */
  function Agreeing(c: Keying, ts: seq<seq<Row>>): seq<Row> {
    if ts == [] then []
    else Agreeing(c, ts[..|ts| - 1]) + (if Agree(c, ts[|ts| - 1]) then [Concat(ts[|ts| - 1])] else [])
  }

  lemma {:induction false} ContinueAt(t: seq<Row>, rel: seq<Row>, j: nat)
    requires j < |rel|
    ensures |Continue(t, rel)| == |rel| && Continue(t, rel)[j] == t + [rel[j]]
  {
    var n := |rel| - 1;
    if n > 0 { ContinueAt(t, rel[..n], if j < n then j else 0); }
  }

  lemma {:induction false} ChooseLength(ts: seq<seq<Row>>, rel: seq<Row>)
    ensures |ChooseMore(ts, rel)| == |ts| * |rel|
  {
    if ts == [] {
    } else {
      var n := |ts| - 1;
      ChooseLength(ts[..n], rel);
      assert |Continue(ts[n], rel)| == |rel| by {
        if rel != [] { ContinueAt(ts[n], rel, 0); }
      }
      calc {
        |ChooseMore(ts, rel)|;
        |ChooseMore(ts[..n], rel)| + |rel|;
        n * |rel| + |rel|;
        { Distribute(n, |rel|); }
        |ts| * |rel|;
      }
    }
  }

  lemma Distribute(n: nat, k: nat)
    ensures n * k + k == (n + 1) * k
  {
  }

  /** One choice for each pair of positions. */
  lemma {:induction false} ChooseAt(ts: seq<seq<Row>>, rel: seq<Row>, i: nat, j: nat)
    requires i < |ts| && j < |rel|
    ensures 0 <= i * |rel| + j < |ChooseMore(ts, rel)| && ChooseMore(ts, rel)[i * |rel| + j] == ts[i] + [rel[j]]
  {
    var n := |ts| - 1;
    ChooseLength(ts, rel);
    PositionBound(i, j, |ts|, |rel|);
    ChooseLength(ts[..n], rel);
    if i < n {
      ChooseAt(ts[..n], rel, i, j);
    } else {
      ContinueAt(ts[n], rel, j);
    }
  }

  lemma PositionBound(i: nat, j: nat, n: nat, m: nat)
    requires i < n && j < m
    ensures 0 <= i * m + j < n * m
  {
    assert (i + 1) * m <= n * m && i * m >= 0;
  }

  lemma {:induction false} ConcatKey(c: Keying, parts: seq<Row>)
    requires parts != [] && c.Of(parts[0]).Some?
    ensures c.Of(Concat(parts)) == c.Of(parts[0])
  {
    if |parts| == 1 {
    } else {
      ConcatKey(c, parts[..|parts| - 1]);
    }
  }

  lemma {:induction false} AgreeingConcat(c: Keying, ts: seq<seq<Row>>, us: seq<seq<Row>>)
    ensures Agreeing(c, ts + us) == Agreeing(c, ts) + Agreeing(c, us)
  {
    if us == [] {
      assert ts + us == ts;
    } else {
      assert (ts + us)[..|ts + us| - 1] == ts + us[..|us| - 1];
      AgreeingConcat(c, ts, us[..|us| - 1]);
    }
  }

  lemma AgreeMore(c: Keying, t: seq<Row>, b: Row)
    requires t != []
    ensures Agree(c, t + [b]) <==> Agree(c, t) && c.Of(b) == c.Of(t[0])
    ensures Concat(t + [b]) == Concat(t) + b
  {
    var u := t + [b];
    assert u[..|t|] == t && u[|t|] == b && u[0] == t[0];
    assert forall i :: 0 <= i < |t| ==> u[i] == t[i];
  }

  lemma {:induction false} ContinueAgrees(c: Keying, t: seq<Row>, rel: seq<Row>)
    requires t != []
    ensures Agreeing(c, Continue(t, rel)) == if Agree(c, t) then Matches(c, Concat(t), c.Of(t[0]), rel) else []
  {
    if rel == [] {
    } else {
      var n := |rel| - 1;
      var before, last := Continue(t, rel[..n]), t + [rel[n]];
      ContinueAgrees(c, t, rel[..n]);
      assert (before + [last])[..|before|] == before;
      AgreeMore(c, t, rel[n]);
    }
  }

  lemma {:induction false} BaseAgrees(c: Keying, base: seq<Row>)
    ensures Agreeing(c, Continue([], base)) == Keyed(c, base)
  {
    if base == [] {
    } else {
      var n := |base| - 1;
      var before, last := Continue([], base[..n]), [] + [base[n]];
      BaseAgrees(c, base[..n]);
      assert (before + [last])[..|before|] == before && last == [base[n]];
      assert Concat(last) == base[n] by { assert last[..0] == []; }
    }
  }

  lemma {:induction false} MoreAgrees(c: Keying, ts: seq<seq<Row>>, rel: seq<Row>)
    requires forall k :: 0 <= k < |ts| ==> ts[k] != []
    ensures Agreeing(c, ChooseMore(ts, rel)) == Matched(c, Agreeing(c, ts), rel)
  {
    if ts == [] {
    } else {
      var n := |ts| - 1;
      var before, t := Agreeing(c, ts[..n]), ts[n];
      MoreAgrees(c, ts[..n], rel);
      AgreeingConcat(c, ChooseMore(ts[..n], rel), Continue(t, rel));
      ContinueAgrees(c, t, rel);
      if Agree(c, t) {
        ConcatKey(c, t);
        assert (before + [Concat(t)])[..|before|] == before;
      } else {
        assert before + [] == before;
      }
    }
  }

  /** A choice has a row of the base and one of each further query, and every such tuple is chosen. */
  ghost predicate Chosen(base: seq<Row>, rels: seq<seq<Row>>, t: seq<Row>) {
    |t| == |rels| + 1 && t[0] in base && forall i :: 0 <= i < |rels| ==> t[i + 1] in rels[i]
  }

  lemma {:induction false} ContinueFrom(t: seq<Row>, rel: seq<Row>, u: seq<Row>) returns (b: Row)
    requires u in Continue(t, rel)
    ensures b in rel && u == t + [b]
  {
    var n := |rel| - 1;
    if u == t + [rel[n]] {
      b := rel[n];
    } else {
      b := ContinueFrom(t, rel[..n], u);
    }
  }

  lemma {:induction false} ChooseMoreFrom(ts: seq<seq<Row>>, rel: seq<Row>, u: seq<Row>) returns (k: nat, b: Row)
    requires u in ChooseMore(ts, rel)
    ensures k < |ts| && b in rel && u == ts[k] + [b]
  {
    var n := |ts| - 1;
    if u in Continue(ts[n], rel) {
      k := n;
      b := ContinueFrom(ts[n], rel, u);
    } else {
      k, b := ChooseMoreFrom(ts[..n], rel, u);
    }
  }

  lemma {:induction false} ChoicesAreChosen(base: seq<Row>, rels: seq<seq<Row>>, u: seq<Row>)
    requires u in Choices(base, rels)
    ensures Chosen(base, rels, u)
  {
    if rels == [] {
      var b := ContinueFrom([], base, u);
    } else {
      var n := |rels| - 1;
      var ts := Choices(base, rels[..n]);
      var k, b := ChooseMoreFrom(ts, rels[n], u);
      assert ts[k] in ts;
      ChoicesAreChosen(base, rels[..n], ts[k]);
      ChosenMore(base, rels, ts[k], b);
    }
  }

  lemma ChosenMore(base: seq<Row>, rels: seq<seq<Row>>, t: seq<Row>, b: Row)
    requires rels != [] && Chosen(base, rels[..|rels| - 1], t) && b in rels[|rels| - 1]
    ensures Chosen(base, rels, t + [b])
  {
    var u, n := t + [b], |rels| - 1;
    assert u[0] == t[0];
    forall i | 0 <= i < |rels| ensures u[i + 1] in rels[i] {
      if i < n { assert u[i + 1] == t[i + 1] && rels[..n][i] == rels[i]; }
    }
  }

  lemma {:induction false} ChosenIsChoice(base: seq<Row>, rels: seq<seq<Row>>, u: seq<Row>)
    requires Chosen(base, rels, u)
    ensures u in Choices(base, rels)
  {
    if rels == [] {
      var j :| 0 <= j < |base| && base[j] == u[0];
      ContinueAt([], base, j);
      assert u == [] + [u[0]];
    } else {
      var n := |rels| - 1;
      var ts, t, b := Choices(base, rels[..n]), u[..n + 1], u[n + 1];
      ChosenIsChoice(base, rels[..n], t);
      var i :| 0 <= i < |ts| && ts[i] == t;
      var j :| 0 <= j < |rels[n]| && rels[n][j] == b;
      ChooseAt(ts, rels[n], i, j);
      assert u == t + [b];
    }
  }

  lemma ChoicesNonempty(base: seq<Row>, rels: seq<seq<Row>>)
    ensures var ts := Choices(base, rels); forall k :: 0 <= k < |ts| ==> ts[k] != []
  {
    var ts := Choices(base, rels);
    forall k | 0 <= k < |ts| ensures ts[k] != [] {
      assert ts[k] in ts;
      ChoicesAreChosen(base, rels, ts[k]);
    }
  }

  /** Inner joins produce, for each choice of a position in every query, the concatenation of the rows there
      if their keys agree, and nothing else. */
  lemma {:induction false} InnerChainIsChoices(c: Keying, base: seq<Row>, rels: seq<seq<Row>>)
    ensures ReferenceChain(c, base, InnerJoins(rels)) == Agreeing(c, Choices(base, rels))
  {
    if rels == [] {
      BaseAgrees(c, base);
    } else {
      var front, rel := rels[..|rels| - 1], rels[|rels| - 1];
      assert InnerJoins(rels)[..|front|] == InnerJoins(front);
      InnerChainIsChoices(c, base, front);
      ChoicesNonempty(base, front);
      MoreAgrees(c, Choices(base, front), rel);
    }
  }

  // ------------------------------------------------------ the loops

  function RowsOf(index: Index, order: seq<Slot>): seq<Row>
    requires forall i <- order :: i in index
  {
    seq(|order|, j requires 0 <= j < |order| => index[order[j]])
  }

  /** rehashSet, visiting the index in some order. */
  method RehashSet(index: Index, c: Keying) returns (g: Groups, ghost order: seq<Slot>)
    ensures Enumerates(order, index.Keys)
    ensures g == Regroup(c, RowsOf(index, order))
    ensures Grouped(c, g) && Bag(g) == multiset(Keyed(c, Listing(index)))
  {
    g, order := map[], [];
    var rest := index.Keys;
    while rest != {}
      invariant rest <= index.Keys && Enumerates(order, index.Keys - rest)
      invariant g == Regroup(c, RowsOf(index, order))
    {
      var i :| i in rest;
      rest := rest - {i};
      assert RowsOf(index, order + [i])[..|order|] == RowsOf(index, order);
      order := order + [i];
      var series := index[i];
      if |series| == 0 || series[0] !in c.store {
        continue;
      }
      var rehash := TargetTag(c.store[series[0]], c.on);
      g := g[rehash := (if rehash in g then g[rehash] else []) + [series]];
    }
    RehashedRows(index, c, order);
  }

  lemma RehashedRows(index: Index, c: Keying, order: seq<Slot>)
    requires Enumerates(order, index.Keys)
    ensures var g := Regroup(c, RowsOf(index, order)); Grouped(c, g) && Bag(g) == multiset(Keyed(c, Listing(index)))
  {
    RegroupIsGrouped(c, RowsOf(index, order));
    RegroupBag(c, RowsOf(index, order));
    ListingInAnyOrder(index, order);
    KeyedPermutes(c, RowsOf(index, order), Listing(index));
  }

  /** The two inner loops of onJoin. */
  method PairRows(ls: seq<Row>, rs: seq<Row>) returns (rows: seq<Row>)
    ensures rows == Pairs(ls, rs)
  {
    rows := [];
    for i := 0 to |ls|
      invariant rows == Pairs(ls[..i], rs)
    {
      assert ls[..i + 1][..i] == ls[..i];
      for j := 0 to |rs|
        invariant rows == Pairs(ls[..i], rs) + seq(j, m requires 0 <= m < |rs| => ls[i] + rs[m])
      {
        rows := rows + [ls[i] + rs[j]];
      }
    }
    assert ls[..|ls|] == ls;
  }

  method OnJoinGroups(g1: Groups, g2: Groups, inner: bool) returns (g: Groups)
    ensures g == OnJoin(g1, g2, inner)
  {
    g := map[];
    var rest := g1.Keys;
    while rest != {}
      invariant rest <= g1.Keys
      invariant g == map k | k in OnJoin(g1, g2, inner) && k !in rest :: OnJoin(g1, g2, inner)[k]
    {
      var rehash :| rehash in rest;
      rest := rest - {rehash};
      if rehash in g2 {
        var pairs := PairRows(g1[rehash], g2[rehash]);
        if pairs != [] {
          g := g[rehash := pairs];
        }
      } else if !inner {
        g := g[rehash := g1[rehash]];
      }
    }
  }

  method ExcludeGroups(g1: Groups, g2: Groups) returns (g: Groups)
    ensures g == Exclude(g1, g2)
  {
    g := map[];
    var rest := g1.Keys;
    while rest != {}
      invariant rest <= g1.Keys
      invariant g == map k | k in g1 && k !in g2 && k !in rest :: g1[k]
    {
      var rehash :| rehash in rest;
      rest := rest - {rehash};
      if rehash !in g2 {
        g := g[rehash := g1[rehash]];
      }
    }
  }

  function Numbered(rows: seq<Row>): Index {
    map s: Slot | s in (set i | 0 <= i < |rows| :: Slot(i)) :: rows[s.n]
  }

  /** The inner loop of flatten: number `more` after `rows`. */
  method NumberRows(index: Index, ghost rows: seq<Row>, more: seq<Row>, n: nat) returns (index': Index)
    requires index == Numbered(rows) && n == |rows|
    ensures index' == Numbered(rows + more)
  {
    index' := index;
    for u := 0 to |more|
      invariant index' == Numbered(rows + more[..u])
    {
      index' := index'[Slot(n + u) := more[u]];
    }
    assert more[..|more|] == more;
  }

  /** flatten: number the rows of all groups, visited in some order. */
  method Flatten(g: Groups) returns (index: Index, ghost order: seq<string>)
    ensures Enumerates(order, g.Keys)
    ensures index == Numbered(RowsIn(g, order))
    ensures multiset(Listing(index)) == Bag(g)
  {
    index, order := map[], [];
    var rest, n := g.Keys, 0;
    while rest != {}
      invariant rest <= g.Keys && Enumerates(order, g.Keys - rest) && n == |RowsIn(g, order)|
      invariant index == Numbered(RowsIn(g, order))
    {
      var rehash :| rehash in rest;
      index := NumberRows(index, RowsIn(g, order), g[rehash], n);
      n := n + |g[rehash]|;
      EnumeratesMore(order, g.Keys - rest, rehash);
      assert g.Keys - (rest - {rehash}) == g.Keys - rest + {rehash};
      assert (order + [rehash])[..|order|] == order;
      rest, order := rest - {rehash}, order + [rehash];
    }
    assert g.Keys - rest == g.Keys;
    FlatListing(index, RowsIn(g, order));
    BagInAnyOrder(g, order);
  }

  // -------------------------------------------------------- ProcessJoins

  ghost function Listing(index: Index): seq<Row> {
    RowsOf(index, SomeOrder(index.Keys))
  }

  function Operand(indexes: map<string, Index>, ref: string): Index {
    if ref in indexes then indexes[ref] else map[]
  }

  /** The joins of a trigger with the rows of their queries, listed in some order. */
  ghost function Operands(indexes: map<string, Index>, joins: seq<Join>): seq<(JoinKind, seq<Row>)> {
    seq(|joins|, i requires 0 <= i < |joins| => (joins[i].kind, Listing(Operand(indexes, joins[i].ref))))
  }

  lemma ListingInAnyOrder(index: Index, order: seq<Slot>)
    requires Enumerates(order, index.Keys)
    ensures multiset(RowsOf(index, order)) == multiset(Listing(index))
  {
    SameElements(order, SomeOrder(index.Keys), index.Keys);
    var f := i => if i in index then multiset{index[i]} else multiset{};
    RowsOfIsSum(index, order, f);
    RowsOfIsSum(index, SomeOrder(index.Keys), f);
    SumPermutes(f, order, SomeOrder(index.Keys));
  }

  lemma {:induction false} RowsOfIsSum(index: Index, order: seq<Slot>, f: Slot -> multiset<Row>)
    requires forall i <- order :: i in index && f(i) == multiset{index[i]}
    ensures multiset(RowsOf(index, order)) == Sum(f, order)
  {
    if order == [] {
    } else {
      var n := |order| - 1;
      var before, row := RowsOf(index, order[..n]), index[order[n]];
      RowsOfIsSum(index, order[..n], f);
      assert RowsOf(index, order) == before + [row];
      assert multiset(before + [row]) == multiset(before) + multiset{row};
    }
  }

  /** One turn of the loop of ProcessJoins. */
  method JoinNext(kind: JoinKind, lastRehashed: Groups, curRehashed: Groups) returns (joined: Groups, last: Index)
    ensures joined == HashJoin(kind, lastRehashed, curRehashed) && multiset(Listing(last)) == Bag(joined)
  {
    match kind {
      case InnerJoin => joined := OnJoinGroups(lastRehashed, curRehashed, true);
      case LeftJoin => joined := OnJoinGroups(lastRehashed, curRehashed, false);
      case RightJoin => joined := OnJoinGroups(curRehashed, lastRehashed, false);
      case LeftExclude => joined := ExcludeGroups(lastRehashed, curRehashed);
      case RightExclude => joined := ExcludeGroups(curRehashed, lastRehashed);
    }
    ghost var order;
    last, order := Flatten(joined);
  }

  /** The operands up to `n` are the rows of the queries, each in some order. */
  ghost predicate Listed(operands: seq<(JoinKind, seq<Row>)>, indexes: map<string, Index>, joins: seq<Join>) {
    && |operands| <= |joins|
    && forall j :: 0 <= j < |operands| ==> ListedAs(operands[j], indexes, joins[j])
  }

  ghost predicate ListedAs(operand: (JoinKind, seq<Row>), indexes: map<string, Index>, join: Join) {
    operand.0 == join.kind && multiset(operand.1) == multiset(Listing(Operand(indexes, join.ref)))
  }

  ghost function ListMore(operands: seq<(JoinKind, seq<Row>)>, indexes: map<string, Index>, joins: seq<Join>,
                          rows: seq<Row>)
    : (more: seq<(JoinKind, seq<Row>)>)
    requires Listed(operands, indexes, joins) && |operands| < |joins|
    requires multiset(rows) == multiset(Listing(Operand(indexes, joins[|operands|].ref)))
    ensures Listed(more, indexes, joins) && more == operands + [(joins[|operands|].kind, rows)]
  {
    operands + [(joins[|operands|].kind, rows)]
  }

  /** ProcessJoins for hash joins that share one `On`: nothing if there are too few queries,
      otherwise exactly the rows that nested loops over the queries' rows would produce. */
  method ProcessJoins(joins: seq<Join>, joinRef: string, indexes: map<string, Index>, store: map<int, Metric>)
    returns (last: Index)
    requires joins != [] && forall j <- joins :: j.on == joins[0].on
    ensures |indexes| < |joins| + 1 ==> last == map[]
    ensures |indexes| >= |joins| + 1 ==>
              multiset(Listing(last)) ==
              var base := Listing(Operand(indexes, joinRef));
              multiset(ReferenceChain(Keying(store, joins[0].on), base, Operands(indexes, joins)))
  {
    if |indexes| < |joins| + 1 {
      return map[];
    }
    ghost var base, operands;
    last, base, operands := JoinInTurn(joins, joinRef, indexes, store);
    ghost var c := Keying(store, joins[0].on);
    HashChainIsReference(c, base, operands);
    assert forall j :: 0 <= j < |operands| ==> ListedAs(operands[j], indexes, joins[j]);
    ChainPermutes(c, base, Listing(Operand(indexes, joinRef)), operands, Operands(indexes, joins));
  }

  /** The loop of ProcessJoins. */
  method JoinInTurn(joins: seq<Join>, joinRef: string, indexes: map<string, Index>, store: map<int, Metric>)
    returns (last: Index, ghost base: seq<Row>, ghost operands: seq<(JoinKind, seq<Row>)>)
    requires joins != [] && forall j <- joins :: j.on == joins[0].on
    ensures multiset(base) == multiset(Listing(Operand(indexes, joinRef)))
    ensures |operands| == |joins| && Listed(operands, indexes, joins)
    ensures multiset(Listing(last)) == Bag(HashChain(Keying(store, joins[0].on), base, operands))
  {
    ghost var c := Keying(store, joins[0].on);
    last := Operand(indexes, joinRef);
    var lastRehashed;
    lastRehashed, base := RehashOperand(indexes, joinRef, Keying(store, joins[0].on));
    operands := [];
    for i := 0 to |joins|
      invariant |operands| == i && lastRehashed == HashChain(c, base, operands) && Listed(operands, indexes, joins)
      invariant i > 0 ==> multiset(Listing(last)) == Bag(lastRehashed)
    {
      var curRehashed, rows := RehashOperand(indexes, joins[i].ref, Keying(store, joins[i].on));
      assert joins[i] in joins;
      HashChainStep(c, base, operands, joins[i].kind, rows);
      operands := ListMore(operands, indexes, joins, rows);
      lastRehashed, last := JoinNext(joins[i].kind, lastRehashed, curRehashed);
    }
  }

  method RehashOperand(indexes: map<string, Index>, ref: string, c: Keying) returns (g: Groups, ghost rows: seq<Row>)
    ensures multiset(rows) == multiset(Listing(Operand(indexes, ref))) && g == Regroup(c, rows)
  {
    var cur := Operand(indexes, ref);
    ghost var order;
    g, order := RehashSet(cur, c);
    ListingInAnyOrder(cur, order);
    rows := RowsOf(cur, order);
  }

  lemma HashChainStep(c: Keying, base: seq<Row>, joins: seq<(JoinKind, seq<Row>)>, kind: JoinKind, rows: seq<Row>)
    ensures HashChain(c, base, joins + [(kind, rows)]) == HashJoin(kind, HashChain(c, base, joins), Regroup(c, rows))
  {
    assert (joins + [(kind, rows)])[..|joins|] == joins;
  }

  lemma FlatListing(index: Index, rows: seq<Row>)
    requires index == Numbered(rows)
    ensures multiset(Listing(index)) == multiset(rows)
  {
    var order := seq(|rows|, i => Slot(i));
    assert Enumerates(order, index.Keys) by {
      forall x ensures x in order <==> x in index.Keys { if x in index { assert order[x.n] == x; } }
    }
    ListingInAnyOrder(index, order);
    assert RowsOf(index, order) == rows;
  }

  lemma {:induction false} KeyedPermutes(c: Keying, rows: seq<Row>, rows': seq<Row>)
    requires multiset(rows) == multiset(rows')
    ensures multiset(Keyed(c, rows)) == multiset(Keyed(c, rows'))
  {
    var f: Row -> multiset<Row> := r => if c.Of(r).Some? then multiset{r} else multiset{};
    KeyedIsSum(c, rows, f);
    KeyedIsSum(c, rows', f);
    SumPermutes(f, rows, rows');
  }

  lemma {:induction false} KeyedIsSum(c: Keying, rows: seq<Row>, f: Row -> multiset<Row>)
    requires forall r :: f(r) == if c.Of(r).Some? then multiset{r} else multiset{}
    ensures multiset(Keyed(c, rows)) == Sum(f, rows)
  {
    if rows == [] {
    } else {
      KeyedIsSum(c, rows[..|rows| - 1], f);
    }
  }

  /** The nested loops yield the same bag however the rows of each query are listed. */
  lemma {:induction false} ChainPermutes(c: Keying, base: seq<Row>, base': seq<Row>,
                                         joins: seq<(JoinKind, seq<Row>)>, joins': seq<(JoinKind, seq<Row>)>)
    requires multiset(base) == multiset(base') && |joins| == |joins'|
    requires forall i :: 0 <= i < |joins| ==> joins[i].0 == joins'[i].0 && multiset(joins[i].1) == multiset(joins'[i].1)
    ensures multiset(ReferenceChain(c, base, joins)) == multiset(ReferenceChain(c, base', joins'))
  {
    if joins == [] {
      KeyedPermutes(c, base, base');
    } else {
      var n := |joins| - 1;
      ChainPermutes(c, base, base', joins[..n], joins'[..n]);
      ReferencePermutes(c, joins[n].0, ReferenceChain(c, base, joins[..n]), ReferenceChain(c, base', joins'[..n]),
                        joins[n].1, joins'[n].1);
    }
  }
}
