/** The two strategies for PromQL variables: query once and filter the samples (fast), or fill the
    variables and query for every combination (slow).

    The query engine appears as the samples each layer's unfiltered query returns; filling the
    variables with some values is taken to select exactly the samples that carry those values. */
module VarFilling {
  import opened Common

  // ------------------------------------------------------------ JoinMark

  /** strings.Join with the mark "@@". */
  function JoinMark(vs: seq<string>): string {
    if vs == [] then "" else if |vs| == 1 then vs[0] else vs[0] + "@@" + JoinMark(vs[1..])
  }

  predicate MarkAt(s: string, i: nat) {
    i + 1 < |s| && s[i] == '@' && s[i + 1] == '@'
  }

  /** The first position of the mark at or after `i`, or the length. */
  function FirstMark(s: string, i: nat): (p: nat)
    requires i <= |s|
    ensures i <= p <= |s|
    ensures p < |s| ==> MarkAt(s, p)
    ensures forall j :: i <= j < p ==> !MarkAt(s, j)
    decreases |s| - i
  {
    if i == |s| || MarkAt(s, i) then i else FirstMark(s, i + 1)
  }

  /** strings.Split by the mark. */
  function SplitMark(s: string): seq<string>
    decreases |s|
  {
    var p := FirstMark(s, 0);
    if p == |s| then [s] else [s[..p]] + SplitMark(s[p + 2..])
  }

  ghost predicate NoMark(v: string) {
    forall p: nat :: !MarkAt(v, p)
  }

  /** No value contains the mark, and none but the last ends in '@'. */
  ghost predicate Clean(vs: seq<string>) {
    vs == [] ||
    (NoMark(vs[0]) && (|vs| == 1 || ((vs[0] == "" || vs[0][|vs[0]| - 1] != '@') && Clean(vs[1..]))))
  }

  lemma JoinedFirst(v: string, rest: string)
    ensures var s := v + "@@" + rest;
            FirstMark(s, 0) == |v| <==> NoMark(v) && (v == "" || v[|v| - 1] != '@')
    ensures FirstMark(v + "@@" + rest, 0) <= |v|
  {
    var s := v + "@@" + rest;
    assert MarkAt(s, |v|);
    if p: nat :| MarkAt(v, p) { assert MarkAt(s, p); }
    if v != "" && v[|v| - 1] == '@' { assert MarkAt(s, |v| - 1); }
    assert forall p: nat :: p + 1 < |v| ==> (MarkAt(s, p) <==> MarkAt(v, p));
  }

  /** Splitting undoes joining exactly for clean values. */
  lemma {:induction false} SplitAfterJoin(vs: seq<string>)
    requires vs != []
    ensures SplitMark(JoinMark(vs)) == vs <==> Clean(vs)
  {
    var v := vs[0];
    if |vs| == 1 {
      assert vs == [v];
      SplitOne(v);
    } else {
      var rest := JoinMark(vs[1..]);
      SplitAfterJoin(vs[1..]);
      SplitTwo(v, rest);
      JoinedFirst(v, rest);
      assert vs == [v] + vs[1..];
    }
  }

  lemma SplitOne(v: string)
    ensures SplitMark(v) == [v] <==> NoMark(v)
  {
    var p := FirstMark(v, 0);
    if p < |v| {
      assert SplitMark(v)[0] == v[..p];
    }
  }

  lemma SplitTwo(v: string, rest: string)
    ensures var s := v + "@@" + rest;
            if FirstMark(s, 0) == |v| then SplitMark(s) == [v] + SplitMark(rest) else SplitMark(s)[0] != v
  {
    var s := v + "@@" + rest;
    var p := FirstMark(s, 0);
    JoinedFirst(v, rest);
    assert SplitMark(s) == [s[..p]] + SplitMark(s[p + 2..]);
    if p == |v| {
      assert s[..p] == v && s[p + 2..] == rest;
    } else {
      assert |s[..p]| != |v|;
    }
  }

  lemma {:induction false} WithoutAtIsClean(vs: seq<string>)
    requires forall v <- vs :: '@' !in v
    ensures Clean(vs)
  {
    if vs == [] {
    } else {
      assert vs[0] in vs;
      MarkHasAt(vs[0]);
      WithoutAtIsClean(vs[1..]);
    }
  }

  lemma MarkHasAt(v: string)
    ensures !NoMark(v) ==> '@' in v
  {
    if p: nat :| MarkAt(v, p) { assert v[p] in v; }
  }

  /** "a@" and "b" join to "a@@@b", which splits differently. */
  lemma SplitTearsApart(vs: seq<string>)
    requires vs == ["a@", "b"]
    ensures SplitMark(JoinMark(vs)) != vs
  {
    assert vs[0][|vs[0]| - 1] == '@';
    SplitAfterJoin(vs);
  }

  lemma JoinIsInjective(vs: seq<string>, ws: seq<string>)
    requires Clean(vs) && Clean(ws) && |vs| == |ws| && JoinMark(vs) == JoinMark(ws)
    ensures vs == ws
  {
    if vs != [] {
      SplitAfterJoin(vs);
      SplitAfterJoin(ws);
    }
  }

  // ------------------------------------------------- combinations

  /** Each of `vs` in front of each of `ts`. */
  function Prepend(vs: seq<string>, ts: seq<seq<string>>): seq<seq<string>> {
    if vs == [] then []
    else Prepend(vs[..|vs| - 1], ts) + seq(|ts|, i requires 0 <= i < |ts| => [vs[|vs| - 1]] + ts[i])
  }

  /** All combinations of one value from each list. */
  function Product(lists: seq<seq<string>>): seq<seq<string>> {
    if lists == [] then [[]] else Prepend(lists[0], Product(lists[1..]))
  }

  lemma {:induction false} PrependMembers(vs: seq<string>, ts: seq<seq<string>>, t: seq<string>)
    ensures t in Prepend(vs, ts) <==> t != [] && t[0] in vs && t[1..] in ts
  {
    if vs == [] {
    } else {
      var n := |vs| - 1;
      PrependMembers(vs[..n], ts, t);
      InPrefixOrLast(vs, if t != [] then t[0] else "");
      var last := seq(|ts|, i requires 0 <= i < |ts| => [vs[n]] + ts[i]);
      if t != [] && t[0] == vs[n] && t[1..] in ts {
        var i :| 0 <= i < |ts| && ts[i] == t[1..];
        assert last[i] == [vs[n]] + ts[i] == t;
      }
      if t in last {
        var i :| 0 <= i < |ts| && last[i] == t;
        assert t[1..] == ts[i];
      }
    }
  }

  /** mapPermutation enumerates exactly the Cartesian product. */
  lemma {:induction false} ProductMembers(lists: seq<seq<string>>, t: seq<string>)
    ensures t in Product(lists) <==> |t| == |lists| && forall i :: 0 <= i < |t| ==> t[i] in lists[i]
  {
    if lists == [] {
    } else {
      PrependMembers(lists[0], Product(lists[1..]), t);
      if t != [] {
        ProductMembers(lists[1..], t[1..]);
        assert forall i :: 0 < i < |t| ==> t[i] == t[1..][i - 1];
        assert forall i :: 0 < i < |lists| ==> lists[i] == lists[1..][i - 1];
      }
    }
  }

  /** Every combination in `ts` behind a common prefix. */
  function Behind(prefix: seq<string>, ts: seq<seq<string>>): seq<seq<string>> {
    seq(|ts|, i requires 0 <= i < |ts| => prefix + ts[i])
  }

  lemma BehindOne(prefix: seq<string>, v: string, vs: seq<string>, ts: seq<seq<string>>)
    ensures Behind(prefix, Prepend(vs, ts)) + Behind(prefix + [v], ts) == Behind(prefix, Prepend(vs + [v], ts))
  {
    assert (vs + [v])[..|vs|] == vs;
    assert forall t :: prefix + [v] + t == prefix + ([v] + t);
  }

  /** combine: fill `current` from `index` on in every possible way, appending each combination. */
  method Combine(lists: seq<seq<string>>, index: nat, current: array<string>, result: seq<seq<string>>)
    returns (result': seq<seq<string>>)
    requires index <= |lists| == current.Length
    modifies current
    ensures current[..index] == old(current[..index])
    ensures result' == result + Behind(old(current[..index]), Product(lists[index..]))
    decreases |lists| - index
  {
    ghost var prefix := current[..index];
    if index == |lists| {
      assert Product(lists[index..]) == [[]];
      assert prefix + [] == current[..];
      return result + [current[..]];
    }
    result' := result;
    ghost var rest := Product(lists[index + 1..]);
    assert lists[index..][1..] == lists[index + 1..];
    for i := 0 to |lists[index]|
      invariant current[..index] == prefix
      invariant result' == result + Behind(prefix, Prepend(lists[index][..i], rest))
    {
      var value := lists[index][i];
      current[index] := value;
      assert current[..index + 1] == prefix + [value];
      result' := Combine(lists, index + 1, current, result');
      BehindOne(prefix, value, lists[index][..i], rest);
      assert lists[index][..i + 1] == lists[index][..i] + [value];
      assert current[..index] == current[..index + 1][..index];
    }
    assert lists[index][..|lists[index]|] == lists[index];
  }

  /** mapPermutation. */
  method MapPermutation(lists: seq<seq<string>>) returns (result: seq<seq<string>>)
    ensures result == Product(lists)
  {
    var current := new string[|lists|](_ => "");
    result := Combine(lists, 0, current, []);
    assert lists[0..] == lists;
    ghost var all := Product(lists);
    assert forall i :: 0 <= i < |all| ==> [] + all[i] == all[i];
    assert Behind([], all) == all;
  }

  // --------------------------------------------------------- layers

  type Metric = map<string, string>

  datatype Sample = Sample(metric: Metric, value: real, timestamp: int)

  /** One parameter setting of one node of the configuration chain: the values of each parameter, or
      nothing if they could not be had, and the samples of the query without parameters. */
  datatype Layer = Layer(lists: Option<seq<seq<string>>>, samples: seq<Sample>)

  /** The values a sample carries for the parameters' labels. */
  function ValuesOf(labels: seq<string>, s: Sample): seq<string> {
    seq(|labels|, i requires 0 <= i < |labels| => if labels[i] in s.metric then s.metric[labels[i]] else "")
  }

  function KeyOf(labels: seq<string>, s: Sample): string {
    JoinMark(ValuesOf(labels, s))
  }

  /** The keys of a layer's parameter combinations. */
  function Covered(l: Layer): set<string> {
    if l.lists.None? then {} else set t <- Product(l.lists.value) :: JoinMark(t)
  }

  function FirstWith(labels: seq<string>, ss: seq<Sample>, key: string): Option<Sample> {
    if ss == [] then None
    else
      var earlier := FirstWith(labels, ss[..|ss| - 1], key);
      if earlier.Some? then earlier
      else if KeyOf(labels, ss[|ss| - 1]) == key then Some(ss[|ss| - 1]) else None
  }

  function LastWith(labels: seq<string>, ss: seq<Sample>, key: string): Option<Sample> {
    if ss == [] then None
    else if KeyOf(labels, ss[|ss| - 1]) == key then Some(ss[|ss| - 1])
    else LastWith(labels, ss[..|ss| - 1], key)
  }

  /** The anomaly a key ends with: that of the last layer covering it, if that has a sample. */
  function Expected(labels: seq<string>, layers: seq<Layer>, key: string, first: bool): Option<Sample> {
    if layers == [] then None
    else
      var l := layers[|layers| - 1];
      if key !in Covered(l) then Expected(labels, layers[..|layers| - 1], key, first)
      else if first then FirstWith(labels, l.samples, key)
      else LastWith(labels, l.samples, key)
  }

  /** Some layer covers the key, and the last one to do so has a sample with it. */
  ghost predicate Present(labels: seq<string>, layers: seq<Layer>, key: string) {
    exists i ::
      0 <= i < |layers| && LastCovering(layers, i, key) && exists s <- layers[i].samples :: KeyOf(labels, s) == key
  }

  ghost predicate LastCovering(layers: seq<Layer>, i: int, key: string)
    requires 0 <= i < |layers|
  {
    key in Covered(layers[i]) && forall j :: i < j < |layers| ==> key !in Covered(layers[j])
  }

  lemma {:induction false} WithExists(labels: seq<string>, ss: seq<Sample>, key: string)
    ensures FirstWith(labels, ss, key).Some? <==> exists s <- ss :: KeyOf(labels, s) == key
    ensures LastWith(labels, ss, key).Some? <==> exists s <- ss :: KeyOf(labels, s) == key
  {
    if ss == [] {
    } else {
      var n := |ss| - 1;
      WithExists(labels, ss[..n], key);
      assert ss == ss[..n] + [ss[n]];
    }
  }

  lemma CoveringStep(layers: seq<Layer>, i: nat, key: string)
    requires layers != [] && i < |layers| - 1
    ensures LastCovering(layers, i, key) <==>
            LastCovering(layers[..|layers| - 1], i, key) && key !in Covered(layers[|layers| - 1])
  {
    var n := |layers| - 1;
    assert forall j :: 0 <= j < n ==> layers[..n][j] == layers[j];
  }

  lemma PresentStep(labels: seq<string>, layers: seq<Layer>, key: string)
    requires layers != []
    ensures Present(labels, layers, key) <==>
            var l := layers[|layers| - 1];
            if key in Covered(l) then exists s <- l.samples :: KeyOf(labels, s) == key
            else Present(labels, layers[..|layers| - 1], key)
  {
    var n := |layers| - 1;
    forall i: nat | i < n
      ensures LastCovering(layers, i, key) <==> LastCovering(layers[..n], i, key) && key !in Covered(layers[n])
    {
      CoveringStep(layers, i, key);
    }
    assert forall i :: 0 <= i < n ==> layers[..n][i] == layers[i];
    assert LastCovering(layers, n, key) <==> key in Covered(layers[n]);
  }

  /** A key is expected exactly when it is present. */
  lemma {:induction false} ExpectedIsPresent(labels: seq<string>, layers: seq<Layer>, key: string, first: bool)
    ensures Expected(labels, layers, key, first).Some? <==> Present(labels, layers, key)
  {
    if layers == [] {
    } else {
      var n := |layers| - 1;
      PresentStep(labels, layers, key);
      WithExists(labels, layers[n].samples, key);
      if key !in Covered(layers[n]) {
        ExpectedIsPresent(labels, layers[..n], key, first);
      }
    }
  }

  // ----------------------------------------------------- in terms of values

  /** Every parameter value and every label value of a layer can be joined without ambiguity. */
  ghost predicate CleanLayer(labels: seq<string>, l: Layer) {
    && (l.lists.Some? ==> |l.lists.value| == |labels| && forall t <- Product(l.lists.value) :: Clean(t))
    && (forall s <- l.samples :: Clean(ValuesOf(labels, s)))
  }

  /** The sample carries the values `t` for the labels; a missing label reads as empty. */
  predicate Carries(labels: seq<string>, s: Sample, t: seq<string>) {
    |t| == |labels| &&
    forall i :: 0 <= i < |labels| ==> t[i] == if labels[i] in s.metric then s.metric[labels[i]] else ""
  }

  /** `t` is a combination of the layer's parameter values. */
  predicate Offers(l: Layer, t: seq<string>) {
    l.lists.Some? && |t| == |l.lists.value| && forall i :: 0 <= i < |t| ==> t[i] in l.lists.value[i]
  }

  /** A clean combination is the key of exactly the samples that carry its values. */
  lemma KeyMeansValues(labels: seq<string>, s: Sample, t: seq<string>)
    requires |t| == |labels| && Clean(t) && Clean(ValuesOf(labels, s))
    ensures KeyOf(labels, s) == JoinMark(t) <==> Carries(labels, s, t)
  {
    if KeyOf(labels, s) == JoinMark(t) { JoinIsInjective(ValuesOf(labels, s), t); }
    if Carries(labels, s, t) { assert ValuesOf(labels, s) == t; }
  }

  /** ... and is covered by exactly the layers that offer it. */
  lemma CoveredMeansOffered(labels: seq<string>, l: Layer, t: seq<string>)
    requires |t| == |labels| && Clean(t) && CleanLayer(labels, l)
    ensures JoinMark(t) in Covered(l) <==> Offers(l, t)
  {
    if l.lists.Some? {
      ProductMembers(l.lists.value, t);
      if JoinMark(t) in Covered(l) {
        var u :| u in Product(l.lists.value) && JoinMark(u) == JoinMark(t);
        ProductMembers(l.lists.value, u);
        JoinIsInjective(u, t);
      }
    }
  }

  /** Sample `p` is the first, or the last, that carries `t`. */
  ghost predicate PickedAt(labels: seq<string>, ss: seq<Sample>, t: seq<string>, first: bool, p: nat) {
    && p < |ss| && Carries(labels, ss[p], t)
    && forall q :: (if first then 0 <= q < p else p < q < |ss|) ==> !Carries(labels, ss[q], t)
  }

  ghost predicate Picked(labels: seq<string>, ss: seq<Sample>, t: seq<string>, first: bool, found: Option<Sample>) {
    match found
    case None => forall s <- ss :: !Carries(labels, s, t)
    case Some(s) => exists p: nat :: PickedAt(labels, ss, t, first, p) && ss[p] == s
  }

  /** Layer `i` is the last one that offers `t`. */
  ghost predicate LastOffering(layers: seq<Layer>, i: nat, t: seq<string>) {
    i < |layers| && Offers(layers[i], t) && forall j :: i < j < |layers| ==> !Offers(layers[j], t)
  }

  /** `found` is the anomaly of the combination `t`: picked in the last layer that offers it, if one does. */
  ghost predicate Decided(labels: seq<string>, layers: seq<Layer>, t: seq<string>, first: bool, found: Option<Sample>) {
    || (found.None? && forall l <- layers :: !Offers(l, t))
    || exists i: nat :: LastOffering(layers, i, t) && Picked(labels, layers[i].samples, t, first, found)
  }

  lemma {:induction false} FirstByValues(labels: seq<string>, ss: seq<Sample>, t: seq<string>)
    requires |t| == |labels| && Clean(t) && forall s <- ss :: Clean(ValuesOf(labels, s))
    ensures Picked(labels, ss, t, true, FirstWith(labels, ss, JoinMark(t)))
  {
    if ss == [] {
    } else {
      var n := |ss| - 1;
      FirstByValues(labels, ss[..n], t);
      assert ss[n] in ss;
      KeyMeansValues(labels, ss[n], t);
      assert ss == ss[..n] + [ss[n]];
      var earlier := FirstWith(labels, ss[..n], JoinMark(t));
      if earlier.Some? {
        var p: nat :| PickedAt(labels, ss[..n], t, true, p) && ss[..n][p] == earlier.value;
        assert PickedAt(labels, ss, t, true, p);
      } else if Carries(labels, ss[n], t) {
        assert PickedAt(labels, ss, t, true, n);
      }
    }
  }

  lemma {:induction false} LastByValues(labels: seq<string>, ss: seq<Sample>, t: seq<string>)
    requires |t| == |labels| && Clean(t) && forall s <- ss :: Clean(ValuesOf(labels, s))
    ensures Picked(labels, ss, t, false, LastWith(labels, ss, JoinMark(t)))
  {
    if ss == [] {
    } else {
      var n := |ss| - 1;
      LastByValues(labels, ss[..n], t);
      assert ss[n] in ss;
      KeyMeansValues(labels, ss[n], t);
      assert ss == ss[..n] + [ss[n]];
      var earlier := LastWith(labels, ss[..n], JoinMark(t));
      if Carries(labels, ss[n], t) {
        assert PickedAt(labels, ss, t, false, n);
      } else if earlier.Some? {
        var p: nat :| PickedAt(labels, ss[..n], t, false, p) && ss[..n][p] == earlier.value;
        assert PickedAt(labels, ss, t, false, p);
      }
    }
  }

  lemma DecidedEarlier(labels: seq<string>, layers: seq<Layer>, t: seq<string>, first: bool, found: Option<Sample>)
    requires layers != [] && !Offers(layers[|layers| - 1], t)
    requires Decided(labels, layers[..|layers| - 1], t, first, found)
    ensures Decided(labels, layers, t, first, found)
  {
    var n := |layers| - 1;
    assert layers == layers[..n] + [layers[n]];
    if i: nat :| LastOffering(layers[..n], i, t) && Picked(labels, layers[..n][i].samples, t, first, found) {
      assert LastOffering(layers, i, t);
    }
  }

  /** What both strategies end with for a combination of clean values: the first sample (fast) or the last one
      (slow) that carries these values in the last layer whose parameter lists contain them. */
  lemma {:induction false} ExpectedByValues(labels: seq<string>, layers: seq<Layer>, t: seq<string>, first: bool)
    requires |t| == |labels| && Clean(t) && forall l <- layers :: CleanLayer(labels, l)
    ensures Decided(labels, layers, t, first, Expected(labels, layers, JoinMark(t), first))
  {
    if layers == [] {
    } else {
      var n := |layers| - 1;
      var l := layers[n];
      assert l in layers;
      CoveredMeansOffered(labels, l, t);
      if Offers(l, t) {
        FirstByValues(labels, l.samples, t);
        LastByValues(labels, l.samples, t);
        assert LastOffering(layers, n, t);
      } else {
        ExpectedByValues(labels, layers[..n], t, first);
        DecidedEarlier(labels, layers, t, first, Expected(labels, layers[..n], JoinMark(t), first));
      }
    }
  }

  // ------------------------------------------------- query, then filter

  /** getParamPermutation, given the values of the parameters. */
  method ParamPermutation(l: Layer) returns (perms: set<string>)
    requires l.lists.Some?
    ensures perms == Covered(l)
  {
    var permutation := MapPermutation(l.lists.value);
    perms := set t <- permutation :: JoinMark(t);
  }

  lemma FirstWithStep(labels: seq<string>, ss: seq<Sample>, i: nat, key: string)
    requires i < |ss|
    ensures FirstWith(labels, ss[..i + 1], key) ==
            var earlier := FirstWith(labels, ss[..i], key);
            if earlier.Some? then earlier else if KeyOf(labels, ss[i]) == key then Some(ss[i]) else None
  {
    assert ss[..i + 1][..i] == ss[..i];
  }

  /** What a layer leaves for `key`: its own first sample where it covers the key. */
  function Outcome(labels: seq<string>, l: Layer, before: map<string, Sample>, key: string): Option<Sample> {
    if key in Covered(l) then FirstWith(labels, l.samples, key) else Lookup(before, key)
  }

  /** What is known of `key` once the first `i` samples have been seen. */
  ghost predicate Filtered(labels: seq<string>, l: Layer, i: nat, before: map<string, Sample>, perms: set<string>,
                           now: map<string, Sample>, key: string)
    requires i <= |l.samples|
  {
    var found := FirstWith(labels, l.samples[..i], key);
    (key in perms <==> key in Covered(l) && found.None?) &&
    Lookup(now, key) == if key in Covered(l) && found.Some? then found else Lookup(before, key)
  }

  /** One layer of VarFillingAfterQuery. */
  method FilterLayer(labels: seq<string>, l: Layer, anomalies: map<string, Sample>)
      returns (anomalies': map<string, Sample>)
    ensures forall key :: Lookup(anomalies', key) == Outcome(labels, l, anomalies, key)
  {
    anomalies' := anomalies;
    if l.lists.None? {
      return;
    }
    var perms := ParamPermutation(l);
    for i := 0 to |l.samples|
      invariant forall key :: Filtered(labels, l, i, anomalies, perms, anomalies', key)
    {
      ghost var perms0, now0, next := perms, anomalies', i + 1;
      var cur := KeyOf(labels, l.samples[i]);
      if cur in perms {
        anomalies' := anomalies'[cur := l.samples[i]];
        perms := perms - {cur};
      }
      forall key ensures Filtered(labels, l, next, anomalies, perms, anomalies', key) {
        assert Filtered(labels, l, i, anomalies, perms0, now0, key);
        FirstWithStep(labels, l.samples, i, key);
      }
    }
    assert l.samples[..|l.samples|] == l.samples;
    // combinations left over override what earlier layers found
    ghost var now := anomalies';
    anomalies' := anomalies' - perms;
    forall key ensures Lookup(anomalies', key) == Outcome(labels, l, anomalies, key) {
      assert Filtered(labels, l, |l.samples|, anomalies, perms, now, key);
    }
  }

  method VarFillingAfterQuery(labels: seq<string>, layers: seq<Layer>) returns (anomalies: map<string, Sample>)
    ensures forall key :: Lookup(anomalies, key) == Expected(labels, layers, key, true)
    ensures (forall l <- layers :: CleanLayer(labels, l)) ==>
              forall t ::
                |t| == |labels| && Clean(t) ==> Decided(labels, layers, t, true, Lookup(anomalies, JoinMark(t)))
  {
    anomalies := map[];
    for i := 0 to |layers|
      invariant forall key :: Lookup(anomalies, key) == Expected(labels, layers[..i], key, true)
    {
      assert layers[..i + 1][..i] == layers[..i];
      anomalies := FilterLayer(labels, layers[i], anomalies);
    }
    assert layers[..|layers|] == layers;
    if forall l <- layers :: CleanLayer(labels, l) {
      forall t | |t| == |labels| && Clean(t)
        ensures Decided(labels, layers, t, true, Lookup(anomalies, JoinMark(t)))
      {
        ExpectedByValues(labels, layers, t, true);
      }
    }
  }

  // --------------------------------------------------- fill, then query

  /** What the engine returns once the parameters are filled with `values`. */
  function Filled(labels: seq<string>, ss: seq<Sample>, values: seq<string>): seq<Sample> {
    if ss == [] then []
    else
      Filled(labels, ss[..|ss| - 1], values) +
      (if ValuesOf(labels, ss[|ss| - 1]) == values then [ss[|ss| - 1]] else [])
  }

  lemma {:induction false} FilledMeansKey(labels: seq<string>, ss: seq<Sample>, values: seq<string>)
    requires |values| == |labels| && Clean(values) && forall s <- ss :: Clean(ValuesOf(labels, s))
    ensures forall s <- Filled(labels, ss, values) :: KeyOf(labels, s) == JoinMark(values)
    ensures LastWith(labels, ss, JoinMark(values)) ==
            var r := Filled(labels, ss, values); if r == [] then None else Some(r[|r| - 1])
  {
    if ss == [] {
    } else {
      var n := |ss| - 1;
      assert ss[n] in ss;
      FilledMeansKey(labels, ss[..n], values);
      if KeyOf(labels, ss[n]) == JoinMark(values) { JoinIsInjective(ValuesOf(labels, ss[n]), values); }
    }
  }

  /** The parameter values of a combination's key. */
  method ValuesOfKey(labels: seq<string>, l: Layer, key: string) returns (values: seq<string>)
    requires CleanLayer(labels, l) && key in Covered(l)
    ensures |values| == |labels| && Clean(values) && JoinMark(values) == key
  {
    ghost var t :| t in Product(l.lists.value) && JoinMark(t) == key;
    ProductMembers(l.lists.value, t);
    values := [];
    if |labels| > 0 {
      SplitAfterJoin(t);
      values := SplitMark(key)[..|labels|];
    }
    assert values == t;
  }

  /** Enters the points found for `key`; the last one stays. */
  method Enter(labels: seq<string>, points: seq<Sample>, key: string, anomalies: map<string, Sample>)
      returns (anomalies': map<string, Sample>)
    requires forall s <- points :: KeyOf(labels, s) == key
    ensures forall k :: Lookup(anomalies', k) ==
                        if k == key && points != [] then Some(points[|points| - 1]) else Lookup(anomalies, k)
  {
    anomalies' := anomalies;
    for i := 0 to |points|
      invariant anomalies' == if i > 0 then anomalies[key := points[i - 1]] else anomalies
    {
      assert KeyOf(labels, points[i]) == key;
      anomalies' := anomalies'[KeyOf(labels, points[i]) := points[i]];
    }
  }

  /** One combination of one layer of VarFillingBeforeQuery. */
  method QueryFilled(labels: seq<string>, l: Layer, key: string, anomalies: map<string, Sample>)
      returns (anomalies': map<string, Sample>)
    requires CleanLayer(labels, l) && key in Covered(l)
    ensures forall k :: Lookup(anomalies', k) ==
                        if k == key then LastWith(labels, l.samples, key) else Lookup(anomalies, k)
  {
    var values := ValuesOfKey(labels, l, key);
    FilledMeansKey(labels, l.samples, values);
    var points := Filled(labels, l.samples, values);
    if points == [] {
      return anomalies - {key};
    }
    anomalies' := Enter(labels, points, key, anomalies);
  }

  /** One layer of VarFillingBeforeQuery; the combinations are queried in whatever order. */
  method FillLayer(labels: seq<string>, l: Layer, anomalies: map<string, Sample>)
      returns (anomalies': map<string, Sample>)
    requires CleanLayer(labels, l)
    ensures forall key :: Lookup(anomalies', key) ==
                          if key in Covered(l) then LastWith(labels, l.samples, key) else Lookup(anomalies, key)
  {
    anomalies' := anomalies;
    if l.lists.None? {
      return;
    }
    var rest := ParamPermutation(l);
    while rest != {}
      invariant rest <= Covered(l)
      invariant forall key :: Lookup(anomalies', key) ==
                              if key in Covered(l) && key !in rest
                              then LastWith(labels, l.samples, key) else Lookup(anomalies, key)
    {
      var key :| key in rest;
      anomalies' := QueryFilled(labels, l, key, anomalies');
      rest := rest - {key};
    }
  }

  method VarFillingBeforeQuery(labels: seq<string>, layers: seq<Layer>) returns (anomalies: map<string, Sample>)
    requires forall l <- layers :: CleanLayer(labels, l)
    ensures forall key :: Lookup(anomalies, key) == Expected(labels, layers, key, false)
    ensures forall t ::
              |t| == |labels| && Clean(t) ==> Decided(labels, layers, t, false, Lookup(anomalies, JoinMark(t)))
  {
    anomalies := map[];
    for i := 0 to |layers|
      invariant forall key :: Lookup(anomalies, key) == Expected(labels, layers[..i], key, false)
    {
      assert layers[..i + 1][..i] == layers[..i];
      assert layers[i] in layers;
      anomalies := FillLayer(labels, layers[i], anomalies);
    }
    assert layers[..|layers|] == layers;
    forall t | |t| == |labels| && Clean(t)
      ensures Decided(labels, layers, t, false, Lookup(anomalies, JoinMark(t)))
    {
      ExpectedByValues(labels, layers, t, false);
    }
  }

  lemma {:induction false} WithFound(labels: seq<string>, ss: seq<Sample>, key: string)
    ensures FirstWith(labels, ss, key).Some? ==>
            FirstWith(labels, ss, key).value in ss && KeyOf(labels, FirstWith(labels, ss, key).value) == key
    ensures LastWith(labels, ss, key).Some? ==>
            LastWith(labels, ss, key).value in ss && KeyOf(labels, LastWith(labels, ss, key).value) == key
  {
    if ss == [] {
    } else {
      WithFound(labels, ss[..|ss| - 1], key);
    }
  }

  lemma {:induction false} UniqueSamples(labels: seq<string>, layers: seq<Layer>, key: string)
    requires forall l <- layers, s <- l.samples, d <- l.samples :: KeyOf(labels, s) == KeyOf(labels, d) ==> s == d
    ensures Expected(labels, layers, key, true) == Expected(labels, layers, key, false)
  {
    if layers == [] {
    } else {
      var l := layers[|layers| - 1];
      assert l in layers;
      WithExists(labels, l.samples, key);
      WithFound(labels, l.samples, key);
      UniqueSamples(labels, layers[..|layers| - 1], key);
    }
  }

  /** The two strategies end with the same anomaly keys, those whose last covering layer has a sample;
      with at most one sample for each key in a layer they end with the same anomalies. */
  lemma StrategiesAgree(labels: seq<string>, layers: seq<Layer>, key: string)
    ensures Expected(labels, layers, key, true).Some? <==> Present(labels, layers, key)
    ensures Expected(labels, layers, key, false).Some? <==> Present(labels, layers, key)
    ensures (forall l <- layers, s <- l.samples, d <- l.samples :: KeyOf(labels, s) == KeyOf(labels, d) ==> s == d) ==>
              Expected(labels, layers, key, true) == Expected(labels, layers, key, false)
  {
    ExpectedIsPresent(labels, layers, key, true);
    ExpectedIsPresent(labels, layers, key, false);
    if forall l <- layers, s <- l.samples, d <- l.samples :: KeyOf(labels, s) == KeyOf(labels, d) ==> s == d {
      UniqueSamples(labels, layers, key);
    }
  }
}
