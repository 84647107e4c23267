/** Which datasources a rule's datasource queries select, over the indexes of the datasource cache. */
module DatasourceFilter {
  import opened Common

  datatype Id = Id(number: int)

  const ALL: Id := Id(0)

  /** A query value: a number, a text, or anything else. */
  datatype Value = Number(id: Id) | Text(pattern: string) | Other

  datatype Query = Query(matchType: int, op: string, values: seq<Value>)

  type Match = (string, string) -> bool

  // ----------------------------------------------------------- what a query means

  predicate HasId(values: seq<Value>, id: Id) {
    Number(id) in values
  }

  /** Some pattern of the query matches the name. */
  predicate Hits(name: string, values: seq<Value>, matches: Match) {
    exists k :: 0 <= k < |values| && values[k].Text? && matches(name, values[k].pattern)
  }

  predicate NameHits(id: Id, names: map<string, Id>, values: seq<Value>, matches: Match) {
    exists name <- names :: names[name] == id && Hits(name, values, matches)
  }

  /** The numbers of a query, in order. */
  function Numbers(values: seq<Value>): seq<Id> {
    if values == [] then []
    else Numbers(values[..|values| - 1]) + (match values[|values| - 1] case Number(id) => [id] case _ => [])
  }

  predicate Satisfies(id: Id, q: Query, names: map<string, Id>, matches: Match) {
    if q.matchType == 0 then
      if q.op == "in" then Numbers(q.values) == [ALL] || HasId(q.values, id)
      else q.op == "not in" && !HasId(q.values, id)
    else if q.matchType == 1 then
      if q.op == "in" then NameHits(id, names, q.values, matches)
      else q.op == "not in" && !NameHits(id, names, q.values, matches)
    else q.matchType == 2
  }

  /** The ids of `all` that satisfy every query. */
  function Selected(all: set<Id>, queries: seq<Query>, names: map<string, Id>, matches: Match): set<Id> {
    set id | id in all && forall k :: 0 <= k < |queries| ==> Satisfies(id, queries[k], names, matches)
  }

  // ----------------------------------------------------------- the narrowing

  lemma {:induction false} NumbersMembers(values: seq<Value>, id: Id)
    ensures id in Numbers(values) <==> HasId(values, id)
  {
    if values == [] {
    } else {
      NumbersMembers(values[..|values| - 1], id);
      InPrefixOrLast(values, Number(id));
    }
  }

  /** The number 0, if it is the only number of an `in` query, stands for every datasource. */
  lemma ZeroMeansAll(q: Query, id: Id, names: map<string, Id>, matches: Match)
    requires q.matchType == 0 && q.op == "in"
    ensures Satisfies(id, q, names, matches) <==>
            Number(id) in q.values || exists k: nat :: OnlyNumber(q.values, k, Id(0))
  {
    SingleNumber(q.values, Id(0));
  }

  /** `not in` is the complement of `in`, for ids unless 0 stands for all of them, for names always; a query
      with another operator of these match types, or of an unknown match type, selects nothing. */
  lemma NotInIsComplement(q: Query, id: Id, names: map<string, Id>, matches: Match)
    requires q.op == "in" && q.matchType in {0, 1} && !(q.matchType == 0 && Numbers(q.values) == [Id(0)])
    ensures Satisfies(id, q, names, matches) <==> !Satisfies(id, q.(op := "not in"), names, matches)
    ensures forall op :: op != "in" && op != "not in" ==> !Satisfies(id, q.(op := op), names, matches)
    ensures forall t :: t !in {0, 1, 2} ==> !Satisfies(id, q.(matchType := t), names, matches)
    ensures Satisfies(id, q.(matchType := 2), names, matches)
  {
    var not: string := "not in";
    assert not[0] == 'n';
  }

  ghost predicate OnlyNumber(values: seq<Value>, k: nat, id: Id) {
    && k < |values| && values[k] == Number(id)
    && forall j :: 0 <= j < |values| && j != k ==> !values[j].Number?
  }

  lemma {:induction false} NoNumbers(values: seq<Value>)
    ensures Numbers(values) == [] <==> forall v <- values :: !v.Number?
  {
    if values == [] {
    } else {
      NoNumbers(values[..|values| - 1]);
      assert values == values[..|values| - 1] + [values[|values| - 1]];
    }
  }

  lemma OnlyNumberStep(values: seq<Value>, k: nat, id: Id)
    requires k < |values|
    ensures var n := |values| - 1;
            OnlyNumber(values, k, id) <==>
            if k < n then OnlyNumber(values[..n], k, id) && !values[n].Number?
            else values[n] == Number(id) && forall v <- values[..n] :: !v.Number?
  {
    var n := |values| - 1;
    assert forall j :: 0 <= j < n ==> values[..n][j] == values[j];
  }

  lemma {:induction false} SingleNumber(values: seq<Value>, id: Id)
    ensures Numbers(values) == [id] <==> exists k: nat :: OnlyNumber(values, k, id)
  {
    if values == [] {
    } else {
      var n := |values| - 1;
      SingleNumber(values[..n], id);
      NoNumbers(values[..n]);
      forall k: nat | k < |values|
        ensures OnlyNumber(values, k, id) <==>
                if k < n then OnlyNumber(values[..n], k, id) && !values[n].Number?
                else values[n] == Number(id) && Numbers(values[..n]) == []
      {
        OnlyNumberStep(values, k, id);
      }
      var earlier := Numbers(values[..n]);
      if values[n].Number? {
        assert Numbers(values) == earlier + [values[n].id];
        assert earlier + [values[n].id] == [id] ==> |earlier| == 0 && (earlier + [values[n].id])[0] == id;
        assert OnlyNumber(values, n, id) <==> values[n] == Number(id) && earlier == [];
      } else if k: nat :| OnlyNumber(values[..n], k, id) {
        assert OnlyNumber(values, k, id);
      }
    }
  }

  method IdValues(values: seq<Value>) returns (ids: seq<Id>)
    ensures ids == Numbers(values)
  {
    ids := [];
    for k := 0 to |values|
      invariant ids == Numbers(values[..k])
    {
      assert values[..k + 1][..k] == values[..k];
      match values[k]
      case Number(id) => ids := ids + [id];
      case Text(_) =>
      case Other =>
    }
    assert values[..|values|] == values;
  }

  method KeepListed(cur: set<Id>, ids: seq<Id>) returns (r: set<Id>)
    ensures forall id :: id in r <==> id in cur && id in ids
  {
    r := {};
    for k := 0 to |ids|
      invariant forall id :: id in r <==> id in cur && id in ids[..k]
    {
      if ids[k] in cur {
        r := r + {ids[k]};
      }
    }
  }

  method DropListed(cur: set<Id>, ids: seq<Id>) returns (r: set<Id>)
    ensures forall id :: id in r <==> id in cur && id !in ids
  {
    r := cur;
    for k := 0 to |ids|
      invariant forall id :: id in r <==> id in cur && id !in ids[..k]
    {
      r := r - {ids[k]};
    }
  }

  /** The inner loop over the patterns for one name. */
  method MatchesAny(name: string, values: seq<Value>, matches: Match) returns (hit: bool)
    ensures hit == Hits(name, values, matches)
  {
    hit := false;
    for k := 0 to |values|
      invariant hit <==> exists j :: 0 <= j < k && values[j].Text? && matches(name, values[j].pattern)
    {
      if values[k].Text? {
        if matches(name, values[k].pattern) {
          hit := true;
        }
      }
    }
  }

  /** Some name of `id` that is not in `rest` any more matches. */
  ghost predicate HitBefore(id: Id, names: map<string, Id>, rest: set<string>, values: seq<Value>, matches: Match) {
    exists name <- names :: name !in rest && names[name] == id && Hits(name, values, matches)
  }

  /** A fuzzy `in`: the ids in `cur` of matching names. */
  method KeepNamed(cur: set<Id>, names: map<string, Id>, values: seq<Value>, matches: Match) returns (r: set<Id>)
    ensures forall id :: id in r <==> id in cur && NameHits(id, names, values, matches)
  {
    r := {};
    var rest := names.Keys;
    while rest != {}
      invariant rest <= names.Keys
      invariant forall id :: id in r <==> id in cur && HitBefore(id, names, rest, values, matches)
    {
      var name :| name in rest;
      rest := rest - {name};
      if names[name] in cur {
        var hit := MatchesAny(name, values, matches);
        if hit {
          r := r + {names[name]};
        }
      }
    }
  }

  /** A fuzzy `not in`: the ids in `cur` but those of matching names. */
  method DropNamed(cur: set<Id>, names: map<string, Id>, values: seq<Value>, matches: Match) returns (r: set<Id>)
    ensures forall id :: id in r <==> id in cur && !NameHits(id, names, values, matches)
  {
    r := cur;
    var rest := names.Keys;
    while rest != {}
      invariant rest <= names.Keys
      invariant forall id :: id in r <==> id in cur && !HitBefore(id, names, rest, values, matches)
    {
      var name :| name in rest;
      rest := rest - {name};
      var hit := MatchesAny(name, values, matches);
      if hit {
        r := r - {names[name]};
      }
    }
  }

  /** One query narrows `cur` to the ids that satisfy it. */
  method Narrow(cur: set<Id>, q: Query, names: map<string, Id>, matches: Match) returns (r: set<Id>)
    ensures forall id :: id in r <==> id in cur && Satisfies(id, q, names, matches)
  {
    r := {};
    if q.matchType == 0 {
      var ids := IdValues(q.values);
      forall id ensures id in ids <==> HasId(q.values, id) { NumbersMembers(q.values, id); }
      if q.op == "in" {
        if |ids| == 1 && ids[0] == ALL {
          assert ids == [ALL];
          r := cur;
        } else {
          r := KeepListed(cur, ids);
        }
      } else if q.op == "not in" {
        r := DropListed(cur, ids);
      }
    } else if q.matchType == 1 {
      if q.op == "in" {
        r := KeepNamed(cur, names, q.values, matches);
      } else if q.op == "not in" {
        r := DropNamed(cur, names, q.values, matches);
      }
    } else if q.matchType == 2 {
      r := cur;
    }
  }

  method ListIds(ids: set<Id>) returns (r: seq<Id>)
    ensures Enumerates(r, ids)
  {
    r := [];
    var rest := ids;
    while rest != {}
      invariant rest <= ids && Enumerates(r, ids - rest)
    {
      var id :| id in rest;
      EnumeratesMore(r, ids - rest, id);
      assert ids - (rest - {id}) == ids - rest + {id};
      r := r + [id];
      rest := rest - {id};
    }
    assert ids - rest == ids;
  }

  lemma SelectedStep(all: set<Id>, queries: seq<Query>, k: nat, names: map<string, Id>, matches: Match, id: Id)
    requires k < |queries|
    ensures id in Selected(all, queries[..k + 1], names, matches) <==>
            id in Selected(all, queries[..k], names, matches) && Satisfies(id, queries[k], names, matches)
  {
    var more := queries[..k + 1];
    assert more[k] == queries[k] && forall i :: 0 <= i < k ==> more[i] == queries[..k][i];
  }

  lemma SelectedPrefix(all: set<Id>, queries: seq<Query>, k: nat, names: map<string, Id>, matches: Match)
    requires k <= |queries|
    ensures Selected(all, queries, names, matches) <= Selected(all, queries[..k], names, matches)
  {
  }

  /** GetDatasourceIDsByDatasourceQueries: with at least one query, the ids that satisfy them all, each once. */
  method GetDatasourceIDsByDatasourceQueries(queries: seq<Query>, idMap: set<Id>, names: map<string, Id>,
                                             matches: Match)
      returns (ids: seq<Id>)
    ensures Enumerates(ids, if queries == [] then {} else Selected(idMap, queries, names, matches))
  {
    if |queries| == 0 {
      return [];
    }
    var cur := idMap;
    var k := 0;
    while k < |queries|
      invariant 0 <= k <= |queries| && cur == Selected(idMap, queries[..k], names, matches)
    {
      cur := Narrow(cur, queries[k], names, matches);
      forall id ensures id in cur <==> id in Selected(idMap, queries[..k + 1], names, matches) {
        SelectedStep(idMap, queries, k, names, matches, id);
      }
      k := k + 1;
      if cur == {} {
        break;
      }
    }
    SelectedPrefix(idMap, queries, k, names, matches);
    assert k == |queries| ==> queries[..k] == queries;
    ids := ListIds(cur);
  }

  /** The order of the queries does not matter. */
  lemma QueryOrderIsIrrelevant(all: set<Id>, qs: seq<Query>, qs': seq<Query>, names: map<string, Id>, matches: Match)
    requires multiset(qs) == multiset(qs')
    ensures Selected(all, qs, names, matches) == Selected(all, qs', names, matches)
  {
    assert forall q :: q in qs <==> q in multiset(qs);
    assert forall q :: q in qs' <==> q in multiset(qs');
    forall id ensures id in Selected(all, qs, names, matches) <==> id in Selected(all, qs', names, matches) {
      assert (forall q <- qs :: Satisfies(id, q, names, matches)) ==
             (forall q <- qs' :: Satisfies(id, q, names, matches));
    }
  }

  // ----------------------------------------------------------- the cache

  datatype Datasource = Datasource(id: Id, name: string, pluginType: string, status: string)

  predicate Keyed(ds: map<Id, Datasource>) {
    forall id <- ds :: ds[id].id == id
  }

  /** The datasource meets the query by its own id and name; `known` says whether its name is found. */
  predicate Meets(d: Datasource, known: bool, q: Query, matches: Match) {
    if q.matchType == 0 then
      if q.op == "in" then Numbers(q.values) == [ALL] || HasId(q.values, d.id)
      else q.op == "not in" && !HasId(q.values, d.id)
    else if q.matchType == 1 then
      if q.op == "in" then known && Hits(d.name, q.values, matches)
      else q.op == "not in" && !(known && Hits(d.name, q.values, matches))
    else q.matchType == 2
  }

  class DatasourceCache {
    var ds: map<Id, Datasource>
    var cateToIDs: map<string, set<Id>>
    var cateToNames: map<string, map<string, Id>>

    ghost function IdsOf(cate: string): set<Id>
      reads `cateToIDs
    {
      if cate in cateToIDs then cateToIDs[cate] else {}
    }

    ghost function NamesOf(cate: string): map<string, Id>
      reads `cateToNames
    {
      if cate in cateToNames then cateToNames[cate] else map[]
    }

    /** After the datasources `seen` have been entered, the id index holds exactly those of the category. */
    ghost predicate IdIndexed(source: map<Id, Datasource>, seen: set<Id>, cate: string, id: Id)
      reads `cateToIDs
    {
      id in IdsOf(cate) <==> id in seen && id in source && source[id].pluginType == cate
    }

    /** Every indexed name belongs to the datasource it leads to. */
    ghost predicate NameSound(source: map<Id, Datasource>, seen: set<Id>, cate: string, name: string)
      reads `cateToNames
    {
      name in NamesOf(cate) ==>
        var id := NamesOf(cate)[name];
        id in seen && id in source && source[id].pluginType == cate && source[id].name == name
    }

    /** The name of every datasource of the category is indexed. */
    ghost predicate NameIndexed(source: map<Id, Datasource>, seen: set<Id>, cate: string, id: Id)
      reads `cateToNames
    {
      id in seen && id in source && source[id].pluginType == cate ==> source[id].name in NamesOf(cate)
    }

    ghost predicate Indexed(source: map<Id, Datasource>, seen: set<Id>)
      reads `cateToIDs, `cateToNames
    {
      (forall cate, id :: IdIndexed(source, seen, cate, id)) &&
      (forall cate, name :: NameSound(source, seen, cate, name)) &&
      (forall cate, id :: NameIndexed(source, seen, cate, id))
    }

    ghost predicate Valid()
      reads this
    {
      Keyed(ds) && Indexed(ds, ds.Keys)
    }

    constructor ()
      ensures Valid() && ds == map[]
    {
      ds, cateToIDs, cateToNames := map[], map[], map[];
    }

    /** One turn of the loop of Set. */
    method Enter(d: Datasource, ghost source: map<Id, Datasource>, ghost seen: set<Id>)
      requires Lookup(source, d.id) == Some(d) && Indexed(source, seen)
      modifies `cateToIDs, `cateToNames
      ensures Indexed(source, seen + {d.id})
    {
      var cate := d.pluginType;
      if cate !in cateToIDs {
        cateToIDs := cateToIDs[cate := {}];
      }
      cateToIDs := cateToIDs[cate := cateToIDs[cate] + {d.id}];
      if cate !in cateToNames {
        cateToNames := cateToNames[cate := map[]];
      }
      cateToNames := cateToNames[cate := cateToNames[cate][d.name := d.id]];
      assert forall c :: NamesOf(c) == if c == cate then old(NamesOf(c))[d.name := d.id] else old(NamesOf(c));
      forall c, id ensures IdIndexed(source, seen + {d.id}, c, id) { assert old(IdIndexed(source, seen, c, id)); }
      forall c, name ensures NameSound(source, seen + {d.id}, c, name) { assert old(NameSound(source, seen, c, name)); }
      forall c, id ensures NameIndexed(source, seen + {d.id}, c, id) { assert old(NameIndexed(source, seen, c, id)); }
    }

    /** Set rebuilds both indexes from the datasources it is given. */
    method Set(source: map<Id, Datasource>)
      requires Keyed(source)
      modifies this
      ensures Valid() && ds == source
    {
      cateToIDs, cateToNames := map[], map[];
      var rest := source.Keys;
      while rest != {}
        invariant rest <= source.Keys && Indexed(source, source.Keys - rest)
      {
        var id :| id in rest;
        assert source.Keys - (rest - {id}) == source.Keys - rest + {id};
        Enter(source[id], source, source.Keys - rest);
        rest := rest - {id};
      }
      assert source.Keys - rest == source.Keys;
      ds := source;
    }

    /** The name index leads from the datasource's name to the datasource. */
    ghost predicate Holds(d: Datasource)
      reads `cateToNames
    {
      Lookup(NamesOf(d.pluginType), d.name) == Some(d.id)
    }

    lemma NameHitsOwn(id: Id, values: seq<Value>, matches: Match)
      requires Valid() && id in ds
      ensures NameHits(id, NamesOf(ds[id].pluginType), values, matches) <==>
              Holds(ds[id]) && Hits(ds[id].name, values, matches)
    {
      var names := NamesOf(ds[id].pluginType);
      forall name | name in names && names[name] == id ensures name == ds[id].name {
        assert NameSound(ds, ds.Keys, ds[id].pluginType, name);
      }
    }

    /** GetIDsByDsCateAndQueries: with at least one query, exactly the cached datasources of the category
        that meet every query, each once. */
    method GetIDsByDsCateAndQueries(cate: string, queries: seq<Query>, matches: Match) returns (ids: seq<Id>)
      requires Valid()
      ensures NoDuplicates(ids)
      ensures forall id :: id in ids <==>
                queries != [] && id in ds && ds[id].pluginType == cate &&
                forall k :: 0 <= k < |queries| ==> Meets(ds[id], Holds(ds[id]), queries[k], matches)
    {
      var idMap := if cate in cateToIDs then cateToIDs[cate] else {};
      var names := if cate in cateToNames then cateToNames[cate] else map[];
      ids := GetDatasourceIDsByDatasourceQueries(queries, idMap, names, matches);
      forall id ensures id in idMap <==> id in ds && ds[id].pluginType == cate {
        assert IdIndexed(ds, ds.Keys, cate, id);
      }
      forall id, k | id in idMap && 0 <= k < |queries|
        ensures Satisfies(id, queries[k], names, matches) == Meets(ds[id], Holds(ds[id]), queries[k], matches)
      {
        NameHitsOwn(id, queries[k].values, matches);
      }
    }

    /** Names that are unique within each category are all found. */
    lemma UniqueNamesHold(id: Id)
      requires Valid() && id in ds
      requires forall other <- ds ::
                 other != id && ds[other].pluginType == ds[id].pluginType ==> ds[other].name != ds[id].name
      ensures Holds(ds[id])
    {
      assert NameIndexed(ds, ds.Keys, ds[id].pluginType, id);
      assert NameSound(ds, ds.Keys, ds[id].pluginType, ds[id].name);
    }

    /** `other` has the name and category of `id` and is the datasource that the name leads to. */
    ghost predicate Holder(id: Id, other: Id)
      requires id in ds
      reads this
    {
      && other in ds && ds[other].pluginType == ds[id].pluginType && ds[other].name == ds[id].name
      && Holds(ds[other])
    }

    /** Of the datasources that share a name in a category, exactly one is found by it. */
    lemma NameHasOneHolder(id: Id)
      requires Valid() && id in ds
      ensures exists other :: Holder(id, other) && forall o :: Holder(id, o) ==> o == other
    {
      var cate, name := ds[id].pluginType, ds[id].name;
      assert NameIndexed(ds, ds.Keys, cate, id);
      assert NameSound(ds, ds.Keys, cate, name);
      assert Holder(id, NamesOf(cate)[name]);
    }

    /** Two datasources of one name: a name query finds one of them and not the other. */
    lemma SharedName(a: Datasource, b: Datasource)
      requires a == Datasource(Id(1), "main", "mysql", "enabled") && b == a.(id := Id(2))
      requires Valid() && ds == map[a.id := a, b.id := b]
      ensures Holds(a) <==> !Holds(b)
    {
      NameHasOneHolder(a.id);
      var other :| Holder(a.id, other);
    }
  }
}
