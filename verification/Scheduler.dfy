/** The rule scheduler: each synchronisation starts a worker for every rule and datasource this engine
    has to evaluate, and stops the workers that are no longer wanted. */
module Scheduler {
  import opened Common

  // ----------------------------------------------------------- the worker hash

  const DIGITS: string := "0123456789"

  /** The decimal notation written by `%d`. */
  function Natural(n: nat): string {
    if n < 10 then [DIGITS[n]] else Natural(n / 10) + [DIGITS[n % 10]]
  }

  function Decimal(n: int): string {
    if n < 0 then "-" + Natural(-n) else Natural(n)
  }

  function DigitValue(c: char): nat {
    if '0' <= c <= '9' then c as int - '0' as int else 0
  }

  function ValueOf(s: string): nat {
    if s == "" then 0 else ValueOf(s[..|s| - 1]) * 10 + DigitValue(s[|s| - 1])
  }

  lemma {:induction false} NaturalRoundTrip(n: nat)
    ensures ValueOf(Natural(n)) == n && Natural(n) != ""
    ensures forall c <- Natural(n) :: '0' <= c <= '9'
  {
    assert forall k :: 0 <= k < 10 ==> DigitValue(DIGITS[k]) == k && '0' <= DIGITS[k] <= '9';
    if n < 10 {
      assert Natural(n)[..0] == "";
    } else {
      NaturalRoundTrip(n / 10);
      assert Natural(n)[..|Natural(n)| - 1] == Natural(n / 10);
    }
  }

  lemma DecimalIsInjective(m: int, n: int)
    ensures Decimal(m) == Decimal(n) ==> m == n
    ensures '_' !in Decimal(m)
  {
    NaturalRoundTrip(if m < 0 then -m else m);
    NaturalRoundTrip(if n < 0 then -n else n);
    if m < 0 { assert Decimal(m)[1..] == Natural(-m); } else { assert Natural(m)[0] in Natural(m); }
    if n < 0 { assert Decimal(n)[1..] == Natural(-n); } else { assert Natural(n)[0] in Natural(n); }
  }

  datatype Rule = Rule(id: int, prod: string, cate: string, cronPattern: string, evalInterval: int, ruleConfig: string)

  /** The cron pattern, which a rule without one gets from its evaluation interval. */
  function Cron(rule: Rule): string {
    if rule.cronPattern != "" then rule.cronPattern
    else "@every " + Decimal(if rule.evalInterval <= 0 then 10 else rule.evalInterval) + "s"
  }

  /** The text whose digest identifies a worker. */
  function HashText(ruleId: int, cron: string, config: string, dsId: int): string {
    Decimal(ruleId) + "_" + cron + "_" + config + "_" + Decimal(dsId)
  }

  /** The parts of a text before its first and after its last underscore. */
  function BeforeFirst(s: string): string {
    if s == "" || s[0] == '_' then "" else [s[0]] + BeforeFirst(s[1..])
  }

  function AfterLast(s: string): string {
    if s == "" || s[|s| - 1] == '_' then "" else AfterLast(s[..|s| - 1]) + [s[|s| - 1]]
  }

  lemma {:induction false} BeforeFirstIs(a: string, x: string)
    requires '_' !in a
    ensures BeforeFirst(a + "_" + x) == a
  {
    if a == "" {
    } else {
      assert (a + "_" + x)[1..] == a[1..] + "_" + x;
      BeforeFirstIs(a[1..], x);
    }
  }

  lemma {:induction false} AfterLastIs(x: string, a: string)
    requires '_' !in a
    ensures AfterLast(x + "_" + a) == a
  {
    if a == "" {
    } else {
      var n := |a| - 1;
      assert (x + "_" + a)[..|x| + 1 + n] == x + "_" + a[..n];
      AfterLastIs(x, a[..n]);
    }
  }

  lemma HashEnds(r: int, c: string, g: string, d: int)
    ensures BeforeFirst(HashText(r, c, g, d)) == Decimal(r)
    ensures AfterLast(HashText(r, c, g, d)) == Decimal(d)
  {
    DecimalIsInjective(r, d);
    DecimalIsInjective(d, r);
    var tail, head := c + "_" + g + "_" + Decimal(d), Decimal(r) + "_" + c + "_" + g;
    assert HashText(r, c, g, d) == Decimal(r) + "_" + tail;
    BeforeFirstIs(Decimal(r), tail);
    AfterLastIs(head, Decimal(d));
  }

  /** Whatever cron pattern and configuration say, the hashed text determines rule and datasource. */
  lemma HashDeterminesIds(r: int, c: string, g: string, d: int, r': int, c': string, g': string, d': int)
    requires HashText(r, c, g, d) == HashText(r', c', g', d')
    ensures r == r' && d == d'
  {
    HashEnds(r, c, g, d);
    HashEnds(r', c', g', d');
    DecimalIsInjective(r, r');
    DecimalIsInjective(d, d');
  }

  /** The hashed texts agree exactly if the ids do and what stands between them does. */
  lemma HashIsExact(r: int, c: string, g: string, d: int, r': int, c': string, g': string, d': int)
    ensures HashText(r, c, g, d) == HashText(r', c', g', d') <==>
            r == r' && d == d' && c + "_" + g == c' + "_" + g'
  {
    HashParts(r, c, g, d);
    HashParts(r', c', g', d');
    if HashText(r, c, g, d) == HashText(r', c', g', d') {
      HashDeterminesIds(r, c, g, d, r', c', g', d');
    }
  }

  lemma HashParts(r: int, c: string, g: string, d: int)
    ensures var s, n, k := HashText(r, c, g, d), |Decimal(r)| + 1, |Decimal(d)| + 1;
            && n + k <= |s| && s[n..|s| - k] == c + "_" + g
            && s == Decimal(r) + "_" + (c + "_" + g) + "_" + Decimal(d)
  {
    assert HashText(r, c, g, d) == Decimal(r) + "_" + (c + "_" + g) + "_" + Decimal(d);
  }

  /** What identifies a worker besides its ids: the cron pattern and the configuration. */
  function Recipe(rule: Rule): string {
    Cron(rule) + "_" + rule.ruleConfig
  }

  /** Editing the interval or the configuration of a rule without a cron pattern changes the recipe, unless
      the interval counts as 10 before and after. */
  lemma IntervalIsSeen(r: Rule, r': Rule)
    requires r.cronPattern == "" && r'.cronPattern == ""
    ensures Recipe(r) == Recipe(r') <==>
            && (if r.evalInterval > 0 then r.evalInterval else 10) ==
               (if r'.evalInterval > 0 then r'.evalInterval else 10)
            && r.ruleConfig == r'.ruleConfig
  {
    var i := GeneratedCron(r);
    var i' := GeneratedCron(r');
    if Recipe(r) == Recipe(r') {
      BeforeFirstIs(Cron(r), r.ruleConfig);
      BeforeFirstIs(Cron(r'), r'.ruleConfig);
      assert Cron(r) == Cron(r');
      assert Recipe(r)[|Cron(r)| + 1..] == r.ruleConfig;
      assert Recipe(r')[|Cron(r')| + 1..] == r'.ruleConfig;
      DecimalIsInjective(i, i');
    }
  }

  lemma GeneratedCron(r: Rule) returns (interval: int)
    requires r.cronPattern == ""
    ensures interval == if r.evalInterval > 0 then r.evalInterval else 10
    ensures var c := Cron(r); '_' !in c && |c| >= 8 && c[7..|c| - 1] == Decimal(interval)
  {
    interval := if r.evalInterval > 0 then r.evalInterval else 10;
    DecimalIsInjective(interval, interval);
    var every: string := "@every ";
    assert Cron(r) == every + Decimal(interval) + "s";
  }

  datatype Hash = Hash(text: string)

  /** The hash of the worker for a rule and a datasource. */
  type Digest = (Rule, int) -> Hash

  function WorkerHash(rule: Rule, d: int): Hash {
    Hash(HashText(rule.id, Cron(rule), rule.ruleConfig, d))
  }

  ghost predicate DeterminesIds(digest: Digest) {
    forall r, d, r', d' :: digest(r, d) == digest(r', d') ==> r.id == r'.id && d == d'
  }

  lemma WorkerHashDeterminesIds()
    ensures DeterminesIds(WorkerHash)
  {
    forall r, d, r', d' | WorkerHash(r, d) == WorkerHash(r', d') ensures r.id == r'.id && d == d' {
      HashDeterminesIds(r.id, Cron(r), r.ruleConfig, d, r'.id, Cron(r'), r'.ruleConfig, d');
    }
  }

  /** The digest tells workers apart exactly by rule, datasource and recipe. */
  ghost predicate Identifies(digest: Digest) {
    forall r, d, r', d' :: digest(r, d) == digest(r', d') <==> r.id == r'.id && d == d' && Recipe(r) == Recipe(r')
  }

  lemma WorkerHashIdentifies()
    ensures Identifies(WorkerHash)
  {
    forall r, d, r', d'
      ensures WorkerHash(r, d) == WorkerHash(r', d') <==> r.id == r'.id && d == d' && Recipe(r) == Recipe(r')
    {
      HashIsExact(r.id, Cron(r), r.ruleConfig, d, r'.id, Cron(r'), r'.ruleConfig, d');
    }
  }

  // ----------------------------------------------------------- what has to run

  datatype Datasource = Datasource(pluginType: string, status: string)

  /** What one synchronisation reads: the rule and datasource caches, the datasources each rule selects,
      and the hash ring's answers for (datasource, rule) pairs and for host rules. */
  datatype Snapshot = Snapshot(rules: map<int, Rule>, datasources: map<int, Datasource>, selected: Rule -> seq<int>,
                               hit: (int, int) -> bool, hostHit: int -> bool)

  predicate IsPrometheusRule(rule: Rule) {
    rule.prod == "metric" && rule.cate == "prometheus"
  }

  predicate IsInnerRule(rule: Rule) {
    rule.cate in {"tdengine", "ck", "elasticsearch", "loki", "mysql", "pgsql", "doris", "opensearch", "victorialogs"} ||
    rule.prod == "loki"
  }

  predicate IsHostRule(rule: Rule) {
    rule.prod == "host"
  }

  function RuleType(rule: Rule): string {
    if rule.prod == "metric" || rule.prod == "logging" then rule.cate else rule.prod
  }

  /** Whether this engine evaluates `rule` on datasource `d`, once selected. */
  predicate Evaluates(snap: Snapshot, rule: Rule, d: int) {
    snap.hit(d, rule.id) && d in snap.datasources &&
    snap.datasources[d].pluginType == RuleType(rule) && snap.datasources[d].status == "enabled"
  }

  /** This engine has to evaluate the rule on the datasource; a host rule has datasource 0. */
  predicate Assigned(snap: Snapshot, rule: Rule, d: int) {
    if IsPrometheusRule(rule) || IsInnerRule(rule) then d in snap.selected(rule) && Evaluates(snap, rule, d)
    else IsHostRule(rule) && snap.hostHit(rule.id) && d == 0
  }

  /** Rules are given datasources of their own category, so that a rule whose product is neither metric nor
      logging runs on a datasource only if product and category have the same name. */
  lemma ProductDecides(snap: Snapshot, rule: Rule, d: int)
    requires IsPrometheusRule(rule) || IsInnerRule(rule)
    requires forall k <- snap.selected(rule) :: k in snap.datasources && snap.datasources[k].pluginType == rule.cate
    ensures Assigned(snap, rule, d) <==>
            && d in snap.selected(rule) && snap.hit(d, rule.id) && snap.datasources[d].status == "enabled"
            && (rule.prod == "metric" || rule.prod == "logging" || rule.prod == rule.cate)
  {
  }

  /** `h` is the hash of some worker this engine has to run for `rule`. */
  ghost predicate Wants(digest: Digest, snap: Snapshot, rule: Rule, h: Hash) {
    exists d :: Assigned(snap, rule, d) && h == digest(rule, d)
  }

  ghost predicate Desired(digest: Digest, snap: Snapshot, ids: seq<int>, h: Hash) {
    exists k :: 0 <= k < |ids| && ids[k] in snap.rules && Wants(digest, snap, snap.rules[ids[k]], h)
  }

  lemma DesiredStep(digest: Digest, snap: Snapshot, ids: seq<int>, k: nat, h: Hash)
    requires k < |ids|
    ensures Desired(digest, snap, ids[..k + 1], h) <==>
            Desired(digest, snap, ids[..k], h) || (ids[k] in snap.rules && Wants(digest, snap, snap.rules[ids[k]], h))
  {
    var more := ids[..k + 1];
    assert more[k] == ids[k] && forall i :: 0 <= i < k ==> more[i] == ids[..k][i];
  }

  /** The cache holds each rule under its own id. */
  predicate Consistent(snap: Snapshot) {
    forall id <- snap.rules :: snap.rules[id].id == id
  }

  lemma WhoseHash(digest: Digest, snap: Snapshot, ids: seq<int>, rule: Rule, d: int)
    requires DeterminesIds(digest) && Consistent(snap) && Desired(digest, snap, ids, digest(rule, d))
    ensures rule.id in ids && rule.id in snap.rules && Assigned(snap, snap.rules[rule.id], d)
    ensures digest(rule, d) == digest(snap.rules[rule.id], d)
  {
    var h := digest(rule, d);
    var k :| 0 <= k < |ids| && ids[k] in snap.rules && Wants(digest, snap, snap.rules[ids[k]], h);
    var found := snap.rules[ids[k]];
    var e :| Assigned(snap, found, e) && h == digest(found, e);
    assert found.id == ids[k];
    assert digest(rule, d) == digest(found, e);
    assert rule.id == found.id && d == e;
  }

  // ----------------------------------------------------------- workers

  class AlertRuleWorker {
    const rule: Rule
    const datasourceId: int
    var started: bool
    var stopped: bool

    constructor (rule: Rule, d: int)
      ensures this.rule == rule && datasourceId == d && !started && !stopped
    {
      this.rule, datasourceId, started, stopped := rule, d, false, false;
    }

    method Start()
      requires !started && !stopped
      modifies this
      ensures started && !stopped
    {
      started := true;
    }

    /** Stopping closes the quit channel, which panics a second time. */
    method Stop()
      requires started && !stopped
      modifies this
      ensures started && stopped
    {
      stopped := true;
    }
  }

  function HashOf(digest: Digest, w: AlertRuleWorker): Hash {
    digest(w.rule, w.datasourceId)
  }

  /** Workers not yet started, each under its own hash. */
  ghost predicate Prepared(digest: Digest, ws: map<Hash, AlertRuleWorker>)
    reads ws.Values
  {
    forall h <- ws :: HashOf(digest, ws[h]) == h && !ws[h].started && !ws[h].stopped
  }

  /** The branch of syncAlertRules for rules evaluated per datasource. */
  method AddDatasourceWorkers(digest: Digest, ws: map<Hash, AlertRuleWorker>, snap: Snapshot, rule: Rule)
      returns (ws': map<Hash, AlertRuleWorker>)
    requires Prepared(digest, ws) && (IsPrometheusRule(rule) || IsInnerRule(rule))
    ensures Prepared(digest, ws') && forall h <- ws' :: (h in ws && ws'[h] == ws[h]) || fresh(ws'[h])
    ensures forall h :: h in ws' <==> h in ws || Wants(digest, snap, rule, h)
  {
    ws' := ws;
    var datasourceIds := snap.selected(rule);
    for k := 0 to |datasourceIds|
      invariant Prepared(digest, ws') && forall h <- ws' :: (h in ws && ws'[h] == ws[h]) || fresh(ws'[h])
      invariant forall h :: h in ws' ==> h in ws || Wants(digest, snap, rule, h)
      invariant forall h <- ws :: h in ws'
      invariant forall j ::
                  0 <= j < k && Evaluates(snap, rule, datasourceIds[j]) ==> digest(rule, datasourceIds[j]) in ws'
    {
      var d := datasourceIds[k];
      var wanted := false;
      if snap.hit(d, rule.id) && d in snap.datasources {
        var ds := snap.datasources[d];
        wanted := ds.pluginType == RuleType(rule) && ds.status == "enabled";
      }
      if wanted {
        assert Assigned(snap, rule, d);
        var worker := new AlertRuleWorker(rule, d);
        ws' := ws'[HashOf(digest, worker) := worker];
      }
    }
  }

  /** One turn of the first loop of syncAlertRules. */
  method AddRuleWorkers(digest: Digest, ws: map<Hash, AlertRuleWorker>, snap: Snapshot, rule: Rule)
      returns (ws': map<Hash, AlertRuleWorker>)
    requires Prepared(digest, ws)
    ensures Prepared(digest, ws') && forall h <- ws' :: (h in ws && ws'[h] == ws[h]) || fresh(ws'[h])
    ensures forall h :: h in ws' <==> h in ws || Wants(digest, snap, rule, h)
  {
    ws' := ws;
    if IsPrometheusRule(rule) || IsInnerRule(rule) {
      ws' := AddDatasourceWorkers(digest, ws, snap, rule);
    } else if IsHostRule(rule) {
      if snap.hostHit(rule.id) {
        assert Assigned(snap, rule, 0);
        var worker := new AlertRuleWorker(rule, 0);
        ws' := ws[HashOf(digest, worker) := worker];
      }
    }
  }

  /** The first loop of syncAlertRules. */
  method BuildWorkers(digest: Digest, snap: Snapshot, ids: seq<int>) returns (ws: map<Hash, AlertRuleWorker>)
    ensures Prepared(digest, ws) && forall h <- ws :: fresh(ws[h])
    ensures forall h :: h in ws <==> Desired(digest, snap, ids, h)
  {
    ws := map[];
    for k := 0 to |ids|
      invariant Prepared(digest, ws) && forall h <- ws :: fresh(ws[h])
      invariant forall h :: h in ws <==> Desired(digest, snap, ids[..k], h)
    {
      ghost var before := ws;
      if ids[k] in snap.rules {
        ws := AddRuleWorkers(digest, ws, snap, snap.rules[ids[k]]);
      }
      forall h ensures h in ws <==> Desired(digest, snap, ids[..k + 1], h) {
        assert h in before <==> Desired(digest, snap, ids[..k], h);
        DesiredStep(digest, snap, ids, k, h);
      }
    }
    assert ids[..|ids|] == ids;
  }

  class Scheduler {
    const digest: Digest
    var alertRules: map<Hash, AlertRuleWorker>
    /** Every worker started so far. */
    ghost var launched: set<AlertRuleWorker>

    ghost predicate Running(h: Hash)
      reads this, launched
    {
      h in alertRules ==>
        var w := alertRules[h];
        w in launched && HashOf(digest, w) == h && w.started && !w.stopped
    }

    /** A worker that was started runs under its hash or has been stopped. */
    ghost predicate Valid()
      reads this, launched
    {
      (forall h :: Running(h)) &&
      (forall w <- launched :: w.started && (w.stopped || Lookup(alertRules, HashOf(digest, w)) == Some(w)))
    }

    constructor (digest: Digest)
      ensures Valid() && this.digest == digest && alertRules == map[] && launched == {}
    {
      this.digest, alertRules, launched := digest, map[], {};
    }

    method StartWorker(h: Hash, w: AlertRuleWorker)
      requires Valid() && h !in alertRules && w !in launched && HashOf(digest, w) == h && !w.started && !w.stopped
      modifies this, w
      ensures Valid() && alertRules == old(alertRules)[h := w] && launched == old(launched) + {w}
    {
      w.Start();
      alertRules := alertRules[h := w];
      launched := launched + {w};
      forall g ensures Running(g) { assert old(Running(g)); }
    }

    method StopWorker(h: Hash)
      requires Valid() && h in alertRules
      modifies `alertRules, launched
      ensures Valid() && alertRules == old(alertRules) - {h}
    {
      assert Running(h);
      alertRules[h].Stop();
      alertRules := alertRules - {h};
      forall g ensures Running(g) { assert old(Running(g)); }
    }

    /** The entry of `h` after the missing workers of `ws` outside `rest` have been started. */
    ghost function Started(running: map<Hash, AlertRuleWorker>, ws: map<Hash, AlertRuleWorker>, rest: set<Hash>,
                           h: Hash)
      : Option<AlertRuleWorker>
    {
      if h in running then Some(running[h]) else if h in rest then None else Lookup(ws, h)
    }

    /** The second loop of syncAlertRules. */
    method StartMissing(ws: map<Hash, AlertRuleWorker>, ghost pool: set<AlertRuleWorker>)
      requires Valid() && pool !! launched && forall h <- ws :: ws[h] in pool && HashOf(digest, ws[h]) == h
      requires forall w <- pool :: !w.started && !w.stopped
      modifies this, pool
      ensures Valid() && old(launched) <= launched <= old(launched) + pool
      ensures forall h :: Lookup(alertRules, h) == Started(old(alertRules), ws, {}, h)
    {
      var rest := ws.Keys;
      while rest != {}
        invariant Valid() && old(launched) <= launched <= old(launched) + pool
        invariant forall w <- pool :: w !in launched ==> !w.started && !w.stopped
        invariant forall h <- rest :: h in ws && ws[h] !in launched
        invariant forall h :: Lookup(alertRules, h) == Started(old(alertRules), ws, rest, h)
      {
        var h :| h in rest;
        assert Lookup(alertRules, h) == Lookup(old(alertRules), h);
        ghost var before, rest0 := alertRules, rest;
        rest := rest - {h};
        if h !in alertRules {
          StartWorker(h, ws[h]);
        }
        forall g ensures Lookup(alertRules, g) == Started(old(alertRules), ws, rest, g) {
          assert Lookup(before, g) == Started(old(alertRules), ws, rest0, g);
        }
      }
    }

    /** The third loop of syncAlertRules. */
    method StopExtra(ws: map<Hash, AlertRuleWorker>)
      requires Valid()
      modifies `alertRules, launched
      ensures Valid()
      ensures forall h :: Lookup(alertRules, h) == if h in ws then Lookup(old(alertRules), h) else None
    {
      var rest := alertRules.Keys;
      while rest != {}
        invariant Valid()
        invariant forall h :: h in ws || h in rest ==> Lookup(alertRules, h) == Lookup(old(alertRules), h)
        invariant forall h <- alertRules :: h in ws || h in rest
      {
        var h :| h in rest;
        assert Lookup(alertRules, h) == Lookup(old(alertRules), h);
        rest := rest - {h};
        if h !in ws {
          StopWorker(h);
        }
      }
      forall h | h !in ws ensures Lookup(alertRules, h) == None { assert h !in alertRules; }
    }

    /** The second and the third loop of syncAlertRules. */
    method Reconcile(ws: map<Hash, AlertRuleWorker>, ghost pool: set<AlertRuleWorker>)
      requires Valid() && pool !! launched && forall h <- ws :: ws[h] in pool && HashOf(digest, ws[h]) == h
      requires forall w <- pool :: !w.started && !w.stopped
      modifies this, pool, launched
      ensures Valid() && old(launched) <= launched <= old(launched) + pool
      ensures alertRules.Keys == ws.Keys
      ensures forall h <- ws :: alertRules[h] == if h in old(alertRules) then old(alertRules)[h] else ws[h]
    {
      StartMissing(ws, pool);
      StopExtra(ws);
      forall h ensures h in alertRules <==> h in ws { assert Lookup(alertRules, h).Some? <==> h in alertRules; }
      forall h <- ws ensures alertRules[h] == if h in old(alertRules) then old(alertRules)[h] else ws[h] {
        assert Lookup(alertRules, h) == Some(alertRules[h]);
      }
    }

    /** syncAlertRules: what runs afterwards is exactly what has to run; a worker that ran and is still
        wanted is the same worker, the others are new, and no rule has two workers for a datasource.  With
        an exact digest exactly the outdated workers have been stopped, and those that run are up to date. */
    method SyncAlertRules(snap: Snapshot, ids: seq<int>)
      requires Valid() && DeterminesIds(digest) && Consistent(snap)
      modifies this, launched
      ensures Valid() && launched >= old(launched) && fresh(launched - old(launched))
      ensures forall h :: h in alertRules <==> Desired(digest, snap, ids, h)
      ensures forall h <- alertRules ::
                if h in old(alertRules) then alertRules[h] == old(alertRules)[h] else fresh(alertRules[h])
      ensures AtMostOneEach()
      ensures Identifies(digest) ==> UpToDate(snap)
      ensures Identifies(digest) ==>
                forall w <- old(launched) :: !old(w.stopped) ==> (w.stopped <==> Outdated(snap, ids, w))
    {
      ghost var before := alertRules;
      ghost var running := set w | w in launched && !w.stopped;
      assert forall w <- running :: Lookup(alertRules, HashOf(digest, w)) == Some(w);
      var ws := BuildWorkers(digest, snap, ids);
      Reconcile(ws, set h | h in ws :: ws[h]);
      DesiredIsUnique(snap, ids);
      if Identifies(digest) { StoppedExactly(snap, ids, before, running); }
    }

    ghost predicate AtMostOneEach()
      reads this
    {
      forall g, h ::
        g in alertRules && h in alertRules &&
        alertRules[g].rule.id == alertRules[h].rule.id && alertRules[g].datasourceId == alertRules[h].datasourceId
        ==> g == h
    }

    /** Every worker runs a rule of the cache, on a datasource assigned to it, with the recipe it has there. */
    ghost predicate UpToDate(snap: Snapshot)
      reads this, alertRules.Values
    {
      forall h <- alertRules ::
        var w := alertRules[h];
        && w.rule.id in snap.rules && Assigned(snap, snap.rules[w.rule.id], w.datasourceId)
        && Recipe(w.rule) == Recipe(snap.rules[w.rule.id])
    }

    /** The worker's rule is gone, no longer assigned, or its cron pattern or configuration has changed. */
    predicate Outdated(snap: Snapshot, ids: seq<int>, w: AlertRuleWorker) {
      || w.rule.id !in ids || w.rule.id !in snap.rules
      || !Assigned(snap, snap.rules[w.rule.id], w.datasourceId)
      || Recipe(w.rule) != Recipe(snap.rules[w.rule.id])
    }

    lemma DesiredIsUpToDate(snap: Snapshot, ids: seq<int>)
      requires Valid() && Identifies(digest) && Consistent(snap)
      requires forall h <- alertRules :: Desired(digest, snap, ids, h)
      ensures UpToDate(snap) && forall w <- launched :: Outdated(snap, ids, w) ==> w.stopped
    {
      assert DeterminesIds(digest);
      forall h <- alertRules ensures !Outdated(snap, ids, alertRules[h]) {
        assert Running(h);
        WhoseHash(digest, snap, ids, alertRules[h].rule, alertRules[h].datasourceId);
      }
    }

    lemma CurrentIsDesired(snap: Snapshot, ids: seq<int>, w: AlertRuleWorker)
      requires Identifies(digest) && Consistent(snap) && !Outdated(snap, ids, w)
      ensures Desired(digest, snap, ids, HashOf(digest, w))
    {
      var cached := snap.rules[w.rule.id];
      assert HashOf(digest, w) == digest(cached, w.datasourceId);
      assert Wants(digest, snap, cached, HashOf(digest, w));
    }

    /** Of the workers that ran under `before`, exactly the outdated ones have been stopped. */
    lemma StoppedExactly(snap: Snapshot, ids: seq<int>, before: map<Hash, AlertRuleWorker>,
                         running: set<AlertRuleWorker>)
      requires Valid() && Identifies(digest) && Consistent(snap)
      requires forall h :: h in alertRules <==> Desired(digest, snap, ids, h)
      requires forall h <- alertRules :: h in before ==> alertRules[h] == before[h]
      requires forall w <- running :: w in launched && Lookup(before, HashOf(digest, w)) == Some(w)
      ensures UpToDate(snap) && forall w <- running :: w.stopped <==> Outdated(snap, ids, w)
    {
      DesiredIsUpToDate(snap, ids);
      forall w <- running | !Outdated(snap, ids, w) ensures !w.stopped {
        CurrentIsDesired(snap, ids, w);
        assert Running(HashOf(digest, w));
      }
    }

    lemma DesiredIsUnique(snap: Snapshot, ids: seq<int>)
      requires Valid() && DeterminesIds(digest) && Consistent(snap)
      requires forall h <- alertRules :: Desired(digest, snap, ids, h)
      ensures AtMostOneEach()
    {
      forall g, h | g in alertRules && h in alertRules && alertRules[g].rule.id == alertRules[h].rule.id &&
                    alertRules[g].datasourceId == alertRules[h].datasourceId
        ensures g == h
      {
        assert Running(g) && Running(h);
        WhoseHash(digest, snap, ids, alertRules[g].rule, alertRules[g].datasourceId);
        WhoseHash(digest, snap, ids, alertRules[h].rule, alertRules[h].datasourceId);
      }
    }
  }
}
