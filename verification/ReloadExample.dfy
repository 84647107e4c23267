/** A run in which reloading does not give back the first trigger time. */
module ReloadExample {
  import opened Common
  import opened AlertMachine
  import opened ActiveTable
  import opened AlertConfluence

  /** An evaluation that reports one event, without inhibition. */
  function Single(rule: Rule, e: Event): Evaluation {
    Evaluation(Settings(0, false), [], e.evalTime, [], Some(rule), e.evalTime, {e.hash}, [[e]], [], [])
  }

  lemma GroupOfOne(m: Machine, cfg: Settings, e: Event)
    requires m.rule.forDuration == 0 && !cfg.inhibit
    ensures HandleGroup(m, cfg, [e]) == Fire(Observe(m, e), e)
  {
    var g := [e];
    assert g[..0] == [];
    assert ObserveAll(m, g) == Observe(m, e);
    assert EligibleOf(m, cfg.interval, g) == [] + [e] == g;
    assert Admit(g, false, TopSeverity(g)) == [] + [e] == g;
    assert FireAll(Observe(m, e), g) == Fire(FireAll(Observe(m, e), []), e);
  }

  lemma OneGroup(m: Machine, cfg: Settings, g: seq<Event>)
    ensures HandleGroups(m, cfg, [g]) == HandleGroup(m, cfg, g)
  {
    var gs := [g];
    assert gs[..0] == [];
    assert HandleGroups(m, cfg, gs[..0]) == m;
  }

  lemma FireSingle(m: Machine, e: Event)
    requires m.rule.forDuration == 0
    ensures FirePhase(m, Single(m.rule, e)) == Fire(Observe(m, e), e)
  {
    var x := Single(m.rule, e);
    assert RecoverByPoints(m, x).(rule := m.rule) == m;
    OneGroup(m, x.settings, [e]);
    GroupOfOne(m, x.settings, e);
  }

  lemma EvalSingle(m: Machine, e: Event)
    requires m.rule.forDuration == 0 && Owned(m, e.hash) && m.fires.Keys <= {e.hash}
    ensures var x, r := Single(m.rule, e), Fire(Observe(m, e), e);
            Possible(m, x) && Eval(m, x) == ClearPendings(r, {e.hash})
  {
    var x := Single(m.rule, e);
    FireSingle(m, e);
    assert FirePhase(m, x).fires.Keys - x.alerting == {};
    assert PlainPoints([]) == [];
  }

  lemma DueSingle(m: Machine, e: Event, open: Option<Fired>)
    requires m.rule.forDuration == 0 && Owned(m, e.hash) && Due(m.rule, open, e)
    requires m.fires == if open.Some? then map[e.hash := open.value] else map[]
    ensures var x, f := Single(m.rule, e), Renewed(m.rule, open, e).value;
            && Possible(m, x)
            && var r := Eval(m, x);
               && r.rule == m.rule && r.datasourceId == m.datasourceId
               && r.fires == map[e.hash := f] && r.trace == m.trace + [FirePush(e.hash, f, m.rule)]
  {
    EvalSingle(m, e);
    FireRenews(Observe(m, e), e);
    assert Lookup(m.fires, e.hash) == open;
  }

  /** Two evaluations with one event each, of the same hash and a repeat step apart, from an empty table. */
  lemma TwoSingles(rule: Rule, d: int, e0: Event, e1: Event, f0: Fired, f1: Fired)
    requires rule.forDuration == 0 && e0.hash.ruleId == rule.id && e0.hash.datasourceId == d && e1.hash == e0.hash
    requires Renewed(rule, None, e0) == Some(f0) && Renewed(rule, Some(f0), e1) == Some(f1)
    ensures var m0, xs := Reloaded(rule, d, map[]), [Single(rule, e0), Single(rule, e1)];
            && PossibleRun(m0, xs)
            && var m := Run(m0, xs);
               m.fires == map[e0.hash := f1] && Lookup(PersistAll(map[], m.trace), e0.hash) == Some(RowOf(f1))
  {
    var m0, x0, x1 := Reloaded(rule, d, map[]), Single(rule, e0), Single(rule, e1);
    DueSingle(m0, e0, None);
    var m1 := Eval(m0, x0);
    RunMore(m0, [], x0);
    assert [] + [x0] == [x0];
    DueSingle(m1, e1, Some(f0));
    RunMore(m0, [x0], x1);
    var trace := Eval(m1, x1).trace;
    assert trace[..|trace| - 1] == m1.trace;
  }

  const EVERY_MINUTE: Rule := Rule(1, 0, 0, 1, 0)

  function Sample(time: int): Event {
    Event(EventKey(1, "host=a", 7, 2, "up"), "host=a", 2, Origin, time, "1", time)
  }

  /** An event with trigger time 0 and its repetition a minute later: the record in memory has first trigger
      time 0, the reloaded one has the trigger time of the repetition. */
  lemma ZeroFirstTrigger(e0: Event, e1: Event)
    requires e0 == Sample(0) && e1 == Sample(60)
    ensures var m0, xs := Reloaded(EVERY_MINUTE, 7, map[]), [Single(EVERY_MINUTE, e0), Single(EVERY_MINUTE, e1)];
            && PossibleRun(m0, xs)
            && var m, h := Run(m0, xs), e0.hash;
               && h in m.fires && m.fires[h].firstTrigger == 0 && m.fires[h].triggerTime == 60
               && var t' := PersistAll(map[], m.trace); h in t' && LoadRow(t'[h]).firstTrigger == 60
  {
    var f0 := Fired(e0.tags, 2, Origin, 0, "1", 0, 1, 0);
    TwoSingles(EVERY_MINUTE, 7, e0, e1, f0, f0.(triggerTime := 60, sentTime := 60, number := 2));
  }
}
