/** What a restart forgets: the table holds neither the time of the last evaluation nor the judge type, so
    the wait of the recover duration and the recover condition do not survive it. */
module AlertRestart {
  import opened Common
  import opened AlertMachine
  import opened AlertTrace
  import opened AlertRecovery
  import opened AlertHistory
  import opened ActiveTable

  /** The first evaluation after a reload, with inhibition off: a loaded hash that is not alerting stays
      exactly if the clock itself is still short of the recover duration, whenever it was last handled and
      whatever its judge type was. */
  lemma FirstEvaluation(rule: Rule, datasourceId: int, t: Table, x: Evaluation, h: EventKey)
    requires Possible(Reloaded(rule, datasourceId, t), x) && x.cached.Some? && !x.settings.inhibit
    requires h !in x.alerting
    ensures var wait, wait' := rule.recoverDuration, x.cached.value.recoverDuration;
            h in Eval(Reloaded(rule, datasourceId, t), x).fires <==>
            && h in t && h.ruleId == rule.id && h.datasourceId == datasourceId
            && (!Called(x.recoverPoints, h) || (wait > 0 && x.recoverNow < wait))
            && wait' > 0 && x.now < wait'
  {
    var m, b := Reloaded(rule, datasourceId, t),
                Beginning(Load(t, rule.id, datasourceId), {rule, x.cached.value}, false);
    ReloadedIsTracked(rule, datasourceId, t, b.rules, false);
    PointRecovery(m, x.recoverPoints, x.recoverNow, h);
    var m1 := RecoverByPoints(m, x).(rule := x.cached.value);
    assert !Handled(x.groups, h);
    UnhandledUntouched(m1, x.settings, x.groups, h);
    assert AllWithin([] + [x], b);
    RecoveryIsExact(m, [], x, b, h);
    assert LastHandled([], h, Lookup(m.recovers, h)) == Lookup(m.recovers, h);
    assert ([] + [x])[..0] == [];
    assert h in m1.fires ==> m1.fires[h].judge == Origin;
  }

  /** The same after any run: of the hashes firing when the engine stopped, those that are not alerting in
      the first evaluation of the next one stay exactly if its clock is short of the recover duration. */
  lemma RestartForgetsWait(rule: Rule, datasourceId: int, t: Table, xs: seq<Evaluation>, rules: set<Rule>,
                           rule': Rule, x: Evaluation, h: EventKey)
    requires rule in rules && rule'.id == rule.id
    requires PossibleRun(Reloaded(rule, datasourceId, t), xs)
    requires AllWithin(xs, Beginning(Load(t, rule.id, datasourceId), rules, false))
    requires var t' := PersistAll(t, Run(Reloaded(rule, datasourceId, t), xs).trace);
             Possible(Reloaded(rule', datasourceId, t'), x)
    requires x.cached.Some? && !x.settings.inhibit && h !in x.alerting && !Called(x.recoverPoints, h)
    ensures var m := Run(Reloaded(rule, datasourceId, t), xs);
            var next, wait := Reloaded(rule', datasourceId, PersistAll(t, m.trace)), x.cached.value.recoverDuration;
            h in Eval(next, x).fires <==> h in m.fires && wait > 0 && x.now < wait
  {
    var m := Run(Reloaded(rule, datasourceId, t), xs);
    MemoryAgreesWithTable(rule, datasourceId, t, xs, rules, h);
    FirstEvaluation(rule', datasourceId, PersistAll(t, m.trace), x, h);
  }

  /** An evaluation at time 1000 that reports nothing, while `h` is firing. */
  function Nothing(rule: Rule, h: EventKey): Evaluation {
    Evaluation(Settings(0, false), [], 1000, [], Some(rule), 1000, {}, [], [h], [])
  }

  lemma NothingIsPossible(m: Machine, h: EventKey)
    requires m.fires.Keys == {h}
    ensures Possible(m, Nothing(m.rule, h)) && FirePhase(m, Nothing(m.rule, h)) == m
  {
    var x := Nothing(m.rule, h);
    assert HandleGroups(m, x.settings, []) == m;
    assert FirePhase(m, x) == m;
    assert m.fires.Keys - {} == {h};
  }

  /** An alert with a recover condition, last handled ten seconds ago under a recover duration of 300: an
      evaluation that reports nothing leaves it firing, but ends it if the engine was restarted before. */
  lemma RestartEndsAlert(rule: Rule, h: EventKey, f: Fired, m: Machine)
    requires rule == Rule(1, 0, 300, 0, 0) && h.ruleId == 1 && h.datasourceId == 7
    requires f.judge == RecoverOnCondition
    requires m == Machine(rule, 7, map[h := f], map[], map[h := 990], [])
    ensures var x, restarted := Nothing(rule, h), Reloaded(rule, 7, map[h := RowOf(f)]);
            && Possible(m, x) && h in Eval(m, x).fires
            && Possible(restarted, x) && h !in Eval(restarted, x).fires
  {
    var x, restarted := Nothing(rule, h), Reloaded(rule, 7, map[h := RowOf(f)]);
    NothingIsPossible(m, h);
    UninhibitedRecovery(m, {}, 1000, [h], [], h);
    NothingIsPossible(restarted, h);
    FirstEvaluation(rule, 7, map[h := RowOf(f)], x, h);
  }
}
