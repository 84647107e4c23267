/** Properties that relate a state of the alert machine to the evaluations that led to it:
    continuity of the for-duration, soundness and completeness of recovery, and progress of
    inhibited recovery. */
module AlertHistory {
  import opened Common
  import opened AlertMachine
  import opened AlertTrace
  import opened AlertRecovery

  ghost predicate InGroup(g: seq<Event>, h: EventKey) {
    exists e <- g :: e.hash == h
  }

  /** An event of `h` got past the pipeline and the mutes. */
  ghost predicate Handled(gs: seq<seq<Event>>, h: EventKey) {
    exists g <- gs :: InGroup(g, h)
  }

  // --------------------------------------------- what the fire phase does

  /** Effect of observing events of time `now` on one hash. */
  ghost predicate Observed(m: Machine, r: Machine, seen: bool, now: int, h: EventKey) {
    && Lookup(r.recovers, h) == (if seen then Some(now) else Lookup(m.recovers, h))
    && Lookup(r.pendings, h) ==
       (if h !in m.pendings && seen && m.rule.forDuration != 0 then Some(now) else Lookup(m.pendings, h))
  }

  lemma ObservedStep(m: Machine, r: Machine, e: Event, seen: bool, now: int, h: EventKey)
    requires Observed(m, r, seen, now, h) && r.rule == m.rule && e.evalTime == now
    ensures Observed(m, Observe(r, e), seen || e.hash == h, now, h)
  {
  }

  lemma {:induction false} ObserveAllEffect(m: Machine, es: seq<Event>, now: int, h: EventKey)
    requires forall e <- es :: e.evalTime == now
    ensures Observed(m, ObserveAll(m, es), InGroup(es, h), now, h)
    ensures ObserveAll(m, es).fires == m.fires && ObserveAll(m, es).rule == m.rule
    ensures ObserveAll(m, es).datasourceId == m.datasourceId
  {
    if es == [] {
    } else {
      var before, e := es[..|es| - 1], es[|es| - 1];
      ObserveAllEffect(m, before, now, h);
      ObservedStep(m, ObserveAll(m, before), e, InGroup(before, h), now, h);
      assert InGroup(es, h) <==> InGroup(before, h) || e.hash == h by { assert es == before + [e]; }
    }
  }

  lemma {:induction false} FireAllEffect(m: Machine, es: seq<Event>)
    ensures var r := FireAll(m, es);
            && r.pendings == m.pendings && r.recovers == m.recovers
            && r.rule == m.rule && r.datasourceId == m.datasourceId
            && m.fires.Keys <= r.fires.Keys
            && (forall h <- r.fires :: h in m.fires || InGroup(es, h))
  {
    if es == [] {
    } else {
      FireAllEffect(m, es[..|es| - 1]);
      assert es == es[..|es| - 1] + [es[|es| - 1]];
    }
  }

  lemma HandleGroupEffect(m: Machine, cfg: Settings, g: seq<Event>, now: int, h: EventKey)
    requires forall e <- g :: e.evalTime == now
    ensures var r := HandleGroup(m, cfg, g);
            && Observed(m, r, InGroup(g, h), now, h) && r.rule == m.rule
            && (h in m.fires ==> h in r.fires)
            && (h in r.fires ==> h in m.fires || InGroup(g, h))
  {
    ObserveAllEffect(m, g, now, h);
    FireAllEffect(ObserveAll(m, g), FireList(m, cfg, g));
    FireListFromGroup(m, cfg, g);
  }

  lemma {:induction false} HandleGroupsEffect(m: Machine, cfg: Settings, gs: seq<seq<Event>>, now: int, h: EventKey)
    requires forall g <- gs, e <- g :: e.evalTime == now
    ensures var r := HandleGroups(m, cfg, gs);
            && Observed(m, r, Handled(gs, h), now, h) && r.rule == m.rule
            && (h in m.fires ==> h in r.fires)
            && (h in r.fires ==> h in m.fires || Handled(gs, h))
  {
    if gs == [] {
    } else {
      HandleGroupsEffect(m, cfg, gs[..|gs| - 1], now, h);
      HandleGroupEffect(HandleGroups(m, cfg, gs[..|gs| - 1]), cfg, gs[|gs| - 1], now, h);
      assert gs == gs[..|gs| - 1] + [gs[|gs| - 1]];
    }
  }

  // ------------------------------------------- recovery by recover points

  /** Entries of `r` are entries of `m`. */
  ghost predicate Shrunk(m: Machine, r: Machine, h: EventKey) {
    && r.rule == m.rule
    && (h in r.fires ==> h in m.fires && r.fires[h] == m.fires[h])
    && (h in r.pendings ==> h in m.pendings && r.pendings[h] == m.pendings[h])
    && (h in r.recovers ==> h in m.recovers && r.recovers[h] == m.recovers[h])
  }

  lemma {:induction false} MergePointsShrinks(m: Machine, ps: seq<RecoverPoint>, h: EventKey)
    ensures Shrunk(m, MergePoints(m, ps).m, h)
  {
    if ps == [] {
    } else {
      MergePointsShrinks(m, ps[..|ps| - 1], h);
    }
  }

  lemma RecoverAllShrinks(m: Machine, ps: seq<RecoverPoint>, now: int, byRecover: bool, h: EventKey)
    ensures Shrunk(m, RecoverAll(m, ps, now, byRecover), h)
  {
    RecoverAllEffect(m, ps, now, byRecover, h);
    var r := RecoverAll(m, ps, now, byRecover);
    assert h in r.fires <==> Lookup(r.fires, h).Some?;
    assert h in r.pendings <==> Lookup(r.pendings, h).Some?;
    assert h in r.recovers <==> Lookup(r.recovers, h).Some?;
  }

  lemma RecoverByPointsShrinks(m: Machine, x: Evaluation, h: EventKey)
    requires Possible(m, x)
    ensures Shrunk(m, RecoverByPoints(m, x), h)
  {
    if x.settings.inhibit {
      var s := MergePoints(m, x.recoverPoints);
      MergePointsShrinks(m, x.recoverPoints, h);
      RecoverAllShrinks(s.m, KeptPoints(s.kept, x.labelOrder), x.recoverNow, true, h);
    } else {
      RecoverAllShrinks(m, x.recoverPoints, x.recoverNow, true, h);
    }
  }

  // -------------------------------------------- for-duration continuity

  /** `h` was first observed at time `t`, and reported as alerting by every completed evaluation
      since. */
  ghost predicate AlertingSince(xs: seq<Evaluation>, h: EventKey, t: int) {
    exists i :: 0 <= i < |xs| && BeganAt(xs, i, h, t)
  }

  ghost predicate BeganAt(xs: seq<Evaluation>, i: int, h: EventKey, t: int)
    requires 0 <= i < |xs|
  {
    && xs[i].cached.Some? && xs[i].now == t && Handled(xs[i].groups, h)
    && (forall j :: i <= j < |xs| ==> xs[j].cached.Some? ==> h in xs[j].alerting)
  }

  lemma AlertingStill(xs: seq<Evaluation>, x: Evaluation, h: EventKey, t: int)
    requires AlertingSince(xs, h, t) && (x.cached.Some? ==> h in x.alerting)
    ensures AlertingSince(xs + [x], h, t)
  {
    var i :| 0 <= i < |xs| && BeganAt(xs, i, h, t);
    assert BeganAt(xs + [x], i, h, t);
  }

  lemma AlertingNow(xs: seq<Evaluation>, x: Evaluation, h: EventKey)
    requires x.cached.Some? && Handled(x.groups, h) && h in x.alerting
    ensures AlertingSince(xs + [x], h, x.now)
  {
    assert BeganAt(xs + [x], |xs|, h, x.now);
  }

  lemma HandledIsAlerting(m: Machine, x: Evaluation, h: EventKey)
    requires Possible(m, x) && x.cached.Some? && Handled(x.groups, h)
    ensures h in x.alerting
  {
  }

  lemma PendingAfterEval(m: Machine, x: Evaluation, h: EventKey)
    requires Possible(m, x) && h in Eval(m, x).pendings
    ensures var r := Eval(m, x);
            && (x.cached.Some? ==> h in x.alerting)
            && (|| (h in m.pendings && r.pendings[h] == m.pendings[h])
                || (x.cached.Some? && Handled(x.groups, h) && r.pendings[h] == x.now))
  {
    RecoverByPointsShrinks(m, x, h);
    if x.cached.Some? {
      var m1 := RecoverByPoints(m, x).(rule := x.cached.value);
      HandleGroupsEffect(m1, x.settings, x.groups, x.now, h);
      AlertingSurvives(FirePhase(m, x), x.alerting, x.now, x.settings.inhibit, x.hashOrder, x.tagOrder, h);
    }
  }

  /** Over every run: a pending hash has been alerting without a gap since its recorded time. */
  lemma {:induction false} PendingContinuity(m: Machine, xs: seq<Evaluation>, h: EventKey)
    requires m.pendings == map[] && PossibleRun(m, xs)
    requires h in Run(m, xs).pendings
    ensures AlertingSince(xs, h, Run(m, xs).pendings[h])
    ensures xs != [] && xs[|xs| - 1].cached.Some? ==> h in xs[|xs| - 1].alerting
  {
    var before, x := xs[..|xs| - 1], xs[|xs| - 1];
    assert xs == before + [x];
    PendingAfterEval(Run(m, before), x, h);
    if h in Run(m, before).pendings && Run(m, xs).pendings[h] == Run(m, before).pendings[h] {
      PendingContinuity(m, before, h);
      AlertingStill(before, x, h, Run(m, xs).pendings[h]);
    } else {
      AlertingNow(before, x, h);
    }
  }

  lemma {:induction false} PendingIsStable(m: Machine, es: seq<Event>, h: EventKey)
    requires h in m.pendings
    ensures h in ObserveAll(m, es).pendings && ObserveAll(m, es).pendings[h] == m.pendings[h]
    ensures ObserveAll(m, es).rule == m.rule
  {
    if es == [] {
    } else {
      PendingIsStable(m, es[..|es| - 1], h);
    }
  }

  lemma {:induction false} ObserveAllRule(m: Machine, es: seq<Event>)
    ensures ObserveAll(m, es).rule == m.rule
    ensures m.rule.forDuration != 0 ==> forall e <- es :: e.hash in ObserveAll(m, es).pendings
  {
    if es == [] {
    } else {
      ObserveAllRule(m, es[..|es| - 1]);
      assert es == es[..|es| - 1] + [es[|es| - 1]];
    }
  }

  lemma EligibleStable(m: Machine, interval: int, es: seq<Event>, e: Event)
    requires es != [] && e in es[..|es| - 1]
    ensures Eligible(ObserveAll(m, es[..|es| - 1]), interval, e) <==> Eligible(ObserveAll(m, es), interval, e)
  {
    var before, last := es[..|es| - 1], es[|es| - 1];
    ObserveAllRule(m, before);
    if m.rule.forDuration != 0 {
      PendingIsStable(ObserveAll(m, before), [last], e.hash);
      assert ObserveAll(ObserveAll(m, before), [last]) == ObserveAll(m, es) by {
        assert [last][..0] == [];
      }
    }
  }

  /** Judging each event as it is observed is judging all of them once the group is observed. */
  lemma {:induction false} EligibleExactly(m: Machine, interval: int, es: seq<Event>, e: Event)
    ensures e in EligibleOf(m, interval, es) <==> e in es && Eligible(ObserveAll(m, es), interval, e)
  {
    if es == [] {
    } else {
      var before := es[..|es| - 1];
      EligibleExactly(m, interval, before, e);
      InPrefixOrLast(es, e);
      if e in before { EligibleStable(m, interval, es, e); }
    }
  }

  /** For-duration continuity: an event that reaches fireEvent under a nonzero for-duration is pending, its
      hash was alerting at every completed evaluation since the stored first evaluation time, and that
      time lies far enough back. */
  lemma FiresAfterForDuration(m: Machine, xs: seq<Evaluation>, x: Evaluation, k: nat, e: Event)
    requires m.pendings == map[] && PossibleRun(m, xs) && Possible(Run(m, xs), x)
    requires x.cached.Some? && x.cached.value.forDuration != 0 && k < |x.groups|
    requires var m1 := RecoverByPoints(Run(m, xs), x).(rule := x.cached.value);
             e in FireList(HandleGroups(m1, x.settings, x.groups[..k]), x.settings, x.groups[k])
    ensures var m1 := RecoverByPoints(Run(m, xs), x).(rule := x.cached.value);
            var pendings := ObserveAll(HandleGroups(m1, x.settings, x.groups[..k]), x.groups[k]).pendings;
            && e.hash in pendings && AlertingSince(xs + [x], e.hash, pendings[e.hash])
            && x.now - pendings[e.hash] + x.settings.interval >= x.cached.value.forDuration
  {
    var m1 := RecoverByPoints(Run(m, xs), x).(rule := x.cached.value);
    var m2 := HandleGroups(m1, x.settings, x.groups[..k]);
    var g := x.groups[k];
    var h := e.hash;
    FireListFromGroup(m2, x.settings, g);
    assert e in g && g in x.groups;
    assert InGroup(g, h) && Handled(x.groups, h);
    assert e in EligibleOf(m2, x.settings.interval, g) by {
      var eligible := EligibleOf(m2, x.settings.interval, g);
      AdmitMembers(eligible, x.settings.inhibit, TopSeverity(eligible));
    }
    EligibleExactly(m2, x.settings.interval, g, e);
    RecoverByPointsShrinks(Run(m, xs), x, h);
    HandleGroupsEffect(m1, x.settings, x.groups[..k], x.now, h);
    ObserveAllEffect(m2, g, x.now, h);
    var t := ObserveAll(m2, g).pendings[h];
    if h in m1.pendings {
      PendingContinuity(m, xs, h);
      AlertingStill(xs, x, h, t);
    } else {
      AlertingNow(xs, x, h);
    }
  }

  // ------------------------------------ recovery soundness, completeness

  /** The time at which an event of `h` was last handled. */
  ghost function LastHandled(xs: seq<Evaluation>, h: EventKey, start: Option<int>): Option<int> {
    if xs == [] then start
    else
      var x := xs[|xs| - 1];
      if x.cached.Some? && Handled(x.groups, h) then Some(x.now) else LastHandled(xs[..|xs| - 1], h, start)
  }

  lemma {:induction false} RecoversIsLastHandled(m: Machine, xs: seq<Evaluation>, h: EventKey)
    requires PossibleRun(m, xs)
    ensures h in Run(m, xs).recovers ==> LastHandled(xs, h, Lookup(m.recovers, h)) == Some(Run(m, xs).recovers[h])
    ensures xs != [] && xs[|xs| - 1].cached.Some? && Handled(xs[|xs| - 1].groups, h) ==> h in Run(m, xs).recovers
  {
    if xs == [] {
    } else {
      var before, x := xs[..|xs| - 1], xs[|xs| - 1];
      RecoversIsLastHandled(m, before, h);
      RecoverByPointsShrinks(Run(m, before), x, h);
      if x.cached.Some? {
        var m1 := RecoverByPoints(Run(m, before), x).(rule := x.cached.value);
        HandleGroupsEffect(m1, x.settings, x.groups, x.now, h);
        var fired := FirePhase(Run(m, before), x);
        AlertingSurvives(fired, x.alerting, x.now, x.settings.inhibit, x.hashOrder, x.tagOrder, h);
        if Handled(x.groups, h) {
          HandledIsAlerting(Run(m, before), x, h);
          assert Lookup(Run(m, xs).recovers, h) == Some(x.now);
        }
      }
    }
  }

  /** Handle never removes an alerting hash from `fires`, muted or dropped by the pipeline or not. */
  lemma HandleKeepsAlerting(m: Machine, x: Evaluation, h: EventKey)
    requires Possible(m, x) && x.cached.Some? && h in x.alerting
    ensures h in RecoverByPoints(m, x).fires ==> h in Eval(m, x).fires
    ensures h in RecoverByPoints(m, x).fires && !Handled(x.groups, h) ==>
            Eval(m, x).fires[h] == RecoverByPoints(m, x).fires[h]
  {
    var m1 := RecoverByPoints(m, x).(rule := x.cached.value);
    HandleGroupsEffect(m1, x.settings, x.groups, x.now, h);
    AlertingSurvives(FirePhase(m, x), x.alerting, x.now, x.settings.inhibit, x.hashOrder, x.tagOrder, h);
    if h in m1.fires && !Handled(x.groups, h) { UnhandledUntouched(m1, x.settings, x.groups, h); }
  }

  lemma {:induction false} UnhandledUntouched(m: Machine, cfg: Settings, gs: seq<seq<Event>>, h: EventKey)
    requires !Handled(gs, h)
    ensures Lookup(HandleGroups(m, cfg, gs).fires, h) == Lookup(m.fires, h)
  {
    if gs == [] {
    } else {
      var g := gs[|gs| - 1];
      var m1 := HandleGroups(m, cfg, gs[..|gs| - 1]);
      UnhandledUntouched(m, cfg, gs[..|gs| - 1], h);
      assert g in gs;
      ObserveAllQuiet(m1, g);
      FireListFromGroup(m1, cfg, g);
      FireElsewhere(ObserveAll(m1, g), FireList(m1, cfg, g), h);
    }
  }

  lemma {:induction false} FireElsewhere(m: Machine, es: seq<Event>, h: EventKey)
    requires forall e <- es :: e.hash != h
    ensures Lookup(FireAll(m, es).fires, h) == Lookup(m.fires, h)
  {
    if es == [] {
    } else {
      FireElsewhere(m, es[..|es| - 1], h);
    }
  }

  /** With inhibition off, after a completed evaluation of any run a hash that is not alerting is
      still in `fires` exactly if it was before the recovery step and either it was last handled
      less than the recover duration ago or its judge type is not Origin. */
  lemma RecoveryIsExact(m: Machine, xs: seq<Evaluation>, x: Evaluation, b: Beginning, h: EventKey)
    requires Tracked(m, b) && PossibleRun(m, xs) && AllWithin(xs + [x], b)
    requires Possible(Run(m, xs), x) && x.cached.Some? && !x.settings.inhibit && h !in x.alerting
    ensures var fires := FirePhase(Run(m, xs), x).fires;
            var rule := x.cached.value;
            var last := LastHandled(xs + [x], h, Lookup(m.recovers, h));
            && (h in fires ==> last.Some?)
            && (h in Eval(Run(m, xs), x).fires <==>
                  && h in fires
                  && (|| (rule.recoverDuration > 0 && x.now - last.value < rule.recoverDuration)
                      || fires[h].judge != Origin))
  {
    var before := Run(m, xs);
    assert forall y <- xs :: y in xs + [x];
    assert x in xs + [x];
    RunKeeps(m, xs, b);
    FirePhaseKeeps(before, x, b);
    var m1 := RecoverByPoints(before, x).(rule := x.cached.value);
    UninhibitedRecovery(FirePhase(before, x), x.alerting, x.now, x.hashOrder, x.tagOrder, h);
    if h in FirePhase(before, x).fires {
      assert h in FirePhase(before, x).recovers;
      RecoverByPointsShrinks(before, x, h);
      HandleGroupsEffect(m1, x.settings, x.groups, x.now, h);
      RecoversIsLastHandled(m, xs, h);
      assert (xs + [x])[..|xs|] == xs;
      assert !Handled(x.groups, h);
    }
  }

  // ------------------------------------------------- inhibited progress

  /** Nothing is alerting under inhibition; recover points there may be. */
  ghost predicate Quiet(x: Evaluation) {
    x.settings.inhibit && x.alerting == {} && x.cached.Some? && x.cached.value.recoverDuration == 0
  }

  ghost predicate AllOrigin(m: Machine) {
    forall h <- m.fires :: m.fires[h].judge == Origin
  }

  lemma QuietFirePhase(m: Machine, x: Evaluation)
    requires Possible(m, x) && Quiet(x)
    ensures FirePhase(m, x).fires == RecoverByPoints(m, x).fires
    ensures FirePhase(m, x).fires.Keys <= m.fires.Keys && (AllOrigin(m) ==> AllOrigin(FirePhase(m, x)))
  {
    var m1 := RecoverByPoints(m, x).(rule := x.cached.value);
    forall h ensures Lookup(FirePhase(m, x).fires, h) == Lookup(m1.fires, h) {
      UnhandledUntouched(m1, x.settings, x.groups, h);
    }
    SameLookups(FirePhase(m, x).fires, m1.fires);
    forall h | h in m1.fires ensures h in m.fires && m1.fires[h] == m.fires[h] { RecoverByPointsShrinks(m, x, h); }
  }

  /** The recovery phase of a quiet evaluation takes at least one hash out of `fires`. */
  lemma QuietRecovery(m: Machine, x: Evaluation)
    requires Possible(m, x) && Quiet(x) && AllOrigin(m)
    ensures Eval(m, x).fires.Keys <= FirePhase(m, x).fires.Keys && AllOrigin(Eval(m, x))
    ensures FirePhase(m, x).fires != map[] ==> Eval(m, x).fires.Keys < FirePhase(m, x).fires.Keys
  {
    var m1, r := FirePhase(m, x), Eval(m, x);
    QuietFirePhase(m, x);
    forall h | h in r.fires ensures h in m1.fires && r.fires[h] == m1.fires[h] {
      AlertingSurvives(m1, x.alerting, x.now, true, x.hashOrder, x.tagOrder, h);
    }
    if m1.fires != map[] {
      var h0 :| h0 in m1.fires;
      HandleGroupsEffect(RecoverByPoints(m, x).(rule := x.cached.value), x.settings, x.groups, x.now, h0);
      var cleared := ClearPendings(m1, x.alerting);
      var s := SelectAll(cleared, x.hashOrder);
      InhibitedCalls(cleared, x.hashOrder, x.tagOrder);
      assert h0 in x.hashOrder;
      var calls := KeptHashes(s.kept, x.tagOrder);
      assert |calls| > 0 by { assert cleared.fires[h0].tags in x.tagOrder; }
      var h := calls[0];
      MergeByTags(cleared, x.hashOrder);
      RecoverAllEffect(s.m, PlainPoints(calls), x.now, false, h);
      PlainCalled(calls, h);
      assert Recoverable(s.m, h, x.now, false);
      assert Lookup(r.fires, h).None?;
      assert h in m1.fires && h !in r.fires;
    }
  }

  /** One quiet evaluation under inhibition takes at least one hash out of `fires`, whatever its recover
      points. */
  lemma QuietProgress(m: Machine, x: Evaluation)
    requires Possible(m, x) && Quiet(x) && AllOrigin(m)
    ensures Eval(m, x).fires.Keys <= m.fires.Keys && AllOrigin(Eval(m, x))
    ensures m.fires != map[] ==> Eval(m, x).fires.Keys < m.fires.Keys
  {
    QuietFirePhase(m, x);
    QuietRecovery(m, x);
    if m.fires != map[] && FirePhase(m, x).fires == map[] {
      var h :| h in m.fires;
      assert h !in Eval(m, x).fires;
    }
  }

  lemma ProperSubsetIsSmaller<T>(a: set<T>, c: set<T>)
    requires a < c
    ensures |a| < |c|
  {
    var x :| x in c && x !in a;
    assert a <= c - {x};
    SubsetIsNoLarger(a, c - {x});
  }

  lemma SubsetIsNoLarger<T>(a: set<T>, c: set<T>)
    requires a <= c
    ensures |a| <= |c|
  {
    if a != {} {
      var x :| x in a;
      SubsetIsNoLarger(a - {x}, c - {x});
    }
  }

  /** A run of quiet evaluations empties `fires` after at most as many steps as it had hashes. */
  lemma {:induction false} QuietRunDrains(m: Machine, xs: seq<Evaluation>)
    requires PossibleRun(m, xs) && AllOrigin(m) && forall x <- xs :: Quiet(x)
    ensures AllOrigin(Run(m, xs))
    ensures |Run(m, xs).fires| <= (if |xs| <= |m.fires| then |m.fires| - |xs| else 0)
  {
    if xs == [] {
    } else {
      var before := Run(m, xs[..|xs| - 1]);
      QuietRunDrains(m, xs[..|xs| - 1]);
      QuietProgress(before, xs[|xs| - 1]);
      SubsetIsNoLarger(Run(m, xs).fires.Keys, before.fires.Keys);
      if before.fires != map[] { ProperSubsetIsSmaller(Run(m, xs).fires.Keys, before.fires.Keys); }
    }
  }
}
