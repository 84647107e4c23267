/** When an alert fires and when recover points end it, in terms of the evaluations that went before:
    if-and-only-if statements over every run, in both modes. */
module AlertTiming {
  import opened Common
  import opened AlertMachine
  import opened AlertTrace
  import opened AlertRecovery
  import opened AlertHistory
  import opened AlertConfluence
  import opened AlertEffects

  // ----------------------------------------------------------- recover points

  /** The recover points ask for the recovery of `h`: one names it, and under inhibition that one is the
      first of the least severity value among those with its labels. */
  ghost predicate Asked(x: Evaluation, h: EventKey) {
    if x.settings.inhibit then exists b: nat :: LeastAt(x.recoverPoints, b) && x.recoverPoints[b].hash == h
    else Called(x.recoverPoints, h)
  }

  /** The value to show on recovery. */
  ghost function AskedValue(x: Evaluation, h: EventKey): Option<string>
    requires Asked(x, h)
  {
    if x.settings.inhibit then
      var b: nat :| LeastAt(x.recoverPoints, b) && x.recoverPoints[b].hash == h;
      x.recoverPoints[b].value
    else FirstValue(x.recoverPoints, h)
  }

  lemma LeastIsUnique(ps: seq<RecoverPoint>, a: nat, b: nat)
    requires LeastAt(ps, a) && LeastAt(ps, b) && ps[a].hash.labels == ps[b].hash.labels
    ensures a == b
  {
    if a < b {
      assert Beats(ps[b], ps[a].hash);
    } else if b < a {
      assert Beats(ps[a], ps[b].hash);
    }
  }

  lemma LeastIsKept(m: Machine, ps: seq<RecoverPoint>, b: nat)
    requires LeastAt(ps, b)
    ensures var kept, l := MergePoints(m, ps).kept, ps[b].hash.labels; l in kept && kept[l] == ps[b]
  {
    MergeChooses(m, ps);
    assert ps[b] in ps;
    var a := KeptIsLeast(m, ps, ps[b].hash.labels);
    LeastIsUnique(ps, a, b);
  }

  lemma {:induction false} FirstValueIs(ps: seq<RecoverPoint>, h: EventKey, value: Option<string>)
    requires Called(ps, h) && forall p <- ps :: p.hash == h ==> p.value == value
    ensures FirstValue(ps, h) == value
  {
    var before, last := ps[..|ps| - 1], ps[|ps| - 1];
    assert before + [last] == ps;
    CalledStep(before, last, h);
    assert last in ps;
    if Called(before, h) { FirstValueIs(before, h, value); }
  }

  /** Under inhibition the merge calls RecoverSingle for exactly the hashes asked for. */
  lemma KeptCalls(m: Machine, x: Evaluation, h: EventKey)
    requires Possible(m, x) && x.settings.inhibit
    ensures var calls := KeptPoints(MergePoints(m, x.recoverPoints).kept, x.labelOrder);
            && (Called(calls, h) <==> Asked(x, h))
            && (Asked(x, h) ==> FirstValue(calls, h) == AskedValue(x, h) && !Forgotten(x.recoverPoints, h))
  {
    var ps, kept := x.recoverPoints, MergePoints(m, x.recoverPoints).kept;
    var calls := KeptPoints(kept, x.labelOrder);
    forall p <- calls ensures exists b: nat :: LeastAt(ps, b) && ps[b] == p {
      var i :| 0 <= i < |calls| && calls[i] == p;
      assert x.labelOrder[i] in kept;
      var b := KeptIsLeast(m, ps, x.labelOrder[i]);
    }
    if Asked(x, h) {
      var b: nat :| LeastAt(ps, b) && ps[b].hash == h;
      KeptOf(m, x, b);
      forall p <- calls | p.hash == h ensures p.value == AskedValue(x, h) {
        var a: nat :| LeastAt(ps, a) && ps[a] == p;
        var c: nat :| LeastAt(ps, c) && ps[c].hash == h && AskedValue(x, h) == ps[c].value;
        LeastIsUnique(ps, a, c);
      }
      FirstValueIs(calls, h, AskedValue(x, h));
      LeastIsNotForgotten(ps, b);
    }
  }

  lemma KeptOf(m: Machine, x: Evaluation, b: nat)
    requires Possible(m, x) && x.settings.inhibit && LeastAt(x.recoverPoints, b)
    ensures Called(KeptPoints(MergePoints(m, x.recoverPoints).kept, x.labelOrder), x.recoverPoints[b].hash)
  {
    var kept, l := MergePoints(m, x.recoverPoints).kept, x.recoverPoints[b].hash.labels;
    LeastIsKept(m, x.recoverPoints, b);
    assert l in x.labelOrder;
    var i :| 0 <= i < |x.labelOrder| && x.labelOrder[i] == l;
    assert KeptPoints(kept, x.labelOrder)[i] == x.recoverPoints[b];
  }

  lemma LeastIsNotForgotten(ps: seq<RecoverPoint>, b: nat)
    requires LeastAt(ps, b)
    ensures !Forgotten(ps, ps[b].hash)
  {
    var h := ps[b].hash;
    forall i, j | 0 <= i < j < |ps| && Leads(ps, i, h) ensures !Beats(ps[j], h) {}
  }

  /** The recover duration of `h` is over. */
  predicate TimeIsUp(m: Machine, h: EventKey, now: int) {
    m.rule.recoverDuration > 0 ==> h in m.recovers && now - m.recovers[h] >= m.rule.recoverDuration
  }

  /** The recover points take `h` out of the maps: silently, or with a recovery. */
  ghost predicate Dropped(x: Evaluation, h: EventKey) {
    x.settings.inhibit && Forgotten(x.recoverPoints, h)
  }

  ghost predicate Recovered(m: Machine, x: Evaluation, h: EventKey) {
    h in m.fires && Asked(x, h) && TimeIsUp(m, h, x.recoverNow)
  }

  /** What recover points do about `h`, in both modes and whatever its judge type: they recover it exactly
      if it is firing, asked for and its time is up, and under inhibition drop it exactly if it is forgotten. */
  lemma PointsAreExact(m: Machine, x: Evaluation, h: EventKey)
    requires Possible(m, x)
    ensures var r := RecoverByPoints(m, x);
            && !(Dropped(x, h) && Recovered(m, x, h)) && r.rule == m.rule
            && Without(m, r, Dropped(x, h) || Recovered(m, x, h), h)
            && Project(r.trace, h) ==
               Project(m.trace, h) + (if Dropped(x, h) then [ActiveDelete(h)] else []) +
               (if Recovered(m, x, h) then [RecoverPush(h, Shown(m.fires[h], AskedValue(x, h)))] else [])
  {
    var ps := x.recoverPoints;
    PointsPush(m, x, h);
    if x.settings.inhibit {
      var s := MergePoints(m, ps);
      var calls := KeptPoints(s.kept, x.labelOrder);
      KeptCalls(m, x, h);
      MergeForgets(m, ps, h);
      MergePointsShrinks(m, ps, h);
      RecoverableIsLocal(m, s.m, Forgotten(ps, h), h, x.recoverNow, true);
      RecoverAllEffect(s.m, calls, x.recoverNow, true, h);
    } else {
      RecoverAllEffect(m, ps, x.recoverNow, true, h);
    }
  }

  /** The rule in force after a run: that of its last completed evaluation. */
  function RuleAfter(xs: seq<Evaluation>, rule: Rule): Rule {
    if xs == [] then rule
    else
      var x := xs[|xs| - 1];
      if x.cached.Some? then x.cached.value else RuleAfter(xs[..|xs| - 1], rule)
  }

  lemma {:induction false} RunRule(m: Machine, xs: seq<Evaluation>, h: EventKey)
    requires PossibleRun(m, xs)
    ensures Run(m, xs).rule == RuleAfter(xs, m.rule)
  {
    if xs == [] {
    } else {
      var before, x := xs[..|xs| - 1], xs[|xs| - 1];
      RunRule(m, before, h);
      RecoverByPointsShrinks(Run(m, before), x, h);
      if x.cached.Some? {
        var m1 := RecoverByPoints(Run(m, before), x).(rule := x.cached.value);
        HandleGroupsEffect(m1, x.settings, x.groups, x.now, h);
        AlertingSurvives(FirePhase(Run(m, before), x), x.alerting, x.now, x.settings.inhibit, x.hashOrder,
                         x.tagOrder, h);
      }
    }
  }

  /** Over every run: recover points leave a firing hash exactly if they do not ask for it or it was last
      handled less than the recover duration ago, and under inhibition do not drop it. */
  lemma PointsOverRuns(m: Machine, xs: seq<Evaluation>, x: Evaluation, b: Beginning, h: EventKey)
    requires Tracked(m, b) && PossibleRun(m, xs) && AllWithin(xs, b) && Possible(Run(m, xs), x)
    ensures var fires, wait := Run(m, xs).fires, RuleAfter(xs, m.rule).recoverDuration;
            var last := LastHandled(xs, h, Lookup(m.recovers, h));
            && (h in fires ==> last.Some?)
            && (h in RecoverByPoints(Run(m, xs), x).fires <==>
                  && h in fires && !(x.settings.inhibit && Forgotten(x.recoverPoints, h))
                  && (!Asked(x, h) || (wait > 0 && x.recoverNow - last.value < wait)))
  {
    RunKeeps(m, xs, b);
    RunRule(m, xs, h);
    RecoversIsLastHandled(m, xs, h);
    PointsAreExact(Run(m, xs), x, h);
    var r := RecoverByPoints(Run(m, xs), x);
    assert h in r.fires <==> Lookup(r.fires, h).Some?;
  }

  // ----------------------------------------------------------- for-duration

  /** An event at time `now` of a hash pending since `since` has lasted the for-duration. */
  predicate Lasted(rule: Rule, since: Option<int>, interval: int, now: int) {
    rule.forDuration == 0 || now - (if since.Some? then since.value else now) + interval >= rule.forDuration
  }

  lemma EligibleByTime(m: Machine, interval: int, es: seq<Event>, now: int, e: Event)
    requires forall d <- es :: d.evalTime == now
    ensures e in EligibleOf(m, interval, es) <==>
            e in es && (|| m.rule.forDuration == 0
                        || now - (if e.hash in m.pendings then m.pendings[e.hash] else now) + interval >=
                           m.rule.forDuration)
  {
    EligibleExactly(m, interval, es, e);
    ObserveAllEffect(m, es, now, e.hash);
    var r := ObserveAll(m, es);
    assert e.hash in r.pendings <==> Lookup(r.pendings, e.hash).Some?;
    if e in es { assert InGroup(es, e.hash); }
  }

  /** Which events of a group reach fireEvent, in terms of the times since which their hashes are pending. */
  lemma FireListByTime(m: Machine, cfg: Settings, g: seq<Event>, now: int, e: Event)
    requires forall d <- g :: d.evalTime == now
    ensures e in FireList(m, cfg, g) <==>
            && e in g && Lasted(m.rule, Lookup(m.pendings, e.hash), cfg.interval, now)
            && (cfg.inhibit ==>
                  && e.severity <= 4
                  && forall d <- g ::
                       Lasted(m.rule, Lookup(m.pendings, d.hash), cfg.interval, now) ==> e.severity <= d.severity)
  {
    FireListExactly(m, cfg, g, e);
    forall d <- g
      ensures Eligible(ObserveAll(m, g), cfg.interval, d) <==>
              Lasted(m.rule, Lookup(m.pendings, d.hash), cfg.interval, now)
    {
      EligibleByTime(m, cfg.interval, g, now, d);
      EligibleExactly(m, cfg.interval, g, d);
    }
  }

  /** Since when `h` is pending after a run: since the first of its handled evaluations under a for-duration
      that no completed evaluation without it, and no recover point that took it out, came after. */
  ghost function PendingSince(m: Machine, xs: seq<Evaluation>, h: EventKey): Option<int>
    requires PossibleRun(m, xs)
    decreases |xs|, 1
  {
    if xs == [] then Lookup(m.pendings, h)
    else
      var x, left := xs[|xs| - 1], PendingBefore(m, xs, h);
      if x.cached.None? then left
      else if h !in x.alerting then None
      else if left.None? && Handled(x.groups, h) && x.cached.value.forDuration != 0 then Some(x.now)
      else left
  }

  /** ... and when the last evaluation of the run, done with its recover points, comes to handle events. */
  ghost function PendingBefore(m: Machine, xs: seq<Evaluation>, h: EventKey): Option<int>
    requires PossibleRun(m, xs) && xs != []
    decreases |xs|, 0
  {
    var before, x := xs[..|xs| - 1], xs[|xs| - 1];
    if Dropped(x, h) || Recovered(Run(m, before), x, h) then None else PendingSince(m, before, h)
  }

  lemma {:induction false} PendingIsSince(m: Machine, xs: seq<Evaluation>, h: EventKey)
    requires PossibleRun(m, xs)
    ensures Lookup(Run(m, xs).pendings, h) == PendingSince(m, xs, h)
    decreases |xs|, 1
  {
    if xs == [] {
    } else {
      var before, x := xs[..|xs| - 1], xs[|xs| - 1];
      BeforeIsPending(m, xs, h);
      if x.cached.Some? {
        var m1 := RecoverByPoints(Run(m, before), x).(rule := x.cached.value);
        HandleGroupsEffect(m1, x.settings, x.groups, x.now, h);
        AlertingSurvives(FirePhase(Run(m, before), x), x.alerting, x.now, x.settings.inhibit, x.hashOrder,
                         x.tagOrder, h);
      }
    }
  }

  lemma {:induction false} BeforeIsPending(m: Machine, xs: seq<Evaluation>, h: EventKey)
    requires PossibleRun(m, xs) && xs != []
    ensures Lookup(RecoverByPoints(Run(m, xs[..|xs| - 1]), xs[|xs| - 1]).pendings, h) == PendingBefore(m, xs, h)
    decreases |xs|, 0
  {
    PendingIsSince(m, xs[..|xs| - 1], h);
    PointsAreExact(Run(m, xs[..|xs| - 1]), xs[|xs| - 1], h);
  }

  /** The machine that comes to group `k` of the last evaluation of a run. */
  ghost function BeforeGroup(m: Machine, xs: seq<Evaluation>, k: nat): Machine
    requires PossibleRun(m, xs) && xs != [] && xs[|xs| - 1].cached.Some? && k < |xs[|xs| - 1].groups|
  {
    var x := xs[|xs| - 1];
    HandleGroups(RecoverByPoints(Run(m, xs[..|xs| - 1]), x).(rule := x.cached.value), x.settings, x.groups[..k])
  }

  lemma GroupsBeforeDoNotMatter(m: Machine, cfg: Settings, gs: seq<seq<Event>>, k: nat)
    requires Apart(gs) && k < |gs|
    ensures FireList(HandleGroups(m, cfg, gs[..k]), cfg, gs[k]) == FireList(m, cfg, gs[k])
  {
    forall e <- gs[k] ensures Agree(m, HandleGroups(m, cfg, gs[..k]), e.hash) {
      assert InGroup(gs[k], e.hash);
      assert !Handled(gs[..k], e.hash);
      GroupsForeign(m, cfg, gs[..k], e.hash);
    }
    EligibleLocal(m, HandleGroups(m, cfg, gs[..k]), cfg.interval, gs[k]);
  }

  /** Over every run: an event of the last evaluation reaches fireEvent exactly if its hash has been pending
      for the for-duration less one interval, or there is none, and under inhibition no more severe event of
      its group has lasted as well. */
  lemma FiresExactly(m: Machine, xs: seq<Evaluation>, k: nat, e: Event)
    requires PossibleRun(m, xs) && xs != [] && xs[|xs| - 1].cached.Some? && k < |xs[|xs| - 1].groups|
    ensures var x := xs[|xs| - 1];
            var rule, g, interval := x.cached.value, x.groups[k], x.settings.interval;
            e in FireList(BeforeGroup(m, xs, k), x.settings, g) <==>
            && e in g && Lasted(rule, PendingBefore(m, xs, e.hash), interval, x.now)
            && (x.settings.inhibit ==>
                  && e.severity <= 4
                  && forall d <- g ::
                       Lasted(rule, PendingBefore(m, xs, d.hash), interval, x.now) ==> e.severity <= d.severity)
  {
    var x := xs[|xs| - 1];
    var m1 := RecoverByPoints(Run(m, xs[..|xs| - 1]), x).(rule := x.cached.value);
    GroupedIsApart(x.groups);
    GroupsBeforeDoNotMatter(m1, x.settings, x.groups, k);
    assert x.groups[k] in x.groups;
    FireListByTime(m1, x.settings, x.groups[k], x.now, e);
    forall h ensures Lookup(m1.pendings, h) == PendingBefore(m, xs, h) { BeforeIsPending(m, xs, h); }
  }

  /** Evaluation `i` handles `h` under a for-duration, from then on every completed evaluation reports it as
      alerting, and no recover point names it. */
  ghost predicate SteadySince(xs: seq<Evaluation>, i: nat, h: EventKey) {
    && i < |xs| && xs[i].cached.Some? && xs[i].cached.value.forDuration != 0 && Handled(xs[i].groups, h)
    && (forall j :: i <= j < |xs| && xs[j].cached.Some? ==> h in xs[j].alerting)
    && (forall j :: i < j < |xs| ==> !Called(xs[j].recoverPoints, h))
  }

  lemma UnnamedIsLeft(m: Machine, x: Evaluation, h: EventKey)
    requires !Called(x.recoverPoints, h)
    ensures !Dropped(x, h) && !Recovered(m, x, h)
  {
    assert forall b: nat :: b < |x.recoverPoints| ==> x.recoverPoints[b] in x.recoverPoints;
  }

  /** `h` is not pending when evaluation `i` comes to handle events. */
  ghost predicate NewAt(m: Machine, xs: seq<Evaluation>, i: nat, h: EventKey) {
    i < |xs| && PossibleRun(m, xs[..i + 1]) && PendingBefore(m, xs[..i + 1], h).None?
  }

  lemma {:induction false} SteadyIsPending(m: Machine, xs: seq<Evaluation>, i: nat, h: EventKey)
    requires PossibleRun(m, xs) && SteadySince(xs, i, h) && NewAt(m, xs, i, h)
    ensures PendingSince(m, xs, h) == Some(xs[i].now)
    ensures PendingBefore(m, xs, h) == if i == |xs| - 1 then None else Some(xs[i].now)
  {
    var before, x := xs[..|xs| - 1], xs[|xs| - 1];
    if i == |xs| - 1 {
      assert xs[..i + 1] == xs;
    } else {
      assert before[..i + 1] == xs[..i + 1];
      assert SteadySince(before, i, h);
      SteadyIsPending(m, before, i, h);
      UnnamedIsLeft(Run(m, before), x, h);
    }
  }

  /** A hash that was not pending and is alerting without a gap since evaluation `i` reaches fireEvent at the
      first evaluation that handles it far enough from there, and at every later one, and at none before;
      under inhibition unless a more severe event of its group has lasted as well. */
  lemma FiresOnTime(m: Machine, xs: seq<Evaluation>, i: nat, k: nat, e: Event)
    requires PossibleRun(m, xs) && SteadySince(xs, i, e.hash) && NewAt(m, xs, i, e.hash)
    requires xs[|xs| - 1].cached.Some? && xs[|xs| - 1].cached.value.forDuration != 0
    requires k < |xs[|xs| - 1].groups| && e in xs[|xs| - 1].groups[k]
    ensures var x := xs[|xs| - 1];
            var rule, g, interval := x.cached.value, x.groups[k], x.settings.interval;
            e in FireList(BeforeGroup(m, xs, k), x.settings, g) <==>
            && x.now - xs[i].now + interval >= rule.forDuration
            && (x.settings.inhibit ==>
                  && e.severity <= 4
                  && forall d <- g ::
                       Lasted(rule, PendingBefore(m, xs, d.hash), interval, x.now) ==> e.severity <= d.severity)
  {
    FiresExactly(m, xs, k, e);
    SteadyIsPending(m, xs, i, e.hash);
  }

  lemma {:induction false} OfHashMembers(es: seq<Event>, h: EventKey, e: Event)
    ensures e in OfHash(es, h) <==> e in es && e.hash == h
  {
    if es == [] {
    } else {
      OfHashMembers(es[..|es| - 1], h, e);
      InPrefixOrLast(es, e);
    }
  }

  /** The events that FirstAlertIsNotified and EvalPushes speak of are those that reach fireEvent. */
  lemma {:induction false} ReachingMembers(m: Machine, cfg: Settings, gs: seq<seq<Event>>, h: EventKey, e: Event)
    ensures e in Reaching(m, cfg, gs, h) <==> e.hash == h && exists g <- gs :: e in FireList(m, cfg, g)
  {
    if gs == [] {
    } else {
      var before, g := gs[..|gs| - 1], gs[|gs| - 1];
      ReachingMembers(m, cfg, before, h, e);
      OfHashMembers(FireList(m, cfg, g), h, e);
      assert gs == before + [g];
    }
  }
}
