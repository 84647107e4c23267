/** The fire phase does not depend on the order in which the tag groups are visited, and
    under inhibition it lets through exactly the most severe eligible events of each group. */
module AlertConfluence {
  import opened Common
  import opened AlertMachine
  import opened AlertTrace
  import opened AlertHistory

  /** The effects of a trace that concern one hash, in order. */
  function Project(trace: seq<Effect>, h: EventKey): seq<Effect> {
    if trace == [] then []
    else
      var last := trace[|trace| - 1];
      Project(trace[..|trace| - 1], h) + (if last.hash == h then [last] else [])
  }

  /** Two machines cannot be told apart by looking at `h`. */
  ghost predicate Agree(m: Machine, m': Machine, h: EventKey) {
    && m.rule == m'.rule && m.datasourceId == m'.datasourceId
    && Lookup(m.fires, h) == Lookup(m'.fires, h)
    && Lookup(m.pendings, h) == Lookup(m'.pendings, h)
    && Lookup(m.recovers, h) == Lookup(m'.recovers, h)
    && Project(m.trace, h) == Project(m'.trace, h)
  }

  lemma ProjectAppend(trace: seq<Effect>, eff: Effect, h: EventKey)
    ensures Project(trace + [eff], h) == Project(trace, h) + (if eff.hash == h then [eff] else [])
  {
    assert (trace + [eff])[..|trace|] == trace;
  }

  // -------------------------------------------------------- locality

  lemma ObserveAt(m: Machine, e: Event, h: EventKey)
    ensures var r := Observe(m, e);
            && r.rule == m.rule && r.datasourceId == m.datasourceId && r.fires == m.fires && r.trace == m.trace
            && Lookup(r.recovers, h) == (if e.hash == h then Some(e.evalTime) else Lookup(m.recovers, h))
            && Lookup(r.pendings, h) ==
               (if e.hash == h && m.rule.forDuration != 0 && Lookup(m.pendings, h).None? then Some(e.evalTime)
                else Lookup(m.pendings, h))
  {
  }

  lemma ObserveLocal(m: Machine, m': Machine, e: Event, h: EventKey)
    requires Agree(m, m', h)
    ensures Agree(Observe(m, e), Observe(m', e), h)
  {
    ObserveAt(m, e, h);
    ObserveAt(m', e, h);
  }

  lemma FireLocal(m: Machine, m': Machine, e: Event, h: EventKey)
    requires Agree(m, m', h)
    ensures Agree(Fire(m, e), Fire(m', e), h)
  {
    if e.hash == h {
      FireOwn(m, e);
      FireOwn(m', e);
    } else {
      FireForeign(m, e, h);
      FireForeign(m', e, h);
    }
  }

  /** A notification is due: there is none yet, or the repeat step is over and the maximum not reached. */
  predicate Due(rule: Rule, open: Option<Fired>, e: Event) {
    open.None? ||
    (&& rule.repeatStep != 0 && e.evalTime >= open.value.sentTime + rule.repeatStep * 60
     && (rule.maxNumber == 0 || open.value.number < rule.maxNumber))
  }

  /** The record that Fire pushes, if it pushes: the event as built, numbered within its episode. */
  function Renewed(rule: Rule, open: Option<Fired>, e: Event): Option<Fired> {
    if !Due(rule, open, e) then None
    else
      Some(Fired(e.tags, e.severity, e.judge, e.triggerTime, e.triggerValue, e.evalTime,
                 if open.Some? then open.value.number + 1 else 1,
                 if open.Some? then open.value.firstTrigger else e.triggerTime))
  }

  /** Fire either pushes the renewed record or does nothing. */
  lemma FireRenews(m: Machine, e: Event)
    ensures var next := Renewed(m.rule, Lookup(m.fires, e.hash), e);
            Fire(m, e) == match next
                          case None => m
                          case Some(f) => m.(fires := m.fires[e.hash := f], trace :=
                            m.trace + [FirePush(e.hash, f, m.rule)])
  {
  }

  lemma FireOwn(m: Machine, e: Event)
    ensures var r, next := Fire(m, e), Renewed(m.rule, Lookup(m.fires, e.hash), e);
            && r.rule == m.rule && r.datasourceId == m.datasourceId
            && r.pendings == m.pendings && r.recovers == m.recovers
            && Lookup(r.fires, e.hash) == (if next.Some? then next else Lookup(m.fires, e.hash))
            && Project(r.trace, e.hash) ==
               Project(m.trace, e.hash) + (if next.Some? then [FirePush(e.hash, next.value, m.rule)] else [])
  {
    FireRenews(m, e);
    var next := Renewed(m.rule, Lookup(m.fires, e.hash), e);
    if next.Some? {
      ProjectAppend(m.trace, FirePush(e.hash, next.value, m.rule), e.hash);
    }
  }

  lemma FireForeign(m: Machine, e: Event, h: EventKey)
    requires e.hash != h
    ensures Agree(m, Fire(m, e), h)
  {
    FireRenews(m, e);
    var next := Renewed(m.rule, Lookup(m.fires, e.hash), e);
    if next.Some? {
      ProjectAppend(m.trace, FirePush(e.hash, next.value, m.rule), h);
    }
  }

  lemma {:induction false} ObserveAllLocal(m: Machine, m': Machine, es: seq<Event>, h: EventKey)
    requires Agree(m, m', h)
    ensures Agree(ObserveAll(m, es), ObserveAll(m', es), h)
  {
    if es == [] {
    } else {
      ObserveAllLocal(m, m', es[..|es| - 1], h);
      ObserveLocal(ObserveAll(m, es[..|es| - 1]), ObserveAll(m', es[..|es| - 1]), es[|es| - 1], h);
    }
  }

  lemma {:induction false} FireAllLocal(m: Machine, m': Machine, es: seq<Event>, h: EventKey)
    requires Agree(m, m', h)
    ensures Agree(FireAll(m, es), FireAll(m', es), h)
  {
    if es == [] {
    } else {
      FireAllLocal(m, m', es[..|es| - 1], h);
      FireLocal(FireAll(m, es[..|es| - 1]), FireAll(m', es[..|es| - 1]), es[|es| - 1], h);
    }
  }

  lemma {:induction false} EligibleLocal(m: Machine, m': Machine, interval: int, es: seq<Event>)
    requires forall e <- es :: Agree(m, m', e.hash)
    ensures EligibleOf(m, interval, es) == EligibleOf(m', interval, es)
  {
    if es == [] {
    } else {
      var h := es[|es| - 1].hash;
      EligibleLocal(m, m', interval, es[..|es| - 1]);
      ObserveAllLocal(m, m', es, h);
      var r, r' := ObserveAll(m, es), ObserveAll(m', es);
      assert h in r.pendings <==> Lookup(r.pendings, h).Some?;
      assert h in r'.pendings <==> Lookup(r'.pendings, h).Some?;
    }
  }

  /** Handling a group looks only at the group's own hashes. */
  lemma GroupLocal(m: Machine, m': Machine, cfg: Settings, g: seq<Event>, h: EventKey)
    requires forall e <- g :: Agree(m, m', e.hash)
    requires Agree(m, m', h)
    ensures Agree(HandleGroup(m, cfg, g), HandleGroup(m', cfg, g), h)
  {
    EligibleLocal(m, m', cfg.interval, g);
    ObserveAllLocal(m, m', g, h);
    FireAllLocal(ObserveAll(m, g), ObserveAll(m', g), FireList(m, cfg, g), h);
  }

  lemma {:induction false} ObserveAllForeign(m: Machine, es: seq<Event>, h: EventKey)
    requires !InGroup(es, h)
    ensures Agree(m, ObserveAll(m, es), h)
  {
    if es == [] {
    } else {
      assert es[|es| - 1] in es;
      ObserveAllForeign(m, es[..|es| - 1], h);
    }
  }

  lemma {:induction false} FireAllForeign(m: Machine, es: seq<Event>, h: EventKey)
    requires forall e <- es :: e.hash != h
    ensures Agree(m, FireAll(m, es), h)
  {
    if es == [] {
    } else {
      FireAllForeign(m, es[..|es| - 1], h);
      FireForeign(FireAll(m, es[..|es| - 1]), es[|es| - 1], h);
    }
  }

  /** ... and changes only those. */
  lemma GroupForeign(m: Machine, cfg: Settings, g: seq<Event>, h: EventKey)
    requires !InGroup(g, h)
    ensures Agree(m, HandleGroup(m, cfg, g), h)
  {
    ObserveAllForeign(m, g, h);
    FireListFromGroup(m, cfg, g);
    FireAllForeign(ObserveAll(m, g), FireList(m, cfg, g), h);
  }

  lemma {:induction false} GroupsForeign(m: Machine, cfg: Settings, gs: seq<seq<Event>>, h: EventKey)
    requires !Handled(gs, h)
    ensures Agree(m, HandleGroups(m, cfg, gs), h)
  {
    if gs == [] {
    } else {
      assert gs[|gs| - 1] in gs;
      GroupsForeign(m, cfg, gs[..|gs| - 1], h);
      GroupForeign(HandleGroups(m, cfg, gs[..|gs| - 1]), cfg, gs[|gs| - 1], h);
    }
  }

  /** No hash occurs in two groups. */
  ghost predicate Apart(gs: seq<seq<Event>>) {
    forall i, j, h :: 0 <= i < j < |gs| && InGroup(gs[i], h) ==> !InGroup(gs[j], h)
  }

  lemma GroupedIsApart(gs: seq<seq<Event>>)
    requires GroupedByLabels(gs)
    ensures Apart(gs)
  {
    forall i, j, h | 0 <= i < j < |gs| && InGroup(gs[i], h) ensures !InGroup(gs[j], h) {
      var e :| e in gs[i] && e.hash == h;
    }
  }

  lemma LastGroupIsNew(gs: seq<seq<Event>>, h: EventKey)
    requires Apart(gs) && gs != [] && InGroup(gs[|gs| - 1], h)
    ensures !Handled(gs[..|gs| - 1], h)
  {
    assert forall i :: 0 <= i < |gs| - 1 ==> !InGroup(gs[i], h);
  }

  lemma LastGroup(m: Machine, cfg: Settings, gs: seq<seq<Event>>, h: EventKey)
    requires Apart(gs) && gs != [] && InGroup(gs[|gs| - 1], h)
    ensures Agree(HandleGroups(m, cfg, gs), HandleGroup(m, cfg, gs[|gs| - 1]), h)
  {
    var before, g := gs[..|gs| - 1], gs[|gs| - 1];
    var r := HandleGroups(m, cfg, before);
    forall k | InGroup(g, k) ensures Agree(r, m, k) {
      LastGroupIsNew(gs, k);
      GroupsForeign(m, cfg, before, k);
    }
    assert forall e <- g :: InGroup(g, e.hash);
    GroupLocal(r, m, cfg, g, h);
  }

  /** Among groups that share no hash, a hash sees only its own group. */
  lemma {:induction false} OnlyOwnGroup(m: Machine, cfg: Settings, gs: seq<seq<Event>>, i: nat, h: EventKey)
    requires Apart(gs) && i < |gs| && InGroup(gs[i], h)
    ensures Agree(HandleGroups(m, cfg, gs), HandleGroup(m, cfg, gs[i]), h)
  {
    if i == |gs| - 1 {
      LastGroup(m, cfg, gs, h);
    } else {
      var before, g := gs[..|gs| - 1], gs[|gs| - 1];
      assert Apart(before);
      OnlyOwnGroup(m, cfg, before, i, h);
      GroupForeign(HandleGroups(m, cfg, before), cfg, g, h);
    }
  }

  /** Fire-phase confluence: visiting the groups in any order leaves the same three maps and the
      same effects for every hash. */
  lemma GroupOrderIsIrrelevant(m: Machine, cfg: Settings, gs: seq<seq<Event>>, gs': seq<seq<Event>>, h: EventKey)
    requires GroupedByLabels(gs) && GroupedByLabels(gs')
    requires forall g :: g in gs <==> g in gs'
    ensures Agree(HandleGroups(m, cfg, gs), HandleGroups(m, cfg, gs'), h)
  {
    GroupedIsApart(gs);
    GroupedIsApart(gs');
    if Handled(gs, h) {
      var g :| g in gs && InGroup(g, h);
      var i :| 0 <= i < |gs| && gs[i] == g;
      var j :| 0 <= j < |gs'| && gs'[j] == g;
      OnlyOwnGroup(m, cfg, gs, i, h);
      OnlyOwnGroup(m, cfg, gs', j, h);
    } else {
      GroupsForeign(m, cfg, gs, h);
      assert !Handled(gs', h);
      GroupsForeign(m, cfg, gs', h);
    }
  }

  // ------------------------------------------------- inhibition of fires

  lemma {:induction false} TopSeverityIsLeast(es: seq<Event>)
    ensures TopSeverity(es) <= SEVERITY_LOWEST
    ensures forall e <- es :: TopSeverity(es) <= e.severity
    ensures TopSeverity(es) == SEVERITY_LOWEST || exists e <- es :: e.severity == TopSeverity(es)
  {
    if es == [] {
    } else {
      TopSeverityIsLeast(es[..|es| - 1]);
      assert es == es[..|es| - 1] + [es[|es| - 1]];
    }
  }

  /** Under inhibition an event reaches fireEvent exactly if it is eligible, no eligible event of
      its group is more severe, and its severity is not beyond the lowest known one; without
      inhibition exactly if it is eligible. */
  lemma FireListExactly(m: Machine, cfg: Settings, g: seq<Event>, e: Event)
    ensures var r := ObserveAll(m, g);
            e in FireList(m, cfg, g) <==>
              && e in g && Eligible(r, cfg.interval, e)
              && (cfg.inhibit ==>
                    && e.severity <= SEVERITY_LOWEST
                    && forall d <- g :: Eligible(r, cfg.interval, d) ==> e.severity <= d.severity)
  {
    var eligible := EligibleOf(m, cfg.interval, g);
    forall d ensures d in eligible <==> d in g && Eligible(ObserveAll(m, g), cfg.interval, d) {
      EligibleExactly(m, cfg.interval, g, d);
    }
    TopSeverityIsLeast(eligible);
    AdmitMembers(eligible, cfg.inhibit, TopSeverity(eligible));
  }

  lemma {:induction false} EligibleIsKept(m: Machine, interval: int, es: seq<Event>)
    ensures EligibleOf(m, interval, es) == Keep(es, e => Eligible(ObserveAll(m, es), interval, e))
  {
    if es == [] {
    } else {
      var before := es[..|es| - 1];
      EligibleIsKept(m, interval, before);
      forall e <- before
        ensures Eligible(ObserveAll(m, before), interval, e) <==> Eligible(ObserveAll(m, es), interval, e)
      {
        EligibleStable(m, interval, es, e);
      }
      KeepSame(before, e => Eligible(ObserveAll(m, before), interval, e),
               e => Eligible(ObserveAll(m, es), interval, e));
    }
  }

  lemma {:induction false} AdmitIsKept(es: seq<Event>, inhibit: bool, top: int)
    ensures Admit(es, inhibit, top) == Keep(es, (e: Event) => inhibit ==> e.severity <= top)
  {
    if es == [] {
    } else {
      AdmitIsKept(es[..|es| - 1], inhibit, top);
    }
  }

  /** The events that reach fireEvent do so in the order of their group, each as often as it occurs there. */
  lemma FireListInOrder(m: Machine, cfg: Settings, g: seq<Event>, reaches: Event -> bool)
    requires forall e <- g :: reaches(e) <==> e in FireList(m, cfg, g)
    ensures FireList(m, cfg, g) == Keep(g, reaches)
  {
    var r, eligible := ObserveAll(m, g), EligibleOf(m, cfg.interval, g);
    var top := TopSeverity(eligible);
    var ripe, admitted := (e => Eligible(r, cfg.interval, e)), ((e: Event) => cfg.inhibit ==> e.severity <= top);
    EligibleIsKept(m, cfg.interval, g);
    AdmitIsKept(eligible, cfg.inhibit, top);
    forall e <- g ensures reaches(e) == (ripe(e) && admitted(e)) {
      EligibleExactly(m, cfg.interval, g, e);
      AdmitMembers(eligible, cfg.inhibit, top);
    }
    KeepTwice(g, ripe, admitted, reaches);
  }
}
