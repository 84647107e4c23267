/** Which hashes an evaluation recovers, drops or leaves alone, for every order in which the
    maps are visited. */
module AlertRecovery {
  import opened Common
  import opened AlertMachine

  // ------------------------------------------------- calls of RecoverSingle

  ghost predicate Called(ps: seq<RecoverPoint>, h: EventKey) {
    exists p <- ps :: p.hash == h
  }

  /** Exactly the hashes in `gone` left the three maps. */
  ghost predicate Without(m: Machine, r: Machine, gone: bool, h: EventKey) {
    && Lookup(r.fires, h) == (if gone then None else Lookup(m.fires, h))
    && Lookup(r.pendings, h) == (if gone then None else Lookup(m.pendings, h))
    && Lookup(r.recovers, h) == (if gone then None else Lookup(m.recovers, h))
  }

  lemma RecoverSingleEffect(m: Machine, p: RecoverPoint, now: int, byRecover: bool, h: EventKey)
    ensures var r := RecoverSingle(m, p, now, byRecover);
            && r.rule == m.rule && r.datasourceId == m.datasourceId
            && Without(m, r, p.hash == h && Recoverable(m, h, now, byRecover), h)
  {
  }

  lemma RecoverableIsLocal(m: Machine, r: Machine, gone: bool, h: EventKey, now: int, byRecover: bool)
    requires r.rule == m.rule && Without(m, r, gone, h)
    ensures Recoverable(r, h, now, byRecover) <==> Recoverable(m, h, now, byRecover) && !gone
  {
    assert Lookup(r.fires, h).Some? <==> h in r.fires;
    assert Lookup(r.recovers, h).Some? <==> h in r.recovers;
  }

  /** A batch of RecoverSingle calls removes exactly the recoverable hashes it names, from all
      three maps, whatever the order and however often a hash is named. */
  lemma {:induction false} RecoverAllEffect(m: Machine, ps: seq<RecoverPoint>, now: int, byRecover: bool, h: EventKey)
    ensures var r := RecoverAll(m, ps, now, byRecover);
            && r.rule == m.rule && r.datasourceId == m.datasourceId
            && Without(m, r, Called(ps, h) && Recoverable(m, h, now, byRecover), h)
  {
    if ps == [] {
    } else {
      var before, last := ps[..|ps| - 1], ps[|ps| - 1];
      RecoverAllEffect(m, before, now, byRecover, h);
      var r := RecoverAll(m, before, now, byRecover);
      RecoverSingleEffect(r, last, now, byRecover, h);
      RecoverableIsLocal(m, r, Called(before, h) && Recoverable(m, h, now, byRecover), h, now, byRecover);
      assert ps == before + [last];
      assert Called(ps, h) <==> Called(before, h) || last.hash == h;
    }
  }

  // --------------------------------------------------- the merge by tags

  /** What the merge has achieved after visiting `hs`: one kept hash of least severity for each
      tags value, and the only hashes dropped are ones beaten strictly. */
  ghost predicate Merged(m: Machine, hs: seq<EventKey>, s: Selection) {
    && s.m.rule == m.rule && s.m.datasourceId == m.datasourceId && s.m.recovers == m.recovers
    && (forall h <- s.m.fires :: h in m.fires && s.m.fires[h] == m.fires[h])
    && (forall t <- s.kept ::
          var k := s.kept[t];
          k.hash in hs && k.hash in s.m.fires && m.fires[k.hash].tags == t && m.fires[k.hash].severity == k.severity)
    && (forall h <- hs :: h in m.fires ==>
          m.fires[h].tags in s.kept && s.kept[m.fires[h].tags].severity <= m.fires[h].severity)
    && (forall h <- m.fires :: h !in s.m.fires ==>
          h in hs && m.fires[h].tags in s.kept && s.kept[m.fires[h].tags].severity < m.fires[h].severity)
  }

  lemma MergeDrop(m: Machine, hs: seq<EventKey>, h: EventKey, s: Selection)
    requires Merged(m, hs, s) && h !in hs && h in s.m.fires
    requires var f := m.fires[h]; f.tags in s.kept && s.kept[f.tags].severity > f.severity
    ensures Merged(m, hs + [h], Select(s, h))
  {
    var f, s' := m.fires[h], Select(s, h);
    var rival := s.kept[f.tags].hash;
    assert s'.m.fires == Erase(s.m.fires, rival) && s'.kept == s.kept[f.tags := Kept(h, f.severity)];
    assert rival != h && m.fires[rival].tags == f.tags;
    forall d <- m.fires | d !in s'.m.fires
      ensures d in hs + [h] && m.fires[d].tags in s'.kept && s'.kept[m.fires[d].tags].severity < m.fires[d].severity
    {
      if d in s.m.fires { assert d == rival; }
    }
  }

  lemma MergeStep(m: Machine, hs: seq<EventKey>, h: EventKey, s: Selection)
    requires Merged(m, hs, s) && h !in hs
    ensures Merged(m, hs + [h], Select(s, h))
  {
    if h !in s.m.fires {
      assert h !in m.fires;
    } else {
      var f := m.fires[h];
      assert s.m.fires[h] == f;
      if f.tags in s.kept && s.kept[f.tags].severity > f.severity {
        MergeDrop(m, hs, h, s);
      }
    }
  }

  lemma {:induction false} MergeByTags(m: Machine, hs: seq<EventKey>)
    requires NoDuplicates(hs)
    ensures Merged(m, hs, SelectAll(m, hs))
  {
    if hs == [] {
    } else {
      MergeByTags(m, hs[..|hs| - 1]);
      MergeStep(m, hs[..|hs| - 1], hs[|hs| - 1], SelectAll(m, hs[..|hs| - 1]));
      assert hs == hs[..|hs| - 1] + [hs[|hs| - 1]];
    }
  }

  /** Inhibited recovery, for every iteration order: one RecoverSingle call for each tags value of
      the recovering hashes, on a hash of least severity; a hash is dropped without a push only
      if a strictly more severe one with its tags is recovering too. */
  lemma InhibitedCalls(m: Machine, hashOrder: seq<EventKey>, tagOrder: seq<string>)
    requires Enumerates(tagOrder, SelectAll(m, hashOrder).kept.Keys)
    requires NoDuplicates(hashOrder) && forall h <- hashOrder :: h in m.fires
    ensures var s := SelectAll(m, hashOrder);
            var calls := KeptHashes(s.kept, tagOrder);
            && NoDuplicates(calls)
            && (forall h <- hashOrder :: m.fires[h].tags in tagOrder)
            && (forall i :: 0 <= i < |calls| ==>
                  && calls[i] in hashOrder && m.fires[calls[i]].tags == tagOrder[i]
                  && calls[i] in s.m.fires
                  && forall h <- hashOrder :: m.fires[h].tags == tagOrder[i] ==>
                     m.fires[calls[i]].severity <= m.fires[h].severity)
            && (forall h <- m.fires :: h !in s.m.fires ==>
                  h in hashOrder
                  && exists h' <- hashOrder ::
                     m.fires[h'].tags == m.fires[h].tags && m.fires[h'].severity < m.fires[h].severity)
  {
    MergeByTags(m, hashOrder);
    var s := SelectAll(m, hashOrder);
    var calls := KeptHashes(s.kept, tagOrder);
    assert forall i :: 0 <= i < |calls| ==> tagOrder[i] in s.kept && calls[i] == s.kept[tagOrder[i]].hash;
    forall h <- m.fires | h !in s.m.fires
      ensures exists h' <- hashOrder ::
                m.fires[h'].tags == m.fires[h].tags && m.fires[h'].severity < m.fires[h].severity
    {
      var h' := s.kept[m.fires[h].tags].hash;
      assert h' in hashOrder;
    }
  }

  // ------------------------------------------- soundness and completeness

  lemma PlainCalled(hs: seq<EventKey>, h: EventKey)
    ensures Called(PlainPoints(hs), h) <==> h in hs
  {
    var ps := PlainPoints(hs);
    if h in hs {
      var i :| 0 <= i < |hs| && hs[i] == h;
      assert ps[i] in ps;
    }
  }

  /** The recovery phase with inhibition off: a hash stays exactly if it is alerting, or within
      the recover duration of its last handled evaluation, or waits for a recover condition. */
  lemma UninhibitedRecovery(m: Machine, alerting: set<EventKey>, now: int, hashOrder: seq<EventKey>,
                            tagOrder: seq<string>, h: EventKey)
    requires Enumerates(hashOrder, m.fires.Keys - alerting)
    requires m.fires.Keys <= m.recovers.Keys
    ensures var r := HandleRecover(m, alerting, now, false, hashOrder, tagOrder);
            && (h in r.fires <==>
                  h in m.fires && (|| h in alerting
                                   || (m.rule.recoverDuration > 0 && now - m.recovers[h] < m.rule.recoverDuration)
                                   || m.fires[h].judge != Origin))
            && (h in r.fires ==> r.fires[h] == m.fires[h])
            && (h in r.pendings ==> h in alerting)
  {
    var cleared := ClearPendings(m, alerting);
    RecoverAllEffect(cleared, PlainPoints(hashOrder), now, false, h);
    PlainCalled(hashOrder, h);
    var r := HandleRecover(m, alerting, now, false, hashOrder, tagOrder);
    assert h in r.fires <==> Lookup(r.fires, h).Some?;
    assert h in r.pendings <==> Lookup(r.pendings, h).Some?;
  }

  /** Recover points, whatever the judge types: a hash stays exactly if no point names it or it is still
      within the recover duration of its last handled evaluation. */
  lemma PointRecovery(m: Machine, ps: seq<RecoverPoint>, now: int, h: EventKey)
    requires m.fires.Keys <= m.recovers.Keys
    ensures var r := RecoverAll(m, ps, now, true);
            && (h in r.fires <==>
                  h in m.fires &&
                  (|| !Called(ps, h)
                   || (m.rule.recoverDuration > 0 && now - m.recovers[h] < m.rule.recoverDuration)))
            && (h in r.fires ==> r.fires[h] == m.fires[h])
  {
    RecoverAllEffect(m, ps, now, true, h);
    var r := RecoverAll(m, ps, now, true);
    assert h in r.fires <==> Lookup(r.fires, h).Some?;
  }

  /** With or without inhibition the recovery phase leaves alerting hashes alone, in all three
      maps, adds nothing, and leaves no pending hash that is not alerting. */
  lemma AlertingSurvives(m: Machine, alerting: set<EventKey>, now: int, inhibit: bool, hashOrder: seq<EventKey>,
                         tagOrder: seq<string>, h: EventKey)
    requires Enumerates(hashOrder, m.fires.Keys - alerting)
    requires inhibit ==> Enumerates(tagOrder, SelectAll(ClearPendings(m, alerting), hashOrder).kept.Keys)
    ensures var r := HandleRecover(m, alerting, now, inhibit, hashOrder, tagOrder);
            && r.rule == m.rule && r.datasourceId == m.datasourceId
            && (h in alerting ==>
                  && Lookup(r.fires, h) == Lookup(m.fires, h) && Lookup(r.pendings, h) == Lookup(m.pendings, h)
                  && Lookup(r.recovers, h) == Lookup(m.recovers, h))
            && (h in r.fires ==> h in m.fires && r.fires[h] == m.fires[h])
            && (h in r.pendings ==> h in alerting && h in m.pendings && r.pendings[h] == m.pendings[h])
            && (h in r.recovers ==> h in m.recovers && r.recovers[h] == m.recovers[h])
  {
    var cleared := ClearPendings(m, alerting);
    var r := HandleRecover(m, alerting, now, inhibit, hashOrder, tagOrder);
    if inhibit {
      InhibitedCalls(cleared, hashOrder, tagOrder);
      DroppedPendings(cleared, hashOrder, h);
      var s := SelectAll(cleared, hashOrder);
      var calls := KeptHashes(s.kept, tagOrder);
      MergeByTags(cleared, hashOrder);
      RecoverAllEffect(s.m, PlainPoints(calls), now, false, h);
      PlainCalled(calls, h);
    } else {
      RecoverAllEffect(cleared, PlainPoints(hashOrder), now, false, h);
      PlainCalled(hashOrder, h);
    }
    assert h in r.fires <==> Lookup(r.fires, h).Some?;
    assert h in r.pendings <==> Lookup(r.pendings, h).Some?;
    assert h in r.recovers <==> Lookup(r.recovers, h).Some?;
  }

  lemma {:induction false} DroppedPendings(m: Machine, hs: seq<EventKey>, h: EventKey)
    requires NoDuplicates(hs)
    ensures var s := SelectAll(m, hs);
            && (h in s.m.pendings ==> h in m.pendings && s.m.pendings[h] == m.pendings[h])
            && (h in m.pendings && h !in s.m.pendings ==> h in hs)
  {
    if hs == [] {
    } else {
      DroppedPendings(m, hs[..|hs| - 1], h);
      MergeByTags(m, hs[..|hs| - 1]);
      assert hs == hs[..|hs| - 1] + [hs[|hs| - 1]];
    }
  }
}
