/**
 * Visiting rows one at a time adds up to the all-at-once effect, and what that says about the order
 * in which the rows are visited.
 */
module EvidenceRepairOrder {
  import opened Wrappers
  import opened EvidenceTables
  import opened EvidenceRepair

  // ---------- isolation: one run at a time ----------

  lemma LinksOnlyShrink(t: Tables, g: Ledger, runs: set<string>, now: int, e: string, i: string)
    ensures Linked(Isolate(t, g, runs, now), e, i) ==> Linked(t, e, i)
    ensures i !in InstallationsOf(t, runs) ==> (Linked(Isolate(t, g, runs, now), e, i) <==> Linked(t, e, i))
  {
    hide EvidenceFreeDetachFinalizer, InstallationsOf, Unsafe, Isolated, PointsAside;
    var s := Isolate(t, g, runs, now);
    if Linked(s, e, i) && !(i in s.installations && s.installations[i].resultId == Some(e)) {
      var c :| c in s.components && c.0 == i && s.components[c].resultId == Some(e);
      assert t.components[c].resultId == Some(e);
    }
    if i !in InstallationsOf(t, runs) && Linked(t, e, i)
      && !(i in t.installations && t.installations[i].resultId == Some(e)) {
      var c :| c in t.components && c.0 == i && t.components[c].resultId == Some(e);
      assert s.components[c].resultId == Some(e);
    }
  }

  lemma IsolateKeepsStructure(t: Tables, g: Ledger, runs: set<string>, now: int)
    ensures SameStructure(t, Isolate(t, g, runs, now))
  {
    hide EvidenceFreeDetachFinalizer, InstallationsOf, Unsafe, Isolated, PointsAside;
  }

  lemma UnsafeIsStable(t: Tables, g: Ledger, runs: set<string>, now: int, more: set<string>)
    ensures Unsafe(Isolate(t, g, runs, now), g, more) == Unsafe(t, g, more)
  {
    var s := Isolate(t, g, runs, now);
    IsolateKeepsStructure(t, g, runs, now);
    forall r | r in more && r in t.runs
      ensures EvidenceFreeDetachFinalizer(s, g, r, s.runs[r]) <==> EvidenceFreeDetachFinalizer(t, g, r, t.runs[r])
    {
      FinalizerReads(s, g, r, t.runs[r], s.runs[r]);
      FinalizersAreStable(t, s, g, r, t.runs[r], t.runs[r].state);
    }
  }

  lemma FinalizerReads(t: Tables, g: Ledger, id: string, a: Run, b: Run)
    requires a.operation == b.operation && a.installation == b.installation && a.consent == b.consent
      && a.planKeys == b.planKeys
    ensures EvidenceFreeDetachFinalizer(t, g, id, a) <==> EvidenceFreeDetachFinalizer(t, g, id, b)
  {
  }

  lemma TouchedIsStable(t: Tables, g: Ledger, runs: set<string>, now: int, more: set<string>)
    ensures InstallationsOf(Isolate(t, g, runs, now), more) == InstallationsOf(t, more)
  {
    hide EvidenceFreeDetachFinalizer, Isolated;
    var s := Isolate(t, g, runs, now);
    forall i ensures i in InstallationsOf(s, more) <==> i in InstallationsOf(t, more) {
      if i in InstallationsOf(s, more) {
        var r :| r in more && r in s.runs && s.runs[r].installation == Some(i);
        assert t.runs[r].installation == Some(i);
      }
      if i in InstallationsOf(t, more) {
        var r :| r in more && r in t.runs && t.runs[r].installation == Some(i);
        assert s.runs[r].installation == Some(i);
      }
    }
  }

  lemma EvidenceAddsUp(t: Tables, g: Ledger, a: set<string>, b: set<string>, now: int)
    ensures Isolate(Isolate(t, g, a, now), g, b, now).evidence == Isolate(t, g, a + b, now).evidence
  {
    hide EvidenceFreeDetachFinalizer, InstallationsOf, Unsafe, Linked;
    var s := Isolate(t, g, a, now);
    TouchedIsStable(t, g, a, now, b);
    InstallationsAddUp(t, a, b);
    forall e | e in t.evidence
      ensures SetAside(t, e, InstallationsOf(t, a + b))
        <==> SetAside(t, e, InstallationsOf(t, a)) || SetAside(s, e, InstallationsOf(t, b))
    {
      LinksOnlyShrink(t, g, a, now, e, t.evidence[e].installation);
    }
    assert Isolate(s, g, b, now).evidence == Isolate(t, g, a + b, now).evidence;
  }

  lemma NoRunsNoInstallations(t: Tables)
    ensures InstallationsOf(t, {}) == {}
  {
  }

  lemma InstallationsAddUp(t: Tables, a: set<string>, b: set<string>)
    ensures InstallationsOf(t, a + b) == InstallationsOf(t, a) + InstallationsOf(t, b)
  {
  }

  /** Whether a row points aside does not change after the installation has been visited. */
  lemma AsideIsStable(t: Tables, g: Ledger, a: set<string>, b: set<string>, now: int, resultId: Option<string>,
                      i: string)
    requires i in InstallationsOf(t, a) || i !in InstallationsOf(t, b)
    ensures PointsAside(Isolate(t, g, a + b, now).evidence, resultId, i) <==>
      PointsAside(Isolate(t, g, a, now).evidence, resultId, i)
  {
    hide EvidenceFreeDetachFinalizer, InstallationsOf, Unsafe, Linked;
    InstallationsAddUp(t, a, b);
  }

  lemma ComponentsAddUp(t: Tables, g: Ledger, a: set<string>, b: set<string>, now: int)
    ensures Isolate(Isolate(t, g, a, now), g, b, now).components == Isolate(t, g, a + b, now).components
  {
    hide EvidenceFreeDetachFinalizer, InstallationsOf, Unsafe, Isolated, PointsAside;
    var s := Isolate(t, g, a, now);
    TouchedIsStable(t, g, a, now, b);
    InstallationsAddUp(t, a, b);
    EvidenceAddsUp(t, g, a, b, now);
    forall c | c in t.components
      ensures Isolate(s, g, b, now).components[c] == Isolate(t, g, a + b, now).components[c]
    {
      if c.0 in InstallationsOf(t, a) || c.0 !in InstallationsOf(t, b) {
        AsideIsStable(t, g, a, b, now, t.components[c].resultId, c.0);
      }
    }
  }

  lemma UnsafeAddsUp(t: Tables, g: Ledger, a: set<string>, b: set<string>)
    ensures Unsafe(t, g, a + b) == Unsafe(t, g, a) + Unsafe(t, g, b)
  {
    hide EvidenceFreeDetachFinalizer;
  }

  lemma InstallationRowsAddUp(t: Tables, g: Ledger, a: set<string>, b: set<string>, now: int)
    ensures Isolate(Isolate(t, g, a, now), g, b, now).installations == Isolate(t, g, a + b, now).installations
  {
    hide EvidenceFreeDetachFinalizer, Isolated, InstallationsOf, Unsafe, PointsAside, InstallationAfter, EvidenceLess;
    var s := Isolate(t, g, a, now);
    TouchedIsStable(t, g, a, now, b);
    TouchedIsStable(t, g, a, now, Unsafe(t, g, b));
    UnsafeIsStable(t, g, a, now, b);
    InstallationsAddUp(t, a, b);
    UnsafeAddsUp(t, g, a, b);
    InstallationsAddUp(t, Unsafe(t, g, a), Unsafe(t, g, b));
    EvidenceAddsUp(t, g, a, b, now);
    var ea, eb := s.evidence, Isolate(t, g, a + b, now).evidence;
    var ma, mb := InstallationsOf(t, Unsafe(t, g, a)), InstallationsOf(t, Unsafe(t, g, b));
    forall i | i in t.installations
      ensures Isolate(s, g, b, now).installations[i] == Isolate(t, g, a + b, now).installations[i]
    {
      var x := t.installations[i];
      var da := i in InstallationsOf(t, a) && PointsAside(ea, x.resultId, i);
      var y := InstallationAfter(x, i in ma, da, now);
      assert y == s.installations[i];
      var db := i in InstallationsOf(t, b) && PointsAside(eb, y.resultId, i);
      if i in InstallationsOf(t, a) || i !in InstallationsOf(t, b) {
        AsideIsStable(t, g, a, b, now, x.resultId, i);
      }
      NothingPointsAside(eb, i);
      VisitedTwice(x, i in ma, da, i in mb, db, now);
    }
  }

  lemma NothingPointsAside(evidence: map<string, Evidence>, i: string)
    ensures !PointsAside(evidence, None, i)
  {
  }

  lemma RunsAddUp(t: Tables, g: Ledger, a: set<string>, b: set<string>, now: int)
    ensures Isolate(Isolate(t, g, a, now), g, b, now).runs == Isolate(t, g, a + b, now).runs
  {
    hide EvidenceFreeDetachFinalizer, Isolated, InstallationsOf;
    UnsafeIsStable(t, g, a, now, b);
  }

  /** Isolating some runs and then others is isolating them all, however they are split. */
  lemma IsolationAddsUp(t: Tables, g: Ledger, a: set<string>, b: set<string>, now: int)
    ensures Isolate(Isolate(t, g, a, now), g, b, now) == Isolate(t, g, a + b, now)
  {
    hide EvidenceFreeDetachFinalizer, Isolated, InstallationsOf, Unsafe;
    EvidenceAddsUp(t, g, a, b, now);
    ComponentsAddUp(t, g, a, b, now);
    InstallationRowsAddUp(t, g, a, b, now);
    RunsAddUp(t, g, a, b, now);
  }

  /** The loop as a fold over the order in which the query returns the runs. */
  function IsolateInOrder(t: Tables, g: Ledger, order: seq<string>, now: int): Tables {
    if order == [] then t
    else Isolate(IsolateInOrder(t, g, order[..|order| - 1], now), g, {order[|order| - 1]}, now)
  }

  function Elements<T>(s: seq<T>): set<T> {
    set x | x in s
  }

  lemma IsolateNothing(t: Tables, g: Ledger, now: int)
    ensures Isolate(t, g, {}, now) == t
  {
    hide EvidenceFreeDetachFinalizer, Linked;
    var s := Isolate(t, g, {}, now);
    assert InstallationsOf(t, {}) == {} && Unsafe(t, g, {}) == {};
    assert s.runs == t.runs && s.evidence == t.evidence && s.components == t.components
      && s.installations == t.installations;
  }

  lemma {:induction false} FoldIsAllAtOnce(t: Tables, g: Ledger, order: seq<string>, now: int)
    ensures IsolateInOrder(t, g, order, now) == Isolate(t, g, Elements(order), now)
  {
    hide Isolate;
    if order == [] {
      IsolateNothing(t, g, now);
      assert Elements(order) == {};
    } else {
      var n := |order| - 1;
      FoldIsAllAtOnce(t, g, order[..n], now);
      IsolationAddsUp(t, g, Elements(order[..n]), {order[n]}, now);
      assert order == order[..n] + [order[n]];
      assert Elements(order) == Elements(order[..n]) + {order[n]};
    }
  }

  /** The order in which verified runs are visited does not matter. */
  lemma RunOrderIsIrrelevant(t: Tables, g: Ledger, a: seq<string>, b: seq<string>, now: int)
    requires Elements(a) == Elements(b)
    ensures IsolateInOrder(t, g, a, now) == IsolateInOrder(t, g, b, now)
  {
    hide Isolate;
    FoldIsAllAtOnce(t, g, a, now);
    FoldIsAllAtOnce(t, g, b, now);
  }
}
