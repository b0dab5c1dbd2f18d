/**
 * What the repair pass leaves behind: only trustworthy verified runs, evidence that fits the unique
 * index, no link to unbound evidence, and nothing for a second pass to do.
 */
module EvidenceSafety {
  import opened Wrappers
  import opened EvidenceTables
  import opened EvidenceRepair
  import opened EvidenceRevocation
  import Order = EvidenceRepairOrder

  // ---------- structure through the pass ----------

  lemma SummarizeKeepsStructure(t: Tables, affected: set<string>)
    ensures SameStructure(t, Summarize(t, affected))
  {
    hide Capability, Summary;
  }

  // ---------- safety ----------

  lemma BoundSurvivesIsolation(t: Tables, g: Ledger, runs: set<string>, now: int, run: string)
    ensures Evidenced(t, run) <==> Evidenced(Isolate(t, g, runs, now), run)
  {
    hide EvidenceFreeDetachFinalizer, InstallationsOf, Unsafe, Linked;
    var s := Isolate(t, g, runs, now);
    if Evidenced(t, run) {
      var e :| e in t.evidence && t.evidence[e].runId == Some(run) && t.evidence[e].result == VerifiedResult
               && t.evidence[e].invalidatedAt.None?;
      assert s.evidence[e] == t.evidence[e];
    }
    if Evidenced(s, run) {
      var e :| e in s.evidence && s.evidence[e].runId == Some(run) && s.evidence[e].result == VerifiedResult
               && s.evidence[e].invalidatedAt.None?;
      assert t.evidence[e].runId == Some(run);
    }
  }

  /** After isolating the runs without evidence, every verified run has evidence or needs none. */
  lemma IsolationIsSafe(t: Tables, g: Ledger, now: int, run: string)
    requires var s := Isolate(t, g, EvidenceLess(t), now); run in s.runs && s.runs[run].state == VerifiedRun
    ensures var s := Isolate(t, g, EvidenceLess(t), now);
      Evidenced(s, run) || (run in EvidenceLess(t) && EvidenceFreeDetachFinalizer(s, g, run, s.runs[run]))
  {
    hide Evidenced;
    var s := Isolate(t, g, EvidenceLess(t), now);
    BoundSurvivesIsolation(t, g, EvidenceLess(t), now, run);
    if run in EvidenceLess(t) {
      Order.UnsafeIsStable(t, g, EvidenceLess(t), now, {run});
      assert run !in Unsafe(t, g, EvidenceLess(t));
      assert run !in Unsafe(t, g, {run});
      assert run !in Unsafe(s, g, {run});
    }
  }

  lemma SummariesOnly(t: Tables, affected: set<string>, g: Ledger, run: string)
    ensures Evidenced(Summarize(t, affected), run) <==> Evidenced(t, run)
    ensures Summarize(t, affected).runs == t.runs && Summarize(t, affected).evidence == t.evidence
    ensures Summarize(t, affected).components == t.components
    ensures run in t.runs ==>
      (EvidenceFreeDetachFinalizer(Summarize(t, affected), g, run, t.runs[run]) <==>
       EvidenceFreeDetachFinalizer(t, g, run, t.runs[run]))
  {
    SummarizeKeepsStructure(t, affected);
    if run in t.runs { FinalizersAreStable(t, Summarize(t, affected), g, run, t.runs[run], t.runs[run].state); }
  }

  /** A run the pass leaves verified is a detach finalizer or has valid verified evidence of its own. */
  lemma VerifiedRunsAreTrustworthy(t: Tables, g: Ledger, u: Upgrade, v: Visits, run: string)
    requires var s := Repaired(t, g, u, v); run in s.runs && s.runs[run].state == VerifiedRun
    ensures var s := Repaired(t, g, u, v);
      EvidenceFreeDetachFinalizer(s, g, run, s.runs[run]) || Evidenced(s, run)
  {
    hide EvidenceFreeDetachFinalizer, Evidenced, Isolate, Revoke, Summarize, Affected;
    var q := AfterQuarantine(t, u, v);
    SummariesOnly(AfterIsolation(t, g, u, v), Affected(t, u, v), g, run);
    IsolationIsSafe(q, g, u.now, run);
  }

  lemma UnfitRowsAreVisited(t: Tables, u: Upgrade, v: Visits, e: string)
    requires Answers(t, u, v)
    ensures e in t.evidence ==> (Unfit(t, u.repairedShape, e) <==> e in Ids(v.quarantine))
  {
    hide Unfit;
    assert e in t.evidence && Unfit(t, u.repairedShape, e) ==> e in UnfitIds(t, u.repairedShape);
  }

  /** What the pass keeps of a row that stays bound, and why it was not quarantined. */
  lemma BoundRowsAreOld(t: Tables, g: Ledger, u: Upgrade, v: Visits, e: string)
    requires Answers(t, u, v)
    requires var s := Repaired(t, g, u, v); e in s.evidence && s.evidence[e].runId.Some?
    ensures var s := Repaired(t, g, u, v);
      && e in t.evidence && !Unfit(t, u.repairedShape, e)
      && s.evidence[e].runId == t.evidence[e].runId && s.evidence[e].component == t.evidence[e].component
      && s.evidence[e].provenance == t.evidence[e].provenance && s.evidence[e].result == t.evidence[e].result
      && s.evidence[e].identityAssertion == t.evidence[e].identityAssertion
  {
    hide EvidenceFreeDetachFinalizer, InstallationsOf, Unsafe, Linked, MarkedBy, Affected, ReasonOf, Unfit, Capability,
      Summary;
    UnfitRowsAreVisited(t, u, v, e);
  }

  lemma RunsKeepTheirKeys(t: Tables, g: Ledger, u: Upgrade, v: Visits)
    ensures Repaired(t, g, u, v).runs.Keys == t.runs.Keys
    ensures forall r | r in t.runs && Repaired(t, g, u, v).runs[r].state == VerifiedRun ::
      t.runs[r].state == VerifiedRun
  {
    hide EvidenceFreeDetachFinalizer, InstallationsOf, Unsafe, Linked, MarkedBy, Affected, ReasonOf, Capability,
      Summary, NamesRun, EvidenceLess;
  }

  /**
   * Every bound evidence row is complete, names an existing run, supports that run if it is still
   * verified, and is alone with its run and component: the unique index can be built.
   */
  lemma BoundEvidenceFitsTheIndex(t: Tables, g: Ledger, u: Upgrade, v: Visits, e: string)
    requires Answers(t, u, v)
    requires var s := Repaired(t, g, u, v); e in s.evidence && s.evidence[e].runId.Some?
    ensures var s := Repaired(t, g, u, v); var row := s.evidence[e];
      && Complete(row) && row.runId.value in s.runs
      && (s.runs[row.runId.value].state == VerifiedRun ==> row.result == VerifiedResult)
      && (forall d | d in s.evidence && d != e ::
          !(s.evidence[d].runId == row.runId && s.evidence[d].component == row.component))
  {
    hide Repaired;
    var s := Repaired(t, g, u, v);
    BoundRowsAreOld(t, g, u, v, e);
    RunsKeepTheirKeys(t, g, u, v);
    forall d | d in s.evidence && d != e && s.evidence[d].runId == s.evidence[e].runId
      ensures s.evidence[d].component != s.evidence[e].component
    {
      BoundRowsAreOld(t, g, u, v, d);
    }
  }

  ghost predicate NothingPointsAt(t: Tables, e: string) {
    && (forall c | c in t.components :: t.components[c].resultId != Some(e))
    && (forall i | i in t.installations :: t.installations[i].resultId != Some(e))
  }

  lemma RevokedIsUnlinked(t: Tables, rows: seq<Revoked>, unbind: bool, now: int, e: string)
    requires e in Ids(rows)
    ensures NothingPointsAt(Revoke(t, rows, unbind, now), e)
  {
    hide MarkedBy, NamesRun, ReasonOf, Ids;
  }

  lemma IsolationAddsNoLink(t: Tables, g: Ledger, runs: set<string>, now: int, e: string)
    requires NothingPointsAt(t, e)
    ensures NothingPointsAt(Isolate(t, g, runs, now), e)
  {
    hide EvidenceFreeDetachFinalizer, InstallationsOf, Unsafe, Isolated, PointsAside;
  }

  lemma SummariesAddNoLink(t: Tables, affected: set<string>, e: string)
    requires NothingPointsAt(t, e)
    ensures NothingPointsAt(Summarize(t, affected), e)
  {
    hide Capability, Summary;
  }

  lemma UnboundWasVisited(t: Tables, g: Ledger, u: Upgrade, v: Visits, e: string)
    requires e in t.evidence && t.evidence[e].runId.Some?
    requires var s := Repaired(t, g, u, v); e in s.evidence && s.evidence[e].runId.None?
    ensures e in Ids(v.quarantine) && Repaired(t, g, u, v).evidence[e].invalidatedAt.Some?
  {
    hide EvidenceFreeDetachFinalizer, InstallationsOf, Unsafe, Linked, MarkedBy, Affected, ReasonOf, Unfit, Capability,
      Summary, EvidenceLess, Ids;
  }

  /** The pass invalidates every row it unbinds, and no component or installation points at it any more. */
  lemma NothingPointsAtUnbound(t: Tables, g: Ledger, u: Upgrade, v: Visits, e: string)
    requires e in t.evidence && t.evidence[e].runId.Some?
    requires var s := Repaired(t, g, u, v); e in s.evidence && s.evidence[e].runId.None?
    ensures Repaired(t, g, u, v).evidence[e].invalidatedAt.Some?
    ensures NothingPointsAt(Repaired(t, g, u, v), e)
  {
    hide Revoke, Isolate, Summarize, Ids, NothingPointsAt, EvidenceLess, Affected;
    UnboundWasVisited(t, g, u, v, e);
    var q := AfterQuarantine(t, u, v);
    RevokedIsUnlinked(AfterHostActivity(t, u, v), v.quarantine, true, u.now, e);
    IsolationAddsNoLink(q, g, EvidenceLess(q), u.now, e);
    SummariesAddNoLink(AfterIsolation(t, g, u, v), Affected(t, u, v), e);
  }

  // ---------- the second pass ----------

  lemma NothingLeftToQuarantine(t: Tables, g: Ledger, u: Upgrade, v: Visits)
    requires Answers(t, u, v)
    ensures UnfitIds(Repaired(t, g, u, v), false) == {}
  {
    hide Repaired;
    var s := Repaired(t, g, u, v);
    forall e | e in s.evidence ensures !Unfit(s, false, e) {
      if s.evidence[e].runId.Some? { BoundEvidenceFitsTheIndex(t, g, u, v, e); }
    }
  }

  lemma StillEvidenceLess(t: Tables, g: Ledger, now: int)
    ensures var s := Isolate(t, g, EvidenceLess(t), now);
      EvidenceLess(s) <= EvidenceLess(t) && Unsafe(s, g, EvidenceLess(s)) == {}
  {
    hide EvidenceFreeDetachFinalizer, Evidenced;
    var s := Isolate(t, g, EvidenceLess(t), now);
    forall r | r in EvidenceLess(s)
      ensures r in EvidenceLess(t) && EvidenceFreeDetachFinalizer(s, g, r, s.runs[r])
    {
      BoundSurvivesIsolation(t, g, EvidenceLess(t), now, r);
      IsolationIsSafe(t, g, now, r);
    }
  }

  /** Isolation leaves nothing that isolating again, even after new summaries, would change. */
  lemma IsolationSettles(t: Tables, g: Ledger, now: int, affected: set<string>, later: int)
    ensures var s := Isolate(t, g, EvidenceLess(t), now);
      Isolate(Summarize(s, affected), g, EvidenceLess(s), later) == Summarize(s, affected)
  {
    hide EvidenceFreeDetachFinalizer, Isolate, Isolated, PointsAside, EvidenceLess, SetAside, Unsafe, InstallationsOf;
    var s := Isolate(t, g, EvidenceLess(t), now);
    StillEvidenceLess(t, g, now);
    var again := EvidenceLess(s);
    Order.TouchedIsStable(t, g, EvidenceLess(t), now, again);
    TouchedGrows(t, again, EvidenceLess(t));
    SettledEvidence(t, g, EvidenceLess(t), now, InstallationsOf(s, again));
    SettledLinks(t, g, EvidenceLess(t), now, InstallationsOf(s, again));
    IsolateIgnoresSummaries(s, affected, g, again, later);
  }

  lemma SettledTables(s: Tables, g: Ledger, runs: set<string>, later: int)
    requires Unsafe(s, g, runs) == {}
    requires forall e | e in s.evidence :: !SetAside(s, e, InstallationsOf(s, runs))
    requires forall c | c in s.components && c.0 in InstallationsOf(s, runs) ::
      !PointsAside(s.evidence, s.components[c].resultId, c.0)
    requires forall i | i in s.installations && i in InstallationsOf(s, runs) ::
      !PointsAside(s.evidence, s.installations[i].resultId, i)
    ensures Isolate(s, g, runs, later) == s
  {
    hide EvidenceFreeDetachFinalizer, Isolated, PointsAside, SetAside, Unsafe;
    Order.NoRunsNoInstallations(s);
    var w := Isolate(s, g, runs, later);
    SettledIsolated(s, InstallationsOf(s, runs), later);
    assert w.runs == s.runs && w.evidence == s.evidence && w.components == s.components
      && w.installations == s.installations;
  }

  lemma TouchedGrows(t: Tables, a: set<string>, b: set<string>)
    requires a <= b
    ensures InstallationsOf(t, a) <= InstallationsOf(t, b)
  {
  }

  /** No evidence of a visited installation is left to set aside. */
  lemma SettledEvidence(t: Tables, g: Ledger, runs: set<string>, now: int, touched: set<string>)
    requires touched <= InstallationsOf(t, runs)
    ensures var s := Isolate(t, g, runs, now); forall e | e in s.evidence :: !SetAside(s, e, touched)
  {
    hide EvidenceFreeDetachFinalizer, InstallationsOf, Unsafe, Linked;
    var s := Isolate(t, g, runs, now);
    forall e | e in s.evidence ensures !SetAside(s, e, touched) {
      Order.LinksOnlyShrink(t, g, runs, now, e, t.evidence[e].installation);
    }
  }

  lemma SettledIsolated(s: Tables, touched: set<string>, later: int)
    requires forall e | e in s.evidence :: !SetAside(s, e, touched)
    ensures Isolated(s, touched, later) == s.evidence
  {
    hide SetAside;
  }

  /** No row of a visited installation still points at evidence that was set aside. */
  lemma SettledLinks(t: Tables, g: Ledger, runs: set<string>, now: int, touched: set<string>)
    requires touched <= InstallationsOf(t, runs)
    ensures var s := Isolate(t, g, runs, now);
      && (forall c | c in s.components && c.0 in touched :: !PointsAside(s.evidence, s.components[c].resultId, c.0))
      && (forall i | i in s.installations && i in touched :: !PointsAside(s.evidence, s.installations[i].resultId, i))
  {
    hide EvidenceFreeDetachFinalizer, InstallationsOf, Unsafe, Isolated;
  }

  /** Summaries depend only on the components and on which host variant an installation runs. */
  lemma SummariesSettle(t: Tables, affected: set<string>, again: set<string>)
    requires again <= affected
    ensures Summarize(Summarize(t, affected), again) == Summarize(t, affected)
  {
    var s := Summarize(t, affected);
    forall i | i in t.installations ensures Capability(s, i) == Capability(t, i) && Summary(s, i) == Summary(t, i) {
      assert ManagedKeys(s, i) == ManagedKeys(t, i) && Statuses(s, i) == Statuses(t, i);
      assert forall key :: VerifiedComponent(s, i, key) <==> VerifiedComponent(t, i, key);
    }
    assert Summarize(s, again).installations == s.installations;
  }

  lemma IsolateIgnoresSummaries(t: Tables, affected: set<string>, g: Ledger, runs: set<string>, now: int)
    requires Unsafe(t, g, runs) == {}
    requires forall e | e in t.evidence :: !SetAside(t, e, InstallationsOf(t, runs))
    requires forall c | c in t.components && c.0 in InstallationsOf(t, runs) ::
      !PointsAside(t.evidence, t.components[c].resultId, c.0)
    requires forall i | i in t.installations && i in InstallationsOf(t, runs) ::
      !PointsAside(t.evidence, t.installations[i].resultId, i)
    ensures Isolate(Summarize(t, affected), g, runs, now) == Summarize(t, affected)
  {
    hide EvidenceFreeDetachFinalizer, Capability, Summary, PointsAside;
    var s := Summarize(t, affected);
    forall r | r in runs && r in t.runs ensures EvidenceFreeDetachFinalizer(s, g, r, s.runs[r]) {
      SummariesOnly(t, affected, g, r);
      assert r !in Unsafe(t, g, runs);
    }
    assert Unsafe(s, g, runs) == {};
    assert InstallationsOf(s, runs) == InstallationsOf(t, runs);
    LinksIgnoreSummaries(t, affected);
    SettledTables(s, g, runs, now);
  }

  lemma LinksIgnoreSummaries(t: Tables, affected: set<string>)
    ensures forall e, i :: Linked(Summarize(t, affected), e, i) <==> Linked(t, e, i)
  {
    hide Capability, Summary;
  }

  lemma EmptyListing(rows: seq<Revoked>, t: Tables, skipEmpty: bool)
    requires Lists(rows, t, {}, skipEmpty)
    ensures rows == []
  {
    FirstIsListed(rows, t, {}, skipEmpty);
  }

  lemma FirstIsListed(rows: seq<Revoked>, t: Tables, ids: set<string>, skipEmpty: bool)
    requires Lists(rows, t, ids, skipEmpty)
    ensures rows == [] || rows[0].id in ids
  {
  }

  /** With no row to revoke, a pass is isolation and summaries alone. */
  lemma QuietPass(s: Tables, g: Ledger, later: int, w: Visits)
    requires Answers(s, Upgrade(false, false, later), w) && UnfitIds(s, false) == {}
    ensures Repaired(s, g, Upgrade(false, false, later), w)
      == Summarize(Isolate(s, g, EvidenceLess(s), later), InstallationsOf(s, EvidenceLess(s)))
  {
    hide Revoke, Isolate, Summarize, EvidenceLess, InstallationsOf, AffectedBy;
    EmptyListing(w.hostActivity, s, true);
    EmptyListing(w.quarantine, s, false);
    RevokeNothing(s, false, later);
    RevokeNothing(s, true, later);
    var u := Upgrade(false, false, later);
    assert AfterHostActivity(s, u, w) == s && AfterQuarantine(s, u, w) == s;
    assert Affected(s, u, w) == InstallationsOf(s, EvidenceLess(s));
  }

  lemma SummariesKeepEvidenceLess(t: Tables, affected: set<string>, g: Ledger)
    ensures EvidenceLess(Summarize(t, affected)) == EvidenceLess(t)
    ensures InstallationsOf(Summarize(t, affected), EvidenceLess(t)) == InstallationsOf(t, EvidenceLess(t))
  {
    hide Evidenced, Capability, Summary;
    forall r ensures Evidenced(Summarize(t, affected), r) <==> Evidenced(t, r) { SummariesOnly(t, affected, g, r); }
  }

  /** A second pass, with nothing left to upgrade, changes no row of any table. */
  lemma SecondPassChangesNothing(t: Tables, g: Ledger, u: Upgrade, v: Visits, later: int, w: Visits)
    requires Answers(t, u, v)
    requires Answers(Repaired(t, g, u, v), Upgrade(false, false, later), w)
    ensures Repaired(Repaired(t, g, u, v), g, Upgrade(false, false, later), w) == Repaired(t, g, u, v)
  {
    hide Revoke, Isolate, Summarize, EvidenceLess, InstallationsOf, AffectedBy, Answers, UnfitIds, Unsafe,
      AfterQuarantine;
    var q := AfterQuarantine(t, u, v);
    var i := AfterIsolation(t, g, u, v);
    var s := Repaired(t, g, u, v);
    NothingLeftToQuarantine(t, g, u, v);
    QuietPass(s, g, later, w);
    IsolationSettles(q, g, u.now, Affected(t, u, v), later);
    StillEvidenceLess(q, g, u.now);
    SummariesKeepEvidenceLess(i, Affected(t, u, v), g);
    Order.TouchedIsStable(q, g, EvidenceLess(q), u.now, EvidenceLess(i));
    TouchedGrows(q, EvidenceLess(i), EvidenceLess(q));
    SummariesSettle(i, Affected(t, u, v), InstallationsOf(s, EvidenceLess(s)));
  }

  // ---------- the summaries ----------

  /** A managed component of the installation that the tables show as verified. */
  predicate ShownVerified(t: Tables, installation: string, key: ComponentKey) {
    && (installation, key) in t.components
    && t.components[(installation, key)].desired == "managed" && t.components[(installation, key)].status == "verified"
  }

  /**
   * What the pass writes on an affected installation is backed by the components it leaves: each level by
   * the components it needs, no more than tools for a custom surface, and "verified" only when all are.
   */
  lemma SummariesAreBacked(t: Tables, g: Ledger, u: Upgrade, v: Visits, i: string)
    requires i in t.installations && i in Affected(t, u, v)
    ensures var s := Repaired(t, g, u, v);
      && i in s.installations
      && var row := s.installations[i];
         var tools, instruction := ShownVerified(s, i, MemoryTools), ShownVerified(s, i, Instruction);
         && (row.capability >= 1 <==> tools || instruction)
         && (row.capability >= 2 <==> tools)
         && (row.capability >= 3 <==> tools && instruction && row.hostVariant != "custom-local-mcp")
         && (row.capability >= 4 <==>
               tools && instruction && ShownVerified(s, i, Lifecycle) && row.hostVariant != "custom-local-mcp")
         && (row.summary == "verified" <==>
               && (exists key :: (i, key) in s.components && s.components[(i, key)].desired == "managed")
               && forall key | (i, key) in s.components && s.components[(i, key)].desired == "managed" ::
                    s.components[(i, key)].status == "verified")
  {
    hide Isolate, Affected, EvidenceLess, Summary, Capability;
    var q := AfterQuarantine(t, u, v);
    InstallationsStay(t, g, u, v);
    var s := AfterIsolation(t, g, u, v);
    CapabilityMeans(s, i);
    SummaryMeans(s, i);
  }

  lemma InstallationsStay(t: Tables, g: Ledger, u: Upgrade, v: Visits)
    ensures AfterIsolation(t, g, u, v).installations.Keys == t.installations.Keys
  {
    hide EvidenceFreeDetachFinalizer, EvidenceLess, Ids, MarkedBy, NamesRun, ReasonOf, InstallationAfter, Isolated,
      PointsAside;
  }

  lemma CapabilityMeans(t: Tables, i: string)
    requires i in t.installations
    ensures var tools, instruction := ShownVerified(t, i, MemoryTools), ShownVerified(t, i, Instruction);
      var custom := t.installations[i].hostVariant == "custom-local-mcp";
      && (Capability(t, i) >= 1 <==> tools || instruction)
      && (Capability(t, i) >= 2 <==> tools)
      && (Capability(t, i) >= 3 <==> tools && instruction && !custom)
      && (Capability(t, i) >= 4 <==> tools && instruction && ShownVerified(t, i, Lifecycle) && !custom)
  {
  }

  lemma SummaryMeans(t: Tables, i: string)
    ensures Summary(t, i) == "verified" <==>
      && (exists key :: (i, key) in t.components && t.components[(i, key)].desired == "managed")
      && forall key | (i, key) in t.components && t.components[(i, key)].desired == "managed" ::
           t.components[(i, key)].status == "verified"
  {
    var s := Statuses(t, i);
    assert "unverified" != "verified" && "mixed" != "verified" by {
      assert |"unverified"| != |"verified"| && |"mixed"| != |"verified"|;
    }
    forall key | (i, key) in t.components && t.components[(i, key)].desired == "managed"
      ensures t.components[(i, key)].status in s {}
    if key :| (i, key) in t.components && t.components[(i, key)].desired == "managed" {
      assert t.components[(i, key)].status in s;
      if forall status | status in s :: status == "verified" { assert s == {"verified"}; }
    }
  }
}
