/**
 * What the repair pass keeps and what it takes away, row by row, in the terms of the tables before it:
 * for every answer of the queries, and whatever the order of the rows
 * (src/db/agent-integration-schema.ts:1049-1270).
 */
module EvidenceKept {
  import opened Wrappers
  import opened EvidenceTables
  import opened EvidenceRepair
  import opened EvidenceRevocation
  import opened EvidenceSafety

  // ---------- the rows ----------

  /**
   * The row may stay bound: the schema needed no repair, the row names a run, has all its columns, is the
   * only one of its run and component, and does not speak against a verified run.
   */
  predicate Sound(t: Tables, u: Upgrade, e: string)
    requires e in t.evidence
  {
    var row := t.evidence[e];
    var p := row.provenance;
    && !u.repairedShape && row.runId.Some? && row.runId.value in t.runs
    && "" !in [p.family, p.hostVariant, p.adapterVersion, p.catalogVersion, p.manifestVersion, p.method_,
               p.evidenceHash, p.verifiedAt, p.createdAt]
    && (row.result == VerifiedResult ==> row.identityAssertion !in {None, Some("")})
    && (t.runs[row.runId.value].state == VerifiedRun ==> row.result == VerifiedResult)
    && forall d | d in t.evidence && t.evidence[d].runId == row.runId && t.evidence[d].component == row.component ::
         d == e
  }

  /** The row was valid, and cites host activity that the upgrade has rebuilt. */
  predicate Hit(t: Tables, u: Upgrade, e: string)
    requires e in t.evidence
  {
    u.rebuiltHostActivity && t.evidence[e].citesHostActivity && t.evidence[e].invalidatedAt.None?
  }

  predicate Unbound(t: Tables, u: Upgrade, e: string)
    requires e in t.evidence
  {
    t.evidence[e].runId.Some? && !Sound(t, u, e)
  }

  lemma EmptyColumns(p: Provenance)
    ensures Filled(p) <==> "" !in [p.family, p.hostVariant, p.adapterVersion, p.catalogVersion, p.manifestVersion,
                                   p.method_, p.evidenceHash, p.verifiedAt, p.createdAt]
  {
    var columns := [p.family, p.hostVariant, p.adapterVersion, p.catalogVersion, p.manifestVersion, p.method_,
                    p.evidenceHash, p.verifiedAt, p.createdAt];
    if "" in columns {
      var k :| 0 <= k < 9 && columns[k] == "";
    }
    assert columns[0] == p.family && columns[1] == p.hostVariant && columns[2] == p.adapterVersion;
    assert columns[3] == p.catalogVersion && columns[4] == p.manifestVersion && columns[5] == p.method_;
    assert columns[6] == p.evidenceHash && columns[7] == p.verifiedAt && columns[8] == p.createdAt;
  }

  /** The quarantine query selects exactly the bound rows that are not sound. */
  lemma UnfitIff(t: Tables, u: Upgrade, e: string)
    requires e in t.evidence
    ensures Unfit(t, u.repairedShape, e) <==> Unbound(t, u, e)
  {
    EmptyColumns(t.evidence[e].provenance);
    hide Filled;
  }

  /** Which rows the two loops visit, and which runs those rows name. */
  lemma Visited(t: Tables, u: Upgrade, v: Visits)
    requires Answers(t, u, v)
    ensures forall e :: e in Ids(v.hostActivity) <==> e in t.evidence && Hit(t, u, e)
    ensures forall e :: e in Ids(v.quarantine) <==> e in t.evidence && Unbound(t, u, e)
    ensures forall r :: NamesRun(v.hostActivity, r) <==>
      r != "" && exists e | e in t.evidence :: t.evidence[e].runId == Some(r) && Hit(t, u, e)
    ensures forall r :: NamesRun(v.quarantine, r) <==>
      exists e | e in t.evidence :: t.evidence[e].runId == Some(r) && Unbound(t, u, e)
  {
    hide Unfit, Unbound, Sound;
    forall e | e in t.evidence ensures Unfit(t, u.repairedShape, e) <==> Unbound(t, u, e) { UnfitIff(t, u, e); }
    var hits := if u.rebuiltHostActivity then HostActivityIds(t) else {};
    ListedIds(v.hostActivity, t, hits, true);
    ListedIds(v.quarantine, t, UnfitIds(t, u.repairedShape), false);
    ListedRuns(v.hostActivity, t, hits, true);
    ListedRuns(v.quarantine, t, UnfitIds(t, u.repairedShape), false);
    UnboundNamesRun(t, u);
    hide Answers, NamesRun, Ids;
  }

  lemma UnboundNamesRun(t: Tables, u: Upgrade)
    ensures forall e | e in t.evidence && Unbound(t, u, e) :: t.evidence[e].runId.Some?
  {
  }

  lemma ListedIds(rows: seq<Revoked>, t: Tables, ids: set<string>, skipEmpty: bool)
    requires Lists(rows, t, ids, skipEmpty)
    ensures Ids(rows) == ids
    ensures forall e | e in ids :: e in t.evidence
  {
    forall e | e in ids ensures e in Ids(rows) && e in t.evidence {
      var k :| 0 <= k < |rows| && rows[k].id == e;
      assert rows[k].id in t.evidence;
    }
  }

  lemma ListedRuns(rows: seq<Revoked>, t: Tables, ids: set<string>, skipEmpty: bool)
    requires Lists(rows, t, ids, skipEmpty)
    ensures forall r :: NamesRun(rows, r) <==>
      (skipEmpty ==> r != "") && exists e | e in ids :: e in t.evidence && t.evidence[e].runId == Some(r)
  {
    forall r
      ensures NamesRun(rows, r) <==>
        (skipEmpty ==> r != "") && exists e | e in ids :: e in t.evidence && t.evidence[e].runId == Some(r)
    {
      if NamesRun(rows, r) {
        var k :| 0 <= k < |rows| && rows[k].run == Some(r);
        assert rows[k].id in ids && t.evidence[rows[k].id].runId == Some(r);
      }
      if e :| e in ids && e in t.evidence && t.evidence[e].runId == Some(r) && (skipEmpty ==> r != "") {
        var k :| 0 <= k < |rows| && rows[k].id == e;
        assert rows[k].run == Some(r);
      }
    }
  }

  // ---------- runs ----------

  /** Some row of the run was taken from it, or invalidated under its name. */
  predicate LosesEvidence(t: Tables, u: Upgrade, run: string) {
    exists e | e in t.evidence ::
      t.evidence[e].runId == Some(run) && (Unbound(t, u, e) || (Hit(t, u, e) && run != ""))
  }

  /** A sound row, verified, valid and not hit, is bound to the run. */
  predicate KeepsEvidence(t: Tables, u: Upgrade, run: string) {
    exists e | e in t.evidence ::
      && t.evidence[e].runId == Some(run) && Sound(t, u, e) && !Hit(t, u, e)
      && t.evidence[e].result == VerifiedResult && t.evidence[e].invalidatedAt.None?
  }

  /** The run is verified, and lost no evidence because it had none to lose. */
  predicate Bare(t: Tables, u: Upgrade, run: string) {
    run in t.runs && t.runs[run].state == VerifiedRun && !LosesEvidence(t, u, run) && !KeepsEvidence(t, u, run)
  }

  function CancelledWith(r: Run, code: string, now: int): Run {
    r.(state := CancelledRun, failureCode := Some(code), failureStage := Some("verification_migration"),
       completedAt := Some(if r.completedAt.Some? then r.completedAt.value else now), updatedAt := now)
  }

  lemma RevokedRuns(t: Tables, u: Upgrade, v: Visits, run: string)
    requires Answers(t, u, v) && run in t.runs
    ensures run in AfterQuarantine(t, u, v).runs
    ensures AfterQuarantine(t, u, v).runs[run]
      == if t.runs[run].state == VerifiedRun && LosesEvidence(t, u, run)
         then CancelledWith(t.runs[run], "incomplete_verification_evidence", u.now) else t.runs[run]
  {
    hide Answers, Unbound, Hit, NamesRun, Ids, MarkedBy, ReasonOf;
    Visited(t, u, v);
  }

  /** What a row is after the host-activity loop. */
  lemma HitRows(t: Tables, u: Upgrade, v: Visits, e: string)
    requires Answers(t, u, v) && e in t.evidence
    ensures e in AfterHostActivity(t, u, v).evidence
    ensures AfterHostActivity(t, u, v).evidence[e] == HitRow(t, u, e)
  {
    hide Unbound, NamesRun, MarkedBy, Sound;
    Visited(t, u, v);
    if e in Ids(v.hostActivity) { ReasonHit(t, u, v, e); }
    hide Answers, ReasonOf, Ids;
  }

  /** What a bound or unbound row is after the two revoking loops. */
  lemma RevokedRows(t: Tables, u: Upgrade, v: Visits, e: string)
    requires Answers(t, u, v) && e in t.evidence
    ensures e in AfterQuarantine(t, u, v).evidence
    ensures AfterQuarantine(t, u, v).evidence[e] == AfterLoops(t, u, e)
  {
    hide Unbound, Hit, NamesRun, MarkedBy, Sound, AfterHostActivity, HitRow, Answers, ReasonOf, Ids, ReasonUnboundFor;
    Visited(t, u, v);
    HitRows(t, u, v, e);
    if e in Ids(v.quarantine) {
      UnboundNamesRun(t, u);
      ReasonUnbound(t, u, v, e);
    }
  }

  function HitRow(t: Tables, u: Upgrade, e: string): Evidence
    requires e in t.evidence
  {
    if Hit(t, u, e)
    then t.evidence[e].(invalidatedAt := Some(u.now),
                        invalidationReason := Some("pre_causal_host_activity_invalidated"))
    else t.evidence[e]
  }

  function ReasonUnboundFor(t: Tables, e: string): string
    requires e in t.evidence
  {
    var row := t.evidence[e];
    if exists d | d in t.evidence ::
      d != e && t.evidence[d].runId == row.runId && t.evidence[d].component == row.component
    then "duplicate_run_component_quarantined"
    else if row.runId.Some? && row.runId.value !in t.runs then "orphan_run_quarantined"
    else "incomplete_verification_evidence_quarantined"
  }

  /** Host activity invalidates; rows that are not sound are unbound and invalidated, unless they were so already. */
  function AfterLoops(t: Tables, u: Upgrade, e: string): Evidence
    requires e in t.evidence
  {
    var row := HitRow(t, u, e);
    if Unbound(t, u, e) then
      row.(runId := None, invalidatedAt := Some(if row.invalidatedAt.Some? then row.invalidatedAt.value else u.now),
           invalidationReason := Some(if row.invalidationReason.Some? then row.invalidationReason.value
                                      else ReasonUnboundFor(t, e)))
    else row
  }

  lemma {:induction false} ReasonIsOfSomeRow(rows: seq<Revoked>, e: string) returns (k: nat)
    requires e in Ids(rows)
    ensures k < |rows| && rows[k].id == e && ReasonOf(rows, e) == rows[k].reason
  {
    k := |rows| - 1;
    if rows[k].id != e {
      var before := rows[..k];
      var j :| 0 <= j < |rows| && rows[j].id == e;
      assert before[j].id == e;
      k := ReasonIsOfSomeRow(before, e);
      assert before[k] == rows[k];
    }
  }

  lemma ReasonHit(t: Tables, u: Upgrade, v: Visits, e: string)
    requires Answers(t, u, v) && e in Ids(v.hostActivity)
    ensures ReasonOf(v.hostActivity, e) == "pre_causal_host_activity_invalidated"
  {
    hide Lists, UnfitIds, HostActivityIds, QuarantineReason, ReasonOf, Ids;
    var k := ReasonIsOfSomeRow(v.hostActivity, e);
  }

  lemma ReasonUnbound(t: Tables, u: Upgrade, v: Visits, e: string)
    requires Answers(t, u, v) && e in Ids(v.quarantine) && e in t.evidence && t.evidence[e].runId.Some?
    ensures ReasonOf(v.quarantine, e) == ReasonUnboundFor(t, e)
  {
    hide UnfitIds, HostActivityIds, ReasonOf, Ids;
    var k := ReasonIsOfSomeRow(v.quarantine, e);
  }

  // ---------- the runs after the pass ----------

  lemma BackedIff(t: Tables, u: Upgrade, v: Visits, run: string)
    requires Answers(t, u, v)
    ensures Evidenced(AfterQuarantine(t, u, v), run) <==> KeepsEvidence(t, u, run)
  {
    hide Answers, Sound, Hit, AfterQuarantine, ReasonUnboundFor;
    var q := AfterQuarantine(t, u, v);
    KeysStay(t, u, v);
    forall e | e in t.evidence ensures q.evidence[e] == AfterLoops(t, u, e) { RevokedRows(t, u, v, e); }
  }

  lemma KeysStay(t: Tables, u: Upgrade, v: Visits)
    ensures var q := AfterQuarantine(t, u, v);
      && q.evidence.Keys == t.evidence.Keys && q.runs.Keys == t.runs.Keys
      && q.components.Keys == t.components.Keys && q.installations.Keys == t.installations.Keys
  {
    hide NamesRun, Ids, MarkedBy, ReasonOf, InstallationAfter, RevokedEvidence;
  }

  lemma BareIff(t: Tables, u: Upgrade, v: Visits, run: string)
    requires Answers(t, u, v)
    ensures run in EvidenceLess(AfterQuarantine(t, u, v)) <==> Bare(t, u, run)
    ensures Bare(t, u, run) ==> AfterQuarantine(t, u, v).runs[run] == t.runs[run]
  {
    hide Answers, AfterQuarantine, LosesEvidence, KeepsEvidence, Evidenced;
    KeysStay(t, u, v);
    BackedIff(t, u, v, run);
    if run in t.runs { RevokedRuns(t, u, v, run); }
  }

  lemma RevokeKeepsStructure(t: Tables, rows: seq<Revoked>, unbind: bool, now: int)
    ensures SameStructure(t, Revoke(t, rows, unbind, now))
  {
    hide NamesRun, Ids, MarkedBy, ReasonOf, RevokedEvidence;
  }

  lemma StructureChains(a: Tables, b: Tables, c: Tables)
    requires SameStructure(a, b) && SameStructure(b, c)
    ensures SameStructure(a, c)
  {
  }

  lemma LoopsKeepStructure(t: Tables, u: Upgrade, v: Visits)
    ensures SameStructure(t, AfterQuarantine(t, u, v))
  {
    hide Revoke, SameStructure;
    RevokeKeepsStructure(t, v.hostActivity, false, u.now);
    RevokeKeepsStructure(AfterHostActivity(t, u, v), v.quarantine, true, u.now);
    StructureChains(t, AfterHostActivity(t, u, v), AfterQuarantine(t, u, v));
  }

  /**
   * Every run after the pass: a verified one stays as it was exactly when it lost no evidence and has some
   * left, or needs none; another one is never touched.
   */
  lemma RunsAfter(t: Tables, g: Ledger, u: Upgrade, v: Visits, run: string)
    requires Answers(t, u, v) && run in t.runs
    ensures run in Repaired(t, g, u, v).runs
    ensures Repaired(t, g, u, v).runs[run] ==
      if t.runs[run].state != VerifiedRun then t.runs[run]
      else if LosesEvidence(t, u, run) then CancelledWith(t.runs[run], "incomplete_verification_evidence", u.now)
      else if KeepsEvidence(t, u, run) || EvidenceFreeDetachFinalizer(t, g, run, t.runs[run]) then t.runs[run]
      else CancelledWith(t.runs[run], "verification_evidence_missing", u.now)
  {
    hide Answers, AfterQuarantine, LosesEvidence, KeepsEvidence, EvidenceFreeDetachFinalizer, EvidenceLess,
      InstallationsOf, Affected, Capability, Summary, Isolated, PointsAside;
    var q := AfterQuarantine(t, u, v);
    RevokedRuns(t, u, v, run);
    BareIff(t, u, v, run);
    LoopsKeepStructure(t, u, v);
    FinalizersAreStable(t, q, g, run, t.runs[run], t.runs[run].state);
  }

  // ---------- the rows after the pass ----------

  /** The installation is visited for a bare run of its own. */
  predicate HasBareRun(t: Tables, u: Upgrade, installation: string) {
    exists r | r in t.runs :: Bare(t, u, r) && installation != "" && t.runs[r].installation == Some(installation)
  }

  lemma TouchedIff(t: Tables, u: Upgrade, v: Visits, i: string)
    requires Answers(t, u, v)
    ensures var q := AfterQuarantine(t, u, v); i in InstallationsOf(q, EvidenceLess(q)) <==> HasBareRun(t, u, i)
  {
    hide Answers, AfterQuarantine, EvidenceLess, Bare;
    var q := AfterQuarantine(t, u, v);
    KeysStay(t, u, v);
    forall r | r in t.runs
      ensures r in EvidenceLess(q) <==> Bare(t, u, r)
      ensures Bare(t, u, r) ==> q.runs[r] == t.runs[r]
    {
      BareIff(t, u, v, r);
    }
  }

  /** A row that was bound to no run, and is valid and linked from its own installation, which has a bare run. */
  predicate SetApart(t: Tables, u: Upgrade, e: string)
    requires e in t.evidence
  {
    var row := t.evidence[e];
    && row.runId.None? && row.invalidatedAt.None? && !Hit(t, u, e)
    && Linked(t, e, row.installation) && HasBareRun(t, u, row.installation)
  }

  /** Every evidence row after the pass. */
  function RowAfter(t: Tables, u: Upgrade, e: string): Evidence
    requires e in t.evidence
  {
    if SetApart(t, u, e) then
      t.evidence[e].(invalidatedAt := Some(u.now),
                     invalidationReason := Some(if t.evidence[e].invalidationReason.Some?
                       then t.evidence[e].invalidationReason.value else "unbound_verified_run_quarantined"))
    else AfterLoops(t, u, e)
  }

  lemma EvidenceAfter(t: Tables, g: Ledger, u: Upgrade, v: Visits, e: string)
    requires Answers(t, u, v)
    ensures e in Repaired(t, g, u, v).evidence <==> e in t.evidence
    ensures e in t.evidence ==> Repaired(t, g, u, v).evidence[e] == RowAfter(t, u, e)
  {
    hide Answers, AfterQuarantine, EvidenceLess, InstallationsOf, Affected, Capability, Summary, PointsAside, Unsafe,
      RowAfter, Isolated;
    AsideRows(t, u, v, e);
  }

  lemma ApartIff(t: Tables, u: Upgrade, v: Visits, e: string)
    requires Answers(t, u, v) && e in t.evidence
    ensures var q := AfterQuarantine(t, u, v);
      e in q.evidence && (SetAside(q, e, InstallationsOf(q, EvidenceLess(q))) <==> SetApart(t, u, e))
  {
    hide Answers, AfterQuarantine, EvidenceLess, InstallationsOf, HasBareRun, Linked, Sound, ReasonUnboundFor;
    RevokedRows(t, u, v, e);
    TouchedIff(t, u, v, t.evidence[e].installation);
    if t.evidence[e].runId.None? && !Hit(t, u, e) { LinksOfOthers(t, u, v, e, t.evidence[e].installation); }
  }

  /** The revoking loops leave the links to every row they do not visit. */
  lemma LinksOfOthers(t: Tables, u: Upgrade, v: Visits, e: string, i: string)
    requires Answers(t, u, v) && e in t.evidence && t.evidence[e].runId.None? && !Hit(t, u, e)
    ensures Linked(AfterQuarantine(t, u, v), e, i) <==> Linked(t, e, i)
  {
    hide Answers, Hit, NamesRun, MarkedBy, ReasonOf, Ids, RevokedEvidence, Sound;
    Visited(t, u, v);
    LinksOutside(t, v.hostActivity, false, u.now, e, i);
    LinksOutside(AfterHostActivity(t, u, v), v.quarantine, true, u.now, e, i);
  }

  lemma LinksOutside(t: Tables, rows: seq<Revoked>, unbind: bool, now: int, e: string, i: string)
    requires e !in Ids(rows)
    ensures Linked(Revoke(t, rows, unbind, now), e, i) <==> Linked(t, e, i)
  {
    hide NamesRun, MarkedBy, ReasonOf, Ids, RevokedEvidence;
    var s := Revoke(t, rows, unbind, now);
    assert s.components.Keys == t.components.Keys && s.installations.Keys == t.installations.Keys;
    forall c | c in t.components ensures s.components[c].resultId == Some(e) <==> t.components[c].resultId == Some(e) {}
    forall j | j in t.installations
      ensures s.installations[j].resultId == Some(e) <==> t.installations[j].resultId == Some(e) {}
  }

  /** A bound row stays bound, to its run, exactly when it is sound. */
  lemma StaysBoundIff(t: Tables, g: Ledger, u: Upgrade, v: Visits, e: string)
    requires Answers(t, u, v) && e in t.evidence && t.evidence[e].runId.Some?
    ensures e in Repaired(t, g, u, v).evidence
    ensures Repaired(t, g, u, v).evidence[e].runId == if Sound(t, u, e) then t.evidence[e].runId else None
  {
    hide Answers, Repaired, Sound, ReasonUnboundFor, Hit;
    EvidenceAfter(t, g, u, v, e);
  }

  /** A link of the installation is dropped with the row it points at: hit, taken from its run, or set apart. */
  predicate Drops(t: Tables, u: Upgrade, resultId: Option<string>, installation: string) {
    && resultId.Some? && resultId.value in t.evidence
    && var e := resultId.value;
       || Hit(t, u, e) || Unbound(t, u, e)
       || (HasBareRun(t, u, installation) && t.evidence[e].installation == installation
           && RowAfter(t, u, e).invalidationReason == Some("unbound_verified_run_quarantined"))
  }

  /** Every component after the pass: it loses a dropped link, and is stale then, and nothing else changes. */
  lemma ComponentsAfter(t: Tables, g: Ledger, u: Upgrade, v: Visits, c: (string, ComponentKey))
    requires Answers(t, u, v) && c in t.components
    ensures c in Repaired(t, g, u, v).components
    ensures Repaired(t, g, u, v).components[c]
      == if Drops(t, u, t.components[c].resultId, c.0)
         then t.components[c].(status := "stale", resultId := None) else t.components[c]
  {
    hide Answers, AfterQuarantine, EvidenceLess, InstallationsOf, Affected, Capability, Summary, Unsafe,
      HasBareRun, Sound, Hit, Unbound, RowAfter, Isolated, Drops, PointsAside;
    var q := AfterQuarantine(t, u, v);
    KeysStay(t, u, v);
    ComponentsRevoked(t, u, v, c);
    TouchedIff(t, u, v, c.0);
    DropsIff(t, g, u, v, t.components[c].resultId, c.0);
  }

  lemma ComponentsRevoked(t: Tables, u: Upgrade, v: Visits, c: (string, ComponentKey))
    requires Answers(t, u, v) && c in t.components
    ensures var q := AfterQuarantine(t, u, v); c in q.components
    ensures AfterQuarantine(t, u, v).components[c] == var r := t.components[c].resultId;
      if r.Some? && r.value in t.evidence && (Hit(t, u, r.value) || Unbound(t, u, r.value))
         then t.components[c].(status := "stale", resultId := None) else t.components[c]
  {
    hide Answers, Hit, Unbound, NamesRun, MarkedBy, ReasonOf, Ids, RevokedEvidence;
    Visited(t, u, v);
  }

  /** The last loop drops, of the links still there, those to rows set apart. */
  lemma DropsIff(t: Tables, g: Ledger, u: Upgrade, v: Visits, resultId: Option<string>, i: string)
    requires Answers(t, u, v)
    ensures var q := AfterQuarantine(t, u, v); var touched := InstallationsOf(q, EvidenceLess(q));
      var gone := resultId.Some? && resultId.value in t.evidence
        && (Hit(t, u, resultId.value) || Unbound(t, u, resultId.value));
      Drops(t, u, resultId, i) == (gone || (i in touched && PointsAside(Isolated(q, touched, u.now), resultId, i)))
  {
    hide Answers, AfterQuarantine, EvidenceLess, InstallationsOf, HasBareRun, Sound, Hit, Unbound, RowAfter;
    TouchedIff(t, u, v, i);
    if resultId.Some? { AsideRows(t, u, v, resultId.value); }
  }

  lemma AsideRows(t: Tables, u: Upgrade, v: Visits, e: string)
    requires Answers(t, u, v)
    ensures var q := AfterQuarantine(t, u, v); var after := Isolated(q, InstallationsOf(q, EvidenceLess(q)), u.now);
      && (e in after <==> e in t.evidence)
      && (e in t.evidence ==> after[e] == RowAfter(t, u, e) && after[e].installation == t.evidence[e].installation)
  {
    hide Answers, AfterQuarantine, EvidenceLess, InstallationsOf, HasBareRun, Sound, ReasonUnboundFor, Linked;
    KeysStay(t, u, v);
    if e in t.evidence {
      RevokedRows(t, u, v, e);
      ApartIff(t, u, v, e);
    }
  }

  // ---------- the installations after the pass ----------

  /** Some loop marks the installation for recovery. */
  ghost predicate IsMarked(t: Tables, g: Ledger, u: Upgrade, v: Visits, i: string) {
    || i in MarkedBy(t.runs, v.hostActivity) || i in MarkedBy(AfterHostActivity(t, u, v).runs, v.quarantine)
    || exists r | r in t.runs :: Bare(t, u, r) && !EvidenceFreeDetachFinalizer(t, g, r, t.runs[r])
         && i != "" && t.runs[r].installation == Some(i)
  }

  /** Control columns stay, the link goes as a component's does, and recovery is asked of a marked, managed one. */
  ghost predicate IsKeptBut(before: Installation, after: Installation, drops: bool, marked: bool, now: int) {
    && before.(health := after.health, reconcile := after.reconcile, statusReason := after.statusReason,
               resultId := after.resultId, capability := after.capability, summary := after.summary,
               updatedAt := after.updatedAt) == after
    && after.health == before.health
    && after.resultId == (if drops then None else before.resultId)
    && if marked && before.desired == "managed"
       then after.reconcile == "needs_recovery" && after.statusReason == Some("verification_stale")
         && after.updatedAt == now
       else after.reconcile == before.reconcile && after.statusReason == before.statusReason
            && after.updatedAt == before.updatedAt
  }

  lemma InstallationsRevoked(t: Tables, u: Upgrade, v: Visits, i: string)
    requires Answers(t, u, v) && i in t.installations
    ensures var q := AfterQuarantine(t, u, v); i in q.installations
    ensures var r := t.installations[i].resultId;
      AfterQuarantine(t, u, v).installations[i] == InstallationAfter(t.installations[i],
        i in MarkedBy(t.runs, v.hostActivity) || i in MarkedBy(AfterHostActivity(t, u, v).runs, v.quarantine),
        r.Some? && r.value in t.evidence && (Hit(t, u, r.value) || Unbound(t, u, r.value)), u.now)
  {
    hide Answers, Hit, Unbound, NamesRun, MarkedBy, ReasonOf, Ids, RevokedEvidence;
    Visited(t, u, v);
  }

  lemma UnsafeIff(t: Tables, g: Ledger, u: Upgrade, v: Visits, i: string)
    requires Answers(t, u, v)
    ensures var q := AfterQuarantine(t, u, v);
      i in InstallationsOf(q, Unsafe(q, g, EvidenceLess(q))) <==> exists r | r in t.runs ::
        Bare(t, u, r) && !EvidenceFreeDetachFinalizer(t, g, r, t.runs[r]) && i != ""
          && t.runs[r].installation == Some(i)
  {
    hide Answers, AfterQuarantine, EvidenceLess, Bare, EvidenceFreeDetachFinalizer;
    var q := AfterQuarantine(t, u, v);
    KeysStay(t, u, v);
    LoopsKeepStructure(t, u, v);
    forall r | r in t.runs
      ensures r in EvidenceLess(q) <==> Bare(t, u, r)
      ensures Bare(t, u, r) ==> q.runs[r] == t.runs[r]
      ensures EvidenceFreeDetachFinalizer(t, g, r, t.runs[r]) <==> EvidenceFreeDetachFinalizer(q, g, r, t.runs[r])
    {
      BareIff(t, u, v, r);
      FinalizersAreStable(t, q, g, r, t.runs[r], t.runs[r].state);
    }
  }

  /** Every installation after the pass, but for its two summary columns. */
  lemma InstallationsAfter(t: Tables, g: Ledger, u: Upgrade, v: Visits, i: string)
    requires Answers(t, u, v) && i in t.installations
    ensures i in Repaired(t, g, u, v).installations
    ensures IsKeptBut(t.installations[i], Repaired(t, g, u, v).installations[i],
                      Drops(t, u, t.installations[i].resultId, i), IsMarked(t, g, u, v, i), u.now)
  {
    hide Answers, AfterQuarantine, AfterHostActivity, EvidenceLess, InstallationsOf, Affected, Isolate, Summarize,
      Unsafe, HasBareRun, Sound, Hit, Unbound, RowAfter, Isolated, Drops, PointsAside, MarkedBy, Bare,
      InstallationAfter, IsKeptBut, EvidenceFreeDetachFinalizer;
    var q := AfterQuarantine(t, u, v);
    var x, r := t.installations[i], t.installations[i].resultId;
    var gone := r.Some? && r.value in t.evidence && (Hit(t, u, r.value) || Unbound(t, u, r.value));
    var marked := i in MarkedBy(t.runs, v.hostActivity) || i in MarkedBy(AfterHostActivity(t, u, v).runs, v.quarantine);
    var touched := InstallationsOf(q, EvidenceLess(q));
    InstallationsRevoked(t, u, v, i);
    UnsafeIff(t, g, u, v, i);
    DropsIff(t, g, u, v, r, i);
    FinalInstallation(q, g, EvidenceLess(q), u.now, Affected(t, u, v), i);
    var last := i in InstallationsOf(q, Unsafe(q, g, EvidenceLess(q)));
    var aside := i in touched && PointsAside(Isolated(q, touched, u.now), q.installations[i].resultId, i);
    VisitedTwice(x, marked, gone, last, aside, u.now);
    NothingPointsAside(Isolated(q, touched, u.now), i);
    AfterIsKept(x, Repaired(t, g, u, v).installations[i], gone || aside, marked || last, u.now);
  }

  /** What the last loop and the summaries make of an installation. */
  lemma FinalInstallation(q: Tables, g: Ledger, runs: set<string>, now: int, affected: set<string>, i: string)
    requires i in q.installations
    ensures i in Summarize(Isolate(q, g, runs, now), affected).installations
    ensures var y := Summarize(Isolate(q, g, runs, now), affected).installations[i];
      var touched := InstallationsOf(q, runs);
      SameButSummary(y, InstallationAfter(q.installations[i], i in InstallationsOf(q, Unsafe(q, g, runs)),
        i in touched && PointsAside(Isolated(q, touched, now), q.installations[i].resultId, i), now))
  {
    hide InstallationsOf, Unsafe, Isolated, PointsAside, InstallationAfter, Capability, Summary;
  }

  predicate SameButSummary(a: Installation, b: Installation) {
    a == b.(capability := a.capability, summary := a.summary)
  }

  lemma NothingPointsAside(evidence: map<string, Evidence>, i: string)
    ensures !PointsAside(evidence, None, i)
  {
  }

  lemma AfterIsKept(x: Installation, y: Installation, drops: bool, marked: bool, now: int)
    requires SameButSummary(y, InstallationAfter(x, marked, drops, now))
    ensures IsKeptBut(x, y, drops, marked, now)
  {
  }

  /** A row of the installation that was bound to the run was hit or unbound. */
  ghost predicate LosesRowOf(t: Tables, u: Upgrade, run: string, i: string) {
    exists e | e in t.evidence :: t.evidence[e].installation == i && t.evidence[e].runId == Some(run)
                                  && ((Hit(t, u, e) && run != "") || Unbound(t, u, e))
  }

  lemma VisitedRow(t: Tables, u: Upgrade, v: Visits, rows: seq<Revoked>, x: Revoked)
    requires Answers(t, u, v) && (rows == v.hostActivity || rows == v.quarantine) && x in rows && x.run.Some?
    ensures LosesRowOf(t, u, x.run.value, x.installation)
  {
    hide Hit, Unbound;
    Visited(t, u, v);
    assert x.id in Ids(rows);
    assert x.id in t.evidence && t.evidence[x.id].installation == x.installation && t.evidence[x.id].runId == x.run;
  }

  lemma HostKeepsVerified(t: Tables, u: Upgrade, v: Visits, run: Option<string>)
    requires VerifiedIn(AfterHostActivity(t, u, v).runs, run)
    ensures VerifiedIn(t.runs, run)
  {
  }

  /**
   * Recovery is asked of an installation only for a run that the pass cancels: its own, or one its row
   * was bound to.
   */
  lemma MarksAreCaused(t: Tables, g: Ledger, u: Upgrade, v: Visits, i: string)
    requires Answers(t, u, v) && IsMarked(t, g, u, v, i)
    ensures exists r | r in t.runs ::
      && t.runs[r].state == VerifiedRun && r in Repaired(t, g, u, v).runs
      && Repaired(t, g, u, v).runs[r].state == CancelledRun
      && (t.runs[r].installation == Some(i) || LosesRowOf(t, u, r, i))
  {
    hide Repaired, Hit, Unbound, KeepsEvidence, EvidenceFreeDetachFinalizer, Answers, MarkedBy, AfterHostActivity;
    if i in MarkedBy(t.runs, v.hostActivity) || i in MarkedBy(AfterHostActivity(t, u, v).runs, v.quarantine) {
      var x;
      if i in MarkedBy(t.runs, v.hostActivity) {
        x := MarkedHasRow(t, v.hostActivity, i);
        VisitedRow(t, u, v, v.hostActivity, x);
      } else {
        x := MarkedHasRow(AfterHostActivity(t, u, v), v.quarantine, i);
        HostKeepsVerified(t, u, v, x.run);
        VisitedRow(t, u, v, v.quarantine, x);
      }
      assert LosesEvidence(t, u, x.run.value);
      RunsAfter(t, g, u, v, x.run.value);
    } else {
      var r :| r in t.runs && Bare(t, u, r) && !EvidenceFreeDetachFinalizer(t, g, r, t.runs[r])
        && i != "" && t.runs[r].installation == Some(i);
      RunsAfter(t, g, u, v, r);
    }
  }

  /** And every run that the pass cancels asks it of an installation: of its own, or of one whose row it lost. */
  lemma CancellingAsksForRecovery(t: Tables, g: Ledger, u: Upgrade, v: Visits, run: string)
    requires Answers(t, u, v) && run in t.runs && t.runs[run].state == VerifiedRun
    requires run in Repaired(t, g, u, v).runs ==> Repaired(t, g, u, v).runs[run].state == CancelledRun
    ensures LosesEvidence(t, u, run) ==> exists i :: LosesRowOf(t, u, run, i) && IsMarked(t, g, u, v, i)
    ensures !LosesEvidence(t, u, run) && Present(t.runs[run].installation) ==>
      IsMarked(t, g, u, v, t.runs[run].installation.value)
  {
    hide Repaired, Hit, Unbound, KeepsEvidence, EvidenceFreeDetachFinalizer, Answers;
    RunsAfter(t, g, u, v, run);
    if LosesEvidence(t, u, run) {
      Visited(t, u, v);
      var rows := if NamesRun(v.hostActivity, run) then v.hostActivity else v.quarantine;
      StillVerified(t, u, v, run);
      var k := FirstNaming(rows, run);
      VisitedRow(t, u, v, rows, rows[k]);
      assert IsMarked(t, g, u, v, rows[k].installation);
    }
  }

  lemma StillVerified(t: Tables, u: Upgrade, v: Visits, run: string)
    requires run in t.runs && t.runs[run].state == VerifiedRun
    ensures VerifiedIn(AfterHostActivity(t, u, v).runs, Some(run)) <==> !NamesRun(v.hostActivity, run)
  {
  }

  // ---------- the summaries ----------

  /** The installation owned or pointed at a row that was hit or unbound, or has a bare run. */
  ghost predicate IsAffected(t: Tables, u: Upgrade, i: string) {
    || HasBareRun(t, u, i)
    || exists e | e in t.evidence ::
         (Hit(t, u, e) || Unbound(t, u, e)) && (t.evidence[e].installation == i || Linked(t, e, i))
  }

  lemma AffectedByIff(t: Tables, rows: seq<Revoked>, i: string)
    ensures i in AffectedBy(t, rows) <==> i in Owners(rows) || exists e | e in Ids(rows) :: Linked(t, e, i)
  {
    hide Ids, Owners;
    if i in LinkedTo(t, Ids(rows)) {
      var e :| e in Ids(rows) && Linked(t, e, i);
    }
    if e :| e in Ids(rows) && Linked(t, e, i) {
      assert i in LinkedTo(t, Ids(rows));
    }
  }

  /** Exactly which installations have their summary written anew. */
  lemma AffectedIff(t: Tables, g: Ledger, u: Upgrade, v: Visits, i: string)
    requires Answers(t, u, v)
    ensures i in Affected(t, u, v) <==> IsAffected(t, u, i)
  {
    hide Answers, Hit, Unbound, EvidenceLess, InstallationsOf, AffectedBy, Linked, AfterQuarantine, HasBareRun, Ids,
      Owners;
    Visited(t, u, v);
    TouchedIff(t, u, v, i);
    AffectedByIff(t, v.hostActivity, i);
    AffectedByIff(AfterHostActivity(t, u, v), v.quarantine, i);
    OwnersIff(t, u, v, i);
    forall e | e !in Ids(v.hostActivity) ensures Linked(AfterHostActivity(t, u, v), e, i) <==> Linked(t, e, i) {
      LinksOutside(t, v.hostActivity, false, u.now, e, i);
    }
    forall e ensures Linked(AfterHostActivity(t, u, v), e, i) ==> Linked(t, e, i) {
      LinksShrink(t, v.hostActivity, false, u.now, e, i);
    }
  }

  lemma LinksShrink(t: Tables, rows: seq<Revoked>, unbind: bool, now: int, e: string, i: string)
    ensures Linked(Revoke(t, rows, unbind, now), e, i) ==> Linked(t, e, i)
  {
    hide NamesRun, MarkedBy, ReasonOf, Ids, RevokedEvidence;
    var s := Revoke(t, rows, unbind, now);
    forall c | c in t.components && s.components[c].resultId == Some(e) ensures t.components[c].resultId == Some(e) {}
  }

  lemma OwnersIff(t: Tables, u: Upgrade, v: Visits, i: string)
    requires Answers(t, u, v)
    ensures i in Owners(v.hostActivity) + Owners(v.quarantine)
      <==> exists e | e in t.evidence :: (Hit(t, u, e) || Unbound(t, u, e)) && t.evidence[e].installation == i
  {
    hide Hit, Unbound;
    Visited(t, u, v);
    forall rows: seq<Revoked> | rows == v.hostActivity || rows == v.quarantine
      ensures i in Owners(rows) <==> exists e | e in Ids(rows) && e in t.evidence :: t.evidence[e].installation == i
    {
      if i in Owners(rows) {
        var k :| 0 <= k < |rows| && rows[k].installation == i;
        assert rows[k].id in Ids(rows);
      }
    }
  }

  /** An installation that is not affected keeps its summary; an affected one shows its components. */
  lemma SummariesAfter(t: Tables, g: Ledger, u: Upgrade, v: Visits, i: string)
    requires Answers(t, u, v) && i in t.installations
    ensures var s := Repaired(t, g, u, v);
      && i in s.installations
      && (!IsAffected(t, u, i) ==>
            && s.installations[i].capability == t.installations[i].capability
            && s.installations[i].summary == t.installations[i].summary)
      && (IsAffected(t, u, i) ==> forall status: string ::
            s.installations[i].summary == status <==> ShowsStatus(s, i, status))
  {
    hide Answers, AfterQuarantine, Affected, EvidenceLess, InstallationsOf, Capability, Summary, Isolated, PointsAside,
      IsAffected, ShowsStatus, EvidenceFreeDetachFinalizer, Unsafe;
    AffectedIff(t, g, u, v, i);
    SummariesStand(t, g, u, v, i);
    var a, s := AfterIsolation(t, g, u, v), Repaired(t, g, u, v);
    ShowsIgnoresSummaries(a, s, i);
    forall status: string ensures Summary(a, i) == status <==> ShowsStatus(s, i, status) {
      SummaryByStatus(a, i, status);
    }
  }

  lemma SummariesStand(t: Tables, g: Ledger, u: Upgrade, v: Visits, i: string)
    requires i in t.installations
    ensures var a := AfterIsolation(t, g, u, v);
      && i in a.installations
      && a.installations[i].capability == t.installations[i].capability
      && a.installations[i].summary == t.installations[i].summary
  {
    hide Revoke, Isolate, EvidenceLess;
    var h, q := AfterHostActivity(t, u, v), AfterQuarantine(t, u, v);
    RevokingKeepsSummaries(t, v.hostActivity, false, u.now, i);
    RevokingKeepsSummaries(h, v.quarantine, true, u.now, i);
    IsolatingKeepsSummaries(q, g, EvidenceLess(q), u.now, i);
  }

  lemma RevokingKeepsSummaries(t: Tables, rows: seq<Revoked>, unbind: bool, now: int, i: string)
    requires i in t.installations
    ensures var a := Revoke(t, rows, unbind, now);
      && i in a.installations
      && a.installations[i].capability == t.installations[i].capability
      && a.installations[i].summary == t.installations[i].summary
  {
    hide NamesRun, Ids, MarkedBy, ReasonOf, RevokedEvidence, PointsInto;
  }

  lemma IsolatingKeepsSummaries(t: Tables, g: Ledger, runs: set<string>, now: int, i: string)
    requires i in t.installations
    ensures var a := Isolate(t, g, runs, now);
      && i in a.installations
      && a.installations[i].capability == t.installations[i].capability
      && a.installations[i].summary == t.installations[i].summary
  {
    hide InstallationsOf, Isolated, PointsAside, Unsafe;
  }

  /** The one status that all managed components have; "mixed" for several, "unverified" without any. */
  ghost predicate ShowsStatus(t: Tables, i: string, status: string) {
    var managed := ManagedOf(t, i);
    if managed == {} then status == "unverified"
    else if exists c, d | c in managed && d in managed :: t.components[c].status != t.components[d].status
    then status == "mixed"
    else forall c | c in managed :: t.components[c].status == status
  }

  lemma ShowsIgnoresSummaries(a: Tables, s: Tables, i: string)
    requires a.components == s.components
    ensures forall status: string :: ShowsStatus(a, i, status) <==> ShowsStatus(s, i, status)
  {
  }

  function ManagedOf(t: Tables, i: string): set<(string, ComponentKey)> {
    set c | c in t.components && c.0 == i && t.components[c].desired == "managed"
  }

  lemma StatusesIff(t: Tables, i: string)
    ensures forall x :: x in Statuses(t, i) <==> exists c | c in ManagedOf(t, i) :: t.components[c].status == x
  {
  }

  lemma SummaryByStatus(t: Tables, i: string, status: string)
    ensures Summary(t, i) == status <==> ShowsStatus(t, i, status)
  {
    hide Statuses, ManagedOf;
    var managed, s := ManagedOf(t, i), Statuses(t, i);
    StatusesIff(t, i);
    ManagedAreThere(t, i);
    if c, d :| c in managed && d in managed && t.components[c].status != t.components[d].status {
      TwoMembers(s, t.components[c].status, t.components[d].status);
    } else if c :| c in managed {
      OneMember(s, t.components[c].status);
      assert Summary(t, i) == t.components[c].status;
    } else {
      assert s == {};
    }
  }

  lemma ManagedAreThere(t: Tables, i: string)
    ensures forall c | c in ManagedOf(t, i) :: c in t.components
  {
  }

  lemma OneMember(s: set<string>, x: string)
    requires x in s && forall y | y in s :: y == x
    ensures s == {x} && |s| == 1
  {
    assert s == {x};
  }

  lemma TwoMembers(s: set<string>, x: string, y: string)
    requires x in s && y in s && x != y
    ensures |s| > 1
  {
    assert {x, y} <= s;
    assert |{x, y}| == 2;
    SubsetIsSmaller({x, y}, s);
  }

  lemma SubsetIsSmaller(a: set<string>, b: set<string>)
    requires a <= b
    ensures |a| <= |b|
  {
    assert b == a + (b - a);
  }

  // ---------- what is sound stays ----------

  /**
   * A verified run whose rows are all sound and untouched by host activity, one of them verified and valid,
   * keeps its state, its rows and the links to them.
   */
  lemma SoundRunIsKept(t: Tables, g: Ledger, u: Upgrade, v: Visits, run: string)
    requires Answers(t, u, v) && run in t.runs && t.runs[run].state == VerifiedRun
    requires forall e | e in t.evidence && t.evidence[e].runId == Some(run) :: Sound(t, u, e) && !Hit(t, u, e)
    requires exists e | e in t.evidence :: t.evidence[e].runId == Some(run) && t.evidence[e].result == VerifiedResult
                                           && t.evidence[e].invalidatedAt.None?
    ensures var s := Repaired(t, g, u, v);
      && run in s.runs && s.runs[run] == t.runs[run]
      && forall e | e in t.evidence && t.evidence[e].runId == Some(run) ::
           && e in s.evidence && s.evidence[e] == t.evidence[e]
           && (t.evidence[e].invalidationReason != Some("unbound_verified_run_quarantined") ==>
                 && (forall c | c in t.components && t.components[c].resultId == Some(e) ::
                       c in s.components && s.components[c] == t.components[c])
                 && (forall i | i in t.installations && t.installations[i].resultId == Some(e) ::
                       i in s.installations && s.installations[i].resultId == Some(e)))
  {
    hide Answers, Repaired, Sound, Hit, EvidenceFreeDetachFinalizer, IsMarked, HasBareRun, Linked, ReasonUnboundFor;
    RunsAfter(t, g, u, v, run);
    forall e | e in t.evidence { EvidenceAfter(t, g, u, v, e); }
    forall c | c in t.components { ComponentsAfter(t, g, u, v, c); }
    forall i | i in t.installations { InstallationsAfter(t, g, u, v, i); }
  }

  /** Tables in which every bound row is sound and untouched, and backs every verified run, are not changed at all. */
  lemma SoundTablesAreKept(t: Tables, g: Ledger, u: Upgrade, v: Visits)
    requires Answers(t, u, v)
    requires forall e | e in t.evidence :: !Hit(t, u, e) && !Unbound(t, u, e)
    requires forall r | r in t.runs && t.runs[r].state == VerifiedRun :: KeepsEvidence(t, u, r)
    ensures Repaired(t, g, u, v) == t
  {
    hide Answers, Repaired, Sound, Hit, Unbound, EvidenceFreeDetachFinalizer, IsMarked, Linked, ReasonUnboundFor,
      KeepsEvidence;
    var s := Repaired(t, g, u, v);
    TablesKeepTheirKeys(t, g, u, v);
    forall r | r in t.runs ensures s.runs[r] == t.runs[r] { RunsAfter(t, g, u, v, r); }
    forall e | e in t.evidence ensures s.evidence[e] == t.evidence[e] { EvidenceAfter(t, g, u, v, e); }
    forall c | c in t.components ensures s.components[c] == t.components[c] { ComponentsAfter(t, g, u, v, c); }
    forall i | i in t.installations ensures s.installations[i] == t.installations[i] {
      InstallationsAfter(t, g, u, v, i);
      SummariesAfter(t, g, u, v, i);
      if IsMarked(t, g, u, v, i) { MarksAreCaused(t, g, u, v, i); }
    }
    assert s.runs == t.runs && s.evidence == t.evidence && s.components == t.components
      && s.installations == t.installations;
  }

  lemma TablesKeepTheirKeys(t: Tables, g: Ledger, u: Upgrade, v: Visits)
    ensures var s := Repaired(t, g, u, v);
      && s.runs.Keys == t.runs.Keys && s.evidence.Keys == t.evidence.Keys
      && s.components.Keys == t.components.Keys && s.installations.Keys == t.installations.Keys
  {
    hide AfterQuarantine, EvidenceLess, InstallationsOf, Unsafe, PointsAside, Affected, Capability, Summary, SetAside;
    KeysStay(t, u, v);
  }
}
