/**
 * The repair pass as the loops of UPDATE statements that the upgrade runs, proved to have the
 * all-at-once effect that the other modules reason about.
 */
module EvidenceDatabase {
  import opened Wrappers
  import opened EvidenceTables
  import opened EvidenceRepair
  import opened EvidenceRevocation
  import Order = EvidenceRepairOrder

  /** What visiting a single row does. */
  lemma OneRow(t: Tables, row: Revoked, unbind: bool, now: int)
    ensures Ids([row]) == {row.id} && Owners([row]) == {row.installation}
    ensures MarkedBy(t.runs, [row]) == if VerifiedIn(t.runs, row.run) then {row.installation} else {}
    ensures forall r :: NamesRun([row], r) <==> row.run == Some(r)
    ensures ReasonOf([row], row.id) == row.reason
  {
    assert [row][0] == row && [row][..0] == [];
  }

  function MarkedMap(installations: map<string, Installation>, id: string, marked: bool,
                     now: int): map<string, Installation> {
    map i | i in installations :: if marked && i == id then NeedsRecovery(installations[i], now) else installations[i]
  }

  function DetachedMap(installations: map<string, Installation>, evidenceId: string): map<string, Installation> {
    map i | i in installations :: if installations[i].resultId == Some(evidenceId)
      then installations[i].(resultId := None) else installations[i]
  }

  lemma MarkingKeepsLinks(t: Tables, marked: map<string, Installation>, row: Revoked, changed: bool, now: int)
    requires marked == MarkedMap(t.installations, row.installation, changed, now)
    ensures (set i | i in marked && marked[i].resultId == Some(row.id))
         == (set i | i in t.installations && t.installations[i].resultId == Some(row.id))
  {
  }

  lemma RevokeOneRowRuns(t: Tables, row: Revoked, unbind: bool, now: int)
    ensures Revoke(t, [row], unbind, now).runs == if VerifiedIn(t.runs, row.run)
      then t.runs[row.run.value := Cancelled(t.runs[row.run.value], "incomplete_verification_evidence", now)]
      else t.runs
  {
    hide Ids, MarkedBy, ReasonOf, NamesRun;
    OneRow(t, row, unbind, now);
  }

  lemma RevokeOneRowEvidence(t: Tables, row: Revoked, unbind: bool, now: int)
    requires row.id in t.evidence
    ensures Revoke(t, [row], unbind, now).evidence
      == t.evidence[row.id := RevokedEvidence(t.evidence[row.id], unbind, row.reason, now)]
  {
    hide Ids, MarkedBy, ReasonOf, NamesRun;
    OneRow(t, row, unbind, now);
  }

  lemma RevokeOneRowComponents(t: Tables, row: Revoked, unbind: bool, now: int)
    ensures Revoke(t, [row], unbind, now).components
      == (map c | c in t.components :: if t.components[c].resultId == Some(row.id)
           then t.components[c].(status := "stale", resultId := None) else t.components[c])
  {
    hide Ids, MarkedBy, ReasonOf, NamesRun, InstallationAfter, RevokedEvidence;
    OneRow(t, row, unbind, now);
  }

  lemma RevokeOneRowInstallations(t: Tables, row: Revoked, unbind: bool, now: int)
    ensures Revoke(t, [row], unbind, now).installations
      == DetachedMap(MarkedMap(t.installations, row.installation, VerifiedIn(t.runs, row.run), now), row.id)
  {
    hide Ids, MarkedBy, ReasonOf, NamesRun, RevokedEvidence, NeedsRecovery;
    OneRow(t, row, unbind, now);
    forall i | i in t.installations { RecoveryKeepsLink(t.installations[i], now); }
  }

  lemma RecoveryKeepsLink(i: Installation, now: int)
    ensures NeedsRecovery(i, now).resultId == i.resultId
  {
  }

  lemma RevokeOneRowLinks(t: Tables, row: Revoked, unbind: bool, now: int)
    ensures var w := Revoke(t, [row], unbind, now);
      && w.components == (map c | c in t.components :: if t.components[c].resultId == Some(row.id)
           then t.components[c].(status := "stale", resultId := None) else t.components[c])
      && w.installations == DetachedMap(MarkedMap(t.installations, row.installation, VerifiedIn(t.runs, row.run), now),
                                        row.id)
  {
    hide Revoke, MarkedMap, DetachedMap;
    RevokeOneRowComponents(t, row, unbind, now);
    RevokeOneRowInstallations(t, row, unbind, now);
  }

  /** The all-at-once effect of a single row, statement by statement. */
  lemma RevokeOneRow(t: Tables, row: Revoked, unbind: bool, now: int)
    requires row.id in t.evidence
    ensures var w := Revoke(t, [row], unbind, now); var changed := VerifiedIn(t.runs, row.run);
      && w.runs
           == (if changed
               then t.runs[row.run.value := Cancelled(t.runs[row.run.value], "incomplete_verification_evidence", now)]
               else t.runs)
      && w.evidence == t.evidence[row.id := RevokedEvidence(t.evidence[row.id], unbind, row.reason, now)]
      && w.components == (map c | c in t.components :: if t.components[c].resultId == Some(row.id)
           then t.components[c].(status := "stale", resultId := None) else t.components[c])
      && w.installations == DetachedMap(MarkedMap(t.installations, row.installation, changed, now), row.id)
    ensures AffectedBy(t, [row]) == {row.installation}
      + (set c | c in t.components && t.components[c].resultId == Some(row.id) :: c.0)
      + (set i | i in t.installations && t.installations[i].resultId == Some(row.id))
  {
    hide Revoke, Ids, MarkedBy, NamesRun, ReasonOf, Owners, Cancelled, RevokedEvidence;
    OneRow(t, row, unbind, now);
    RevokeOneRowRuns(t, row, unbind, now);
    RevokeOneRowEvidence(t, row, unbind, now);
    RevokeOneRowLinks(t, row, unbind, now);
    assert forall r: Option<string> :: PointsInto(r, {row.id}) <==> r == Some(row.id);
  }

  class Database {
    var runs: map<string, Run>
    var evidence: map<string, Evidence>
    var components: map<(string, ComponentKey), Component>
    var installations: map<string, Installation>
    const ledger: Ledger

    constructor (t: Tables, ledger: Ledger)
      ensures View() == t && this.ledger == ledger
    {
      runs, evidence, components, installations := t.runs, t.evidence, t.components, t.installations;
      this.ledger := ledger;
    }

    function View(): Tables
      reads this
    {
      Tables(runs, evidence, components, installations)
    }

    // ---------- statements ----------

    method CancelVerifiedRun(id: string, code: string, now: int) returns (changed: bool)
      modifies this`runs
      ensures changed == VerifiedIn(old(runs), Some(id))
      ensures runs == if changed then old(runs)[id := Cancelled(old(runs)[id], code, now)] else old(runs)
    {
      changed := VerifiedIn(runs, Some(id));
      if changed { runs := runs[id := Cancelled(runs[id], code, now)]; }
    }

    method MarkRecovery(id: string, now: int)
      modifies this`installations
      ensures installations == MarkedMap(old(installations), id, true, now)
    {
      if id in installations { installations := installations[id := NeedsRecovery(installations[id], now)]; }
    }

    method StaleLinkedComponents(evidenceId: string) returns (owners: set<string>)
      modifies this`components
      ensures owners == set c | c in old(components) && old(components)[c].resultId == Some(evidenceId) :: c.0
      ensures components == map c | c in old(components) :: if old(components)[c].resultId == Some(evidenceId)
        then old(components)[c].(status := "stale", resultId := None) else old(components)[c]
    {
      owners := set c | c in components && components[c].resultId == Some(evidenceId) :: c.0;
      components := map c | c in components :: if components[c].resultId == Some(evidenceId)
        then components[c].(status := "stale", resultId := None) else components[c];
    }

    method DetachInstallations(evidenceId: string) returns (owners: set<string>)
      modifies this`installations
      ensures owners == set i | i in old(installations) && old(installations)[i].resultId == Some(evidenceId)
      ensures installations == DetachedMap(old(installations), evidenceId)
    {
      owners := set i | i in installations && installations[i].resultId == Some(evidenceId);
      installations := DetachedMap(installations, evidenceId);
    }

    // ---------- loops ----------

    /** One iteration of a revoking loop. */
    method RevokeRow(row: Revoked, unbind: bool, now: int) returns (touched: set<string>)
      requires row.id in evidence
      modifies this`runs, this`evidence, this`components, this`installations
      ensures View() == Revoke(old(View()), [row], unbind, now)
      ensures touched == AffectedBy(old(View()), [row])
    {
      hide Revoke, AffectedBy, NeedsRecovery, RevokedEvidence, Cancelled;
      ghost var t := View();
      RevokeOneRow(t, row, unbind, now);
      var changed := false;
      if row.run.Some? {
        changed := CancelVerifiedRun(row.run.value, "incomplete_verification_evidence", now);
        if changed { MarkRecovery(row.installation, now); }
      }
      evidence := evidence[row.id := RevokedEvidence(evidence[row.id], unbind, row.reason, now)];
      var owners := StaleLinkedComponents(row.id);
      MarkingKeepsLinks(t, installations, row, changed, now);
      var detached := DetachInstallations(row.id);
      touched := {row.installation} + owners + detached;
    }

    method RevokeRows(rows: seq<Revoked>, unbind: bool, now: int) returns (affected: set<string>)
      requires DistinctIds(rows) && forall k | 0 <= k < |rows| :: rows[k].id in evidence
      modifies this`runs, this`evidence, this`components, this`installations
      ensures View() == Revoke(old(View()), rows, unbind, now)
      ensures affected == AffectedBy(old(View()), rows)
    {
      hide Revoke, AffectedBy;
      ghost var t := View();
      affected := {};
      RevokeNothing(t, unbind, now);
      assert rows[..0] == [];
      for k := 0 to |rows|
        invariant View() == Revoke(t, rows[..k], unbind, now)
        invariant affected == AffectedBy(t, rows[..k])
        invariant evidence.Keys == t.evidence.Keys
      {
        assert rows[..k + 1] == rows[..k] + [rows[k]];
        RevocationAddsUp(t, rows[..k], rows[k], unbind, now);
        AffectedAddUp(t, rows[..k], rows[k], unbind, now);
        var touched := RevokeRow(rows[k], unbind, now);
        SameEvidence(Revoke(t, rows[..k], unbind, now), [rows[k]], unbind, now);
        affected := affected + touched;
      }
      assert rows[..|rows|] == rows;
    }

    /** One iteration of the loop over verified runs without evidence. */
    method IsolateRun(id: string, now: int)
      requires id in runs && runs[id].state == VerifiedRun
      modifies this`runs, this`evidence, this`components, this`installations
      ensures View() == Isolate(old(View()), ledger, {id}, now)
    {
      hide EvidenceFreeDetachFinalizer, Isolate, Isolated, PointsAside, NeedsRecovery, Cancelled;
      ghost var t := View();
      IsolateOneRun(t, ledger, id, now);
      var run := runs[id];
      var finalizer := EvidenceFreeDetachFinalizer(View(), ledger, id, run);
      if !finalizer {
        var _ := CancelVerifiedRun(id, "verification_evidence_missing", now);
      }
      if Present(run.installation) {
        var installation := run.installation.value;
        RunsDoNotMatter(t, View(), {installation}, now);
        evidence := Isolated(View(), {installation}, now);
        components := StaledMap(components, evidence, installation);
        installations := SetAsideMap(installations, evidence, installation);
        if !finalizer { MarkRecovery(installation, now); }
      }
    }

    method IsolateRuns(now: int) returns (affected: set<string>)
      modifies this`runs, this`evidence, this`components, this`installations
      ensures View() == Isolate(old(View()), ledger, EvidenceLess(old(View())), now)
      ensures affected == InstallationsOf(old(View()), EvidenceLess(old(View())))
    {
      hide EvidenceFreeDetachFinalizer, Isolate, InstallationsOf, EvidenceLess;
      ghost var t := View();
      var todo := EvidenceLess(View());
      AllVerified(t);
      ghost var visited := {};
      affected := {};
      Order.IsolateNothing(t, ledger, now);
      Order.NoRunsNoInstallations(t);
      while todo != {}
        invariant visited + todo == EvidenceLess(t) && visited !! todo
        invariant View() == Isolate(t, ledger, visited, now)
        invariant affected == InstallationsOf(t, visited)
        decreases todo
      {
        var id :| id in todo;
        UnvisitedRunsKeep(t, ledger, visited, now, id);
        Order.IsolationAddsUp(t, ledger, visited, {id}, now);
        Order.InstallationsAddUp(t, visited, {id});
        OneRun(t, ledger, id);
        var run := runs[id];
        if Present(run.installation) { affected := affected + {run.installation.value}; }
        IsolateRun(id, now);
        visited, todo := visited + {id}, todo - {id};
      }
      assert visited == EvidenceLess(t);
    }

    method SummarizeInstallations(affected: set<string>)
      modifies this`installations
      ensures View() == Summarize(old(View()), affected)
    {
      hide Capability, Summary;
      ghost var t := View();
      var todo := affected;
      ghost var visited := {};
      assert View().installations == Summarize(t, {}).installations;
      while todo != {}
        invariant visited + todo == affected && visited !! todo
        invariant View() == Summarize(t, visited)
        decreases todo
      {
        var id :| id in todo;
        SummariesIgnoreSummaries(t, visited, id);
        if id in installations {
          installations := installations[id := installations[id].(capability := Capability(View(), id),
                                                                  summary := Summary(View(), id))];
        }
        visited, todo := visited + {id}, todo - {id};
        assert installations == Summarize(t, visited).installations;
      }
      assert visited == affected;
    }

    /** The whole pass, for any order in which its queries return their rows. */
    method Repair(u: Upgrade, v: Visits)
      requires Answers(View(), u, v)
      modifies this`runs, this`evidence, this`components, this`installations
      ensures View() == Repaired(old(View()), ledger, u, v)
    {
      hide Revoke, Isolate, Summarize, AffectedBy, InstallationsOf, EvidenceLess;
      ghost var t := View();
      ListedRowsExist(t, u, v);
      var a := RevokeRows(v.hostActivity, false, u.now);
      SameEvidence(t, v.hostActivity, false, u.now);
      var b := RevokeRows(v.quarantine, true, u.now);
      var c := IsolateRuns(u.now);
      SummarizeInstallations(a + b + c);
    }
  }

  lemma SameEvidence(t: Tables, rows: seq<Revoked>, unbind: bool, now: int)
    ensures Revoke(t, rows, unbind, now).evidence.Keys == t.evidence.Keys
  {
  }

  lemma ListedRowsExist(t: Tables, u: Upgrade, v: Visits)
    requires Answers(t, u, v)
    ensures DistinctIds(v.hostActivity) && DistinctIds(v.quarantine)
    ensures forall k | 0 <= k < |v.hostActivity| :: v.hostActivity[k].id in t.evidence
    ensures forall k | 0 <= k < |v.quarantine| :: v.quarantine[k].id in t.evidence
  {
  }

  lemma OneRun(t: Tables, g: Ledger, id: string)
    requires id in t.runs
    ensures Unsafe(t, g, {id}) == if EvidenceFreeDetachFinalizer(t, g, id, t.runs[id]) then {} else {id}
    ensures InstallationsOf(t, {id}) == if Present(t.runs[id].installation) then {t.runs[id].installation.value} else {}
    ensures InstallationsOf(t, {}) == {}
  {
  }

  function StaledMap(components: map<(string, ComponentKey), Component>, evidence: map<string, Evidence>,
                     installation: string): map<(string, ComponentKey), Component> {
    map c | c in components :: if c.0 == installation && PointsAside(evidence, components[c].resultId, installation)
      then components[c].(status := "stale", resultId := None) else components[c]
  }

  function SetAsideMap(installations: map<string, Installation>, evidence: map<string, Evidence>,
                       installation: string): map<string, Installation> {
    map i | i in installations :: if i == installation && PointsAside(evidence, installations[i].resultId, installation)
      then installations[i].(resultId := None) else installations[i]
  }

  lemma IsolateOneRunRuns(t: Tables, g: Ledger, id: string, now: int)
    requires id in t.runs && t.runs[id].state == VerifiedRun
    ensures Isolate(t, g, {id}, now).runs == if EvidenceFreeDetachFinalizer(t, g, id, t.runs[id]) then t.runs
      else t.runs[id := Cancelled(t.runs[id], "verification_evidence_missing", now)]
  {
    hide EvidenceFreeDetachFinalizer, Unsafe, InstallationsOf, Isolated, PointsAside;
    OneRun(t, g, id);
  }

  lemma IsolateOneRunIsolated(t: Tables, g: Ledger, id: string, now: int)
    requires id in t.runs && Present(t.runs[id].installation)
    ensures var w := Isolate(t, g, {id}, now); var installation := t.runs[id].installation.value;
      && w.evidence == Isolated(t, {installation}, now)
      && w.components == StaledMap(t.components, w.evidence, installation)
      && w.installations == MarkedMap(SetAsideMap(t.installations, w.evidence, installation),
                                      installation, !EvidenceFreeDetachFinalizer(t, g, id, t.runs[id]), now)
  {
    hide EvidenceFreeDetachFinalizer, Unsafe, InstallationsOf, Isolated, PointsAside;
    OneRun(t, g, id);
  }

  lemma IsolateOneRunElsewhere(t: Tables, g: Ledger, id: string, now: int)
    requires id in t.runs && !Present(t.runs[id].installation)
    ensures var w := Isolate(t, g, {id}, now);
      w.evidence == t.evidence && w.components == t.components && w.installations == t.installations
  {
    hide EvidenceFreeDetachFinalizer, Unsafe, InstallationsOf, Isolated, PointsAside;
    OneRun(t, g, id);
    UntouchedEvidence(t, now);
  }

  /** The all-at-once effect of a single run, statement by statement. */
  lemma IsolateOneRun(t: Tables, g: Ledger, id: string, now: int)
    requires id in t.runs && t.runs[id].state == VerifiedRun
    ensures var w := Isolate(t, g, {id}, now); var run := t.runs[id];
      var finalizer := EvidenceFreeDetachFinalizer(t, g, id, run);
      && w.runs == (if finalizer then t.runs else t.runs[id := Cancelled(run, "verification_evidence_missing", now)])
      && (!Present(run.installation) ==> w == t.(runs := w.runs))
      && (Present(run.installation) ==>
            && w.evidence == Isolated(t, {run.installation.value}, now)
            && w.components == StaledMap(t.components, w.evidence, run.installation.value)
            && w.installations == MarkedMap(SetAsideMap(t.installations, w.evidence, run.installation.value),
                                            run.installation.value, !finalizer, now))
  {
    hide EvidenceFreeDetachFinalizer, Isolate, Isolated;
    IsolateOneRunRuns(t, g, id, now);
    if Present(t.runs[id].installation) { IsolateOneRunIsolated(t, g, id, now); }
    else { IsolateOneRunElsewhere(t, g, id, now); }
  }

  lemma UntouchedEvidence(t: Tables, now: int)
    ensures Isolated(t, {}, now) == t.evidence
  {
  }

  lemma RunsDoNotMatter(t: Tables, s: Tables, installations: set<string>, now: int)
    requires s == t.(runs := s.runs)
    ensures Isolated(s, installations, now) == Isolated(t, installations, now)
  {
    forall e, i ensures Linked(s, e, i) <==> Linked(t, e, i) {}
    assert forall e | e in t.evidence :: SetAside(s, e, installations) <==> SetAside(t, e, installations);
  }

  lemma AllVerified(t: Tables)
    ensures forall r | r in EvidenceLess(t) :: r in t.runs && t.runs[r].state == VerifiedRun
  {
  }

  lemma UnvisitedRunsKeep(t: Tables, g: Ledger, visited: set<string>, now: int, id: string)
    requires id in t.runs && id !in visited
    ensures id in Isolate(t, g, visited, now).runs && Isolate(t, g, visited, now).runs[id] == t.runs[id]
  {
  }

  lemma SummariesIgnoreSummaries(t: Tables, affected: set<string>, i: string)
    ensures i in t.installations ==> Capability(Summarize(t, affected), i) == Capability(t, i)
    ensures Summary(Summarize(t, affected), i) == Summary(t, i)
  {
    var s := Summarize(t, affected);
    assert ManagedKeys(s, i) == ManagedKeys(t, i) && Statuses(s, i) == Statuses(t, i);
    assert forall key :: VerifiedComponent(s, i, key) <==> VerifiedComponent(t, i, key);
  }
}
