/**
 * What each part of the verification-evidence repair does to the tables, stated for all the rows it
 * visits at once (src/db/agent-integration-schema.ts:1049-1270).
 */
module EvidenceRepair {
  import opened Wrappers
  import opened EvidenceTables

  const UNBOUND_REASON := "unbound_verified_run_quarantined"

  // ---------- the rows to quarantine ----------

  predicate Duplicated(t: Tables, id: string)
    requires id in t.evidence
  {
    var e := t.evidence[id];
    e.runId.Some? && exists d | d in t.evidence && d != id ::
      t.evidence[d].runId == e.runId && t.evidence[d].component == e.component
  }

  predicate Orphaned(t: Tables, id: string)
    requires id in t.evidence
  {
    t.evidence[id].runId.Some? && t.evidence[id].runId.value !in t.runs
  }

  predicate Filled(p: Provenance) {
    && p.family != "" && p.hostVariant != "" && p.adapterVersion != "" && p.catalogVersion != ""
    && p.manifestVersion != "" && p.method_ != "" && p.evidenceHash != "" && p.verifiedAt != "" && p.createdAt != ""
  }

  predicate Complete(e: Evidence) {
    && Filled(e.provenance)
    && (e.result == VerifiedResult ==> e.identityAssertion.Some? && e.identityAssertion.value != "")
  }

  /** The WHERE clause of the quarantine query. */
  predicate Unfit(t: Tables, repairedShape: bool, id: string)
    requires id in t.evidence
  {
    var e := t.evidence[id];
    e.runId.Some? && (
      || repairedShape || Duplicated(t, id) || Orphaned(t, id) || !Complete(e)
      || (e.result != VerifiedResult && e.runId.value in t.runs && t.runs[e.runId.value].state == VerifiedRun))
  }

  function UnfitIds(t: Tables, repairedShape: bool): set<string> {
    set id | id in t.evidence && Unfit(t, repairedShape, id)
  }

  function QuarantineReason(t: Tables, id: string): string
    requires id in t.evidence
  {
    if Duplicated(t, id) then "duplicate_run_component_quarantined"
    else if Orphaned(t, id) then "orphan_run_quarantined"
    else "incomplete_verification_evidence_quarantined"
  }

  /** A row that a revoking loop visits, as its query returned it. */
  datatype Revoked = Revoked(id: string, installation: string, run: Option<string>, reason: string)

  /**
   * `rows` lists a query's answer: exactly these ids, each once, with the columns they then had. The
   * host-activity loop passes over an empty run id, the quarantine loop does not.
   */
  ghost predicate Lists(rows: seq<Revoked>, t: Tables, ids: set<string>, skipEmpty: bool) {
    && (forall k | 0 <= k < |rows| :: rows[k].id in ids && rows[k].id in t.evidence
          && rows[k].installation == t.evidence[rows[k].id].installation
          && rows[k].run
               == if skipEmpty && !Present(t.evidence[rows[k].id].runId) then None else t.evidence[rows[k].id].runId)
    && (forall id | id in ids :: exists k | 0 <= k < |rows| :: rows[k].id == id)
    && (forall j, k | 0 <= j < k < |rows| :: rows[j].id != rows[k].id)
  }

  function Ids(rows: seq<Revoked>): set<string> {
    set k | 0 <= k < |rows| :: rows[k].id
  }

  function ReasonOf(rows: seq<Revoked>, id: string): string
    requires id in Ids(rows)
  {
    if rows[|rows| - 1].id == id then rows[|rows| - 1].reason
    else ReasonOf(rows[..|rows| - 1], id)
  }

  // ---------- the two revoking loops ----------

  function Cancelled(r: Run, code: string, now: int): Run {
    r.(state := CancelledRun, failureCode := Some(code), failureStage := Some("verification_migration"),
       completedAt := if r.completedAt.Some? then r.completedAt else Some(now), updatedAt := now)
  }

  function NeedsRecovery(i: Installation, now: int): Installation {
    if i.desired == "managed"
    then i.(reconcile := "needs_recovery", statusReason := Some("verification_stale"), updatedAt := now)
    else i
  }

  function InstallationAfter(i: Installation, marked: bool, detached: bool, now: int): Installation {
    var marking := if marked then NeedsRecovery(i, now) else i;
    if detached then marking.(resultId := None) else marking
  }

  lemma VisitedTwice(x: Installation, m1: bool, d1: bool, m2: bool, d2: bool, now: int)
    ensures InstallationAfter(InstallationAfter(x, m1, d1, now), m2, d2, now)
      == InstallationAfter(x, m1 || m2, d1 || d2, now)
    ensures InstallationAfter(x, m1, d1, now).resultId == if d1 then None else x.resultId
  {
  }

  predicate VerifiedIn(runs: map<string, Run>, run: Option<string>) {
    run.Some? && run.value in runs && runs[run.value].state == VerifiedRun
  }

  predicate NamesRun(rows: seq<Revoked>, run: string) {
    exists k | 0 <= k < |rows| :: rows[k].run == Some(run)
  }

  /** A run is cancelled by the first row that names it; only that row's installation is marked. */
  function MarkedBy(runs: map<string, Run>, rows: seq<Revoked>): set<string> {
    set k | 0 <= k < |rows| && VerifiedIn(runs, rows[k].run) && !NamesRun(rows[..k], rows[k].run.value)
      :: rows[k].installation
  }

  function RevokedEvidence(e: Evidence, unbind: bool, reason: string, now: int): Evidence {
    if unbind then
      e.(runId := None, invalidatedAt := if e.invalidatedAt.Some? then e.invalidatedAt else Some(now),
         invalidationReason := if e.invalidationReason.Some? then e.invalidationReason else Some(reason))
    else if e.invalidatedAt.None? then e.(invalidatedAt := Some(now), invalidationReason := Some(reason))
    else e
  }

  predicate PointsInto(resultId: Option<string>, ids: set<string>) {
    resultId.Some? && resultId.value in ids
  }

  /** All of a revoking loop at once. `unbind` tells quarantine from host-activity invalidation. */
  function Revoke(t: Tables, rows: seq<Revoked>, unbind: bool, now: int): Tables {
    var ids, marked := Ids(rows), MarkedBy(t.runs, rows);
    Tables(
      map r | r in t.runs :: if NamesRun(rows, r) && t.runs[r].state == VerifiedRun
        then Cancelled(t.runs[r], "incomplete_verification_evidence", now) else t.runs[r],
      map e | e in t.evidence :: if e in ids then RevokedEvidence(t.evidence[e], unbind, ReasonOf(rows, e), now)
        else t.evidence[e],
      map c | c in t.components :: if PointsInto(t.components[c].resultId, ids)
        then t.components[c].(status := "stale", resultId := None) else t.components[c],
      map i | i in t.installations ::
        InstallationAfter(t.installations[i], i in marked, PointsInto(t.installations[i].resultId, ids), now))
  }

  function Owners(rows: seq<Revoked>): set<string> {
    set k | 0 <= k < |rows| :: rows[k].installation
  }

  /** The installations a revoking loop adds to `affectedInstallations`. */
  function AffectedBy(t: Tables, rows: seq<Revoked>): set<string> {
    Owners(rows) + LinkedTo(t, Ids(rows))
  }

  function LinkedTo(t: Tables, ids: set<string>): set<string> {
    (set c | c in t.components && PointsInto(t.components[c].resultId, ids) :: c.0)
    + (set i | i in t.installations && PointsInto(t.installations[i].resultId, ids))
  }

  // ---------- the loop over verified runs without evidence ----------

  predicate Evidenced(t: Tables, run: string) {
    exists e | e in t.evidence ::
      t.evidence[e].runId == Some(run) && t.evidence[e].result == VerifiedResult && t.evidence[e].invalidatedAt.None?
  }

  function EvidenceLess(t: Tables): set<string> {
    set r | r in t.runs && t.runs[r].state == VerifiedRun && !Evidenced(t, r)
  }

  predicate Linked(t: Tables, e: string, installation: string) {
    || (exists c | c in t.components :: c.0 == installation && t.components[c].resultId == Some(e))
    || (installation in t.installations && t.installations[installation].resultId == Some(e))
  }

  function InstallationsOf(t: Tables, runs: set<string>): set<string> {
    set r | r in runs && r in t.runs && Present(t.runs[r].installation) :: t.runs[r].installation.value
  }

  function Unsafe(t: Tables, g: Ledger, runs: set<string>): set<string> {
    set r | r in runs && r in t.runs && !EvidenceFreeDetachFinalizer(t, g, r, t.runs[r])
  }

  function Isolated(t: Tables, installations: set<string>, now: int): map<string, Evidence> {
    map e | e in t.evidence ::
      if SetAside(t, e, installations)
      then t.evidence[e].(invalidatedAt := Some(now),
                          invalidationReason := if t.evidence[e].invalidationReason.Some?
                            then t.evidence[e].invalidationReason else Some(UNBOUND_REASON))
      else t.evidence[e]
  }

  /** Unbound, still valid evidence that a touched installation of its own relies on. */
  predicate SetAside(t: Tables, e: string, installations: set<string>)
    requires e in t.evidence
  {
    var v := t.evidence[e];
    v.installation in installations && v.runId.None? && v.invalidatedAt.None? && Linked(t, e, v.installation)
  }

  /** The row points at evidence of its own installation that was set aside as unbound. */
  predicate PointsAside(evidence: map<string, Evidence>, resultId: Option<string>, installation: string) {
    resultId.Some? && resultId.value in evidence
    && evidence[resultId.value].installation == installation
    && evidence[resultId.value].invalidationReason == Some(UNBOUND_REASON)
  }

  /** All of the loop at once, for the set of runs it visits. */
  function Isolate(t: Tables, g: Ledger, runs: set<string>, now: int): Tables {
    var touched, unsafe_ := InstallationsOf(t, runs), Unsafe(t, g, runs);
    var evidence := Isolated(t, touched, now);
    Tables(
      map r | r in t.runs :: if r in unsafe_ && t.runs[r].state == VerifiedRun
        then Cancelled(t.runs[r], "verification_evidence_missing", now) else t.runs[r],
      evidence,
      map c | c in t.components :: if c.0 in touched && PointsAside(evidence, t.components[c].resultId, c.0)
        then t.components[c].(status := "stale", resultId := None) else t.components[c],
      map i | i in t.installations ::
        InstallationAfter(t.installations[i], i in InstallationsOf(t, unsafe_),
                          i in touched && PointsAside(evidence, t.installations[i].resultId, i), now))
  }

  // ---------- the installation summaries ----------

  function ManagedKeys(t: Tables, installation: string): set<ComponentKey> {
    set c | c in t.components && c.0 == installation && t.components[c].desired == "managed" :: c.1
  }

  function Statuses(t: Tables, installation: string): set<string> {
    set c | c in t.components && c.0 == installation && t.components[c].desired == "managed" :: t.components[c].status
  }

  predicate VerifiedComponent(t: Tables, installation: string, key: ComponentKey) {
    key in ManagedKeys(t, installation) && t.components[(installation, key)].status == "verified"
  }

  function Capability(t: Tables, installation: string): int
    requires installation in t.installations
  {
    var instruction, tools, lifecycle := VerifiedComponent(t, installation, Instruction),
      VerifiedComponent(t, installation, MemoryTools), VerifiedComponent(t, installation, Lifecycle);
    var observed := if instruction && tools && lifecycle then 4 else if instruction && tools then 3
      else if tools then 2 else if instruction then 1 else 0;
    if ManagedKeys(t, installation) != {} && t.installations[installation].hostVariant == "custom-local-mcp"
      && observed > 2
    then 2 else observed
  }

  function Summary(t: Tables, installation: string): string {
    var s := Statuses(t, installation);
    if s == {} then "unverified"
    else if |s| == 1 then Only(s)
    else "mixed"
  }

  function Only(s: set<string>): (x: string)
    requires |s| == 1
    ensures s == {x}
  {
    var y :| y in s;
    assert s - {y} == {} by { assert |s - {y}| == 0; }
    assert forall z | z in s :: z == y;
    var x :| x in s;
    x
  }

  function Summarize(t: Tables, affected: set<string>): Tables {
    t.(installations := map i | i in t.installations ::
         if i in affected then t.installations[i].(capability := Capability(t, i), summary := Summary(t, i))
         else t.installations[i])
  }

  // ---------- the whole pass ----------

  /** What the schema upgrade found before the pass, and the time of the transaction. */
  datatype Upgrade = Upgrade(repairedShape: bool, rebuiltHostActivity: bool, now: int)

  function HostActivityIds(t: Tables): set<string> {
    set e | e in t.evidence && t.evidence[e].invalidatedAt.None? && t.evidence[e].citesHostActivity
  }

  /** The rows the two revoking loops visit, in any order the queries may return them. */
  datatype Visits = Visits(hostActivity: seq<Revoked>, quarantine: seq<Revoked>)

  ghost predicate Answers(t: Tables, u: Upgrade, v: Visits) {
    && Lists(v.hostActivity, t, if u.rebuiltHostActivity then HostActivityIds(t) else {}, true)
    && Lists(v.quarantine, t, UnfitIds(t, u.repairedShape), false)
    && (forall k | 0 <= k < |v.quarantine| :: v.quarantine[k].reason == QuarantineReason(t, v.quarantine[k].id))
    && (forall k | 0 <= k < |v.hostActivity| :: v.hostActivity[k].reason == "pre_causal_host_activity_invalidated")
  }

  function AfterHostActivity(t: Tables, u: Upgrade, v: Visits): Tables {
    Revoke(t, v.hostActivity, false, u.now)
  }

  function AfterQuarantine(t: Tables, u: Upgrade, v: Visits): Tables {
    Revoke(AfterHostActivity(t, u, v), v.quarantine, true, u.now)
  }

  function AfterIsolation(t: Tables, g: Ledger, u: Upgrade, v: Visits): Tables {
    var q := AfterQuarantine(t, u, v);
    Isolate(q, g, EvidenceLess(q), u.now)
  }

  function Affected(t: Tables, u: Upgrade, v: Visits): set<string> {
    var h, q := AfterHostActivity(t, u, v), AfterQuarantine(t, u, v);
    AffectedBy(t, v.hostActivity) + AffectedBy(h, v.quarantine) + InstallationsOf(q, EvidenceLess(q))
  }

  function Repaired(t: Tables, g: Ledger, u: Upgrade, v: Visits): Tables {
    Summarize(AfterIsolation(t, g, u, v), Affected(t, u, v))
  }
}
