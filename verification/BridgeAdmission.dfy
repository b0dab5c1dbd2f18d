/**
 * The bridge guard's admission decision over the reconcile-run log and the physical-write log
 * (src/agent-bridge-guard.ts, src/db/agent-identity-binding.ts).
 */
module BridgeAdmission {
  import opened Wrappers
  import opened Characters

  // ---------- tables ----------

  datatype Installation = Installation(
    agentId: Option<string>, desiredState: string, tombstonedAt: Option<string>, bridgeState: Option<string>,
    eligibilityReason: Option<string>, domainKey: Option<string>, consent: Option<string>)

  /** What admission reads of a prepared plan; text that is not JSON has no component keys. */
  datatype Plan = Plan(token: Option<string>, tokenHash: Option<string>, componentKeys: set<string>)

  datatype Run = Run(installation: string, operation: string, state: string, failureCode: Option<string>, plan: Plan)

  datatype PhysicalWrite = PhysicalWrite(
    artifact: Option<string>, run: nat, state: string, strategy: string, committedAt: Option<int>,
      afterHash: Option<string>)

  datatype Component = Component(
    artifact: Option<string>, desiredState: string, tombstonedAt: Option<string>, consent: Option<string>)

  datatype Consumer = Consumer(state: string, desiredState: string, tombstonedAt: Option<string>,
                               consent: Option<string>)

  datatype Consent = Consent(installation: string, status: string)

  datatype Artifact = Artifact(state: string, ownedHash: Option<string>)

  datatype Binding = Binding(domainKey: string, members: set<string>)

  /** Runs and writes are in row order; `agentOwner` is the unique index on an installation's agent id. */
  datatype Ledger = Ledger(
    installations: map<string, Installation>, agentOwner: map<string, string>, archived: map<string, bool>,
    bindings: map<string, Binding>, runs: seq<Run>, writes: seq<PhysicalWrite>, artifacts: map<string, Artifact>,
    components: map<(string, string), Component>, consumers: map<(string, string, string), Consumer>,
    consents: map<string, Consent>)

  /** The SHA-256 of the token's JSON form, hexadecimal. */
  type Digest = string -> string

  // ---------- answers ----------

  datatype Rejection = InstallationRemoved | InstallationTombstoned | BridgeStopped | SourceRejected
                     | GuardUnavailable | ActivityGenerationMismatch

  datatype Admission = Allowed | Refused(reason: Rejection)

  const MEMORY_TOOLS := "memory_tools"
  const DISCONNECT := "disconnect"
  const DETACH_ONLY := "consumer_detach_only"
  const COMMITTED := "committed"
  const REMOVED := "removed"

  const DEFINITIVE_SOURCE_REJECTIONS: set<string> :=
    {"release_entry_missing", "release_mode_detect_only", "release_distribution_not_accepted", "source_not_official"}

  const APPLIED_STATES: set<string> := {"applied_unverified", "verified", COMMITTED}

  const RETIREMENTS: set<string> :=
    {"superseded_by_shared_disconnect", "superseded_by_same_generation_connect", "superseded_by_same_generation_repair",
     "superseded_by_confirmed_generation", "superseded_by_disconnect"}

  function TrimLeft(s: string): string {
    if s != "" && IsWhiteSpace(s[0] as int) then TrimLeft(s[1..]) else s
  }

  function TrimRight(s: string): string {
    if s != "" && IsWhiteSpace(s[|s| - 1] as int) then TrimRight(s[..|s| - 1]) else s
  }

  function Trim(s: string): string { TrimRight(TrimLeft(s)) }

  function Trimmed(s: Option<string>): string {
    if s.None? then "" else Trim(s.value)
  }

  predicate SourceIsRejected(row: Installation) {
    row.eligibilityReason.Some? && row.eligibilityReason.value in DEFINITIVE_SOURCE_REJECTIONS
  }

  // ---------- an installation of its own ----------

  /** The run's projection was applied, or was retired by a repair of the same generation. */
  predicate IsApplied(r: Run) {
    r.state in APPLIED_STATES
    || (r.state == "cancelled" && r.failureCode == Some("superseded_by_same_generation_repair"))
  }

  predicate IsDisconnect(r: Run, installation: string) {
    r.installation == installation && r.operation == DISCONNECT
  }

  predicate Carries(r: Run, installation: string, component: string) {
    && r.installation == installation && r.operation != DISCONNECT && IsApplied(r)
    && component in r.plan.componentKeys
  }

  /** One past the last disconnect run, in any state; 0 when there is none. */
  function AfterDisconnect(runs: seq<Run>, installation: string): (n: nat)
    ensures n <= |runs|
  {
    if runs == [] then 0
    else if IsDisconnect(runs[|runs| - 1], installation) then |runs|
    else AfterDisconnect(runs[..|runs| - 1], installation)
  }

  /** The generation query: the last carrying run after the last disconnect. */
  function Generation(runs: seq<Run>, installation: string, component: string): (g: Option<Run>)
    ensures g.Some? ==> g.value in runs && Carries(g.value, installation, component)
  {
    LastCarrier(runs, AfterDisconnect(runs, installation), installation, component)
  }

  function LastCarrier(runs: seq<Run>, from: nat, installation: string, component: string): (g: Option<Run>)
    ensures g.Some? ==> g.value in runs && Carries(g.value, installation, component)
  {
    if |runs| <= from || runs == [] then None
    else if Carries(runs[|runs| - 1], installation, component) then Some(runs[|runs| - 1])
    else LastCarrier(runs[..|runs| - 1], from, installation, component)
  }

  predicate PlanBears(plan: Plan, token: string, digest: Digest) {
    plan.token == Some(token) && plan.tokenHash == Some(digest(token))
  }

  function EvaluateOwned(row: Installation, id: string, runs: seq<Run>, token: string, component: string,
                         digest: Digest): Admission {
    if row.desiredState == "unmanaged" then Allowed
    else if row.desiredState == REMOVED then Refused(InstallationRemoved)
    else if row.tombstonedAt.Some? then Refused(InstallationTombstoned)
    else if row.bridgeState == Some("stopped") then Refused(BridgeStopped)
    else if SourceIsRejected(row) then Refused(SourceRejected)
    else
      var generation := Generation(runs, id, component);
      if generation.None? || !PlanBears(generation.value.plan, token, digest) then Refused(ActivityGenerationMismatch)
      else Allowed
  }

  // ---------- a shared identity ----------

  /** Neither removed nor tombstoned; an empty tombstone text is no tombstone here. */
  predicate IsActive(row: Installation) {
    row.desiredState != REMOVED && (row.tombstonedAt.None? || row.tombstonedAt.value == "")
  }

  predicate Joined(db: Ledger, binding: Binding, member: string) {
    member in binding.members && member in db.installations
  }

  /** `getSharedAgentConsumers` throws when an active member has left the configuration domain. */
  predicate DomainHolds(db: Ledger, binding: Binding) {
    forall member | member in binding.members ::
      Joined(db, binding, member) && IsActive(db.installations[member]) ==>
        db.installations[member].domainKey == Some(binding.domainKey)
  }

  predicate IsEligible(db: Ledger, binding: Binding, member: string) {
    && Joined(db, binding, member)
    && var row := db.installations[member];
       IsActive(row) && row.agentId.Some? && row.bridgeState != Some("stopped") && !SourceIsRejected(row)
  }

  const KEPT: set<string> := {"managed", "disabled"}

  /** The member consumes the artifact for the component, under the installation's current, active consent. */
  predicate Consumes(db: Ledger, member: string, component: string, artifact: string) {
    && (member, component) in db.components && (artifact, member, component) in db.consumers
    && artifact in db.artifacts && member in db.installations
    && var part, use := db.components[(member, component)], db.consumers[(artifact, member, component)];
    && part.artifact == Some(artifact) && part.desiredState in KEPT && part.tombstonedAt.None?
    && use.state == "active" && use.tombstonedAt.None? && use.desiredState in KEPT
    && use.consent.Some? && use.consent.value in db.consents
    && db.consents[use.consent.value] == Consent(member, "active")
    && part.consent == use.consent == db.installations[member].consent
    && db.artifacts[artifact].state in {"healthy", "paused"}
  }

  /** A committed physical write to the artifact, by any member's run. */
  predicate IsPhysical(db: Ledger, k: nat, artifact: string) {
    && k < |db.writes| && db.writes[k].run < |db.runs|
    && db.writes[k].artifact == Some(artifact) && db.writes[k].state == COMMITTED
    && db.writes[k].strategy != DETACH_ONLY
  }

  /** Order of `committed_at`, in which a missing time comes first. */
  predicate TimeBefore(a: Option<int>, b: Option<int>) {
    b.Some? && (a.None? || a.value < b.value)
  }

  /** The latest physical write among the first `n` rows, by commit time and then by row. */
  function LatestWrite(db: Ledger, artifact: string, n: nat): (k: Option<nat>)
    requires n <= |db.writes|
    ensures k.Some? ==> k.value < n && IsPhysical(db, k.value, artifact)
  {
    if n == 0 then None
    else
      var before := LatestWrite(db, artifact, n - 1);
      if !IsPhysical(db, n - 1, artifact) then before
      else if before.Some? && TimeBefore(db.writes[n - 1].committedAt, db.writes[before.value].committedAt) then before
      else Some(n - 1)
  }

  predicate RunMayCarry(r: Run) {
    && r.operation != DISCONNECT
    && (r.state in APPLIED_STATES
        || (r.state == "cancelled" && r.failureCode.Some? && r.failureCode.value in RETIREMENTS))
  }

  predicate WriteBears(db: Ledger, binding: Binding, k: nat, artifact: string, token: string, digest: Digest)
    requires IsPhysical(db, k, artifact)
  {
    var write := db.writes[k];
    var run := db.runs[write.run];
    && RunMayCarry(run) && PlanBears(run.plan, token, digest)
    && write.afterHash.Some? && artifact in db.artifacts && write.afterHash == db.artifacts[artifact].ownedHash
    && Joined(db, binding, run.installation)
  }

  /** The artifact's latest physical write bears the token. */
  predicate ArtifactAdmits(db: Ledger, binding: Binding, artifact: string, token: string, digest: Digest) {
    var carrier := LatestWrite(db, artifact, |db.writes|);
    carrier.Some? && WriteBears(db, binding, carrier.value, artifact, token, digest)
  }

  predicate MemberAdmits(db: Ledger, binding: Binding, member: string, component: string, token: string,
                         digest: Digest) {
    && IsEligible(db, binding, member)
    && exists artifact | artifact in db.artifacts ::
         Consumes(db, member, component, artifact) && ArtifactAdmits(db, binding, artifact, token, digest)
  }

  function EvaluateShared(db: Ledger, binding: Binding, canonical: string, token: string, component: string,
                          digest: Digest): Admission {
    if canonical !in db.archived || db.archived[canonical] then Refused(InstallationRemoved)
    else if !exists member | member in binding.members ::
      Joined(db, binding, member) && IsActive(db.installations[member])
    then Refused(InstallationRemoved)
    else if exists member | member in binding.members :: MemberAdmits(db, binding, member, component, token, digest)
    then Allowed
    else Refused(ActivityGenerationMismatch)
  }

  // ---------- the decision ----------

  function Evaluate(db: Ledger, agentId: Option<string>, token: Option<string>, component: Option<string>,
                    digest: Digest): Admission {
    var agent, bare := Trimmed(agentId), Trimmed(token);
    var key := if component.None? then MEMORY_TOOLS else component.value;
    if agent == "" || bare == "" then Allowed
    else if agent in db.bindings then
      if !DomainHolds(db, db.bindings[agent]) then Refused(GuardUnavailable)
      else EvaluateShared(db, db.bindings[agent], agent, bare, key, digest)
    else if agent !in db.agentOwner || db.agentOwner[agent] !in db.installations then Allowed
    else EvaluateOwned(db.installations[db.agentOwner[agent]], db.agentOwner[agent], db.runs, bare, key, digest)
  }
}
