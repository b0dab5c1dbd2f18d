/**
 * What a shared identity's physical writes do to admission: the latest committed write to the
 * artifact decides, whoever made it (src/agent-bridge-guard.ts:128-166).
 */
module BridgeCarriers {
  import opened Wrappers
  import opened BridgeAdmission
  import opened BridgeRuns

  // ---------- the carrier ----------

  /** Write `k` is the artifact's physical write with the greatest commit time, the latest row among equals. */
  predicate IsCarrier(db: Ledger, artifact: string, n: nat, k: nat)
    requires n <= |db.writes|
  {
    && k < n && IsPhysical(db, k, artifact)
    && forall j | 0 <= j < n && j != k && IsPhysical(db, j, artifact) ::
         || TimeBefore(db.writes[j].committedAt, db.writes[k].committedAt)
         || (db.writes[j].committedAt == db.writes[k].committedAt && j < k)
  }

  lemma {:induction false} LatestWriteIsCarrier(db: Ledger, artifact: string, n: nat)
    requires n <= |db.writes|
    ensures var latest := LatestWrite(db, artifact, n);
      if latest.Some? then IsCarrier(db, artifact, n, latest.value)
      else forall j | 0 <= j < n :: !IsPhysical(db, j, artifact)
  {
    hide IsPhysical;
    if n > 0 {
      LatestWriteIsCarrier(db, artifact, n - 1);
    }
  }

  /** There is one carrier at most, so the query's answer is the carrier, and every carrier is its answer. */
  lemma CarrierIffLatest(db: Ledger, artifact: string, k: nat)
    ensures LatestWrite(db, artifact, |db.writes|) == Some(k) <==> IsCarrier(db, artifact, |db.writes|, k)
  {
    LatestWriteIsCarrier(db, artifact, |db.writes|);
    hide IsPhysical, LatestWrite;
  }

  /**
   * The carrier is newer than the artifact's other physical writes; a write without a time is older
   * than any with one.
   */
  lemma CarrierIsNewest(db: Ledger, artifact: string, k: nat, j: nat)
    requires IsCarrier(db, artifact, |db.writes|, k) && j < |db.writes| && j != k && IsPhysical(db, j, artifact)
    ensures var a, b := db.writes[j].committedAt, db.writes[k].committedAt;
      if a.None? then b.Some? || j < k
      else b.Some? && (a.value < b.value || (a.value == b.value && j < k))
  {
  }

  /** An artifact admits one token at most; two admitted tokens live on two artifacts. */
  lemma OneTokenPerArtifact(db: Ledger, binding: Binding, artifact: string, t: string, u: string, digest: Digest)
    requires ArtifactAdmits(db, binding, artifact, t, digest) && ArtifactAdmits(db, binding, artifact, u, digest)
    ensures t == u
  {
  }

  /** When every eligible member consumes the same artifact, the identity admits one token at most. */
  lemma OneArtifactOneToken(db: Ledger, binding: Binding, canonical: string, component: string, artifact: string,
                            t: string, u: string, digest: Digest)
    requires forall member, other | member in binding.members && other in db.artifacts ::
      IsEligible(db, binding, member) && Consumes(db, member, component, other) ==> other == artifact
    requires EvaluateShared(db, binding, canonical, t, component, digest) == Allowed
    requires EvaluateShared(db, binding, canonical, u, component, digest) == Allowed
    ensures t == u
  {
    hide IsEligible, Consumes, ArtifactAdmits;
    var m :| m in binding.members && MemberAdmits(db, binding, m, component, t, digest);
    var n :| n in binding.members && MemberAdmits(db, binding, n, component, u, digest);
    OneTokenPerArtifact(db, binding, artifact, t, u, digest);
  }

  // ---------- what admits a token ----------

  /** The member has a live row of its own, under the consent. */
  predicate MemberServes(db: Ledger, binding: Binding, member: string, consent: Option<string>) {
    && member in binding.members && member in db.installations
    && var row := db.installations[member];
       && row.desiredState != "removed" && (row.tombstonedAt.None? || row.tombstonedAt.value == "")
       && row.agentId.Some? && row.bridgeState != Some("stopped")
       && (row.eligibilityReason.Some? ==> row.eligibilityReason.value !in {"release_entry_missing",
             "release_mode_detect_only", "release_distribution_not_accepted", "source_not_official"})
       && row.consent == consent && consent.Some? && consent.value in db.consents
       && db.consents[consent.value].installation == member && db.consents[consent.value].status == "active"
  }

  /** The member's component is the artifact, consumed under the consent. */
  predicate MemberConsumes(db: Ledger, member: string, component: string, artifact: string, consent: Option<string>) {
    && (member, component) in db.components && (artifact, member, component) in db.consumers && artifact in db.artifacts
    && var part, use := db.components[(member, component)], db.consumers[(artifact, member, component)];
       && part.artifact == Some(artifact) && part.consent == consent && part.tombstonedAt.None?
       && (part.desiredState == "managed" || part.desiredState == "disabled")
       && use.consent == consent && use.tombstonedAt.None? && use.state == "active"
       && (use.desiredState == "managed" || use.desiredState == "disabled")
       && (db.artifacts[artifact].state == "healthy" || db.artifacts[artifact].state == "paused")
  }

  /** The run's configuration is still there: it is in place, or was retired in one of the ways that leave it. */
  predicate LeavesConfiguration(r: Run) {
    && r.operation != "disconnect"
    && (|| r.state == "applied_unverified" || r.state == "verified" || r.state == "committed"
        || (r.state == "cancelled"
            && (|| r.failureCode == Some("superseded_by_shared_disconnect")
                || r.failureCode == Some("superseded_by_same_generation_connect")
                || r.failureCode == Some("superseded_by_same_generation_repair")
                || r.failureCode == Some("superseded_by_confirmed_generation")
                || r.failureCode == Some("superseded_by_disconnect"))))
  }

  /** Write `k` is the artifact's carrier, its content is what is there, and its run bears the token. */
  predicate CarrierBears(db: Ledger, binding: Binding, artifact: string, k: nat, token: string, digest: Digest) {
    && IsCarrier(db, artifact, |db.writes|, k)
    && var run := db.runs[db.writes[k].run];
       && artifact in db.artifacts && db.writes[k].afterHash.Some?
       && db.writes[k].afterHash == db.artifacts[artifact].ownedHash
       && LeavesConfiguration(run) && run.installation in binding.members && run.installation in db.installations
       && run.plan.token == Some(token) && run.plan.tokenHash == Some(digest(token))
  }

  lemma ArtifactAdmitsIff(db: Ledger, binding: Binding, artifact: string, token: string, digest: Digest)
    ensures ArtifactAdmits(db, binding, artifact, token, digest)
      <==> exists k: nat :: CarrierBears(db, binding, artifact, k, token, digest)
  {
    hide IsCarrier, LatestWrite, RunMayCarry, LeavesConfiguration;
    var latest := LatestWrite(db, artifact, |db.writes|);
    forall k: nat | k < |db.writes| ensures latest == Some(k) <==> IsCarrier(db, artifact, |db.writes|, k) {
      CarrierIffLatest(db, artifact, k);
    }
    CarriersAreWrites(db, artifact);
    forall r: Run ensures RunMayCarry(r) <==> LeavesConfiguration(r) { CarryIff(r); }
    if latest.Some? && ArtifactAdmits(db, binding, artifact, token, digest) {
      assert CarrierBears(db, binding, artifact, latest.value, token, digest);
    }
  }

  lemma CarriersAreWrites(db: Ledger, artifact: string)
    ensures forall k: nat | IsCarrier(db, artifact, |db.writes|, k) :: k < |db.writes| && IsPhysical(db, k, artifact)
  {
  }

  lemma CarryIff(r: Run)
    ensures RunMayCarry(r) <==> LeavesConfiguration(r)
  {
  }

  lemma MemberIff(db: Ledger, binding: Binding, member: string, component: string, artifact: string)
    ensures IsEligible(db, binding, member) && Consumes(db, member, component, artifact)
      <==> exists consent ::
             MemberServes(db, binding, member, consent) && MemberConsumes(db, member, component, artifact, consent)
  {
    if IsEligible(db, binding, member) && Consumes(db, member, component, artifact) {
      var consent := db.installations[member].consent;
      assert MemberServes(db, binding, member, consent) && MemberConsumes(db, member, component, artifact, consent);
    }
  }

  /** Exactly when a shared identity admits a token, in the terms of the tables. */
  lemma SharedAdmissionIff(db: Ledger, binding: Binding, canonical: string, token: string, component: string,
                           digest: Digest)
    ensures EvaluateShared(db, binding, canonical, token, component, digest) == Allowed <==>
      && canonical in db.archived && !db.archived[canonical]
      && exists member, artifact, consent, k: nat ::
           && MemberServes(db, binding, member, consent) && MemberConsumes(db, member, component, artifact, consent)
           && CarrierBears(db, binding, artifact, k, token, digest)
  {
    hide IsEligible, Consumes, ArtifactAdmits, MemberServes, MemberConsumes, CarrierBears;
    AllowedIff(db, binding, canonical, token, component, digest);
    forall member, artifact
      ensures IsEligible(db, binding, member) && Consumes(db, member, component, artifact) <==> exists consent ::
        MemberServes(db, binding, member, consent) && MemberConsumes(db, member, component, artifact, consent)
    {
      MemberIff(db, binding, member, component, artifact);
    }
    forall artifact
      ensures ArtifactAdmits(db, binding, artifact, token, digest)
        <==> exists k: nat :: CarrierBears(db, binding, artifact, k, token, digest)
    {
      ArtifactAdmitsIff(db, binding, artifact, token, digest);
    }
    ServingIsReachable(db, binding);
    ConsumedIsThere(db);
    if EvaluateShared(db, binding, canonical, token, component, digest) == Allowed {
      var m, a :| m in binding.members && a in db.artifacts && IsEligible(db, binding, m)
        && Consumes(db, m, component, a) && ArtifactAdmits(db, binding, a, token, digest);
      var consent :| MemberServes(db, binding, m, consent) && MemberConsumes(db, m, component, a, consent);
      var k: nat :| CarrierBears(db, binding, a, k, token, digest);
    }
    if member, artifact, consent, k: nat :|
      && MemberServes(db, binding, member, consent) && MemberConsumes(db, member, component, artifact, consent)
      && CarrierBears(db, binding, artifact, k, token, digest)
    {
      assert IsEligible(db, binding, member) && Consumes(db, member, component, artifact);
      assert ArtifactAdmits(db, binding, artifact, token, digest);
    }
  }

  lemma ServingIsReachable(db: Ledger, binding: Binding)
    ensures forall member, consent | MemberServes(db, binding, member, consent) ::
      member in binding.members && Joined(db, binding, member) && IsActive(db.installations[member])
  {
  }

  lemma ConsumedIsThere(db: Ledger)
    ensures forall member, component, artifact, consent | MemberConsumes(db, member, component, artifact, consent) ::
      artifact in db.artifacts
  {
  }

  /** What was written by a run that was only prepared, failed, or was cancelled in any other way admits no token. */
  lemma PreviewCarriesNothing(db: Ledger, binding: Binding, artifact: string, k: nat, token: string, digest: Digest)
    requires IsCarrier(db, artifact, |db.writes|, k)
    requires var r := db.runs[db.writes[k].run];
      || r.operation == "disconnect"
      || r.state in {"planned", "preconditions_checked", "applying", "compensating", "needs_recovery", "failed"}
      || (r.state == "cancelled" && (r.failureCode.Some? ==> r.failureCode.value !in {"superseded_by_shared_disconnect",
            "superseded_by_same_generation_connect", "superseded_by_same_generation_repair",
            "superseded_by_confirmed_generation", "superseded_by_disconnect"}))
    ensures !ArtifactAdmits(db, binding, artifact, token, digest)
  {
    StateNamesDiffer();
    CarrierIffLatest(db, artifact, k);
    CarryIff(db.runs[db.writes[k].run]);
    hide LatestWrite, IsCarrier, RunMayCarry;
  }

  // ---------- one more write ----------

  function WithWrite(db: Ledger, w: PhysicalWrite): Ledger {
    db.(writes := db.writes + [w])
  }

  /** A committed write that reached the artifact's configuration. */
  predicate Reaches(db: Ledger, w: PhysicalWrite, artifact: string) {
    w.run < |db.runs| && w.artifact == Some(artifact) && w.state == COMMITTED && w.strategy != DETACH_ONLY
  }

  /** The write is no earlier than the artifact's own physical writes. */
  predicate IsLatest(db: Ledger, w: PhysicalWrite, artifact: string) {
    forall k | 0 <= k < |db.writes| && IsPhysical(db, k, artifact) ::
      !TimeBefore(w.committedAt, db.writes[k].committedAt)
  }

  /** The write becomes the artifact's carrier. */
  predicate Decides(db: Ledger, w: PhysicalWrite, artifact: string) {
    Reaches(db, w, artifact) && IsLatest(db, w, artifact)
  }

  lemma {:induction false} EarlierWritesStand(db: Ledger, w: PhysicalWrite, artifact: string, n: nat)
    requires n <= |db.writes|
    ensures LatestWrite(WithWrite(db, w), artifact, n) == LatestWrite(db, artifact, n)
  {
    if n > 0 { EarlierWritesStand(db, w, artifact, n - 1); }
  }

  /** The new row is the carrier exactly when it decides, wherever its time lies among the other artifacts' rows. */
  lemma AppendedWrite(db: Ledger, w: PhysicalWrite, artifact: string)
    ensures LatestWrite(WithWrite(db, w), artifact, |db.writes| + 1)
      == if Decides(db, w, artifact) then Some(|db.writes|) else LatestWrite(db, artifact, |db.writes|)
  {
    EarlierWritesStand(db, w, artifact, |db.writes|);
    LatestWriteIsCarrier(db, artifact, |db.writes|);
    assert IsPhysical(WithWrite(db, w), |db.writes|, artifact) == Reaches(db, w, artifact);
    hide IsPhysical, Reaches;
  }

  /** The new write bears the token for the artifact it reached. */
  predicate NewWriteBears(db: Ledger, binding: Binding, w: PhysicalWrite, artifact: string, token: string,
                          digest: Digest) {
    && w.run < |db.runs| && RunMayCarry(db.runs[w.run]) && PlanBears(db.runs[w.run].plan, token, digest)
    && w.afterHash.Some? && artifact in db.artifacts && w.afterHash == db.artifacts[artifact].ownedHash
    && Joined(db, binding, db.runs[w.run].installation)
  }

  /** The exact effect of one write on one artifact. */
  lemma ArtifactAfterWrite(db: Ledger, binding: Binding, w: PhysicalWrite, artifact: string, token: string,
                           digest: Digest)
    ensures ArtifactAdmits(WithWrite(db, w), binding, artifact, token, digest)
      == if Decides(db, w, artifact) then NewWriteBears(db, binding, w, artifact, token, digest)
         else ArtifactAdmits(db, binding, artifact, token, digest)
  {
    AppendedWrite(db, w, artifact);
    hide LatestWrite, RunMayCarry, PlanBears;
  }

  lemma MembersStand(db: Ledger, w: PhysicalWrite, binding: Binding, member: string, component: string,
                     artifact: string)
    ensures IsEligible(WithWrite(db, w), binding, member) == IsEligible(db, binding, member)
    ensures Consumes(WithWrite(db, w), member, component, artifact) == Consumes(db, member, component, artifact)
  {
  }

  /** An eligible member whose artifact, other than `changed`, admits the token. */
  predicate AdmitsElsewhere(db: Ledger, binding: Binding, component: string, changed: string, token: string,
                            digest: Digest) {
    exists member, artifact | member in binding.members && artifact in db.artifacts ::
      && IsEligible(db, binding, member) && artifact != changed
      && Consumes(db, member, component, artifact) && ArtifactAdmits(db, binding, artifact, token, digest)
  }

  predicate HasConsumer(db: Ledger, binding: Binding, component: string, artifact: string) {
    artifact in db.artifacts
    && exists member | member in binding.members ::
         IsEligible(db, binding, member) && Consumes(db, member, component, artifact)
  }

  predicate IsReachable(db: Ledger, binding: Binding, canonical: string) {
    && canonical in db.archived && !db.archived[canonical]
    && exists member | member in binding.members :: Joined(db, binding, member) && IsActive(db.installations[member])
  }

  /**
   * A newer write to an artifact, by whichever member, decides for every member that consumes it: a token
   * is admitted afterwards exactly when the new write bears it and someone eligible consumes the artifact,
   * or when some other artifact admitted it already.
   */
  lemma NewerWriteDecides(db: Ledger, binding: Binding, canonical: string, w: PhysicalWrite, changed: string,
                          component: string, token: string, digest: Digest)
    requires Decides(db, w, changed)
    ensures EvaluateShared(WithWrite(db, w), binding, canonical, token, component, digest) == Allowed <==>
      && IsReachable(db, binding, canonical)
      && (|| (HasConsumer(db, binding, component, changed) && NewWriteBears(db, binding, w, changed, token, digest))
          || AdmitsElsewhere(db, binding, component, changed, token, digest))
  {
    hide IsEligible, Consumes, ArtifactAdmits, NewWriteBears;
    var after := WithWrite(db, w);
    forall member, artifact
      ensures IsEligible(after, binding, member) == IsEligible(db, binding, member)
      ensures Consumes(after, member, component, artifact) == Consumes(db, member, component, artifact)
    {
      MembersStand(db, w, binding, member, component, artifact);
    }
    forall artifact
      ensures ArtifactAdmits(after, binding, artifact, token, digest)
        == if artifact == changed then NewWriteBears(db, binding, w, changed, token, digest)
           else ArtifactAdmits(db, binding, artifact, token, digest)
    {
      ArtifactAfterWrite(db, binding, w, artifact, token, digest);
    }
    AllowedIff(after, binding, canonical, token, component, digest);
  }

  lemma AllowedIff(db: Ledger, binding: Binding, canonical: string, token: string, component: string, digest: Digest)
    ensures EvaluateShared(db, binding, canonical, token, component, digest) == Allowed <==>
      && IsReachable(db, binding, canonical)
      && exists member, artifact | member in binding.members && artifact in db.artifacts ::
           && IsEligible(db, binding, member)
           && Consumes(db, member, component, artifact) && ArtifactAdmits(db, binding, artifact, token, digest)
  {
    hide IsEligible, Consumes, ArtifactAdmits;
    if EvaluateShared(db, binding, canonical, token, component, digest) == Allowed {
      var m :| m in binding.members && MemberAdmits(db, binding, m, component, token, digest);
    }
    if exists member, artifact | member in binding.members && artifact in db.artifacts ::
      && IsEligible(db, binding, member)
      && Consumes(db, member, component, artifact) && ArtifactAdmits(db, binding, artifact, token, digest)
    {
      var m, a :| m in binding.members && a in db.artifacts && IsEligible(db, binding, m)
        && Consumes(db, m, component, a) && ArtifactAdmits(db, binding, a, token, digest);
      assert MemberAdmits(db, binding, m, component, token, digest);
    }
  }

  /** So an older token lives on only through another artifact that bears it: the exact exception to revocation. */
  lemma OlderTokenSurvivesIff(db: Ledger, binding: Binding, canonical: string, w: PhysicalWrite, changed: string,
                              component: string, token: string, digest: Digest)
    requires Decides(db, w, changed) && db.runs[w.run].plan.token != Some(token)
    ensures EvaluateShared(WithWrite(db, w), binding, canonical, token, component, digest) == Allowed
      <==> IsReachable(db, binding, canonical) && AdmitsElsewhere(db, binding, component, changed, token, digest)
  {
    hide IsReachable, AdmitsElsewhere, HasConsumer;
    NewerWriteDecides(db, binding, canonical, w, changed, component, token, digest);
  }

  // ---------- an older token that survives ----------

  /** Two members of one identity, each with its own artifact; run 0 wrote both, run 1 bears the newer token. */
  function TwoArtifacts(digest: Digest): Ledger {
    var row := agent => Installation(Some(agent), "managed", None, None, None, Some("domain"), Some(agent));
    var plan := token => Plan(Some(token), Some(digest(token)), {MEMORY_TOOLS});
    Ledger(
      map["left" := row("left"), "right" := row("right")], map["left" := "left", "right" := "right"],
        map["left" := false],
      map["left" := Binding("domain", {"left", "right"})],
      [Run("left", "connect", COMMITTED, None, plan("old")), Run("left", "connect", COMMITTED, None, plan("new"))],
      [PhysicalWrite(Some("a"), 0, COMMITTED, "replace", Some(1), Some("content")),
       PhysicalWrite(Some("b"), 0, COMMITTED, "replace", Some(1), Some("content"))],
      map["a" := Artifact("healthy", Some("content")), "b" := Artifact("healthy", Some("content"))],
      map[("left", MEMORY_TOOLS) := Component(Some("a"), "managed", None, Some("left")),
          ("right", MEMORY_TOOLS) := Component(Some("b"), "managed", None, Some("right"))],
      map[("a", "left", MEMORY_TOOLS) := Consumer("active", "managed", None, Some("left")),
          ("b", "right", MEMORY_TOOLS) := Consumer("active", "managed", None, Some("right"))],
      map["left" := Consent("left", "active"), "right" := Consent("right", "active")])
  }

  /** A newer write to one artifact, and the older token is still admitted, through the other. */
  lemma OlderTokenCanSurvive(digest: Digest)
    ensures var db := TwoArtifacts(digest); var binding := Binding("domain", {"left", "right"});
      var w := PhysicalWrite(Some("a"), 1, COMMITTED, "replace", Some(2), Some("content"));
      && Decides(db, w, "a")
      && EvaluateShared(WithWrite(db, w), binding, "left", "new", MEMORY_TOOLS, digest) == Allowed
      && EvaluateShared(WithWrite(db, w), binding, "left", "old", MEMORY_TOOLS, digest) == Allowed
  {
    hide EvaluateShared, LatestWrite, AdmitsElsewhere, HasConsumer, IsReachable, NewWriteBears, IsEligible, Consumes,
      WithWrite;
    var db, binding := TwoArtifacts(digest), Binding("domain", {"left", "right"});
    var w := PhysicalWrite(Some("a"), 1, COMMITTED, "replace", Some(2), Some("content"));
    BothMembersConsume(digest);
    OldTokenBears(digest);
    NewerWriteDecides(db, binding, "left", w, "a", MEMORY_TOOLS, "new", digest);
    NewerWriteDecides(db, binding, "left", w, "a", MEMORY_TOOLS, "old", digest);
  }

  lemma BothMembersConsume(digest: Digest)
    ensures var db := TwoArtifacts(digest); var binding := Binding("domain", {"left", "right"});
      && IsEligible(db, binding, "left") && IsEligible(db, binding, "right") && IsReachable(db, binding, "left")
      && Consumes(db, "left", MEMORY_TOOLS, "a") && Consumes(db, "right", MEMORY_TOOLS, "b")
      && HasConsumer(db, binding, MEMORY_TOOLS, "a")
  {
    var db, binding := TwoArtifacts(digest), Binding("domain", {"left", "right"});
    assert IsEligible(db, binding, "left") && IsEligible(db, binding, "right");
    assert Consumes(db, "left", MEMORY_TOOLS, "a") && Consumes(db, "right", MEMORY_TOOLS, "b");
    assert Joined(db, binding, "left") && IsActive(db.installations["left"]);
  }

  lemma OldTokenBears(digest: Digest)
    ensures var db := TwoArtifacts(digest); var binding := Binding("domain", {"left", "right"});
      var w := PhysicalWrite(Some("a"), 1, COMMITTED, "replace", Some(2), Some("content"));
      && ArtifactAdmits(db, binding, "b", "old", digest)
      && AdmitsElsewhere(db, binding, MEMORY_TOOLS, "a", "old", digest)
      && NewWriteBears(db, binding, w, "a", "new", digest)
  {
    hide IsEligible, Consumes;
    var db, binding := TwoArtifacts(digest), Binding("domain", {"left", "right"});
    BothMembersConsume(digest);
    assert IsPhysical(db, 1, "b") && !IsPhysical(db, 0, "b");
    assert LatestWrite(db, "b", 2) == Some(1);
    assert ArtifactAdmits(db, binding, "b", "old", digest);
  }

  /** A write that does not become a carrier changes no answer at all. */
  lemma UndecidingChangesNothing(db: Ledger, w: PhysicalWrite, agent: Option<string>, token: Option<string>,
                                 component: Option<string>, digest: Digest)
    requires forall artifact :: !Decides(db, w, artifact)
    ensures Evaluate(WithWrite(db, w), agent, token, component, digest) == Evaluate(db, agent, token, component, digest)
  {
    var id, after := Trimmed(agent), WithWrite(db, w);
    if id in db.bindings {
      var key := if component.None? then MEMORY_TOOLS else component.value;
      SharedStands(db, db.bindings[id], id, w, Trimmed(token), key, digest);
      hide EvaluateShared;
      assert DomainHolds(after, db.bindings[id]) == DomainHolds(db, db.bindings[id]);
    }
  }

  /** Detaching a consumer, and any write that is not committed, changes no answer at all. */
  lemma DetachChangesNothing(db: Ledger, w: PhysicalWrite, agent: Option<string>, token: Option<string>,
                             component: Option<string>, digest: Digest)
    requires w.strategy == DETACH_ONLY || w.state != COMMITTED
    ensures Evaluate(WithWrite(db, w), agent, token, component, digest) == Evaluate(db, agent, token, component, digest)
  {
    UndecidingChangesNothing(db, w, agent, token, component, digest);
  }

  /** A write recorded after a physical write to its artifact, but with an earlier time, changes no answer at all. */
  lemma BackdatedWriteChangesNothing(db: Ledger, w: PhysicalWrite, k: nat, agent: Option<string>, token: Option<string>,
                                     component: Option<string>, digest: Digest)
    requires w.artifact.Some? && IsPhysical(db, k, w.artifact.value)
    requires TimeBefore(w.committedAt, db.writes[k].committedAt)
    ensures Evaluate(WithWrite(db, w), agent, token, component, digest) == Evaluate(db, agent, token, component, digest)
  {
    UndecidingChangesNothing(db, w, agent, token, component, digest);
  }

  lemma SharedStands(db: Ledger, binding: Binding, canonical: string, w: PhysicalWrite, token: string,
                     component: string, digest: Digest)
    requires forall artifact :: !Decides(db, w, artifact)
    ensures EvaluateShared(WithWrite(db, w), binding, canonical, token, component, digest)
      == EvaluateShared(db, binding, canonical, token, component, digest)
  {
    var after := WithWrite(db, w);
    forall member ensures MemberAdmits(after, binding, member, component, token, digest)
      == MemberAdmits(db, binding, member, component, token, digest)
    {
      forall artifact
        ensures Consumes(after, member, component, artifact) == Consumes(db, member, component, artifact)
        ensures ArtifactAdmits(after, binding, artifact, token, digest)
          == ArtifactAdmits(db, binding, artifact, token, digest)
      {
        MembersStand(db, w, binding, member, component, artifact);
        ArtifactAfterWrite(db, binding, w, artifact, token, digest);
      }
      hide ArtifactAdmits, Consumes, IsEligible;
      MembersStand(db, w, binding, member, component, "");
    }
    hide MemberAdmits;
  }

  // ---------- a member leaves ----------

  /** The member is removed or tombstoned, and its own components and consumer rows may change in any way. */
  ghost predicate Leaves(db: Ledger, after: Ledger, member: string) {
    && member in db.installations && after.installations.Keys == db.installations.Keys
    && !IsActive(after.installations[member])
    && (forall id | id in db.installations && id != member :: after.installations[id] == db.installations[id])
    && (forall id, component | id != member ::
        Row(after.components, (id, component)) == Row(db.components, (id, component)))
    && (forall a, id, component | id != member ::
          Row(after.consumers, (a, id, component)) == Row(db.consumers, (a, id, component)))
    && after.(installations := db.installations, components := db.components, consumers := db.consumers) == db
  }

  function Row<K, V>(m: map<K, V>, key: K): Option<V> {
    if key in m then Some(m[key]) else None
  }

  lemma OthersStand(db: Ledger, after: Ledger, binding: Binding, gone: string, member: string, component: string,
                    artifact: string)
    requires Leaves(db, after, gone) && member != gone
    ensures IsEligible(after, binding, member) == IsEligible(db, binding, member)
    ensures Consumes(after, member, component, artifact) == Consumes(db, member, component, artifact)
  {
    assert Row(after.components, (member, component)) == Row(db.components, (member, component));
    assert Row(after.consumers, (artifact, member, component)) == Row(db.consumers, (artifact, member, component));
  }

  lemma {:induction false} LatestWriteIsShared(db: Ledger, after: Ledger, artifact: string, n: nat)
    requires after.writes == db.writes && after.runs == db.runs && n <= |db.writes|
    ensures LatestWrite(after, artifact, n) == LatestWrite(db, artifact, n)
  {
    if n > 0 { LatestWriteIsShared(db, after, artifact, n - 1); }
  }

  lemma CarriersStand(db: Ledger, after: Ledger, binding: Binding, gone: string, artifact: string, token: string,
                      digest: Digest)
    requires Leaves(db, after, gone)
    ensures ArtifactAdmits(after, binding, artifact, token, digest)
      == ArtifactAdmits(db, binding, artifact, token, digest)
  {
    LatestWriteIsShared(db, after, artifact, |db.writes|);
    hide LatestWrite, RunMayCarry, PlanBears;
    assert forall id :: Joined(after, binding, id) == Joined(db, binding, id);
  }

  /**
   * After a member leaves, a token is admitted exactly when another member admitted it before, even if
   * the leaver wrote it.
   */
  lemma LeavingIsExact(db: Ledger, after: Ledger, binding: Binding, canonical: string, gone: string,
                       component: string, token: string, digest: Digest)
    requires Leaves(db, after, gone)
    ensures EvaluateShared(after, binding, canonical, token, component, digest) == Allowed <==>
      && canonical in db.archived && !db.archived[canonical]
      && exists other | other in binding.members ::
           other != gone && MemberAdmits(db, binding, other, component, token, digest)
  {
    forall other | other != gone
      ensures MemberAdmits(after, binding, other, component, token, digest)
        == MemberAdmits(db, binding, other, component, token, digest)
    {
      OthersAdmitAlike(db, after, binding, gone, other, component, token, digest);
    }
    GoneAdmitsNothing(db, after, binding, gone, component, token, digest);
    forall other ensures MemberAdmits(after, binding, other, component, token, digest) ==>
      Joined(after, binding, other) && IsActive(after.installations[other]) {}
    hide MemberAdmits;
  }

  lemma GoneAdmitsNothing(db: Ledger, after: Ledger, binding: Binding, gone: string, component: string, token: string,
                          digest: Digest)
    requires Leaves(db, after, gone)
    ensures !MemberAdmits(after, binding, gone, component, token, digest)
  {
  }

  lemma OthersAdmitAlike(db: Ledger, after: Ledger, binding: Binding, gone: string, other: string,
                         component: string, token: string, digest: Digest)
    requires Leaves(db, after, gone) && other != gone
    ensures MemberAdmits(after, binding, other, component, token, digest)
      == MemberAdmits(db, binding, other, component, token, digest)
  {
    OthersStand(db, after, binding, gone, other, component, "");
    forall artifact
      ensures Consumes(after, other, component, artifact) == Consumes(db, other, component, artifact)
      ensures ArtifactAdmits(after, binding, artifact, token, digest)
        == ArtifactAdmits(db, binding, artifact, token, digest)
    {
      OthersStand(db, after, binding, gone, other, component, artifact);
      CarriersStand(db, after, binding, gone, artifact, token, digest);
    }
    hide IsEligible, Consumes, ArtifactAdmits, Leaves;
    assert after.artifacts == db.artifacts by { ArtifactsStand(db, after, gone); }
  }

  lemma ArtifactsStand(db: Ledger, after: Ledger, gone: string)
    requires Leaves(db, after, gone)
    ensures after.artifacts == db.artifacts
  {
  }

  /** The token stays admitted while another eligible member consumes the artifact that bears it. */
  lemma SharedTokenOutlivesLeaver(db: Ledger, after: Ledger, binding: Binding, canonical: string, gone: string,
                                  other: string,
                                  artifact: string, component: string, token: string, digest: Digest)
    requires Leaves(db, after, gone) && other != gone && canonical in db.archived && !db.archived[canonical]
    requires IsEligible(db, binding, other) && Consumes(db, other, component, artifact)
    requires ArtifactAdmits(db, binding, artifact, token, digest)
    ensures EvaluateShared(after, binding, canonical, token, component, digest) == Allowed
  {
    LeavingIsExact(db, after, binding, canonical, gone, component, token, digest);
    assert MemberAdmits(db, binding, other, component, token, digest);
  }

  /**
   * What an admission of a shared identity rests on: an active member, its own active consent, its healthy
   * or paused artifact as last written, and a run that was not a disconnect and bears token and digest.
   */
  lemma AdmissionRestsOn(db: Ledger, agent: Option<string>, token: Option<string>, component: string, digest: Digest)
      returns (member: string, artifact: string, k: nat)
    requires Trimmed(agent) in db.bindings && Trimmed(agent) != "" && Trimmed(token) != ""
    requires Evaluate(db, agent, token, Some(component), digest) == Allowed
    ensures Trimmed(agent) in db.archived && !db.archived[Trimmed(agent)]
    ensures member in db.bindings[Trimmed(agent)].members && member in db.installations
    ensures var row := db.installations[member];
      && row.desiredState != REMOVED && row.bridgeState != Some("stopped")
      && row.domainKey == Some(db.bindings[Trimmed(agent)].domainKey)
      && row.consent.Some? && row.consent.value in db.consents
      && db.consents[row.consent.value] == Consent(member, "active")
    ensures (member, component) in db.components && db.components[(member, component)].artifact == Some(artifact)
    ensures artifact in db.artifacts && db.artifacts[artifact].state in {"healthy", "paused"}
    ensures IsCarrier(db, artifact, |db.writes|, k) && db.writes[k].afterHash == db.artifacts[artifact].ownedHash
    ensures var run := db.runs[db.writes[k].run];
      && run.operation != DISCONNECT && run.installation in db.bindings[Trimmed(agent)].members
      && run.plan.token == Some(Trimmed(token)) && run.plan.tokenHash == Some(digest(Trimmed(token)))
  {
    hide LatestWrite, Trimmed;
    var binding := db.bindings[Trimmed(agent)];
    member :| member in binding.members && MemberAdmits(db, binding, member, component, Trimmed(token), digest);
    artifact :| artifact in db.artifacts && Consumes(db, member, component, artifact)
      && ArtifactAdmits(db, binding, artifact, Trimmed(token), digest);
    k := LatestWrite(db, artifact, |db.writes|).value;
    LatestWriteIsCarrier(db, artifact, |db.writes|);
  }
}
