/**
 * The tables that the verification-evidence repair reads and rewrites
 * (src/db/agent-integration-schema.ts:31-63, 778-893, 1049-1270).
 */
module EvidenceTables {
  import opened Wrappers

  datatype ComponentKey = Instruction | MemoryTools | Lifecycle | OtherComponent(name: string)

  datatype RunState = VerifiedRun | CancelledRun | OtherState(name: string)

  /** `planKeys` is the parsed `componentKeys` of the prepared plan, when it parses to an array of strings. */
  datatype Run = Run(installation: Option<string>, operation: string, consent: Option<string>,
                     planKeys: Option<seq<ComponentKey>>, state: RunState, failureCode: Option<string>,
                     failureStage: Option<string>, completedAt: Option<int>, updatedAt: int)

  datatype Provenance = Provenance(family: string, hostVariant: string, adapterVersion: string, catalogVersion: string,
                                   manifestVersion: string, method_: string, evidenceHash: string,
                                   verifiedAt: string, createdAt: string)

  datatype EvidenceResult = VerifiedResult | FailedResult

  /** `citesHostActivity` stands for the two LIKE tests on `method` and `evidence_ref`. */
  datatype Evidence = Evidence(runId: Option<string>, installation: string, component: ComponentKey,
                               provenance: Provenance, identityAssertion: Option<string>, citesHostActivity: bool,
                               result: EvidenceResult, invalidatedAt: Option<int>, invalidationReason: Option<string>)

  datatype Component = Component(desired: string, status: string, resultId: Option<string>,
                                 artifact: Option<string>, tombstoned: bool, consent: Option<string>)

  datatype Installation = Installation(desired: string, tombstoned: bool, health: string, statusReason: Option<string>,
                                       reconcile: string, consent: Option<string>, agentId: Option<string>,
                                       resultId: Option<string>, hostVariant: string,
                                       capability: int, summary: string, updatedAt: int)

  datatype Consent = Consent(installation: string, status: string)

  datatype Mutation = Mutation(run: string, component: Option<ComponentKey>, installation: Option<string>,
                               artifact: Option<string>, strategy: string, state: string)

  datatype Consumer = Consumer(artifact: string, installation: string, component: ComponentKey, state: string,
                               desired: string, tombstoned: bool, consent: Option<string>)

  /** The tables that the pass only reads. */
  datatype Ledger = Ledger(consents: map<string, Consent>, mutations: seq<Mutation>, consumers: seq<Consumer>,
                           artifacts: map<string, string>)

  /** The tables that the pass rewrites. */
  datatype Tables = Tables(runs: map<string, Run>, evidence: map<string, Evidence>,
                           components: map<(string, ComponentKey), Component>, installations: map<string, Installation>)

  /** An identifier that JavaScript treats as present: neither null nor empty. */
  predicate Present(id: Option<string>) {
    id.Some? && id.value != ""
  }

  // ---------- the evidence-free detach finalizer ----------

  predicate DetachedComponent(t: Tables, installation: string, key: ComponentKey, artifact: string, consent: string) {
    (installation, key) in t.components &&
    var c := t.components[(installation, key)];
    c.artifact == Some(artifact) && c.desired == "removed" && c.tombstoned && c.consent == Some(consent)
  }

  predicate ExactConsumer(t: Tables, g: Ledger, m: Mutation, consent: string) {
    exists k | 0 <= k < |g.consumers| ::
      var c := g.consumers[k];
      && m.artifact == Some(c.artifact) && m.installation == Some(c.installation) && m.component == Some(c.component)
      && c.state == "removal_pending" && c.desired == "removal_pending" && c.tombstoned && c.consent == Some(consent)
      && DetachedComponent(t, c.installation, c.component, c.artifact, consent)
      && c.artifact in g.artifacts && g.artifacts[c.artifact] in {"healthy", "removal_pending"}
  }

  predicate DetachMutation(t: Tables, g: Ledger, m: Mutation, keys: seq<ComponentKey>, installation: string,
                           consent: string) {
    && m.component.Some? && m.component.value in keys && m.installation == Some(installation) && m.artifact.Some?
    && m.strategy == "consumer_detach_only" && m.state == "committed"
    && ExactConsumer(t, g, m, consent)
  }

  predicate UnboundPendingConsumer(t: Tables, g: Ledger, id: string, keys: seq<ComponentKey>, installation: string,
                                   consent: string) {
    exists k | 0 <= k < |g.consumers| ::
      var c := g.consumers[k];
      && c.installation == installation && c.component in keys && c.state == "removal_pending"
      && (c.desired != "removal_pending" || !c.tombstoned || c.consent != Some(consent)
          || !DetachedComponent(t, installation, c.component, c.artifact, consent)
          || !exists j | 0 <= j < |g.mutations| ::
               var m := g.mutations[j];
               && m.run == id && m.installation == Some(installation) && m.component == Some(c.component)
               && m.artifact == Some(c.artifact) && m.strategy == "consumer_detach_only" && m.state == "committed")
  }

  predicate CurrentlyRemoved(t: Tables, g: Ledger, installation: string, consent: string) {
    && installation in t.installations && consent in g.consents
    && var i := t.installations[installation];
       && i.consent == Some(consent)
       && g.consents[consent] == Consent(installation, "active")
       && i.agentId.Some? && i.desired == "removed" && i.tombstoned && i.health == "discovered"
       && i.statusReason != Some("conflict")
  }

  /** A verified disconnect run that needs no evidence: its plan is exactly the detachments it committed. */
  predicate EvidenceFreeDetachFinalizer(t: Tables, g: Ledger, id: string, run: Run) {
    && run.operation == "disconnect" && Present(run.installation) && Present(run.consent) && run.planKeys.Some?
    && var keys, installation, consent := run.planKeys.value, run.installation.value, run.consent.value;
       && keys != []
       && (forall i | 0 <= i < |keys| :: keys[i] in {Instruction, MemoryTools, Lifecycle})
       && (forall i, j | 0 <= i < j < |keys| :: keys[i] != keys[j])
       && CurrentlyRemoved(t, g, installation, consent)
       && (exists j | 0 <= j < |g.mutations| :: g.mutations[j].run == id)
       && (forall j | 0 <= j < |g.mutations| && g.mutations[j].run == id ::
             DetachMutation(t, g, g.mutations[j], keys, installation, consent))
       && !UnboundPendingConsumer(t, g, id, keys, installation, consent)
       && (forall i | 0 <= i < |keys| :: exists j | 0 <= j < |g.mutations| ::
             g.mutations[j].run == id && g.mutations[j].component == Some(keys[i]))
  }

  /** The component row says that the artifact was removed from it under the consent. */
  predicate RowIsRemoved(t: Tables, c: Consumer, consent: string) {
    && (c.installation, c.component) in t.components
    && var row := t.components[(c.installation, c.component)];
       row.artifact == Some(c.artifact) && row.desired == "removed" && row.tombstoned && row.consent == Some(consent)
  }

  /** The consumer row waits for its removal under the consent, and so does its component. */
  predicate WaitsForRemoval(t: Tables, c: Consumer, consent: string) {
    && c.state == "removal_pending" && c.desired == "removal_pending" && c.tombstoned && c.consent == Some(consent)
    && RowIsRemoved(t, c, consent)
  }

  /** The mutation is a committed detachment of that consumer. */
  predicate Detaches(m: Mutation, c: Consumer) {
    && m == Mutation(m.run, Some(c.component), Some(c.installation), Some(c.artifact), "consumer_detach_only",
                     "committed")
  }

  /** The installation was removed under the consent, which is active and its own. */
  predicate ControlIsRemoved(t: Tables, g: Ledger, i: string, consent: string) {
    && i in t.installations && consent in g.consents && g.consents[consent] == Consent(i, "active")
    && var row := t.installations[i];
       && row.consent == Some(consent) && row.agentId.Some? && row.desired == "removed" && row.tombstoned
       && row.health == "discovered" && row.statusReason != Some("conflict")
  }

  /** Every mutation of the run detaches a planned consumer of the installation from an artifact still there. */
  predicate MutationsDetach(t: Tables, g: Ledger, id: string, planned: set<ComponentKey>, i: string, consent: string) {
    forall m | m in g.mutations && m.run == id ::
      && m.component.Some? && m.component.value in planned
      && exists c | c in g.consumers ::
           && Detaches(m, c) && c.installation == i && WaitsForRemoval(t, c, consent)
           && c.artifact in g.artifacts && g.artifacts[c.artifact] in {"healthy", "removal_pending"}
  }

  /** Every consumer of a planned component that waits at all waits for this removal, which a mutation committed. */
  predicate ConsumersAreDetached(t: Tables, g: Ledger, id: string, planned: set<ComponentKey>, i: string,
                                 consent: string) {
    forall c | c in g.consumers && c.installation == i && c.component in planned && c.state == "removal_pending" ::
      WaitsForRemoval(t, c, consent) && exists m | m in g.mutations :: m.run == id && Detaches(m, c)
  }

  predicate PlanIsCarriedOut(g: Ledger, id: string, planned: set<ComponentKey>) {
    forall k | k in planned :: exists m | m in g.mutations :: m.run == id && m.component == Some(k)
  }

  /** What it takes to need no evidence, in the terms of the rows. */
  lemma DetachFinalizerIff(t: Tables, g: Ledger, id: string, run: Run)
    ensures EvidenceFreeDetachFinalizer(t, g, id, run) <==>
      && run.operation == "disconnect" && run.installation !in {None, Some("")} && run.consent !in {None, Some("")}
      && run.planKeys.Some?
      && var planned, i, consent := Planned(run.planKeys.value), run.installation.value, run.consent.value;
         && planned != {} && planned <= {Instruction, MemoryTools, Lifecycle} && |planned| == |run.planKeys.value|
         && ControlIsRemoved(t, g, i, consent) && PlanIsCarriedOut(g, id, planned)
         && MutationsDetach(t, g, id, planned, i, consent) && ConsumersAreDetached(t, g, id, planned, i, consent)
  {
    hide DetachMutation, UnboundPendingConsumer, MutationsDetach, ConsumersAreDetached, PlanIsCarriedOut, Planned,
      CurrentlyRemoved, ControlIsRemoved, Present;
    PresentIff(run.installation);
    PresentIff(run.consent);
    if run.planKeys.Some? && Present(run.installation) && Present(run.consent) {
      var keys, i, consent := run.planKeys.value, run.installation.value, run.consent.value;
      DistinctIff(keys);
      MutationsIff(t, g, id, keys, i, consent);
      PendingIff(t, g, id, keys, i, consent);
      PlannedIff(g, id, keys);
      KnownIff(keys);
      ControlIff(t, g, i, consent);
    }
  }

  lemma PresentIff(id: Option<string>)
    ensures Present(id) <==> id !in {None, Some("")}
    ensures Present(id) ==> id.Some?
  {
  }

  lemma ControlIff(t: Tables, g: Ledger, i: string, consent: string)
    ensures CurrentlyRemoved(t, g, i, consent) <==> ControlIsRemoved(t, g, i, consent)
  {
  }

  function Planned(keys: seq<ComponentKey>): set<ComponentKey> { set k | k in keys }

  lemma KnownIff(keys: seq<ComponentKey>)
    ensures (forall i | 0 <= i < |keys| :: keys[i] in {Instruction, MemoryTools, Lifecycle})
      <==> Planned(keys) <= {Instruction, MemoryTools, Lifecycle}
    ensures keys != [] <==> Planned(keys) != {}
  {
    if keys != [] { assert keys[0] in Planned(keys); }
    forall i | 0 <= i < |keys| ensures keys[i] in Planned(keys) {}
  }

  predicate AreDistinct(keys: seq<ComponentKey>) {
    forall i, j | 0 <= i < j < |keys| :: keys[i] != keys[j]
  }

  lemma OneMoreKey(rest: seq<ComponentKey>, x: ComponentKey)
    ensures Planned(rest + [x]) == Planned(rest) + {x}
    ensures AreDistinct(rest + [x]) <==> AreDistinct(rest) && x !in Planned(rest)
  {
    var keys := rest + [x];
    assert keys[|rest|] == x;
    if x in rest {
      var i :| 0 <= i < |rest| && rest[i] == x;
      assert keys[i] == keys[|rest|];
    }
    forall i | 0 <= i < |rest| ensures keys[i] == rest[i] && rest[i] in rest {}
  }

  lemma {:induction false} DistinctIff(keys: seq<ComponentKey>)
    ensures |Planned(keys)| <= |keys|
    ensures AreDistinct(keys) <==> |Planned(keys)| == |keys|
  {
    hide AreDistinct, Planned;
    NoKeys();
    if keys != [] {
      var n := |keys| - 1;
      assert keys == keys[..n] + [keys[n]];
      DistinctIff(keys[..n]);
      OneMoreKey(keys[..n], keys[n]);
    }
  }

  lemma NoKeys()
    ensures Planned([]) == {} && AreDistinct([])
  {
  }

  /** One mutation: its component is planned, and a consumer of the installation waits for it. */
  lemma DetachIff(t: Tables, g: Ledger, m: Mutation, keys: seq<ComponentKey>, i: string, consent: string)
    ensures DetachMutation(t, g, m, keys, i, consent) <==>
      && m.component.Some? && m.component.value in keys
      && exists c | c in g.consumers ::
           && Detaches(m, c) && c.installation == i && WaitsForRemoval(t, c, consent)
           && c.artifact in g.artifacts && g.artifacts[c.artifact] in {"healthy", "removal_pending"}
  {
    if DetachMutation(t, g, m, keys, i, consent) {
      var k :| 0 <= k < |g.consumers| && var c := g.consumers[k];
        && m.artifact == Some(c.artifact) && m.installation == Some(c.installation) && m.component == Some(c.component)
        && c.state == "removal_pending" && c.desired == "removal_pending" && c.tombstoned && c.consent == Some(consent)
        && DetachedComponent(t, c.installation, c.component, c.artifact, consent)
        && c.artifact in g.artifacts && g.artifacts[c.artifact] in {"healthy", "removal_pending"};
      assert g.consumers[k] in g.consumers && Detaches(m, g.consumers[k]);
    }
  }

  lemma MutationsIff(t: Tables, g: Ledger, id: string, keys: seq<ComponentKey>, i: string, consent: string)
    ensures (forall j | 0 <= j < |g.mutations| && g.mutations[j].run == id ::
               DetachMutation(t, g, g.mutations[j], keys, i, consent))
      <==> MutationsDetach(t, g, id, Planned(keys), i, consent)
  {
    forall m: Mutation { DetachIff(t, g, m, keys, i, consent); }
    hide DetachMutation, Detaches, WaitsForRemoval;
  }

  lemma PendingIff(t: Tables, g: Ledger, id: string, keys: seq<ComponentKey>, i: string, consent: string)
    ensures !UnboundPendingConsumer(t, g, id, keys, i, consent)
      <==> ConsumersAreDetached(t, g, id, Planned(keys), i, consent)
  {
    forall c: Consumer
      ensures (exists m | m in g.mutations :: m.run == id && Detaches(m, c)) <==>
        exists j | 0 <= j < |g.mutations| ::
          var m := g.mutations[j];
          && m.run == id && m.installation == Some(c.installation) && m.component == Some(c.component)
          && m.artifact == Some(c.artifact) && m.strategy == "consumer_detach_only" && m.state == "committed"
    {
    }
    if UnboundPendingConsumer(t, g, id, keys, i, consent) {
      var k :| 0 <= k < |g.consumers| && var c := g.consumers[k];
        && c.installation == i && c.component in keys && c.state == "removal_pending"
        && !(WaitsForRemoval(t, c, consent) && exists m | m in g.mutations :: m.run == id && Detaches(m, c));
    }
  }

  lemma PlannedIff(g: Ledger, id: string, keys: seq<ComponentKey>)
    ensures (forall i | 0 <= i < |keys| :: exists j | 0 <= j < |g.mutations| ::
               g.mutations[j].run == id && g.mutations[j].component == Some(keys[i]))
      <==> PlanIsCarriedOut(g, id, Planned(keys))
    ensures keys != [] && PlanIsCarriedOut(g, id, Planned(keys)) ==>
      exists j | 0 <= j < |g.mutations| :: g.mutations[j].run == id
  {
    forall k
      ensures (exists m | m in g.mutations :: m.run == id && m.component == Some(k))
        <==> exists j | 0 <= j < |g.mutations| :: g.mutations[j].run == id && g.mutations[j].component == Some(k)
    {
      if m :| m in g.mutations && m.run == id && m.component == Some(k) {
        var j :| 0 <= j < |g.mutations| && g.mutations[j] == m;
      }
    }
    forall i | 0 <= i < |keys| ensures keys[i] in Planned(keys) {}
    if keys != [] { assert keys[0] in Planned(keys); }
  }

  // ---------- what a finalizer depends on ----------

  predicate SameControl(a: Installation, b: Installation) {
    && a.consent == b.consent && a.agentId == b.agentId && a.desired == b.desired && a.tombstoned == b.tombstoned
    && a.health == b.health && (a.statusReason == b.statusReason || a.desired == "managed")
  }

  /** `b` differs from `a` only in what the repair writes. */
  ghost predicate SameStructure(a: Tables, b: Tables) {
    && a.components.Keys == b.components.Keys && a.installations.Keys == b.installations.Keys
    && (forall c | c in a.components ::
          b.components[c].(status := a.components[c].status, resultId := a.components[c].resultId) == a.components[c])
    && (forall i | i in a.installations :: SameControl(a.installations[i], b.installations[i]))
  }

  lemma DetachedIsStable(a: Tables, b: Tables)
    requires SameStructure(a, b)
    ensures forall i, key, artifact, consent ::
      DetachedComponent(a, i, key, artifact, consent) <==> DetachedComponent(b, i, key, artifact, consent)
  {
    forall i, key, artifact, consent
      ensures DetachedComponent(a, i, key, artifact, consent) <==> DetachedComponent(b, i, key, artifact, consent)
    {
      if (i, key) in a.components {
        assert b.components[(i, key)].(status := a.components[(i, key)].status,
                                       resultId := a.components[(i, key)].resultId) == a.components[(i, key)];
      }
    }
  }

  lemma MutationsAreStable(a: Tables, b: Tables, g: Ledger)
    requires forall i, key, artifact, consent ::
      DetachedComponent(a, i, key, artifact, consent) <==> DetachedComponent(b, i, key, artifact, consent)
    ensures forall m: Mutation, keys, i, consent ::
      DetachMutation(a, g, m, keys, i, consent) <==> DetachMutation(b, g, m, keys, i, consent)
  {
    hide DetachedComponent;
    forall m: Mutation, consent ensures ExactConsumer(a, g, m, consent) <==> ExactConsumer(b, g, m, consent) {}
  }

  lemma PendingIsStable(a: Tables, b: Tables, g: Ledger, id: string)
    requires forall i, key, artifact, consent ::
      DetachedComponent(a, i, key, artifact, consent) <==> DetachedComponent(b, i, key, artifact, consent)
    ensures forall keys, i, consent ::
      UnboundPendingConsumer(a, g, id, keys, i, consent) <==> UnboundPendingConsumer(b, g, id, keys, i, consent)
  {
    hide DetachedComponent;
  }

  lemma ControlIsStable(a: Tables, b: Tables, g: Ledger)
    requires SameStructure(a, b)
    ensures forall i, consent :: CurrentlyRemoved(a, g, i, consent) <==> CurrentlyRemoved(b, g, i, consent)
  {
    forall i, consent ensures CurrentlyRemoved(a, g, i, consent) <==> CurrentlyRemoved(b, g, i, consent) {
      if i in a.installations { assert SameControl(a.installations[i], b.installations[i]); }
    }
  }

  /** No repair step can turn a run into a finalizer or stop it from being one. */
  lemma FinalizersAreStable(a: Tables, b: Tables, g: Ledger, id: string, run: Run, state: RunState)
    requires SameStructure(a, b)
    ensures EvidenceFreeDetachFinalizer(a, g, id, run) <==> EvidenceFreeDetachFinalizer(b, g, id, run.(state := state))
  {
    hide DetachedComponent, DetachMutation, UnboundPendingConsumer, CurrentlyRemoved, SameStructure;
    DetachedIsStable(a, b);
    MutationsAreStable(a, b, g);
    PendingIsStable(a, b, g, id);
    ControlIsStable(a, b, g);
  }
}
