/**
 * What the growing run log does to an installation that has an identity of its own: one token per
 * component, permanent revocation, and the exact effect of one more run
 * (src/agent-bridge-guard.ts:82-120).
 */
module BridgeRuns {
  import opened Wrappers
  import opened Characters
  import opened BridgeAdmission

  /** The installation is managed or paused and nothing but its generation can stop it. */
  predicate IsOpen(row: Installation) {
    && row.desiredState != "unmanaged" && row.desiredState != REMOVED && row.tombstonedAt.None?
    && row.bridgeState != Some("stopped") && !SourceIsRejected(row)
  }

  /** The token is admitted for the component by the log alone. */
  predicate LogAdmits(runs: seq<Run>, id: string, component: string, token: string, digest: Digest) {
    var generation := Generation(runs, id, component);
    generation.Some? && PlanBears(generation.value.plan, token, digest)
  }

  lemma OwnedAdmission(row: Installation, id: string, runs: seq<Run>, token: string, component: string, digest: Digest)
    ensures EvaluateOwned(row, id, runs, token, component, digest) == Allowed
      <==> row.desiredState == "unmanaged" || (IsOpen(row) && LogAdmits(runs, id, component, token, digest))
    ensures EvaluateOwned(row, id, runs, token, component, digest) == Refused(ActivityGenerationMismatch)
      <==> IsOpen(row) && !LogAdmits(runs, id, component, token, digest)
  {
  }

  /** What the guard looks at first decides the reason, whatever the log says. */
  lemma RefusalsByReason(row: Installation, id: string, runs: seq<Run>, token: string, component: string,
                         digest: Digest)
    ensures var out := EvaluateOwned(row, id, runs, token, component, digest);
      var rejected := row.eligibilityReason.Some? && row.eligibilityReason.value in {"release_entry_missing",
        "release_mode_detect_only", "release_distribution_not_accepted", "source_not_official"};
      && (row.desiredState == "unmanaged" ==> out == Allowed)
      && (out == Refused(InstallationRemoved) <==> row.desiredState == "removed")
      && (out == Refused(InstallationTombstoned) <==>
            row.tombstonedAt.Some? && row.desiredState !in {"unmanaged", "removed"})
      && (out == Refused(BridgeStopped) <==>
            && row.bridgeState == Some("stopped")
            && row.desiredState !in {"unmanaged", "removed"} && row.tombstonedAt.None?)
      && (out == Refused(SourceRejected) <==>
            && rejected && row.bridgeState != Some("stopped")
            && row.desiredState !in {"unmanaged", "removed"} && row.tombstonedAt.None?)
      && out != Refused(GuardUnavailable)
  {
    hide Generation, PlanBears;
    assert "unmanaged"[0] == 'u' && "removed"[0] == 'r';
  }

  /** An entry without identity or token, or of an identity nobody owns, is not guarded; others are by who owns them. */
  lemma Guarded(db: Ledger, agent: Option<string>, token: Option<string>, component: Option<string>, digest: Digest)
    ensures var id, out := Trimmed(agent), Evaluate(db, agent, token, component, digest);
      var key := if component.None? then "memory_tools" else component.value;
      if id == "" || Trimmed(token) == "" then out == Allowed
      else if id in db.bindings then
        var binding := db.bindings[id];
        var astray := exists m | m in binding.members && m in db.installations ::
          && db.installations[m].desiredState != "removed"
          && (db.installations[m].tombstonedAt.None? || db.installations[m].tombstonedAt.value == "")
          && db.installations[m].domainKey != Some(binding.domainKey);
        out
        == if astray then Refused(GuardUnavailable) else EvaluateShared(db, binding, id, Trimmed(token), key, digest)
      else if id in db.agentOwner && db.agentOwner[id] in db.installations then
        out == EvaluateOwned(db.installations[db.agentOwner[id]], db.agentOwner[id], db.runs, Trimmed(token), key,
                             digest)
      else out == Allowed
  {
    hide EvaluateShared, EvaluateOwned, Trimmed;
    if Trimmed(agent) in db.bindings {
      var binding := db.bindings[Trimmed(agent)];
      assert DomainHolds(db, binding) <==> !exists m | m in binding.members && m in db.installations ::
        IsActive(db.installations[m]) && db.installations[m].domainKey != Some(binding.domainKey);
    }
  }

  /** The text between the white space at both ends. */
  predicate IsBare(s: string, bare: string, from: nat) {
    && from + |bare| <= |s| && bare == s[from..from + |bare|]
    && (forall k | 0 <= k < |s| && (k < from || from + |bare| <= k) :: IsWhiteSpace(s[k] as int))
    && (bare != "" ==> !IsWhiteSpace(bare[0] as int) && !IsWhiteSpace(bare[|bare| - 1] as int))
  }

  lemma {:induction false} TrimLeftMeans(s: string) returns (from: nat)
    ensures from + |TrimLeft(s)| == |s| && TrimLeft(s) == s[from..]
    ensures forall k | 0 <= k < from :: IsWhiteSpace(s[k] as int)
    ensures TrimLeft(s) != "" ==> !IsWhiteSpace(TrimLeft(s)[0] as int)
  {
    from := 0;
    if s != "" && IsWhiteSpace(s[0] as int) {
      from := TrimLeftMeans(s[1..]);
      from := from + 1;
    }
  }

  lemma {:induction false} TrimRightMeans(s: string)
    ensures TrimRight(s) <= s && forall k | |TrimRight(s)| <= k < |s| :: IsWhiteSpace(s[k] as int)
    ensures TrimRight(s) != "" ==> !IsWhiteSpace(TrimRight(s)[|TrimRight(s)| - 1] as int)
  {
    if s != "" && IsWhiteSpace(s[|s| - 1] as int) { TrimRightMeans(s[..|s| - 1]); }
  }

  /** Trimming takes the white space at both ends and nothing else. */
  lemma TrimMeans(s: string) returns (from: nat)
    ensures IsBare(s, Trim(s), from)
  {
    hide IsWhiteSpace, TrimLeft, TrimRight;
    from := TrimLeftMeans(s);
    TrimRightMeans(TrimLeft(s));
    var left, bare := TrimLeft(s), Trim(s);
    forall k | from + |bare| <= k < |s| ensures IsWhiteSpace(s[k] as int) {
      assert s[k] == left[k - from];
    }
    if bare != "" { assert bare[0] == left[0]; }
  }

  // ---------- which run is selected ----------

  /** Row `k` carries the component, and no later row carries it or disconnects the installation. */
  predicate IsSelected(runs: seq<Run>, id: string, component: string, k: nat) {
    && k < |runs| && Carries(runs[k], id, component)
    && forall j | k < j < |runs| :: !Carries(runs[j], id, component) && !IsDisconnect(runs[j], id)
  }

  lemma {:induction false} DisconnectPosition(runs: seq<Run>, id: string)
    ensures var n := AfterDisconnect(runs, id);
      && (n > 0 ==> IsDisconnect(runs[n - 1], id))
      && forall j | n <= j < |runs| :: !IsDisconnect(runs[j], id)
  {
    if runs != [] && !IsDisconnect(runs[|runs| - 1], id) { DisconnectPosition(runs[..|runs| - 1], id); }
  }

  lemma {:induction false} CarrierPosition(runs: seq<Run>, from: nat, id: string, component: string) returns (k: nat)
    ensures var g := LastCarrier(runs, from, id, component);
      if g.Some? then
        && from <= k < |runs| && runs[k] == g.value && Carries(runs[k], id, component)
        && forall j | k < j < |runs| :: !Carries(runs[j], id, component)
      else forall j | from <= j < |runs| :: !Carries(runs[j], id, component)
  {
    k := |runs|;
    if from < |runs| {
      var last := |runs| - 1;
      if Carries(runs[last], id, component) {
        k := last;
      } else {
        k := CarrierPosition(runs[..last], from, id, component);
      }
    }
  }

  /** The query selects the run at `k` exactly when no later run carries the component or disconnects. */
  lemma GenerationIsSelected(runs: seq<Run>, id: string, component: string)
    ensures Generation(runs, id, component).Some? <==> exists k: nat :: IsSelected(runs, id, component, k)
    ensures forall k: nat | IsSelected(runs, id, component, k) :: Generation(runs, id, component) == Some(runs[k])
  {
    hide Carries, IsDisconnect;
    var from := AfterDisconnect(runs, id);
    DisconnectPosition(runs, id);
    var at := CarrierPosition(runs, from, id, component);
    CarrierIsNoDisconnect(runs, id, component);
    if Generation(runs, id, component).Some? { assert IsSelected(runs, id, component, at); }
    forall k: nat | IsSelected(runs, id, component, k) ensures Generation(runs, id, component) == Some(runs[k]) {
      assert from <= k;
    }
  }

  lemma CarrierIsNoDisconnect(runs: seq<Run>, id: string, component: string)
    ensures forall k | 0 <= k < |runs| :: Carries(runs[k], id, component) ==> !IsDisconnect(runs[k], id)
  {
  }

  // ---------- one token ----------

  /** Of all texts a client may send, at most one bare token is admitted for a component. */
  lemma AtMostOneToken(db: Ledger, agent: string, a: Option<string>, b: Option<string>, component: Option<string>,
                       digest: Digest)
    requires Trim(agent) in db.agentOwner && Trim(agent) !in db.bindings
    requires var id := db.agentOwner[Trim(agent)];
      id in db.installations && db.installations[id].desiredState != "unmanaged"
    requires Trim(agent) != "" && Trimmed(a) != "" && Trimmed(b) != ""
    requires Evaluate(db, Some(agent), a, component, digest) == Allowed
    requires Evaluate(db, Some(agent), b, component, digest) == Allowed
    ensures Trimmed(a) == Trimmed(b)
  {
  }

  // ---------- one more run ----------

  /**
   * The whole effect of appending one run: a disconnect of the installation, applied or not, revokes
   * everything; an applied carrier admits its own token alone; any other run changes nothing.
   */
  lemma AppendedRun(runs: seq<Run>, r: Run, id: string, component: string, token: string, digest: Digest)
    ensures LogAdmits(runs + [r], id, component, token, digest) ==
      if IsDisconnect(r, id) then false
      else if Carries(r, id, component) then PlanBears(r.plan, token, digest)
      else LogAdmits(runs, id, component, token, digest)
  {
    var longer := runs + [r];
    var n := |runs|;
    hide PlanBears;
    GenerationIsSelected(runs, id, component);
    GenerationIsSelected(longer, id, component);
    if IsDisconnect(r, id) {
      forall k: nat ensures !IsSelected(longer, id, component, k) {
        assert longer[n] == r;
      }
    } else if Carries(r, id, component) {
      assert IsSelected(longer, id, component, n);
    } else {
      forall k: nat ensures IsSelected(longer, id, component, k) == IsSelected(runs, id, component, k) {
        SelectionIgnores(runs, r, id, component, k);
      }
    }
  }

  lemma SelectionIgnores(runs: seq<Run>, r: Run, id: string, component: string, k: nat)
    requires !IsDisconnect(r, id) && !Carries(r, id, component)
    ensures IsSelected(runs + [r], id, component, k) == IsSelected(runs, id, component, k)
  {
    var longer := runs + [r];
    assert forall j | 0 <= j < |runs| :: longer[j] == runs[j];
    assert longer[|runs|] == r;
  }

  /**
   * Nothing that is not a disconnect of the installation, and not an applied carrier of the component,
   * changes an answer.
   */
  lemma BystandersChangeNothing(row: Installation, runs: seq<Run>, r: Run, id: string, component: string, token: string,
                                digest: Digest)
    requires !IsDisconnect(r, id)
    requires !IsApplied(r) || component !in r.plan.componentKeys || r.installation != id
    ensures EvaluateOwned(row, id, runs + [r], token, component, digest)
      == EvaluateOwned(row, id, runs, token, component, digest)
  {
    AppendedRun(runs, r, id, component, token, digest);
    hide LogAdmits, Generation;
    OwnedAdmission(row, id, runs, token, component, digest);
    OwnedAdmission(row, id, runs + [r], token, component, digest);
  }

  // ---------- the states by name ----------

  /** The states of a run whose projection is not, or no longer, in place. */
  predicate IsPreview(r: Run) {
    || r.state in {"planned", "preconditions_checked", "applying", "compensating", "needs_recovery", "failed"}
    || (r.state == "cancelled" && r.failureCode != Some("superseded_by_same_generation_repair"))
  }

  /** The states of a run whose projection is in place, or was taken over by a repair of its generation. */
  predicate IsInPlace(r: Run) {
    || r.state in {"applied_unverified", "verified", "committed"}
    || (r.state == "cancelled" && r.failureCode == Some("superseded_by_same_generation_repair"))
  }

  /** Every state that a run can have is one or the other, and which of them says whether it is applied. */
  lemma StatesByName(r: Run)
    ensures IsPreview(r) ==> !IsApplied(r)
    ensures IsInPlace(r) ==> IsApplied(r)
  {
    StateNamesDiffer();
  }

  lemma StateNamesDiffer()
    ensures {"planned", "preconditions_checked", "applying", "compensating", "needs_recovery", "failed", "cancelled"}
      !! {"applied_unverified", "verified", "committed"}
    ensures "cancelled"
      !in {"planned", "preconditions_checked", "applying", "compensating", "needs_recovery", "failed"}
  {
    assert "planned"[0] == 'p' && "preconditions_checked"[0] == 'p' && "compensating"[3] == 'p'
      && "committed"[3] == 'm';
    assert "needs_recovery"[0] == 'n' && "failed"[0] == 'f' && "cancelled"[1] == 'a' && "applying"[5] == 'i';
    assert "applied_unverified"[5] == 'e' && "verified"[0] == 'v' && "committed"[0] == 'c' && "compensating"[1] == 'o';
    assert |"applied_unverified"| == 18 && |"applying"| == 8;
  }

  lemma PreviewIsBystander(row: Installation, runs: seq<Run>, r: Run, id: string, component: string, token: string,
                           digest: Digest)
    requires r.operation != "disconnect" && IsPreview(r)
    ensures EvaluateOwned(row, id, runs + [r], token, component, digest)
      == EvaluateOwned(row, id, runs, token, component, digest)
  {
    StatesByName(r);
    hide IsApplied, EvaluateOwned;
    BystandersChangeNothing(row, runs, r, id, component, token, digest);
  }

  /** A pending, failed or superseded run that is no disconnect changes no answer of the guard for its installation. */
  lemma PreviewChangesNothing(db: Ledger, r: Run, agent: Option<string>, token: Option<string>,
                              component: Option<string>,
                              digest: Digest)
    requires Trimmed(agent) !in db.bindings && r.operation != "disconnect" && IsPreview(r)
    ensures Evaluate(db.(runs := db.runs + [r]), agent, token, component, digest)
      == Evaluate(db, agent, token, component, digest)
  {
    hide EvaluateOwned, EvaluateShared, Trimmed, IsPreview, DomainHolds;
    forall row: Installation, id: string, bare: string, key: string
      ensures EvaluateOwned(row, id, db.runs + [r], bare, key, digest)
        == EvaluateOwned(row, id, db.runs, bare, key, digest)
    {
      PreviewIsBystander(row, db.runs, r, id, key, bare, digest);
    }
  }

  /**
   * A run in place that lists the component becomes its generation: then its token, with its digest,
   * alone is admitted.
   */
  lemma InPlaceRunDecides(db: Ledger, r: Run, agent: Option<string>, token: Option<string>, component: Option<string>,
                          digest: Digest)
    requires Trimmed(agent) != "" && Trimmed(token) != "" && Trimmed(agent) !in db.bindings
    requires Trimmed(agent) in db.agentOwner && db.agentOwner[Trimmed(agent)] in db.installations
    requires var id := db.agentOwner[Trimmed(agent)];
      IsOpen(db.installations[id]) && r.installation == id && r.operation != "disconnect" && IsInPlace(r)
    requires (if component.None? then "memory_tools" else component.value) in r.plan.componentKeys
    ensures Evaluate(db.(runs := db.runs + [r]), agent, token, component, digest)
      == if r.plan.token == Some(Trimmed(token)) && r.plan.tokenHash == Some(digest(Trimmed(token)))
         then Allowed else Refused(ActivityGenerationMismatch)
  {
    var id := db.agentOwner[Trimmed(agent)];
    var key := if component.None? then MEMORY_TOOLS else component.value;
    StatesByName(r);
    hide Generation, Trimmed;
    AppendedRun(db.runs, r, id, key, Trimmed(token), digest);
    OwnedAdmission(db.installations[id], id, db.runs + [r], Trimmed(token), key, digest);
  }

  /**
   * A run that is not applied yet changes an answer exactly when it is a disconnect of the installation
   * and the answer was yes: a disconnect that was only planned, or that failed, revokes too.
   */
  lemma UnappliedRunRevokesIff(runs: seq<Run>, r: Run, id: string, component: string, token: string, digest: Digest)
    requires !IsApplied(r)
    ensures LogAdmits(runs + [r], id, component, token, digest) != LogAdmits(runs, id, component, token, digest)
      <==> IsDisconnect(r, id) && LogAdmits(runs, id, component, token, digest)
  {
    AppendedRun(runs, r, id, component, token, digest);
  }

  /** A failed disconnect takes the token of a live connection away. */
  lemma FailedDisconnectRevokes(digest: Digest)
    ensures var plan := Plan(Some("token"), Some(digest("token")), {MEMORY_TOOLS});
      var connected := [Run("host", "connect", COMMITTED, None, plan)];
      var failed := Run("host", DISCONNECT, "failed", Some("disconnect_failed"), Plan(None, None, {}));
      && LogAdmits(connected, "host", MEMORY_TOOLS, "token", digest)
      && !LogAdmits(connected + [failed], "host", MEMORY_TOOLS, "token", digest)
  {
    var plan := Plan(Some("token"), Some(digest("token")), {MEMORY_TOOLS});
    var connected := [Run("host", "connect", COMMITTED, None, plan)];
    var failed := Run("host", DISCONNECT, "failed", Some("disconnect_failed"), Plan(None, None, {}));
    assert connected == [] + connected;
    AppendedRun([], connected[0], "host", MEMORY_TOOLS, "token", digest);
    AppendedRun(connected, failed, "host", MEMORY_TOOLS, "token", digest);
  }

  // ---------- every extension ----------

  /** Later log: rows keep their identity, kind and plan, states may move, and rows may be added. */
  predicate Evolves(before: seq<Run>, after: seq<Run>) {
    && |before| <= |after|
    && forall k | 0 <= k < |before| ::
      && after[k].installation == before[k].installation && after[k].operation == before[k].operation
      && after[k].plan == before[k].plan
  }

  /** A plan of the installation for the component that names the token. */
  predicate Names(r: Run, id: string, component: string, token: string) {
    r.installation == id && component in r.plan.componentKeys && r.plan.token == Some(token)
  }

  /**
   * Once a disconnect follows every run that names the token, no later log admits it again, whatever
   * becomes of the old runs' states, until a new run names it.
   */
  lemma RevocationIsPermanent(before: seq<Run>, after: seq<Run>, d: nat, id: string, component: string, token: string,
                              digest: Digest)
    requires d < |before| && IsDisconnect(before[d], id)
    requires forall k | d < k < |before| :: !Names(before[k], id, component, token)
    requires Evolves(before, after)
    requires forall k | |before| <= k < |after| :: !Names(after[k], id, component, token)
    ensures !LogAdmits(after, id, component, token, digest)
  {
    GenerationIsSelected(after, id, component);
    assert IsDisconnect(after[d], id);
    forall k: nat | IsSelected(after, id, component, k) ensures !PlanBears(after[k].plan, token, digest) {
      assert d < k;
      if k < |before| {
        assert !Names(before[k], id, component, token);
      } else {
        assert !Names(after[k], id, component, token);
      }
    }
  }

  /**
   * The same at the guard: the answer is the mismatch, or a stronger refusal, unless the installation
   * left management.
   */
  lemma RevokedTokenIsRefused(db: Ledger, before: seq<Run>, d: nat, agent: string, token: Option<string>,
                              component: string, digest: Digest)
    requires Trim(agent) != "" && Trimmed(token) != "" && Trim(agent) !in db.bindings && Trim(agent) in db.agentOwner
    requires var id := db.agentOwner[Trim(agent)];
      && id in db.installations && db.installations[id].desiredState != "unmanaged"
      && d < |before| && IsDisconnect(before[d], id) && Evolves(before, db.runs)
      && (forall k | d < k < |before| :: !Names(before[k], id, component, Trimmed(token)))
      && (forall k | |before| <= k < |db.runs| :: !Names(db.runs[k], id, component, Trimmed(token)))
    ensures Evaluate(db, Some(agent), token, Some(component), digest).Refused?
  {
    var id := db.agentOwner[Trim(agent)];
    RevocationIsPermanent(before, db.runs, d, id, component, Trimmed(token), digest);
    hide LogAdmits, Generation, Trim;
    OwnedAdmission(db.installations[id], id, db.runs, Trimmed(token), component, digest);
  }

  /** Moving runs between states that count alike, as a repair of the same generation does, changes no answer. */
  lemma RetiringKeepsAdmission(before: seq<Run>, after: seq<Run>, id: string, component: string, token: string,
                               digest: Digest)
    requires Evolves(before, after) && |before| == |after|
    requires forall k | 0 <= k < |before| :: IsApplied(before[k]) == IsApplied(after[k])
    ensures LogAdmits(before, id, component, token, digest) == LogAdmits(after, id, component, token, digest)
  {
    GenerationIsSelected(before, id, component);
    GenerationIsSelected(after, id, component);
    hide IsApplied;
    assert forall k | 0 <= k < |before| :: Carries(before[k], id, component) == Carries(after[k], id, component);
    assert forall k | 0 <= k < |before| :: IsDisconnect(before[k], id) == IsDisconnect(after[k], id);
    forall k: nat ensures IsSelected(before, id, component, k) == IsSelected(after, id, component, k) {}
  }
}
