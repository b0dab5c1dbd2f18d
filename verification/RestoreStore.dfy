/**
 * The context-restore store over its metadata table, and the three hooks that use it, each
 * interleaved with any steps of other processes (src/hook-codex-context-restore.ts:145-247,
 * src/hook-codex-user-prompt-submit.ts, src/hook-session-start.ts, src/hook-post-compact.ts).
 */
module RestoreStore {
  import opened Wrappers
  import opened Characters
  import opened ContextRestore
  import opened RestoreProtocol
  import opened RestoreRuns

  class Store {
    var rows: Rows

    constructor (rows: Rows)
      ensures this.rows == rows
    {
      this.rows := rows;
    }

    /** The compare-and-swap write of one record inside a transaction that began with `before`. */
    method Commit(before: Rows, op: Op, next: State, success: Outcome) returns (out: Outcome)
      modifies this
      ensures match Write(old(rows), op.key, Lookup(old(rows), op.key), next)
        case Err(e) => rows == before && out == Failed(e)
        case Ok((written, changed)) =>
          if changed then rows == written && out == success else rows == before && out == LostRace(op)
    {
      match Write(rows, op.key, Lookup(rows, op.key), next) {
        case Err(e) =>
          rows, out := before, Failed(e);
        case Ok(result) =>
          if result.1 {
            rows, out := result.0, success;
          } else {
            rows, out := before, LostRace(op);
          }
      }
    }

    method MarkPending(key: string, at: int) returns (out: Outcome)
      modifies this
      ensures Step(rows, out) == Apply(old(rows), Op.MarkPending(key), at)
    {
      hide Write, Decode, Encode, Read, CleanupExpired, ValidState;
      if !GoodTime(at) { return Failed(InvalidTime); }
      var before := rows;
      rows := CleanupExpired(rows, at);
      var state := Read(rows, key, at);
      var revision := 1;
      var delivered, turn := 0, None;
      if state.Some? {
        revision := state.value.pendingRevision + 1;
        delivered, turn := state.value.deliveredRevision, state.value.deliveredTurnIdHash;
      }
      if revision > MAX_SAFE_INTEGER {
        rows := before;
        return Failed(RevisionExhausted);
      }
      var next := State(revision, delivered, None, turn, at, at + RECORD_MS);
      out := Commit(before, Op.MarkPending(key), next, Marked(revision));
    }

    method ClaimPending(key: string, turnId: string, turnIdHash: string, claimId: string, at: int)
        returns (out: Outcome)
      modifies this
      ensures Step(rows, out) == Apply(old(rows), Op.ClaimPending(key, turnId, turnIdHash, claimId), at)
    {
      hide Write, Decode, Encode;
      if !NotBlank(turnId) { return Failed(TurnRequired); }
      if !GoodTime(at) { return Failed(InvalidTime); }
      var state := Read(rows, key, at);
      if state.None? || state.value.pendingRevision <= state.value.deliveredRevision
        || (state.value.claim.Some? && state.value.claim.value.expiresAt > at) {
        return Claimed(None);
      }
      var claim := Claim(state.value.pendingRevision, claimId, turnIdHash, at + CLAIM_MS);
      if !ValidClaim(claim) { return Failed(InvalidClaimId); }
      var next := Refresh(state.value.(claim := Some(claim)), at);
      out := Commit(rows, Op.ClaimPending(key, turnId, turnIdHash, claimId), next, Claimed(Some(claim)));
    }

    method CanEmit(key: string, held: Claim, at: int) returns (out: Outcome)
      ensures Step(rows, out) == Apply(rows, Op.CanEmit(key, held), at)
    {
      if !GoodTime(at) { return Failed(InvalidTime); }
      out := Answer(MayEmit(Read(rows, key, at), held, at));
    }

    method ReadPending(key: string, at: int) returns (out: Outcome)
      ensures Step(rows, out) == Apply(rows, Op.ReadPending(key), at)
    {
      if !GoodTime(at) { return Failed(InvalidTime); }
      var state := Read(rows, key, at);
      out := View(if Pending(state) then state else None);
    }

    method ReadState(key: string, at: int) returns (out: Outcome)
      ensures Step(rows, out) == Apply(rows, Op.ReadState(key), at)
    {
      if !GoodTime(at) { return Failed(InvalidTime); }
      out := View(Read(rows, key, at));
    }

    method MarkEmitted(key: string, held: Claim, at: int) returns (out: Outcome)
      modifies this
      ensures Step(rows, out) == Apply(old(rows), Op.MarkEmitted(key, held), at)
    {
      hide Write, Decode, Encode;
      if !GoodTime(at) { return Failed(InvalidTime); }
      var state := Read(rows, key, at);
      if !MayEmit(state, held, at) { return Answer(false); }
      var next := Refresh(state.value.(deliveredRevision := held.revision,
                                       deliveredTurnIdHash := Some(held.turnIdHash)), at);
      next := next.(claim := None);
      out := Commit(rows, Op.MarkEmitted(key, held), next, Answer(true));
    }

    method ReleaseClaim(key: string, held: Claim, at: int) returns (out: Outcome)
      modifies this
      ensures Step(rows, out) == Apply(old(rows), Op.ReleaseClaim(key, held), at)
      // what was claimed is still pending, and free to be claimed again
      ensures out == Answer(true) ==>
        var s := Read(rows, key, at);
        Pending(s) && s.value.pendingRevision == held.revision && s.value.claim.None?
    {
      hide Write, Decode, Encode;
      if Apply(rows, Op.ReleaseClaim(key, held), at).outcome == Answer(true) { ReleasedIsPending(rows, key, held, at); }
      if !GoodTime(at) { return Failed(InvalidTime); }
      var state := Read(rows, key, at);
      if !OwnsClaim(state, held) { return Answer(false); }
      var next := Refresh(state.value, at);
      next := next.(claim := None);
      out := Commit(rows, Op.ReleaseClaim(key, held), next, Answer(true));
    }

    method SatisfyFromSessionStart(key: string, observed: int, at: int) returns (out: Outcome)
      modifies this
      ensures Step(rows, out) == Apply(old(rows), Op.SatisfyFromSessionStart(key, observed), at)
    {
      hide Write, Decode, Encode;
      if !SafeInteger(observed, 1) { return Answer(false); }
      if !GoodTime(at) { return Failed(InvalidTime); }
      var state := Read(rows, key, at);
      if state.None? || observed > state.value.pendingRevision || state.value.deliveredRevision >= observed {
        return Answer(false);
      }
      var next := Refresh(state.value.(deliveredRevision := observed), at);
      next := next.(deliveredTurnIdHash := None);
      if next.claim.Some? && next.claim.value.revision == observed {
        next := next.(claim := None);
      }
      out := Commit(rows, Op.SatisfyFromSessionStart(key, observed), next, Answer(true));
    }

    method Perform(op: Op, at: int) returns (out: Outcome)
      modifies this
      ensures Step(rows, out) == Apply(old(rows), op, at)
    {
      match op {
        case ReadState(key) => out := ReadState(key, at);
        case ReadPending(key) => out := ReadPending(key, at);
        case MarkPending(key) => out := MarkPending(key, at);
        case ClaimPending(key, turnId, hash, id) => out := ClaimPending(key, turnId, hash, id, at);
        case CanEmit(key, held) => out := CanEmit(key, held, at);
        case MarkEmitted(key, held) => out := MarkEmitted(key, held, at);
        case ReleaseClaim(key, held) => out := ReleaseClaim(key, held, at);
        case SatisfyFromSessionStart(key, observed) => out := SatisfyFromSessionStart(key, observed, at);
      }
    }

    /** Steps of other processes that happen between two steps of a hook. */
    method Others(run: Run)
      modifies this
      ensures rows == After(old(rows), run)
    {
      hide Apply;
      assert run[..0] == [];
      for i := 0 to |run|
        invariant rows == After(old(rows), run[..i])
      {
        BeforeNext(old(rows), run, i);
        var _ := Perform(run[i].op, run[i].at);
      }
      assert run[..|run|] == run;
    }

    /**
     * The prompt hook: claim, prepare, check, write, acknowledge, release. Its run is exactly the stages
     * that happened, its own steps at the indices of `PromptSteps`, with those of others in between.
     */
    method UserPromptSubmit(key: string, turnId: string, turnIdHash: string, claimId: string, env: PromptEnvironment)
        returns (claim: Option<Claim>, written: Option<int>, ghost run: Run, ghost emits: bool)
      modifies this
      ensures rows == After(old(rows), run)
      ensures run == PromptRun(Op.ClaimPending(key, turnId, turnIdHash, claimId), env, claim, emits)
      ensures claim == if env.admittedAtStart then Issued(old(rows), run, 0) else None
      // it writes exactly after a positive final check of its claim
      ensures emits <==>
        && claim.Some? && env.prepared && env.admittedBeforeOutput
        && OutcomeAt(old(rows), run, 1 + |env.whilePreparing|) == Answer(true)
      ensures written == if emits && env.outputWritten then Some(claim.value.revision) else None
      // every revision its own steps discharge is the one it wrote in full, and it was still admitted then
      ensures forall i | i in PromptSteps(env, claim, emits) ::
        i < |run| && run[i].op.key == key
        && (Discharged(old(rows), run, i, key).Some? ==>
            written == Discharged(old(rows), run, i, key) && env.admittedAtEnd)
      // and such a step leaves both revisions of the record as they were, or delivers that revision
      ensures forall i | i in PromptSteps(env, claim, emits) :: RevisionsStand(old(rows), run, i, key, written)
      // however it ends, the claim it obtained is no longer held
      ensures claim.Some? && GoodTime(env.releaseAt) ==> !OwnsClaim(Read(rows, key, env.releaseAt), claim.value)
    {
      hide Apply, Read, OwnsClaim, After, OutcomeAt, Discharged, Issued, UnderClaim, StepsUnderClaim;
      claim, written, run, emits := None, None, [], false;
      NothingDone(rows);
      if !env.admittedAtStart { return; }
      ghost var start := rows;
      var op := Op.ClaimPending(key, turnId, turnIdHash, claimId);
      var answer := ClaimPending(key, turnId, turnIdHash, claimId, env.claimAt);
      run := [Event(op, env.claimAt)];
      FirstStep(start, run[0], key);
      OwnStepsStand(start, run, 0, key, None);
      if !answer.Claimed? || answer.claim.None? { return; }
      claim := answer.claim;
      ghost var first := run;
      written, run, emits := PrepareAndEmit(start, key, claim.value, env, first);
      ClaimStandsFirst(start, first[0], run, StepsUnderClaim(1, env, emits), key);
      forall i | i in PromptSteps(env, claim, emits) ensures RevisionsStand(start, run, i, key, written) {
        OwnStepsStand(start, run, i, key, written);
      }
    }

    /** The part of the prompt hook that runs under a claim; `before` is the run so far. */
    method PrepareAndEmit(ghost start: Rows, key: string, claim: Claim, env: PromptEnvironment, ghost before: Run)
        returns (written: Option<int>, ghost run: Run, ghost emits: bool)
      requires rows == After(start, before)
      modifies this
      ensures rows == After(start, run) && Continues(start, before, run, StepsUnderClaim(|before|, env, emits), key)
      ensures run == before + UnderClaim(key, claim, env, emits)
      ensures emits <==>
        && env.prepared && env.admittedBeforeOutput
        && OutcomeAt(start, run, |before| + |env.whilePreparing|) == Answer(true)
      ensures written == if emits && env.outputWritten then Some(claim.revision) else None
      ensures forall i | i in StepsUnderClaim(|before|, env, emits) && Discharged(start, run, i, key).Some? ::
        written == Discharged(start, run, i, key) && env.admittedAtEnd
      ensures GoodTime(env.releaseAt) ==> !OwnsClaim(Read(rows, key, env.releaseAt), claim)
    {
      hide Apply, Read, OwnsClaim, OutcomeAt, After, Continues, Discharged, UnderClaim, StepsUnderClaim;
      written, run, emits := None, before, false;
      ghost var own: set<nat> := {};
      NothingYet(start, before, key);
      Others(env.whilePreparing);
      StepsOfOthers(start, before, run, own, key, env.whilePreparing);
      run := run + env.whilePreparing;
      if env.prepared && env.admittedBeforeOutput {
        var ok := CanEmit(key, claim, env.checkAt);
        OwnStep(start, before, run, own, key, Event(Op.CanEmit(key, claim), env.checkAt));
        run, own := run + [Event(Op.CanEmit(key, claim), env.checkAt)], own + {|run|};
        if ok == Answer(true) {
          emits := true;
          Others(env.whileWriting);
          StepsOfOthers(start, before, run, own, key, env.whileWriting);
          run := run + env.whileWriting;
          if env.outputWritten {
            written := Some(claim.revision);
            if env.admittedAtEnd {
              var _ := MarkEmitted(key, claim, env.ackAt);
              OwnStep(start, before, run, own, key, Event(Op.MarkEmitted(key, claim), env.ackAt));
              run, own := run + [Event(Op.MarkEmitted(key, claim), env.ackAt)], own + {|run|};
            }
          }
        }
      }
      ReleaseEnds(rows, key, claim, env.releaseAt);
      var _ := ReleaseClaim(key, claim, env.releaseAt);
      OwnStep(start, before, run, own, key, Event(Op.ReleaseClaim(key, claim), env.releaseAt));
      run, own := run + [Event(Op.ReleaseClaim(key, claim), env.releaseAt)], own + {|run|};
      StagesJoin(before, key, claim, env, emits);
    }

    /**
     * The session hook: observe the pending revision, prepare and write, then discharge what it saw. Its
     * run is the observation, the steps of others, and the discharge, each if it happened.
     */
    method SessionStart(key: string, env: SessionEnvironment)
        returns (written: bool, ghost run: Run, ghost observed: Option<int>)
      modifies this
      ensures rows == After(old(rows), run) && run == SessionRun(key, env, observed)
      ensures observed == if env.admittedAtStart then Observed(old(rows), run, 0) else None
      ensures written == env.outputWritten
      // a revision it discharges is the one it observed, and was written with the saved context
      ensures Discharges(env, observed) && Discharged(old(rows), run, |run| - 1, key).Some? ==>
        written && env.prepared && env.admittedAtEnd && Discharged(old(rows), run, |run| - 1, key) == observed
    {
      hide Apply, Read;
      ghost var start := rows;
      written, run, observed := false, [], None;
      var seen := None;
      if env.admittedAtStart {
        var answer := ReadPending(key, env.observeAt);
        if answer.View? && answer.state.Some? { seen := Some(answer.state.value.pendingRevision); }
        run := [Event(Op.ReadPending(key), env.observeAt)];
        ExtendRun(start, [], run);
      }
      observed := seen;
      ghost var first := run;
      Others(env.meanwhile);
      ExtendRun(start, first, env.meanwhile);
      run := first + env.meanwhile;
      assert env.admittedAtStart ==> run[..0] == first[..0];
      if !env.outputWritten { return; }
      written := true;
      if env.prepared && seen.Some? && env.admittedAtEnd {
        var answer := SatisfyFromSessionStart(key, seen.value, env.satisfyAt);
        ghost var step := [Event(Op.SatisfyFromSessionStart(key, seen.value), env.satisfyAt)];
        ExtendRun(start, run, step);
        assert (run + step)[..0] == run[..0];
        run := run + step;
      }
    }

    /** The compaction hook marks, if it is admitted, and does nothing else to any row; then it writes. */
    method PostCompact(key: string, admitted: bool, at: int, outputWritten: bool)
        returns (marked: Option<int>, written: bool)
      modifies this
      ensures rows == if admitted then Apply(old(rows), Op.MarkPending(key), at).rows else old(rows)
      ensures forall revision :: marked == Some(revision) <==>
        admitted && Apply(old(rows), Op.MarkPending(key), at).outcome == Marked(revision)
      ensures written <==> outputWritten && (admitted ==> marked.Some?)
      ensures marked.Some? ==>
        && Pending(Read(rows, key, at)) && Read(rows, key, at).value.pendingRevision == marked.value
    {
      hide Apply, Decode, Encode, Write;
      marked, written := None, false;
      if admitted {
        TransactionEffect(rows, Op.MarkPending(key), at);
        var answer := MarkPending(key, at);
        if !answer.Marked? { return; }
        marked := Some(answer.revision);
      }
      written := outputWritten;
    }
  }

  datatype PromptEnvironment = PromptEnvironment(
    admittedAtStart: bool, claimAt: int, whilePreparing: Run, prepared: bool,
    admittedBeforeOutput: bool, checkAt: int, whileWriting: Run, outputWritten: bool,
    admittedAtEnd: bool, ackAt: int, releaseAt: int)

  datatype SessionEnvironment = SessionEnvironment(
    admittedAtStart: bool, observeAt: int, meanwhile: Run, prepared: bool, outputWritten: bool,
    admittedAtEnd: bool, satisfyAt: int)

  /** What the prompt hook and the others do after its claim. */
  function UnderClaim(key: string, claim: Claim, env: PromptEnvironment, emits: bool): Run {
    env.whilePreparing
    + (if env.prepared && env.admittedBeforeOutput then [Event(Op.CanEmit(key, claim), env.checkAt)] else [])
    + (if emits then env.whileWriting else [])
    + (if emits && env.outputWritten && env.admittedAtEnd then [Event(Op.MarkEmitted(key, claim), env.ackAt)] else [])
    + [Event(Op.ReleaseClaim(key, claim), env.releaseAt)]
  }

  /** The stages of the prompt hook that happened, in order; `claim` and `emits` are what came of them. */
  function PromptRun(request: Op, env: PromptEnvironment, claim: Option<Claim>, emits: bool): Run {
    if !env.admittedAtStart then []
    else
      [Event(request, env.claimAt)]
      + (if claim.Some? then UnderClaim(request.key, claim.value, env, emits) else [])
  }

  /** Where the hook's own steps after its claim are, `n` steps into the run. */
  function StepsUnderClaim(n: nat, env: PromptEnvironment, emits: bool): set<nat> {
    var check := n + |env.whilePreparing|;
    var next := check + if env.prepared && env.admittedBeforeOutput then 1 else 0;
    var ack := next + if emits then |env.whileWriting| else 0;
    var acks := emits && env.outputWritten && env.admittedAtEnd;
    (if env.prepared && env.admittedBeforeOutput then {check} else {})
    + (if acks then {ack} else {})
    + {if acks then ack + 1 else ack}
  }

  function PromptSteps(env: PromptEnvironment, claim: Option<Claim>, emits: bool): set<nat> {
    if !env.admittedAtStart then {}
    else {0} + if claim.Some? then StepsUnderClaim(1, env, emits) else {}
  }

  /** A readable record stays so over step `i`, still pending for the same; it delivers `written` or what it did. */
  ghost predicate RevisionsStand(rows: Rows, run: Run, i: nat, key: string, written: Option<int>)
    requires i < |run|
  {
    var s, t := Read(Before(rows, run, i), key, run[i].at), Read(Before(rows, run, i + 1), key, run[i].at);
    s.Some? ==>
      && t.Some? && t.value.pendingRevision == s.value.pendingRevision
      && (t.value.deliveredRevision == s.value.deliveredRevision || Some(t.value.deliveredRevision) == written)
  }

  lemma OwnStepsStand(rows: Rows, run: Run, i: nat, key: string, written: Option<int>)
    requires i < |run| && !run[i].op.MarkPending?
    requires Discharged(rows, run, i, key).Some? ==> written == Discharged(rows, run, i, key)
    ensures RevisionsStand(rows, run, i, key, written)
  {
    hide Apply, Read, Discharged;
    RevisionsMove(rows, run, i, key);
  }

  predicate Discharges(env: SessionEnvironment, observed: Option<int>) {
    env.outputWritten && env.prepared && observed.Some? && env.admittedAtEnd
  }

  function SessionRun(key: string, env: SessionEnvironment, observed: Option<int>): Run {
    (if env.admittedAtStart then [Event(Op.ReadPending(key), env.observeAt)] else [])
    + env.meanwhile
    + (if Discharges(env, observed) then [Event(Op.SatisfyFromSessionStart(key, observed.value), env.satisfyAt)]
       else [])
  }

  lemma {:induction false} AfterConcat(rows: Rows, a: Run, b: Run)
    ensures After(rows, a + b) == After(After(rows, a), b)
  {
    hide Apply;
    if b == [] {
      assert a + b == a;
    } else {
      var n := |b| - 1;
      assert (a + b)[..|a + b| - 1] == a + b[..n];
      AfterConcat(rows, a, b[..n]);
    }
  }

  /** Extending a run keeps the outcomes of its steps and carries on from its final rows. */
  lemma ExtendRun(rows: Rows, a: Run, b: Run)
    ensures After(rows, a + b) == After(After(rows, a), b)
    ensures forall i | 0 <= i < |a| :: OutcomeAt(rows, a + b, i) == OutcomeAt(rows, a, i)
    ensures |b| == 1 ==>
      && After(rows, a + b) == Apply(After(rows, a), b[0].op, b[0].at).rows
      && OutcomeAt(rows, a + b, |a|) == Apply(After(rows, a), b[0].op, b[0].at).outcome
  {
    hide Apply;
    AfterConcat(rows, a, b);
    forall i | 0 <= i < |a| ensures OutcomeAt(rows, a + b, i) == OutcomeAt(rows, a, i) {
      assert (a + b)[..i] == a[..i];
    }
    if |b| == 1 {
      assert b[..0] == [];
      assert (a + b)[..|a|] == a;
    }
  }

  /** What a participant calls after its claim. */
  predicate OwnOp(op: Op) { !op.ClaimPending? && !op.MarkPending? }

  /** `run` goes on from `before`; the participant's own later steps are `own`, all on its scope. */
  ghost predicate Continues(start: Rows, before: Run, run: Run, own: set<nat>, key: string) {
    && |before| <= |run| && run[..|before|] == before
    && (forall i | 0 <= i < |before| :: OutcomeAt(start, run, i) == OutcomeAt(start, before, i))
    && (forall i | i in own :: |before| <= i < |run| && run[i].op.key == key && OwnOp(run[i].op))
  }

  lemma NothingYet(start: Rows, before: Run, key: string)
    ensures Continues(start, before, before, {}, key)
  {
  }

  /** `run` and its extension agree on every step of `run`. */
  ghost predicate Agree(start: Rows, run: Run, longer: Run, key: string) {
    && |run| <= |longer| && longer[..|run|] == run
    && (forall i | 0 <= i < |run| :: OutcomeAt(start, longer, i) == OutcomeAt(start, run, i))
    && (forall i | 0 <= i < |run| :: Discharged(start, longer, i, key) == Discharged(start, run, i, key))
  }

  lemma LongerAgrees(start: Rows, run: Run, more: Run, key: string)
    ensures Agree(start, run, run + more, key)
  {
    hide Apply, After, OutcomeAt;
    ExtendRun(start, run, more);
    assert (run + more)[..|run|] == run;
    forall i | 0 <= i < |run| ensures Discharged(start, run + more, i, key) == Discharged(start, run, i, key) {
      assert (run + more)[i] == run[i];
    }
  }

  lemma ContinuesLonger(start: Rows, before: Run, run: Run, own: set<nat>, key: string, more: Run)
    requires Continues(start, before, run, own, key)
    ensures Continues(start, before, run + more, own, key)
  {
    hide After, OutcomeAt, Discharged;
    LongerAgrees(start, run, more, key);
    assert (run + more)[..|before|] == run[..|before|];
    assert forall i | 0 <= i < |run| :: (run + more)[i] == run[i];
  }

  lemma StepsOfOthers(start: Rows, before: Run, run: Run, own: set<nat>, key: string, others: Run)
    requires Continues(start, before, run, own, key)
    ensures Continues(start, before, run + others, own, key)
    ensures After(start, run + others) == After(After(start, run), others)
    ensures Agree(start, run, run + others, key)
  {
    hide Apply, After, OutcomeAt, Continues, Agree;
    ExtendRun(start, run, others);
    LongerAgrees(start, run, others, key);
    ContinuesLonger(start, before, run, own, key, others);
  }

  lemma OwnStep(start: Rows, before: Run, run: Run, own: set<nat>, key: string, e: Event)
    requires Continues(start, before, run, own, key) && e.op.key == key && OwnOp(e.op)
    ensures Continues(start, before, run + [e], own + {|run|}, key)
    ensures Agree(start, run, run + [e], key)
    ensures After(start, run + [e]) == Apply(After(start, run), e.op, e.at).rows
    ensures OutcomeAt(start, run + [e], |run|) == Apply(After(start, run), e.op, e.at).outcome
    ensures Discharged(start, run + [e], |run|, key).Some? ==> e.op.MarkEmitted? || e.op.SatisfyFromSessionStart?
    ensures e.op.MarkEmitted? && Discharged(start, run + [e], |run|, key).Some? ==>
      Discharged(start, run + [e], |run|, key).value == e.op.held.revision
  {
    hide Apply, After, OutcomeAt, Agree;
    ExtendRun(start, run, [e]);
    LongerAgrees(start, run, [e], key);
    ContinuesLonger(start, before, run, own, key, [e]);
  }

  lemma NothingDone(rows: Rows)
    ensures After(rows, []) == rows
  {
  }

  lemma FirstStep(start: Rows, e: Event, key: string)
    requires e.op.ClaimPending?
    ensures After(start, [e]) == Apply(start, e.op, e.at).rows
    ensures Issued(start, [e], 0)
      == if Apply(start, e.op, e.at).outcome.Claimed? then Apply(start, e.op, e.at).outcome.claim else None
    ensures Discharged(start, [e], 0, key).None?
  {
    hide Apply;
    ExtendRun(start, [], [e]);
    assert [e][..0] == [];
  }

  /** The claim that began a run keeps its outcome as the run goes on, and discharges nothing. */
  lemma ClaimStandsFirst(start: Rows, e: Event, run: Run, own: set<nat>, key: string)
    requires Continues(start, [e], run, own, key) && e.op.ClaimPending?
    ensures |run| > 0 && run[0] == e && Issued(start, run, 0) == Issued(start, [e], 0)
      && Discharged(start, run, 0, key).None?
    ensures forall i | i in own :: i < |run| && run[i].op.key == key && !run[i].op.MarkPending?
  {
    hide Apply, After, OutcomeAt;
    assert run[..1][0] == e;
    assert OutcomeAt(start, run, 0) == OutcomeAt(start, [e], 0);
  }

  /** The stages one after another are the run under the claim, and the hook's own places in it. */
  lemma StagesJoin(before: Run, key: string, claim: Claim, env: PromptEnvironment, emits: bool)
    requires emits ==> env.prepared && env.admittedBeforeOutput
    ensures var c, w := [Event(Op.CanEmit(key, claim), env.checkAt)], env.whileWriting;
      var a := [Event(Op.MarkEmitted(key, claim), env.ackAt)];
      var z := [Event(Op.ReleaseClaim(key, claim), env.releaseAt)];
      var start, n := before + env.whilePreparing, |before| + |env.whilePreparing|;
      && before + UnderClaim(key, claim, env, emits)
        == (if !env.prepared || !env.admittedBeforeOutput then start + z
            else if !emits then start + c + z
            else if !env.outputWritten || !env.admittedAtEnd then start + c + w + z
            else start + c + w + a + z)
      && StepsUnderClaim(|before|, env, emits)
        == (if !env.prepared || !env.admittedBeforeOutput then {} + {n}
            else if !emits then {} + {n} + {n + 1}
            else if !env.outputWritten || !env.admittedAtEnd then {} + {n} + {n + 1 + |w|}
            else {} + {n} + {n + 1 + |w|} + {n + 2 + |w|})
  {
  }

  lemma ReleaseEnds(rows: Rows, key: string, claim: Claim, at: int)
    ensures GoodTime(at) ==> !OwnsClaim(Read(Apply(rows, ReleaseClaim(key, claim), at).rows, key, at), claim)
  {
    hide Apply, Decode, Encode, Write;
    TransactionEffect(rows, ReleaseClaim(key, claim), at);
  }
}
