/**
 * What holds over every interleaving of the context-restore operations: a run is any sequence of
 * atomic steps, by any participants on any scopes, at times that never go back.
 */
module RestoreRuns {
  import opened Wrappers
  import opened Characters
  import opened ContextRestore
  import opened RestoreProtocol

  datatype Event = Event(op: Op, at: int)

  type Run = seq<Event>

  function After(rows: Rows, run: Run): Rows {
    if run == [] then rows
    else Apply(After(rows, run[..|run| - 1]), run[|run| - 1].op, run[|run| - 1].at).rows
  }

  /** The rows just before step `i`. */
  function Before(rows: Rows, run: Run, i: nat): Rows
    requires i <= |run|
  {
    After(rows, run[..i])
  }

  function OutcomeAt(rows: Rows, run: Run, i: nat): Outcome
    requires i < |run|
  {
    Apply(Before(rows, run, i), run[i].op, run[i].at).outcome
  }

  ghost predicate Clocked(run: Run) {
    forall i, j | 0 <= i < j < |run| :: run[i].at <= run[j].at
  }

  ghost predicate FreshClaimIds(run: Run) {
    forall i, j | 0 <= i < j < |run| && run[i].op.ClaimPending? && run[j].op.ClaimPending? ::
      run[i].op.claimId != run[j].op.claimId
  }

  lemma BeforeNext(rows: Rows, run: Run, i: nat)
    requires i < |run|
    ensures Before(rows, run, i + 1) == Apply(Before(rows, run, i), run[i].op, run[i].at).rows
  {
    assert run[..i + 1][..i] == run[..i];
  }

  /** The claim handed out at step `i`, if that step handed one out. */
  function Issued(rows: Rows, run: Run, i: nat): Option<Claim>
    requires i < |run|
  {
    match OutcomeAt(rows, run, i)
    case Claimed(c) => c
    case _ => None
  }

  /** The revision discharged at step `i` for a scope. */
  function Discharged(rows: Rows, run: Run, i: nat, key: string): Option<int>
    requires i < |run|
  {
    if run[i].op.key != key || OutcomeAt(rows, run, i) != Answer(true) then None
    else match run[i].op
      case MarkEmitted(_, held) => Some(held.revision)
      case SatisfyFromSessionStart(_, observed) => Some(observed)
      case _ => None
  }

  // ---------- the self-check ----------

  /** No record in the table was written later than `at`. */
  ghost predicate WrittenBy(rows: Rows, at: int) {
    forall k | k in rows && Decode(rows[k]).Some? :: Decode(rows[k]).value.updatedAt <= at
  }

  lemma StepKeepsWrittenBy(rows: Rows, op: Op, at: int)
    requires WrittenBy(rows, at)
    ensures WrittenBy(Apply(rows, op, at).rows, at)
    ensures Apply(rows, op, at).outcome != Failed(InvalidRecord)
    ensures Apply(rows, op, at).outcome != Failed(MarkChangedConcurrently)
  {
    hide Apply, Write, Decode, Encode;
    TransactionEffect(rows, op, at);
    if Precheck(op).None? && GoodTime(at) {
      DecisionsKeepRecordsValid(Read(rows, op.key, at), op, at);
    }
  }

  /** In every run the self-check inside `write` accepts every record the store produces. */
  lemma {:induction false} SelfCheckNeverRejects(rows: Rows, run: Run, start: int, i: nat)
    requires Clocked(run) && WrittenBy(rows, start) && i < |run| && start <= run[0].at
    ensures OutcomeAt(rows, run, i) !in {Failed(InvalidRecord), Failed(MarkChangedConcurrently)}
    ensures WrittenBy(Before(rows, run, i + 1), run[i].at)
  {
    hide Apply;
    if i == 0 {
      assert run[..0] == [];
    } else {
      SelfCheckNeverRejects(rows, run, start, i - 1);
      assert run[i - 1].at <= run[i].at;
    }
    BeforeNext(rows, run, i);
    StepKeepsWrittenBy(Before(rows, run, i), run[i].op, run[i].at);
  }

  // ---------- exclusive delivery ----------

  lemma IssuedShape(rows: Rows, run: Run, i: nat)
    requires i < |run| && Issued(rows, run, i).Some?
    ensures run[i].op.ClaimPending? && GoodTime(run[i].at)
    ensures var c := Issued(rows, run, i).value; var s := Read(Before(rows, run, i), run[i].op.key, run[i].at);
      && c.claimId == run[i].op.claimId && c.expiresAt == run[i].at + CLAIM_MS && ValidClaim(c)
      && Pending(s) && c.revision == s.value.pendingRevision
      && Read(Before(rows, run, i + 1), run[i].op.key, run[i].at)
           == Some(Refresh(s.value.(claim := Some(c)), run[i].at))
  {
    hide Apply, Write, Decode, Encode;
    BeforeNext(rows, run, i);
    var now, op, at := Before(rows, run, i), run[i].op, run[i].at;
    TransactionEffect(now, op, at);
  }

  /** At any moment at most one of the claims ever handed out for a scope passes `canEmit`. */
  lemma ExclusiveDelivery(rows: Rows, run: Run, i: nat, j: nat, now: Rows, at: int)
    requires FreshClaimIds(run) && i < j < |run|
    requires Issued(rows, run, i).Some? && Issued(rows, run, j).Some? && run[i].op.key == run[j].op.key
    ensures var key := run[i].op.key;
      !(Apply(now, CanEmit(key, Issued(rows, run, i).value), at).outcome == Answer(true)
        && Apply(now, CanEmit(key, Issued(rows, run, j).value), at).outcome == Answer(true))
  {
    hide After, Write, Decode, Encode;
    IssuedShape(rows, run, i);
    IssuedShape(rows, run, j);
  }

  // ---------- exclusive delivery over time ----------

  /** Until the lease ends the claim is the scope's, or its revision is no longer the one to claim. */
  ghost predicate Taken(rows: Rows, key: string, c: Claim, at: int) {
    at < c.expiresAt ==>
      var s := Read(rows, key, at);
      && s.Some? && c.expiresAt <= s.value.expiresAt && c.expiresAt <= at + RECORD_MS
      && (s.value.claim == Some(c) || s.value.pendingRevision > c.revision || s.value.deliveredRevision >= c.revision)
  }

  lemma TakenStep(rows: Rows, op: Op, at: int, key: string, c: Claim, earlier: int)
    requires earlier <= at && Taken(rows, key, c, earlier)
    requires !(op == ReleaseClaim(key, c) && Apply(rows, op, at).outcome == Answer(true))
    ensures Taken(Apply(rows, op, at).rows, key, c, at)
  {
    hide Apply, Write, Decode, Encode;
    if key != op.key {
      OtherScopes(rows, op, at, key, at);
    } else {
      TransactionEffect(rows, op, at);
    }
  }

  /** The holder gave its claim back at step `m`. */
  ghost predicate ReleasedAt(rows: Rows, run: Run, m: nat, key: string, c: Claim)
    requires m < |run|
  {
    run[m].op == ReleaseClaim(key, c) && OutcomeAt(rows, run, m) == Answer(true)
  }

  lemma {:induction false} TakenHolds(rows: Rows, run: Run, i: nat, j: nat)
    requires Clocked(run) && i < j <= |run| && Issued(rows, run, i).Some?
    requires forall m | i < m < j :: !ReleasedAt(rows, run, m, run[i].op.key, Issued(rows, run, i).value)
    ensures Taken(Before(rows, run, j), run[i].op.key, Issued(rows, run, i).value, run[j - 1].at)
    decreases j
  {
    hide Apply, Read;
    if j == i + 1 {
      IssuedShape(rows, run, i);
    } else {
      TakenHolds(rows, run, i, j - 1);
      BeforeNext(rows, run, j - 1);
      assert run[j - 2].at <= run[j - 1].at;
      assert !ReleasedAt(rows, run, j - 1, run[i].op.key, Issued(rows, run, i).value);
      TakenStep(Before(rows, run, j - 1), run[j - 1].op, run[j - 1].at, run[i].op.key, Issued(rows, run, i).value,
                run[j - 2].at);
    }
  }

  /**
   * A revision is handed out again only after the first claim's lease has ended or been given back: an
   * earlier second claim of the scope is for a later revision.
   */
  lemma SecondClaim(rows: Rows, run: Run, i: nat, j: nat)
    requires Clocked(run) && i < j < |run|
    requires Issued(rows, run, i).Some? && Issued(rows, run, j).Some? && run[i].op.key == run[j].op.key
    ensures var c, d := Issued(rows, run, i).value, Issued(rows, run, j).value;
      || c.revision < d.revision
      || c.expiresAt <= run[j].at
      || exists m | i < m < j :: ReleasedAt(rows, run, m, run[i].op.key, c)
  {
    hide Apply, ReleasedAt;
    var c, d := Issued(rows, run, i).value, Issued(rows, run, j).value;
    if run[j].at < c.expiresAt && forall m | i < m < j :: !ReleasedAt(rows, run, m, run[i].op.key, c) {
      IssuedShape(rows, run, j);
      TakenHolds(rows, run, i, j);
      assert run[j - 1].at <= run[j].at;
      ClaimOfTaken(Before(rows, run, j), run[j].op, run[j].at, c, run[j - 1].at, d);
    }
  }

  lemma ClaimOfTaken(now: Rows, op: Op, at: int, c: Claim, earlier: int, d: Claim)
    requires op.ClaimPending? && earlier <= at < c.expiresAt && Taken(now, op.key, c, earlier)
    requires Apply(now, op, at).outcome == Claimed(Some(d))
    ensures c.revision < d.revision
  {
    hide Apply, Write, Decode, Encode;
    TransactionEffect(now, op, at);
  }

  /** While a claim that will be acknowledged is out, no other claim of its scope passes `canEmit`. */
  lemma AckExcludesOthers(rows: Rows, run: Run, i: nat, m: nat, k: nat, j: nat, at: int)
    requires FreshClaimIds(run) && i < m <= k < |run| && j < |run| && j != i
    requires Issued(rows, run, i).Some? && Issued(rows, run, j).Some? && run[i].op.key == run[j].op.key
    requires run[k].op == MarkEmitted(run[i].op.key, Issued(rows, run, i).value)
      && OutcomeAt(rows, run, k) == Answer(true)
    ensures Apply(Before(rows, run, m), CanEmit(run[i].op.key, Issued(rows, run, j).value), at).outcome != Answer(true)
  {
    hide Apply, After;
    var key, c, d := run[i].op.key, Issued(rows, run, i).value, Issued(rows, run, j).value;
    IssuedShape(rows, run, i);
    IssuedShape(rows, run, j);
    if Apply(Before(rows, run, m), CanEmit(key, d), at).outcome == Answer(true) {
      EmittingIsStored(Before(rows, run, m), key, d, at, c.claimId);
      StaysUnclaimed(rows, run, key, i, m, k);
      NoAckUnclaimed(Before(rows, run, k), key, c, run[k].at);
    }
  }

  lemma EmittingIsStored(now: Rows, key: string, d: Claim, at: int, other: string)
    requires Apply(now, CanEmit(key, d), at).outcome == Answer(true) && d.claimId != other
    ensures Unclaimed(now, key, other)
  {
    hide Apply, Write, Encode;
    TransactionEffect(now, CanEmit(key, d), at);
  }

  lemma NoAckUnclaimed(now: Rows, key: string, c: Claim, at: int)
    requires Unclaimed(now, key, c.claimId)
    ensures Apply(now, MarkEmitted(key, c), at).outcome != Answer(true)
  {
    hide Apply, Write, Decode, Encode;
    TransactionEffect(now, MarkEmitted(key, c), at);
  }

  // ---------- what each step moves ----------

  /**
   * A step answers yes, or hands out or marks something, exactly on these records; a valid record holds no
   * claim but one for its pending, undelivered revision.
   */
  lemma AnswersIff(rows: Rows, op: Op, at: int)
    requires GoodTime(at)
    ensures var s := Read(rows, op.key, at); var out := Apply(rows, op, at).outcome;
      match op
      case ReadState(_) => out == View(s)
      case ReadPending(_) => out == View(if Pending(s) then s else None)
      case MarkPending(_) =>
        var next := (if s.Some? then s.value.pendingRevision else 0) + 1;
        out == if next <= MAX_SAFE_INTEGER then Marked(next) else Failed(RevisionExhausted)
      case ClaimPending(_, _, _, _) =>
        && ((out.Claimed? && out.claim.Some?) <==>
              WellSpoken(op) && Pending(s) && (s.value.claim.Some? ==> s.value.claim.value.expiresAt <= at))
        && (out.Claimed? && out.claim.Some? ==>
              out.claim.value == Claim(s.value.pendingRevision, op.claimId, op.turnIdHash, at + CLAIM_MS))
      case CanEmit(_, held) => out == Answer(s.Some? && s.value.claim == Some(held) && at < held.expiresAt)
      case MarkEmitted(_, held) => out == Answer(s.Some? && s.value.claim == Some(held) && at < held.expiresAt)
      case ReleaseClaim(_, held) => out == Answer(s.Some? && s.value.claim == Some(held))
      case SatisfyFromSessionStart(_, observed) =>
        (s.Some? ==> s.value.updatedAt <= at) ==>
          out == Answer(s.Some? && s.value.deliveredRevision < observed <= s.value.pendingRevision)
  {
    hide Apply, Write, Decode, Encode, NotBlank, IsHash, Utf8Bytes;
    TransactionEffect(rows, op, at);
  }

  /**
   * Over one step of any run: a readable record stays readable, only a mark raises what is pending, and
   * what is delivered changes only where a revision is discharged, to that revision.
   */
  lemma RevisionsMove(rows: Rows, run: Run, i: nat, key: string)
    requires i < |run|
    ensures var s := Read(Before(rows, run, i), key, run[i].at);
      var t := Read(Before(rows, run, i + 1), key, run[i].at);
      var marks := run[i].op == MarkPending(key) && OutcomeAt(rows, run, i).Marked?;
      && (s.Some? ==>
            && t.Some?
            && t.value.pendingRevision == s.value.pendingRevision + (if marks then 1 else 0)
            && t.value.deliveredRevision
                 == match Discharged(rows, run, i, key) case Some(r) => r case None => s.value.deliveredRevision)
      && (s.None? && t.Some? ==> StartsRecord(rows, run, i, key) && t.value.deliveredRevision == 0)
  {
    hide Apply, Write, Decode, Encode;
    BeforeNext(rows, run, i);
    var now, op, at := Before(rows, run, i), run[i].op, run[i].at;
    if key == op.key { TransactionEffect(now, op, at); } else { OtherScopes(now, op, at, key, at); }
  }

  /**
   * The same for the claim and the last turn served: a claim comes only from a request that obtains it, and
   * goes with a mark, its acknowledgement, its release, or a discharge of its revision.
   */
  lemma ClaimMoves(rows: Rows, run: Run, i: nat, key: string)
    requires i < |run| && Read(Before(rows, run, i), key, run[i].at).Some?
    ensures var s := Read(Before(rows, run, i), key, run[i].at);
      var t := Read(Before(rows, run, i + 1), key, run[i].at);
      var op, yes := run[i].op, run[i].op.key == key && OutcomeAt(rows, run, i) == Answer(true);
      && t.Some?
      && t.value.claim
           == (if op.key == key && Issued(rows, run, i).Some? then Issued(rows, run, i)
               else if op == MarkPending(key) && OutcomeAt(rows, run, i).Marked? then None
               else if yes && (op.MarkEmitted? || op.ReleaseClaim?) then None
               else if yes && op.SatisfyFromSessionStart? && op.observed == s.value.pendingRevision then None
               else s.value.claim)
      && t.value.deliveredTurnIdHash
           == (if yes && op.MarkEmitted? then Some(op.held.turnIdHash)
               else if yes && op.SatisfyFromSessionStart? then None
               else s.value.deliveredTurnIdHash)
      && (t == s || (t.value.updatedAt == run[i].at && t.value.expiresAt == run[i].at + RECORD_MS))
  {
    hide Apply, Write, Decode, Encode;
    BeforeNext(rows, run, i);
    var now, op, at := Before(rows, run, i), run[i].op, run[i].at;
    if key == op.key { TransactionEffect(now, op, at); } else { OtherScopes(now, op, at, key, at); }
  }

  /** Where the scope is readable, the revision is marked and not yet delivered. */
  ghost predicate Undelivered(rows: Rows, key: string, revision: int, at: int) {
    Read(rows, key, at).Some? ==>
      Read(rows, key, at).value.deliveredRevision < revision <= Read(rows, key, at).value.pendingRevision
  }

  lemma UndeliveredStep(rows: Rows, run: Run, key: string, revision: int, j: nat)
    requires Clocked(run) && 0 < j < |run| && !StartsRecord(rows, run, j, key)
    requires Undelivered(Before(rows, run, j), key, revision, run[j - 1].at)
    requires Discharged(rows, run, j, key).Some? ==> Discharged(rows, run, j, key).value < revision
    ensures Undelivered(Before(rows, run, j + 1), key, revision, run[j].at)
  {
    hide Apply, Discharged, StartsRecord;
    assert run[j - 1].at <= run[j].at;
    RevisionsMove(rows, run, j, key);
  }

  /**
   * A marked revision is never lost: while its record lives, the scope stays pending for it until some
   * step, the acknowledgement of a claim or of an observation, discharges that revision or a later one.
   */
  lemma {:induction false} PendingUntilDischarged(rows: Rows, run: Run, i: nat, j: nat)
    requires Clocked(run) && i < j <= |run| && OutcomeAt(rows, run, i).Marked?
    requires forall m | i < m < j :: !StartsRecord(rows, run, m, run[i].op.key)
    requires forall m | i < m < j :: Discharged(rows, run, m, run[i].op.key).Some? ==>
      Discharged(rows, run, m, run[i].op.key).value < OutcomeAt(rows, run, i).revision
    ensures Undelivered(Before(rows, run, j), run[i].op.key, OutcomeAt(rows, run, i).revision, run[j - 1].at)
    decreases j
  {
    hide Apply, Discharged, StartsRecord;
    if j == i + 1 {
      MarkedIsPending(rows, run, i);
    } else {
      PendingUntilDischarged(rows, run, i, j - 1);
      UndeliveredStep(rows, run, run[i].op.key, OutcomeAt(rows, run, i).revision, j - 1);
    }
  }

  /** A release takes the claim off the record and leaves both revisions: what was claimed is still pending. */
  lemma ReleasedIsPending(rows: Rows, key: string, held: Claim, at: int)
    requires Apply(rows, ReleaseClaim(key, held), at).outcome == Answer(true)
    ensures var s, t := Read(rows, key, at), Read(Apply(rows, ReleaseClaim(key, held), at).rows, key, at);
      && s.Some? && t.Some? && Pending(t) && t.value.claim.None?
      && t.value.pendingRevision == s.value.pendingRevision == held.revision
      && t.value.deliveredRevision == s.value.deliveredRevision
  {
    hide Apply, Write, Decode, Encode, NotBlank, IsHash, Utf8Bytes;
    TransactionEffect(rows, ReleaseClaim(key, held), at);
  }

  /** A released claim leaves its revision pending, and the next request is issued a claim for that very revision. */
  lemma ReleaseLeavesPending(rows: Rows, key: string, held: Claim, at: int, again: Op)
    requires Apply(rows, ReleaseClaim(key, held), at).outcome == Answer(true)
    requires WellSpoken(again) && again.key == key
    ensures var after := Apply(rows, ReleaseClaim(key, held), at).rows; var s := Read(after, key, at);
      var next := Apply(after, again, at).outcome;
      && Pending(s) && s.value.pendingRevision == held.revision
      && next == Claimed(Some(Claim(held.revision, again.claimId, again.turnIdHash, at + CLAIM_MS)))
  {
    hide Apply, Write, Decode, Encode, NotBlank, IsHash, Utf8Bytes;
    TransactionEffect(rows, ReleaseClaim(key, held), at);
    AnswersIff(Apply(rows, ReleaseClaim(key, held), at).rows, again, at);
  }

  // ---------- once only ----------

  /** Whatever record of the scope is still readable at `at` has delivered at least `revision`. */
  ghost predicate Floor(rows: Rows, key: string, revision: int, at: int) {
    Read(rows, key, at).Some? ==> revision <= Read(rows, key, at).value.deliveredRevision
  }

  /** A step that starts a new record: marking a scope that had no readable record. */
  ghost predicate StartsRecord(rows: Rows, run: Run, i: nat, key: string)
    requires i < |run|
  {
    run[i].op == MarkPending(key) && OutcomeAt(rows, run, i) == Marked(1)
  }

  lemma FloorStep(rows: Rows, op: Op, key: string, revision: int, earlier: int, at: int)
    requires earlier <= at && Floor(rows, key, revision, earlier)
    requires !(op == MarkPending(key) && Apply(rows, op, at).outcome == Marked(1))
    ensures Floor(Apply(rows, op, at).rows, key, revision, at)
  {
    hide Apply, Write, Decode, Encode;
    if key != op.key {
      OtherScopes(rows, op, at, key, at);
    } else {
      TransactionEffect(rows, op, at);
    }
  }

  lemma FloorAt(rows: Rows, run: Run, key: string, revision: int, j: nat)
    requires Clocked(run) && 0 < j < |run|
    requires Floor(Before(rows, run, j), key, revision, run[j - 1].at)
    requires !StartsRecord(rows, run, j, key)
    ensures Floor(Before(rows, run, j + 1), key, revision, run[j].at)
  {
    hide Apply;
    assert run[j - 1].at <= run[j].at;
    BeforeNext(rows, run, j);
    FloorStep(Before(rows, run, j), run[j].op, key, revision, run[j - 1].at, run[j].at);
  }

  lemma {:induction false} FloorHolds(rows: Rows, run: Run, key: string, revision: int, i: nat, j: nat)
    requires Clocked(run) && i < j <= |run|
    requires Floor(Before(rows, run, i + 1), key, revision, run[i].at)
    requires forall m | i < m < j :: !StartsRecord(rows, run, m, key)
    ensures Floor(Before(rows, run, j), key, revision, run[j - 1].at)
    decreases j
  {
    hide Apply;
    if j > i + 1 {
      FloorHolds(rows, run, key, revision, i, j - 1);
      FloorAt(rows, run, key, revision, j - 1);
    }
  }

  lemma DischargeEffect(rows: Rows, run: Run, i: nat, key: string)
    requires i < |run| && Discharged(rows, run, i, key).Some?
    ensures var r := Discharged(rows, run, i, key).value;
      var s, t := Read(Before(rows, run, i), key, run[i].at), Read(Before(rows, run, i + 1), key, run[i].at);
      && s.Some? && s.value.deliveredRevision < r <= s.value.pendingRevision
      && t.Some? && t.value.deliveredRevision == r && t.value.pendingRevision == s.value.pendingRevision
  {
    hide Apply, Write, Decode, Encode;
    BeforeNext(rows, run, i);
    TransactionEffect(Before(rows, run, i), run[i].op, run[i].at);
  }

  /** Within one record's lifetime discharges strictly rise, so no revision is discharged twice. */
  lemma OnceOnly(rows: Rows, run: Run, key: string, i: nat, j: nat)
    requires Clocked(run) && i < j < |run|
    requires Discharged(rows, run, i, key).Some? && Discharged(rows, run, j, key).Some?
    requires forall m | i < m < j :: !StartsRecord(rows, run, m, key)
    ensures Discharged(rows, run, i, key).value < Discharged(rows, run, j, key).value
  {
    hide Apply;
    var r := Discharged(rows, run, i, key).value;
    DischargeEffect(rows, run, i, key);
    DischargeEffect(rows, run, j, key);
    FloorHolds(rows, run, key, r, i, j);
    assert run[j - 1].at <= run[j].at;
  }

  // ---------- never lost: prompt submission ----------

  /** The claim id does not appear in the scope's stored record, expired or not. */
  ghost predicate Unclaimed(rows: Rows, key: string, claimId: string) {
    key in rows && Decode(rows[key]).Some? && Decode(rows[key]).value.claim.Some?
    ==> Decode(rows[key]).value.claim.value.claimId != claimId
  }

  lemma UnclaimedStep(rows: Rows, op: Op, at: int, key: string, claimId: string)
    requires Unclaimed(rows, key, claimId)
    requires op.ClaimPending? ==> op.claimId != claimId
    ensures Unclaimed(Apply(rows, op, at).rows, key, claimId)
  {
    hide Apply, Write, Decode, Encode;
    TransactionEffect(rows, op, at);
  }

  lemma {:induction false} StaysUnclaimed(rows: Rows, run: Run, key: string, h: nat, i: nat, j: nat)
    requires FreshClaimIds(run) && h < i <= j <= |run| && run[h].op.ClaimPending?
    requires Unclaimed(Before(rows, run, i), key, run[h].op.claimId)
    ensures Unclaimed(Before(rows, run, j), key, run[h].op.claimId)
    decreases j
  {
    hide Apply;
    if i < j {
      StaysUnclaimed(rows, run, key, h, i, j - 1);
      BeforeNext(rows, run, j - 1);
      UnclaimedStep(Before(rows, run, j - 1), run[j - 1].op, run[j - 1].at, key, run[h].op.claimId);
    }
  }

  lemma MarkUnclaims(rows: Rows, op: Op, at: int, claimId: string)
    requires op.MarkPending? && Apply(rows, op, at).outcome.Marked?
    ensures Unclaimed(Apply(rows, op, at).rows, op.key, claimId)
  {
    hide Apply, Write, Decode, Encode;
    TransactionEffect(rows, op, at);
  }

  /** The three calls a prompt participant makes with its claim. */
  predicate CallsWith(op: Op, key: string, held: Claim) {
    op in {CanEmit(key, held), MarkEmitted(key, held), ReleaseClaim(key, held)}
  }

  lemma UnclaimedRefuses(now: Rows, op: Op, at: int, held: Claim)
    requires CallsWith(op, op.key, held) && Unclaimed(now, op.key, held.claimId) && GoodTime(at)
    ensures Apply(now, op, at) == Step(now, Answer(false))
  {
    hide Apply, Write, Decode, Encode;
    TransactionEffect(now, op, at);
  }

  lemma MarkStaysUnclaimed(rows: Rows, run: Run, h: nat, i: nat, j: nat)
    requires FreshClaimIds(run) && h < i < j < |run| && run[h].op.ClaimPending?
    requires run[i].op == MarkPending(run[h].op.key) && OutcomeAt(rows, run, i).Marked?
    ensures Unclaimed(Before(rows, run, j), run[h].op.key, run[h].op.claimId)
  {
    hide Apply;
    BeforeNext(rows, run, i);
    MarkUnclaims(Before(rows, run, i), run[i].op, run[i].at, run[h].op.claimId);
    StaysUnclaimed(rows, run, run[h].op.key, h, i + 1, j);
  }

  /**
   * A claim taken before a revision was marked can never again emit, acknowledge or release: every
   * such call answers no and changes nothing, so the marked revision stays as pending as it was.
   */
  lemma MarkOutlivesOlderClaim(rows: Rows, run: Run, h: nat, i: nat, j: nat)
    requires FreshClaimIds(run) && h < i < j < |run|
    requires Issued(rows, run, h).Some?
    requires run[i].op == MarkPending(run[h].op.key) && OutcomeAt(rows, run, i).Marked?
    requires CallsWith(run[j].op, run[h].op.key, Issued(rows, run, h).value) && GoodTime(run[j].at)
    ensures OutcomeAt(rows, run, j) == Answer(false)
    ensures Before(rows, run, j + 1) == Before(rows, run, j)
  {
    hide Apply;
    IssuedShape(rows, run, h);
    MarkStaysUnclaimed(rows, run, h, i, j);
    BeforeNext(rows, run, j);
    UnclaimedRefuses(Before(rows, run, j), run[j].op, run[j].at, Issued(rows, run, h).value);
  }

  /** A successful mark leaves its revision readable and pending. */
  lemma MarkedIsPending(rows: Rows, run: Run, i: nat)
    requires i < |run| && OutcomeAt(rows, run, i).Marked?
    ensures var s := Read(Before(rows, run, i), run[i].op.key, run[i].at);
      var t := Read(Before(rows, run, i + 1), run[i].op.key, run[i].at);
      && Pending(t) && t.value.pendingRevision == OutcomeAt(rows, run, i).revision
      && t.value.claim.None?
      && t.value.pendingRevision == (if s.Some? then s.value.pendingRevision else 0) + 1
  {
    hide Apply, Write, Decode, Encode;
    BeforeNext(rows, run, i);
    TransactionEffect(Before(rows, run, i), run[i].op, run[i].at);
  }

  // ---------- never lost: session start ----------

  ghost predicate Ceiling(rows: Rows, key: string, revision: int, at: int) {
    Read(rows, key, at).Some? ==> revision <= Read(rows, key, at).value.pendingRevision
  }

  lemma CeilingStep(rows: Rows, op: Op, key: string, revision: int, earlier: int, at: int)
    requires earlier <= at && Ceiling(rows, key, revision, earlier)
    requires !(op == MarkPending(key) && Apply(rows, op, at).outcome == Marked(1))
    ensures Ceiling(Apply(rows, op, at).rows, key, revision, at)
  {
    hide Apply, Write, Decode, Encode;
    if key != op.key {
      OtherScopes(rows, op, at, key, at);
    } else {
      TransactionEffect(rows, op, at);
    }
  }

  lemma CeilingAt(rows: Rows, run: Run, key: string, revision: int, j: nat)
    requires Clocked(run) && 0 < j < |run|
    requires Ceiling(Before(rows, run, j), key, revision, run[j - 1].at)
    requires !StartsRecord(rows, run, j, key)
    ensures Ceiling(Before(rows, run, j + 1), key, revision, run[j].at)
  {
    hide Apply;
    assert run[j - 1].at <= run[j].at;
    BeforeNext(rows, run, j);
    CeilingStep(Before(rows, run, j), run[j].op, key, revision, run[j - 1].at, run[j].at);
  }

  lemma {:induction false} CeilingHolds(rows: Rows, run: Run, key: string, revision: int, h: nat, i: nat)
    requires Clocked(run) && h < i <= |run|
    requires Ceiling(Before(rows, run, h + 1), key, revision, run[h].at)
    requires forall m | h < m < i :: !StartsRecord(rows, run, m, key)
    ensures Ceiling(Before(rows, run, i), key, revision, run[i - 1].at)
    decreases i
  {
    hide Apply;
    if i > h + 1 {
      CeilingHolds(rows, run, key, revision, h, i - 1);
      CeilingAt(rows, run, key, revision, i - 1);
    }
  }

  /** What SessionStart saw at step `h`: the pending revision it will later offer to discharge. */
  function Observed(rows: Rows, run: Run, h: nat): Option<int>
    requires h < |run|
  {
    match OutcomeAt(rows, run, h)
    case View(s) => if run[h].op.ReadPending? && s.Some? then Some(s.value.pendingRevision) else None
    case _ => None
  }

  lemma ObservationHolds(rows: Rows, run: Run, h: nat)
    requires h < |run| && Observed(rows, run, h).Some?
    ensures Ceiling(Before(rows, run, h + 1), run[h].op.key, Observed(rows, run, h).value, run[h].at)
    ensures Observed(rows, run, h).value >= 1
  {
    hide Apply, Write, Decode, Encode;
    BeforeNext(rows, run, h);
    TransactionEffect(Before(rows, run, h), run[h].op, run[h].at);
  }

  lemma MarkExceedsCeiling(rows: Rows, run: Run, i: nat, seen: int)
    requires Clocked(run) && 0 < i < |run| && seen >= 1
    requires run[i].op.MarkPending? && OutcomeAt(rows, run, i).Marked?
    requires Ceiling(Before(rows, run, i), run[i].op.key, seen, run[i - 1].at)
    requires !StartsRecord(rows, run, i, run[i].op.key)
    ensures seen < OutcomeAt(rows, run, i).revision
  {
    MarkedIsPending(rows, run, i);
    assert run[i - 1].at <= run[i].at;
  }

  /** A revision marked in the observed record's lifetime is above the observation. */
  lemma MarkExceedsObservation(rows: Rows, run: Run, h: nat, i: nat)
    requires Clocked(run) && h < i < |run|
    requires Observed(rows, run, h).Some?
    requires run[i].op == MarkPending(run[h].op.key) && OutcomeAt(rows, run, i).Marked?
    requires forall m | h < m <= i :: !StartsRecord(rows, run, m, run[h].op.key)
    ensures Observed(rows, run, h).value < OutcomeAt(rows, run, i).revision
  {
    hide Apply;
    ObservationHolds(rows, run, h);
    CeilingHolds(rows, run, run[h].op.key, Observed(rows, run, h).value, h, i);
    MarkExceedsCeiling(rows, run, i, Observed(rows, run, h).value);
  }

  /**
   * SessionStart's late discharge takes a revision that was marked after its observation exactly when
   * the observation equals that revision; otherwise the revision stays pending.
   */
  lemma ObservationDischarges(now: Rows, key: string, observed: int, marked: int, at: int)
    requires GoodTime(at)
    requires Read(now, key, at).Some? && Read(now, key, at).value.pendingRevision == marked
      && Pending(Read(now, key, at))
    requires Read(now, key, at).value.updatedAt <= at && SafeInteger(observed, 1)
    ensures var after := Read(Apply(now, SatisfyFromSessionStart(key, observed), at).rows, key, at);
      && (Pending(after) <==> observed != marked)
      && (observed < marked ==> after.Some? && after.value.pendingRevision == marked)
  {
    hide Apply, Write, Decode, Encode;
    var op := SatisfyFromSessionStart(key, observed);
    TransactionEffect(now, op, at);
    DecisionsKeepRecordsValid(Read(now, key, at), op, at);
  }

  /** Within one record's lifetime, SessionStart's acknowledgement never takes a later revision. */
  lemma MarkOutlivesOlderObservation(rows: Rows, run: Run, h: nat, i: nat, j: nat)
    requires Clocked(run) && h < i < j < |run|
    requires Observed(rows, run, h).Some?
    requires run[i].op == MarkPending(run[h].op.key) && OutcomeAt(rows, run, i).Marked?
    requires forall m | h < m <= j :: !StartsRecord(rows, run, m, run[h].op.key)
    requires run[j].op == SatisfyFromSessionStart(run[h].op.key, Observed(rows, run, h).value)
    requires Pending(Read(Before(rows, run, j), run[h].op.key, run[j].at))
    ensures Pending(Read(Before(rows, run, j + 1), run[h].op.key, run[j].at))
  {
    hide Apply, Write, Decode, Encode;
    var key, seen := run[h].op.key, Observed(rows, run, h).value;
    MarkExceedsObservation(rows, run, h, i);
    MarkedIsPending(rows, run, i);
    CeilingHolds(rows, run, key, OutcomeAt(rows, run, i).revision, i, j);
    BeforeNext(rows, run, j);
    assert run[j - 1].at <= run[j].at;
    TransactionEffect(Before(rows, run, j), run[j].op, run[j].at);
  }

  /**
   * Across a record's expiry it does: observe revision 1, let the record expire, mark again. The new
   * record also starts at revision 1, and the old observation discharges it unseen.
   */
  lemma ObservationAcrossExpiryLosesAMark(key: string)
    ensures var r1 := Apply(map[], MarkPending(key), 0).rows;
      var seen := Apply(r1, ReadPending(key), RECORD_MS - 1);
      var again := Apply(seen.rows, MarkPending(key), RECORD_MS);
      var ack := Apply(again.rows, SatisfyFromSessionStart(key, 1), RECORD_MS + 1);
      && seen.outcome.View? && Pending(seen.outcome.state) && seen.outcome.state.value.pendingRevision == 1
      && again.outcome == Marked(1) && Pending(Read(again.rows, key, RECORD_MS))
      && ack.outcome == Answer(true) && Read(ack.rows, key, RECORD_MS + 1).Some?
      && !Pending(Read(ack.rows, key, RECORD_MS + 1))
  {
    hide Apply, Write, Decode, Encode;
    TransactionEffect(map[], MarkPending(key), 0);
    var r1 := Apply(map[], MarkPending(key), 0).rows;
    assert Read(r1, key, RECORD_MS - 1) == Some(State(1, 0, None, None, 0, RECORD_MS));
    TransactionEffect(r1, ReadPending(key), RECORD_MS - 1);
    AgainAfterExpiry(r1, key);
  }

  lemma AgainAfterExpiry(r1: Rows, key: string)
    requires Read(r1, key, RECORD_MS).None?
    ensures var again := Apply(r1, MarkPending(key), RECORD_MS);
      var ack := Apply(again.rows, SatisfyFromSessionStart(key, 1), RECORD_MS + 1);
      && again.outcome == Marked(1) && Pending(Read(again.rows, key, RECORD_MS))
      && ack.outcome == Answer(true) && Read(ack.rows, key, RECORD_MS + 1).Some?
      && !Pending(Read(ack.rows, key, RECORD_MS + 1))
  {
    hide Apply, Write, Decode, Encode;
    TransactionEffect(r1, MarkPending(key), RECORD_MS);
    var r3 := Apply(r1, MarkPending(key), RECORD_MS).rows;
    assert Read(r3, key, RECORD_MS + 1) == Some(State(1, 0, None, None, RECORD_MS, 2 * RECORD_MS));
    TransactionEffect(r3, SatisfyFromSessionStart(key, 1), RECORD_MS + 1);
  }

  // ---------- always recoverable ----------

  /** A step that may end a participant's lease: another mark or discharge of its scope, or its own calls. */
  predicate Disturbs(op: Op, key: string, held: Claim) {
    op.key == key &&
    match op
    case MarkPending(_) => true
    case SatisfyFromSessionStart(_, _) => true
    case MarkEmitted(_, c) => c == held
    case ReleaseClaim(_, c) => c == held
    case _ => false
  }

  ghost predicate Holds(rows: Rows, key: string, held: Claim, at: int) {
    && Read(rows, key, at).Some? && Read(rows, key, at).value.claim == Some(held) && ValidClaim(held)
    && held.expiresAt <= Read(rows, key, at).value.expiresAt
  }

  lemma HoldsStep(rows: Rows, op: Op, at: int, key: string, held: Claim, earlier: int)
    requires earlier <= at < held.expiresAt && Holds(rows, key, held, earlier)
    requires !Disturbs(op, key, held)
    ensures Holds(Apply(rows, op, at).rows, key, held, at)
  {
    hide Apply, Write, Decode, Encode;
    if key != op.key {
      OtherScopes(rows, op, at, key, at);
    } else {
      TransactionEffect(rows, op, at);
    }
  }

  lemma {:induction false} LeaseHolds(rows: Rows, run: Run, key: string, held: Claim, start: int)
    requires Holds(rows, key, held, start)
    requires Clocked(run) && (run != [] ==> start <= run[0].at)
    requires forall m | 0 <= m < |run| :: run[m].at < held.expiresAt && !Disturbs(run[m].op, key, held)
    ensures Holds(After(rows, run), key, held, if run == [] then start else run[|run| - 1].at)
    decreases |run|
  {
    hide Apply, Read, Disturbs;
    if run != [] {
      var n := |run| - 1;
      LeaseHolds(rows, run[..n], key, held, start);
      HoldsStep(After(rows, run[..n]), run[n].op, run[n].at, key, held,
                if n == 0 then start else run[n - 1].at);
    }
  }

  /** The claim a request obtains when there is something to claim. */
  function NextClaim(rows: Rows, request: Op, at: int): Claim
    requires request.ClaimPending? && Read(rows, request.key, at).Some?
  {
    Claim(Read(rows, request.key, at).value.pendingRevision, request.claimId, request.turnIdHash, at + CLAIM_MS)
  }

  /** What a request needs of its own texts. */
  predicate WellSpoken(request: Op) {
    && request.ClaimPending? && NotBlank(request.turnId) && IsHash(request.turnIdHash)
    && NotBlank(request.claimId) && Utf8Bytes(request.claimId) <= 128
  }

  ghost predicate Claimable(rows: Rows, request: Op, at: int) {
    && GoodTime(at) && WellSpoken(request)
    && var s := Read(rows, request.key, at);
       Pending(s) && (s.value.claim.Some? ==> s.value.claim.value.expiresAt <= at)
  }

  lemma ClaimSucceeds(rows: Rows, request: Op, at: int)
    requires Claimable(rows, request, at)
    ensures var c := NextClaim(rows, request, at); var s := Apply(rows, request, at);
      s.outcome == Claimed(Some(c)) && Holds(s.rows, request.key, c, at)
  {
    hide Apply, Write, Decode, Encode;
    TransactionEffect(rows, request, at);
  }

  lemma AckSucceeds(rows: Rows, key: string, held: Claim, earlier: int, ack: int, last: int)
    requires Holds(rows, key, held, earlier) && 0 <= earlier <= ack < held.expiresAt && ack <= last && GoodTime(last)
    ensures Apply(rows, CanEmit(key, held), ack).outcome == Answer(true)
    ensures var acked := Apply(rows, MarkEmitted(key, held), ack); var s := Read(acked.rows, key, ack);
      && acked.outcome == Answer(true)
      && s.Some? && s.value.deliveredRevision == held.revision && !Pending(s)
      && Apply(acked.rows, ReleaseClaim(key, held), last) == Step(acked.rows, Answer(false))
  {
    hide Apply, Write, Decode, Encode;
    TransactionEffect(rows, CanEmit(key, held), ack);
    TransactionEffect(rows, MarkEmitted(key, held), ack);
    TransactionEffect(Apply(rows, MarkEmitted(key, held), ack).rows, ReleaseClaim(key, held), last);
  }

  /**
   * A claim that lets its lease end does not stop delivery, and does not keep it to once: the next claim is
   * for the same revision, so `canEmit` has then said yes to both.
   */
  lemma LeaseEndAllowsASecondWrite(rows: Rows, request: Op, again: Op, at: int, later: int)
    requires Claimable(rows, request, at) && WellSpoken(again) && again.key == request.key
    requires at + CLAIM_MS <= later < at + RECORD_MS && GoodTime(later)
    ensures var first := Apply(rows, request, at); var c := NextClaim(rows, request, at);
      var second := Apply(first.rows, again, later);
      && first.outcome == Claimed(Some(c)) && Apply(first.rows, CanEmit(request.key, c), at).outcome == Answer(true)
      && second.outcome.Claimed? && second.outcome.claim.Some?
      && second.outcome.claim.value.revision == c.revision
      && Apply(second.rows, CanEmit(request.key, second.outcome.claim.value), later).outcome == Answer(true)
  {
    hide Apply, Write, Decode, Encode;
    var first, c := Apply(rows, request, at).rows, NextClaim(rows, request, at);
    ClaimSucceeds(rows, request, at);
    AckSucceeds(first, request.key, c, at, at, at);
    ClaimedUntilExpiry(rows, request, at, later);
    ClaimSucceeds(first, again, later);
    AckSucceeds(Apply(first, again, later).rows, request.key, NextClaim(first, again, later), later, later, later);
  }

  lemma ClaimedUntilExpiry(rows: Rows, request: Op, at: int, later: int)
    requires Claimable(rows, request, at) && at <= later < at + RECORD_MS
    ensures var s := Read(rows, request.key, at); var c := NextClaim(rows, request, at);
      Read(Apply(rows, request, at).rows, request.key, later) == Some(Refresh(s.value.(claim := Some(c)), at))
  {
    hide Apply, Write, Decode, Encode;
    TransactionEffect(rows, request, at);
  }

  /**
   * From every state with an undelivered revision and no live claim, a claim request succeeds; and
   * whatever others do meanwhile, short of a new mark or discharge of the same scope, an
   * acknowledgement inside the lease clears the revision and the trailing release changes nothing.
   */
  lemma AlwaysRecoverable(rows: Rows, request: Op, at: int, others: Run, ack: int, last: int)
    requires Claimable(rows, request, at)
    requires Clocked(others) && (others != [] ==> at <= others[0].at && others[|others| - 1].at <= ack)
    requires at <= ack < at + CLAIM_MS && ack <= last && GoodTime(last)
    requires forall m | 0 <= m < |others| :: !Disturbs(others[m].op, request.key, NextClaim(rows, request, at))
    ensures var c := NextClaim(rows, request, at);
      var claimed := Apply(rows, request, at);
      var meanwhile := After(claimed.rows, others);
      var acked := Apply(meanwhile, MarkEmitted(request.key, c), ack); var s := Read(acked.rows, request.key, ack);
      && claimed.outcome == Claimed(Some(c))
      && Apply(meanwhile, CanEmit(request.key, c), ack).outcome == Answer(true)
      && acked.outcome == Answer(true)
      && s.Some? && s.value.deliveredRevision == c.revision && !Pending(s)
      && Apply(acked.rows, ReleaseClaim(request.key, c), last) == Step(acked.rows, Answer(false))
  {
    hide Apply;
    var c := NextClaim(rows, request, at);
    ClaimSucceeds(rows, request, at);
    forall m | 0 <= m < |others| ensures others[m].at < c.expiresAt {
      if m < |others| - 1 { assert others[m].at <= others[|others| - 1].at; }
    }
    var claimed := Apply(rows, request, at).rows;
    LeaseHolds(claimed, others, request.key, c, at);
    if others != [] && |others| > 1 { assert others[0].at <= others[|others| - 1].at; }
    var latest := if others == [] then at else others[|others| - 1].at;
    AckSucceeds(After(claimed, others), request.key, c, latest, ack, last);
  }

  /**
   * A participant that claims and then gives up, whatever others do meanwhile short of a new mark or
   * discharge of the scope, loses nothing: the next request is issued a claim for the same revision.
   */
  lemma AbandonedClaimReturns(rows: Rows, request: Op, at: int, others: Run, last: int, again: Op)
    requires Claimable(rows, request, at) && WellSpoken(again) && again.key == request.key
    requires Clocked(others) && (others != [] ==> at <= others[0].at && others[|others| - 1].at <= last)
    requires at <= last < at + CLAIM_MS && GoodTime(last)
    requires forall m | 0 <= m < |others| :: !Disturbs(others[m].op, request.key, NextClaim(rows, request, at))
    ensures var c := NextClaim(rows, request, at);
      var released := Apply(After(Apply(rows, request, at).rows, others), ReleaseClaim(request.key, c), last);
      && released.outcome == Answer(true) && Pending(Read(released.rows, request.key, last))
      && Apply(released.rows, again, last).outcome
           == Claimed(Some(Claim(c.revision, again.claimId, again.turnIdHash, last + CLAIM_MS)))
  {
    hide Apply, Disturbs, NotBlank, IsHash, Utf8Bytes;
    var c := NextClaim(rows, request, at);
    ClaimSucceeds(rows, request, at);
    forall m | 0 <= m < |others| ensures others[m].at < c.expiresAt {
      if m < |others| - 1 { assert others[m].at <= others[|others| - 1].at; }
    }
    var claimed := Apply(rows, request, at).rows;
    LeaseHolds(claimed, others, request.key, c, at);
    HeldIsReleased(After(claimed, others), request.key, c, if others == [] then at else others[|others| - 1].at, last);
    ReleaseLeavesPending(After(claimed, others), request.key, c, last, again);
  }

  lemma HeldIsReleased(rows: Rows, key: string, held: Claim, earlier: int, last: int)
    requires Holds(rows, key, held, earlier) && earlier <= last < held.expiresAt && GoodTime(last)
    ensures Apply(rows, ReleaseClaim(key, held), last).outcome == Answer(true)
  {
    hide Apply, Decode, NotBlank, IsHash, Utf8Bytes;
    AnswersIff(rows, ReleaseClaim(key, held), last);
  }

  // ---------- cleanup is invisible ----------

  ghost predicate AlikeAt(a: Rows, b: Rows, key: string, at: int) {
    Lookup(a, key) == Lookup(b, key) || (Dead(a, key, at) && Dead(b, key, at))
  }

  /** Two tables that no read at or after `at` can tell apart. */
  ghost predicate Alike(a: Rows, b: Rows, at: int) {
    forall key: string :: AlikeAt(a, b, key, at)
  }

  lemma SameRowSameReads(a: Rows, b: Rows, key: string, at: int)
    requires Lookup(a, key) == Lookup(b, key)
    ensures forall t :: Read(a, key, t) == Read(b, key, t)
    ensures Dead(a, key, at) <==> Dead(b, key, at)
  {
    assert key in a <==> key in b;
    assert forall t :: Read(a, key, t) == Read(b, key, t);
    if Dead(a, key, at) { assert forall t | at <= t :: Read(b, key, t) == Read(a, key, t) && Read(a, key, t).None?; }
    if Dead(b, key, at) { assert forall t | at <= t :: Read(a, key, t) == Read(b, key, t) && Read(b, key, t).None?; }
  }

  lemma AlikeReads(a: Rows, b: Rows, at: int, key: string, t: int)
    requires Alike(a, b, at) && at <= t
    ensures Read(a, key, t) == Read(b, key, t)
  {
    assert AlikeAt(a, b, key, at);
    if Lookup(a, key) == Lookup(b, key) { SameRowSameReads(a, b, key, at); }
  }

  lemma CleanupIsAlike(a: Rows, at: int)
    ensures Alike(a, CleanupExpired(a, at), at)
  {
    forall key: string ensures AlikeAt(a, CleanupExpired(a, at), key, at) {
      if key in CleanupKeys(a, at) { CleanableIsDead(a, key, at); }
    }
  }

  lemma AlikeChain(a: Rows, b: Rows, c: Rows, at: int)
    requires Alike(a, b, at) && Alike(b, c, at)
    ensures Alike(a, c, at)
  {
    forall key: string ensures AlikeAt(a, c, key, at) {
      assert AlikeAt(a, b, key, at) && AlikeAt(b, c, key, at);
      if Lookup(a, key) == Lookup(b, key) { SameRowSameReads(a, b, key, at); }
      if Lookup(b, key) == Lookup(c, key) { SameRowSameReads(b, c, key, at); }
    }
  }

  lemma CleanupsAlike(a: Rows, b: Rows, at: int)
    requires Alike(a, b, at)
    ensures Alike(CleanupExpired(a, at), CleanupExpired(b, at), at)
  {
    var a', b' := CleanupExpired(a, at), CleanupExpired(b, at);
    CleanupIsAlike(a, at);
    CleanupIsAlike(b, at);
    AlikeChain(a, b, b', at);
    AlikeSymmetric(a, a', at);
    AlikeChain(a', a, b', at);
  }

  lemma AlikeSymmetric(a: Rows, b: Rows, at: int)
    requires Alike(a, b, at)
    ensures Alike(b, a, at)
  {
    forall key: string ensures AlikeAt(b, a, key, at) { assert AlikeAt(a, b, key, at); }
  }

  lemma AlikeLater(a: Rows, b: Rows, earlier: int, at: int)
    requires Alike(a, b, earlier) && earlier <= at
    ensures Alike(a, b, at)
  {
    forall key: string ensures AlikeAt(a, b, key, at) { assert AlikeAt(a, b, key, earlier); }
  }

  lemma AlikeUpdates(a: Rows, b: Rows, at: int, key: string, raw: Raw)
    requires Alike(a, b, at)
    ensures Alike(a[key := raw], b[key := raw], at)
  {
    var a', b' := a[key := raw], b[key := raw];
    forall k: string ensures AlikeAt(a', b', k, at) {
      assert AlikeAt(a, b, k, at);
      if k != key {
        SameRowSameReads(a, a', k, at);
        SameRowSameReads(b, b', k, at);
      }
    }
  }

  lemma AlikeStep(a: Rows, b: Rows, earlier: int, op: Op, at: int)
    requires Alike(a, b, earlier) && earlier <= at
    ensures Apply(a, op, at).outcome == Apply(b, op, at).outcome
    ensures Alike(Apply(a, op, at).rows, Apply(b, op, at).rows, at)
  {
    hide Apply, Write, Decode, Encode;
    AlikeLater(a, b, earlier, at);
    TransactionEffect(a, op, at);
    TransactionEffect(b, op, at);
    if Precheck(op).None? && GoodTime(at) {
      AlikeReads(a, b, at, op.key, at);
      CleanupsAlike(a, b, at);
      var d := Decide(Read(a, op.key, at), op, at);
      if d.Store? { AlikeUpdates(Base(a, op, at), Base(b, op, at), at, op.key, Encode(d.next)); }
    }
  }

  lemma {:induction false} AlikeRuns(a: Rows, b: Rows, at: int, run: Run, i: nat)
    requires Alike(a, b, at) && Clocked(run) && i < |run| && at <= run[0].at
    ensures OutcomeAt(a, run, i) == OutcomeAt(b, run, i)
    ensures Alike(Before(a, run, i + 1), Before(b, run, i + 1), run[i].at)
  {
    hide Apply;
    if i == 0 {
      assert run[..0] == [];
      AlikeStep(a, b, at, run[0].op, run[0].at);
    } else {
      AlikeRuns(a, b, at, run, i - 1);
      assert run[i - 1].at <= run[i].at;
      AlikeStep(Before(a, run, i), Before(b, run, i), run[i - 1].at, run[i].op, run[i].at);
    }
    BeforeNext(a, run, i);
    BeforeNext(b, run, i);
  }

  /** Cleaning up first changes the answer of no later operation, on any scope, in any run. */
  lemma CleanupNeverShows(rows: Rows, at: int, run: Run, i: nat)
    requires Clocked(run) && i < |run| && at <= run[0].at
    ensures OutcomeAt(CleanupExpired(rows, at), run, i) == OutcomeAt(rows, run, i)
  {
    hide Apply;
    CleanupIsAlike(rows, at);
    AlikeRuns(rows, CleanupExpired(rows, at), at, run, i);
  }
}
