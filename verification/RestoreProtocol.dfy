/**
 * Each operation of the context-restore store as one atomic step over the metadata rows
 * (src/hook-codex-context-restore.ts:107-247).
 */
module RestoreProtocol {
  import opened Wrappers
  import opened Characters
  import opened ContextRestore

  datatype Error =
    | InvalidTime | InvalidRecord | MarkChangedConcurrently | RevisionExhausted | TurnRequired | InvalidClaimId

  /** One call of the store. A claim request brings the digest of its turn and a generated claim id. */
  datatype Op =
    | ReadState(key: string)
    | ReadPending(key: string)
    | MarkPending(key: string)
    | ClaimPending(key: string, turnId: string, turnIdHash: string, claimId: string)
    | CanEmit(key: string, held: Claim)
    | MarkEmitted(key: string, held: Claim)
    | ReleaseClaim(key: string, held: Claim)
    | SatisfyFromSessionStart(key: string, observed: int)

  datatype Outcome =
    | Failed(error: Error)
    | View(state: Option<State>)
    | Marked(revision: int)
    | Claimed(claim: Option<Claim>)
    | Answer(yes: bool)

  datatype Step = Step(rows: Rows, outcome: Outcome)

  /** What an operation does with the record it read: answer only, or replace the record. */
  datatype Decision = Reply(outcome: Outcome) | Store(next: State, outcome: Outcome)

  predicate GoodTime(at: int) {
    SafeInteger(at, 0) && at + RECORD_MS <= MAX_SAFE_INTEGER
  }

  function Lookup(rows: Rows, key: string): Option<Raw> {
    if key in rows then Some(rows[key]) else None
  }

  /** The record of a scope at a time: absent, undecodable and expired rows are all alike. */
  function Read(rows: Rows, key: string, at: int): (r: Option<State>)
    ensures r.Some? ==> ValidState(r.value) && at < r.value.expiresAt
  {
    if key in rows && Decode(rows[key]).Some? && Decode(rows[key]).value.expiresAt > at
    then Decode(rows[key]) else None
  }

  function Refresh(s: State, at: int): State {
    s.(updatedAt := at, expiresAt := at + RECORD_MS)
  }

  predicate OwnsClaim(s: Option<State>, held: Claim) {
    ValidClaim(held) && s.Some? && s.value.claim == Some(held)
  }

  predicate MayEmit(s: Option<State>, held: Claim, at: int) {
    && OwnsClaim(s, held) && held.expiresAt > at
    && s.value.pendingRevision == held.revision && s.value.deliveredRevision < held.revision
  }

  predicate Pending(s: Option<State>) {
    s.Some? && s.value.pendingRevision > s.value.deliveredRevision
  }

  function Decide(s: Option<State>, op: Op, at: int): Decision {
    match op
    case ReadState(_) => Reply(View(s))
    case ReadPending(_) => Reply(View(if Pending(s) then s else None))
    case MarkPending(_) =>
      var revision := (if s.Some? then s.value.pendingRevision else 0) + 1;
      if revision > MAX_SAFE_INTEGER then Reply(Failed(RevisionExhausted))
      else Store(State(revision, if s.Some? then s.value.deliveredRevision else 0, None,
                       if s.Some? then s.value.deliveredTurnIdHash else None, at, at + RECORD_MS),
                 Marked(revision))
    case ClaimPending(_, _, turnIdHash, claimId) =>
      if !Pending(s) || (s.value.claim.Some? && s.value.claim.value.expiresAt > at) then Reply(Claimed(None))
      else
        var c := Claim(s.value.pendingRevision, claimId, turnIdHash, at + CLAIM_MS);
        if !ValidClaim(c) then Reply(Failed(InvalidClaimId))
        else Store(Refresh(s.value.(claim := Some(c)), at), Claimed(Some(c)))
    case CanEmit(_, held) => Reply(Answer(MayEmit(s, held, at)))
    case MarkEmitted(_, held) =>
      if !MayEmit(s, held, at) then Reply(Answer(false))
      else Store(Refresh(s.value.(deliveredRevision := held.revision, deliveredTurnIdHash := Some(held.turnIdHash),
                                  claim := None), at), Answer(true))
    case ReleaseClaim(_, held) =>
      if !OwnsClaim(s, held) then Reply(Answer(false))
      else Store(Refresh(s.value.(claim := None), at), Answer(true))
    case SatisfyFromSessionStart(_, observed) =>
      if s.None? || observed > s.value.pendingRevision || s.value.deliveredRevision >= observed
      then Reply(Answer(false))
      else
        var kept := if s.value.claim.Some? && s.value.claim.value.revision == observed then None else s.value.claim;
        Store(Refresh(s.value.(deliveredRevision := observed, deliveredTurnIdHash := None, claim := kept), at),
              Answer(true))
  }

  /** Checks an operation makes on its arguments before it reads the clock. */
  function Precheck(op: Op): Option<Outcome> {
    if op.ClaimPending? && !NotBlank(op.turnId) then Some(Failed(TurnRequired))
    else if op.SatisfyFromSessionStart? && !SafeInteger(op.observed, 1) then Some(Answer(false))
    else None
  }

  /** The self-checked compare-and-swap write; the flag says whether a row changed. */
  function Write(rows: Rows, key: string, previous: Option<Raw>, next: State): Result<(Rows, bool), Error> {
    var raw := Encode(next);
    if raw.bytes > MAX_BYTES || Decode(raw).None? then Err(InvalidRecord)
    else if previous.None? then
      (if key in rows then Ok((rows, false)) else Ok((rows[key := raw], true)))
    else if Lookup(rows, key) == previous then Ok((rows[key := raw], true))
    else Ok((rows, false))
  }

  function LostRace(op: Op): Outcome {
    match op
    case MarkPending(_) => Failed(MarkChangedConcurrently)
    case ClaimPending(_, _, _, _) => Claimed(None)
    case _ => Answer(false)
  }

  // ---------- cleanup ----------

  /** A row that the SQL of `cleanupExpired` selects, before its limit. */
  predicate Cleanable(key: string, raw: Raw, at: int) {
    && PREFIX <= key && raw.bytes <= MAX_BYTES
    && raw.json.Some? && raw.json.value.Obj?
    && ExpiresAt in raw.json.value.fields
    && raw.json.value.fields[ExpiresAt].Int? && raw.json.value.fields[ExpiresAt].n <= at
  }

  predicate Precedes(a: string, b: string) {
    a == "" || (b != "" && (a[0] < b[0] || (a[0] == b[0] && Precedes(a[1..], b[1..]))))
  }

  lemma {:induction false} PrecedesIsTotalOrder(a: string, b: string, c: string)
    ensures Precedes(a, a)
    ensures Precedes(a, b) || Precedes(b, a)
    ensures Precedes(a, b) && Precedes(b, a) ==> a == b
    ensures Precedes(a, b) && Precedes(b, c) ==> Precedes(a, c)
  {
    if a != "" {
      var b', c' := if b == "" then "" else b[1..], if c == "" then "" else c[1..];
      PrecedesIsTotalOrder(a[1..], b', c');
      if b != "" && a[0] == b[0] && a[1..] == b[1..] {
        assert a == [a[0]] + a[1..] && b == [b[0]] + b[1..];
      }
    }
  }

  lemma {:induction false} HasFirst(keys: set<string>)
    requires keys != {}
    ensures exists k :: k in keys && forall j :: j in keys ==> Precedes(k, j)
  {
    var x :| x in keys;
    PrecedesIsTotalOrder(x, x, x);
    if keys == {x} {
      assert forall j :: j in keys ==> Precedes(x, j);
    } else {
      HasFirst(keys - {x});
      var y :| y in keys - {x} && forall j :: j in keys - {x} ==> Precedes(y, j);
      PrecedesIsTotalOrder(x, y, x);
      if Precedes(y, x) {
        assert forall j :: j in keys ==> Precedes(y, j);
      } else {
        forall j | j in keys ensures Precedes(x, j) { PrecedesIsTotalOrder(x, y, j); }
      }
    }
  }

  function First(keys: set<string>): (k: string)
    requires keys != {}
    ensures k in keys && forall j :: j in keys ==> Precedes(k, j)
  {
    HasFirst(keys);
    assert forall k, l | k in keys && l in keys && (forall j :: j in keys ==> Precedes(k, j))
        && (forall j :: j in keys ==> Precedes(l, j)) :: k == l by {
      forall k, l | k in keys && l in keys && (forall j :: j in keys ==> Precedes(k, j))
          && (forall j :: j in keys ==> Precedes(l, j)) ensures k == l {
        PrecedesIsTotalOrder(k, l, k);
      }
    }
    var k :| k in keys && forall j :: j in keys ==> Precedes(k, j);
    k
  }

  /** `ORDER BY key LIMIT count` */
  function FirstKeys(keys: set<string>, count: nat): (r: set<string>)
    ensures r <= keys
    ensures |r| == if |keys| <= count then |keys| else count
    ensures forall a, b | a in r && b in keys - r :: Precedes(a, b)
    decreases count
  {
    if count == 0 || keys == {} then {}
    else
      var k := First(keys);
      {k} + FirstKeys(keys - {k}, count - 1)
  }

  function CleanupKeys(rows: Rows, at: int): set<string> {
    FirstKeys((set k | k in rows && Cleanable(k, rows[k], at)), CLEANUP_LIMIT)
  }

  function CleanupExpired(rows: Rows, at: int): (r: Rows)
    ensures r.Keys == rows.Keys - CleanupKeys(rows, at)
    ensures forall k | k in r :: r[k] == rows[k]
  {
    rows - CleanupKeys(rows, at)
  }

  // ---------- one transaction ----------

  function Apply(rows: Rows, op: Op, at: int): Step {
    if Precheck(op).Some? then Step(rows, Precheck(op).value)
    else if !GoodTime(at) then Step(rows, Failed(InvalidTime))
    else
      var base := if op.MarkPending? then CleanupExpired(rows, at) else rows;
      match Decide(Read(base, op.key, at), op, at)
      case Reply(outcome) => Step(rows, outcome)
      case Store(next, outcome) =>
        match Write(base, op.key, Lookup(base, op.key), next)
        case Err(e) => Step(rows, Failed(e))
        case Ok((written, changed)) => if changed then Step(written, outcome) else Step(rows, LostRace(op))
  }

  /** A clock reading is refused exactly when it, or the end of a record written then, is no safe integer. */
  lemma TimeIsRefusedIff(rows: Rows, op: Op, at: int)
    requires Precheck(op).None?
    ensures Apply(rows, op, at).outcome == Failed(InvalidTime)
      <==> !(0 <= at && at + 604_800_000 <= 9007199254740991)
  {
    hide Write, Decode, Encode;
    TransactionEffect(rows, op, at);
  }

  /** A row that every read from `at` on treats as absent. */
  ghost predicate Dead(rows: Rows, key: string, at: int) {
    forall t | at <= t :: Read(rows, key, t).None?
  }

  lemma CleanableIsDead(rows: Rows, key: string, at: int)
    requires key in rows && Cleanable(key, rows[key], at)
    ensures Dead(rows, key, at)
  {
  }

  /** Every stored record whose time has come is up for cleanup, and a hundred of them go at a time. */
  lemma CleanupRemovesExpired(rows: Rows, key: string, s: State, at: int)
    requires key in rows && PREFIX <= key && ValidState(s) && rows[key] == Encode(s) && s.expiresAt <= at
    ensures Cleanable(key, rows[key], at)
    ensures |(set k | k in rows && Cleanable(k, rows[k], at))| <= 100 ==> key !in CleanupExpired(rows, at)
    ensures |rows.Keys - CleanupExpired(rows, at).Keys|
      == if |(set k | k in rows && Cleanable(k, rows[k], at))| <= 100
         then |(set k | k in rows && Cleanable(k, rows[k], at))| else 100
  {
    hide Cleanable;
    assert Cleanable(key, rows[key], at) by { ExpiredIsCleanable(rows, key, s, at); }
    var dead := set k | k in rows && Cleanable(k, rows[k], at);
    var gone := CleanupKeys(rows, at);
    assert rows.Keys - CleanupExpired(rows, at).Keys == gone;
    if |dead| <= 100 { AllOfThem(gone, dead); }
  }

  /** No other row goes: of another prefix, too long, no object, or without an integer time that has come. */
  lemma CleanupSparesOthers(rows: Rows, key: string, at: int)
    requires key in rows
    requires var raw := rows[key];
      || !("codex_context_restore:v1:" <= key) || raw.bytes > 2048
      || raw.json.None? || !raw.json.value.Obj? || ExpiresAt !in raw.json.value.fields
      || (var end := raw.json.value.fields[ExpiresAt]; !end.Int? || end.n > at)
    ensures key in CleanupExpired(rows, at) && CleanupExpired(rows, at)[key] == rows[key]
  {
  }

  lemma ExpiredIsCleanable(rows: Rows, key: string, s: State, at: int)
    requires key in rows && PREFIX <= key && ValidState(s) && rows[key] == Encode(s) && s.expiresAt <= at
    ensures Cleanable(key, rows[key], at)
  {
    hide EncodedBytes;
    ValidStatesFit(s);
  }

  lemma AllOfThem(some: set<string>, all: set<string>)
    requires some <= all && |some| == |all|
    ensures some == all
  {
    assert all == some + (all - some);
  }

  /** Cleanup removes only rows that reads already ignore, so no read of any scope can tell. */
  lemma CleanupIsInvisible(rows: Rows, at: int, key: string, t: int)
    requires at <= t
    ensures Read(CleanupExpired(rows, at), key, t) == Read(rows, key, t)
    ensures key in rows && !(PREFIX <= key) ==> Lookup(CleanupExpired(rows, at), key) == Lookup(rows, key)
  {
    if key in CleanupKeys(rows, at) { CleanableIsDead(rows, key, at); }
  }

  /** A write based on the row just read stores every valid record and refuses every other one. */
  lemma WriteEffect(rows: Rows, key: string, next: State)
    ensures Write(rows, key, Lookup(rows, key), next)
      == if ValidState(next) then Ok((rows[key := Encode(next)], true)) else Err(InvalidRecord)
    ensures ValidState(next) ==> Decode(Encode(next)) == Some(next)
  {
    hide Decode;
    RecordRoundTrip(next);
    if ValidState(next) { ValidStatesFit(next); }
  }

  function Base(rows: Rows, op: Op, at: int): Rows {
    if op.MarkPending? then CleanupExpired(rows, at) else rows
  }

  /**
   * A transaction is the decision on the record it reads: it stores exactly the decided record when
   * that record is valid, fails when it is not, never loses a race, and otherwise writes nothing.
   */
  lemma TransactionEffect(rows: Rows, op: Op, at: int)
    ensures var d := Decide(Read(rows, op.key, at), op, at); var s := Apply(rows, op, at);
      if Precheck(op).Some? then s == Step(rows, Precheck(op).value)
      else if !GoodTime(at) then s == Step(rows, Failed(InvalidTime))
      else if d.Reply? then s == Step(rows, d.outcome)
      else if !ValidState(d.next) then s == Step(rows, Failed(InvalidRecord))
      else s == Step(Base(rows, op, at)[op.key := Encode(d.next)], d.outcome) && Decode(Encode(d.next)) == Some(d.next)
  {
    hide Decode, Encode, Write, CleanupExpired, ValidState;
    CleanupIsInvisible(rows, at, op.key, at);
    var d := Decide(Read(rows, op.key, at), op, at);
    if d.Store? { WriteEffect(Base(rows, op, at), op.key, d.next); }
  }

  /** An operation leaves every other scope's record as it was, for all later reads. */
  lemma OtherScopes(rows: Rows, op: Op, at: int, key: string, t: int)
    requires key != op.key && at <= t
    ensures Read(Apply(rows, op, at).rows, key, t) == Read(rows, key, t)
    ensures !(PREFIX <= key) ==> Lookup(Apply(rows, op, at).rows, key) == Lookup(rows, key)
  {
    TransactionEffect(rows, op, at);
    CleanupIsInvisible(rows, at, key, t);
  }

  /**
   * With a clock that has not gone back since the record was written, the decided record is valid;
   * in particular a claim kept by SessionStart still meets the revision and 30 s lease bounds.
   */
  lemma DecisionsKeepRecordsValid(s: Option<State>, op: Op, at: int)
    requires GoodTime(at) && Precheck(op).None?
    requires s.Some? ==> ValidState(s.value) && s.value.updatedAt <= at
    ensures var d := Decide(s, op, at); d.Store? ==> ValidState(d.next)
  {
  }

  /**
   * For any clock at all, an operation fails its self-check in exactly one case: SessionStart discharges
   * below the pending revision and keeps a claim that the clock reading puts more than one lease away.
   */
  lemma SelfCheckRejectsIff(rows: Rows, op: Op, at: int)
    ensures Apply(rows, op, at).outcome == Failed(InvalidRecord) <==>
      && op.SatisfyFromSessionStart? && SafeInteger(op.observed, 1) && GoodTime(at)
      && var s := Read(rows, op.key, at);
         && s.Some? && s.value.deliveredRevision < op.observed < s.value.pendingRevision
         && s.value.claim.Some? && s.value.claim.value.expiresAt - at > CLAIM_MS
  {
    hide Apply, Write, Decode, Encode;
    TransactionEffect(rows, op, at);
  }

  /** A clock that goes back by a millisecond between claim and discharge: the self-check rejects. */
  lemma BackwardClockRejects(key: string, turnIdHash: string)
    requires IsHash(turnIdHash)
    ensures var r1 := Apply(map[], MarkPending(key), 1).rows;
      var r2 := Apply(r1, MarkPending(key), 1).rows;
      var claimed := Apply(r2, ClaimPending(key, "turn", turnIdHash, "claim"), 1);
      && claimed.outcome.Claimed? && claimed.outcome.claim.Some?
      && Apply(claimed.rows, SatisfyFromSessionStart(key, 1), 1).outcome == Answer(true)
      && Apply(claimed.rows, SatisfyFromSessionStart(key, 1), 0).outcome == Failed(InvalidRecord)
  {
    hide Apply, Read, Decide, ValidState;
    var r1 := Apply(map[], MarkPending(key), 1).rows;
    var r2 := Apply(r1, MarkPending(key), 1).rows;
    var c := Claim(2, "claim", turnIdHash, 1 + CLAIM_MS);
    var s := State(2, 0, Some(c), None, 1, 1 + RECORD_MS);
    NothingToRead(key);
    MarkingTwice(key, turnIdHash);
    StoredReads(map[], MarkPending(key), 1, State(1, 0, None, None, 1, 1 + RECORD_MS), Marked(1), 1);
    StoredReads(r1, MarkPending(key), 1, State(2, 0, None, None, 1, 1 + RECORD_MS), Marked(2), 1);
    StoredReads(r2, ClaimPending(key, "turn", turnIdHash, "claim"), 1, s, Claimed(Some(c)), 0);
    StoredReads(r2, ClaimPending(key, "turn", turnIdHash, "claim"), 1, s, Claimed(Some(c)), 1);
    var r3 := Apply(r2, ClaimPending(key, "turn", turnIdHash, "claim"), 1).rows;
    StoredReads(r3, SatisfyFromSessionStart(key, 1), 1, State(2, 1, Some(c), None, 1, 1 + RECORD_MS), Answer(true), 1);
    SelfCheckRejectsIff(r3, SatisfyFromSessionStart(key, 1), 0);
  }

  /** What a successful operation stored is what reads return until it expires. */
  lemma StoredReads(rows: Rows, op: Op, at: int, next: State, outcome: Outcome, t: int)
    requires Precheck(op).None? && GoodTime(at) && ValidState(next) && t < next.expiresAt
    requires Decide(Read(rows, op.key, at), op, at) == Store(next, outcome)
    ensures Apply(rows, op, at).outcome == outcome && Read(Apply(rows, op, at).rows, op.key, t) == Some(next)
  {
    hide Apply, Decide, Decode, Encode, ValidState;
    TransactionEffect(rows, op, at);
  }

  lemma NothingToRead(key: string)
    ensures Read(map[], key, 1).None?
  {
  }

  /** The decisions of two marks, a claim and a discharge, all at time 1. */
  lemma MarkingTwice(key: string, turnIdHash: string)
    requires IsHash(turnIdHash)
    ensures var s1, s2 := State(1, 0, None, None, 1, 1 + RECORD_MS), State(2, 0, None, None, 1, 1 + RECORD_MS);
      var c := Claim(2, "claim", turnIdHash, 1 + CLAIM_MS);
      var s3, s4 := s2.(claim := Some(c)), State(2, 1, Some(c), None, 1, 1 + RECORD_MS);
      var request := ClaimPending(key, "turn", turnIdHash, "claim");
      && ValidState(s1) && ValidState(s2) && ValidState(s3) && ValidState(s4)
      && Precheck(request).None? && Precheck(SatisfyFromSessionStart(key, 1)).None? && Precheck(MarkPending(key)).None?
      && Decide(None, MarkPending(key), 1) == Store(s1, Marked(1))
      && Decide(Some(s1), MarkPending(key), 1) == Store(s2, Marked(2))
      && Decide(Some(s2), request, 1) == Store(s3, Claimed(Some(c)))
      && Decide(Some(s3), SatisfyFromSessionStart(key, 1), 1) == Store(s4, Answer(true))
  {
    TextsAreUsable();
    hide NotBlank, Utf8Bytes, IsHash;
  }

  lemma TextsAreUsable()
    ensures NotBlank("turn") && NotBlank("claim") && Utf8Bytes("claim") == 5
  {
    assert "turn"[0] == 't' && "claim"[0] == 'c';
    assert Utf8Bytes("claim"[5..]) == 0;
    assert Utf8Bytes("claim"[4..]) == 1;
    assert Utf8Bytes("claim"[3..]) == 2;
    assert Utf8Bytes("claim"[2..]) == 3;
    assert Utf8Bytes("claim"[1..]) == 4;
  }

  /** `contextRestoreKey`; the digest is that of the whole tuple. */
  function ContextRestoreKey(dataDir: string, agentId: string, generation: string, sessionId: string,
                             digest: seq<string> -> string): Option<string>
  {
    var parts := [dataDir, agentId, generation, sessionId];
    if NotBlank(dataDir) && NotBlank(agentId) && NotBlank(generation) && NotBlank(sessionId)
    then Some(PREFIX + digest(parts)) else None
  }

  /** Distinct complete scopes never share a key, for any injective digest of the tuple. */
  lemma ScopesDoNotShareKeys(a: seq<string>, b: seq<string>, digest: seq<string> -> string)
    requires |a| == |b| == 4
    requires forall x, y :: digest(x) == digest(y) ==> x == y
    ensures var ka := ContextRestoreKey(a[0], a[1], a[2], a[3], digest);
      var kb := ContextRestoreKey(b[0], b[1], b[2], b[3], digest);
      && (ka.Some? <==> forall k | 0 <= k < 4 :: NotBlank(a[k]))
      && (ka.Some? ==> ka.value == "codex_context_restore:v1:" + digest(a) && PREFIX <= ka.value)
      && (ka.Some? && ka == kb ==> a == b)
  {
    var pa, pb := [a[0], a[1], a[2], a[3]], [b[0], b[1], b[2], b[3]];
    assert a == pa && b == pb;
    assert (PREFIX + digest(pa))[|PREFIX|..] == digest(pa);
    assert (PREFIX + digest(pb))[|PREFIX|..] == digest(pb);
  }
}
