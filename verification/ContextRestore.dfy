/**
 * The durable context-restore record: its stored JSON form, and each store operation as one
 * transaction over the metadata table (src/hook-codex-context-restore.ts).
 */
module ContextRestore {
  import opened Wrappers
  import opened Characters

  const MAX_SAFE_INTEGER: int := 9007199254740991
  const PREFIX := "codex_context_restore:v1:"
  const MAX_BYTES := 2048
  const CLAIM_MS := 30_000
  const RECORD_MS := 604_800_000
  const CLEANUP_LIMIT := 100

  // ---------- stored values ----------

  datatype FieldName =
    | PendingRevision | DeliveredRevision | UpdatedAt | ExpiresAt | ClaimField | DeliveredTurnIdHash
    | Revision | ClaimId | TurnIdHash | OtherField(name: string)

  /** A parsed JSON value. `Int` is an integer literal; `Real` is any other numeral. */
  datatype Json =
    | Null | Bool(b: bool) | Int(n: int) | Real(x: real) | Str(s: string)
    | Arr(items: seq<Json>) | Obj(fields: map<FieldName, Json>)

  /** The text of a metadata row: what it parses to, if it is JSON at all, and its UTF-8 length. */
  datatype Raw = Raw(json: Option<Json>, bytes: nat)

  type Rows = map<string, Raw>

  datatype Claim = Claim(revision: int, claimId: string, turnIdHash: string, expiresAt: int)

  datatype State = State(pendingRevision: int, deliveredRevision: int, claim: Option<Claim>,
                         deliveredTurnIdHash: Option<string>, updatedAt: int, expiresAt: int)

  predicate SafeInteger(n: int, minimum: int) {
    -MAX_SAFE_INTEGER <= n <= MAX_SAFE_INTEGER && minimum <= n
  }

  /** The value of a JSON numeral that JavaScript regards as a safe integer. */
  function AsSafeInteger(j: Json): Option<int> {
    match j
    case Int(n) => if SafeInteger(n, n) then Some(n) else None
    case Real(x) => if x == x.Floor as real && SafeInteger(x.Floor, x.Floor) then Some(x.Floor) else None
    case _ => None
  }

  function IntegerField(fields: map<FieldName, Json>, name: FieldName, minimum: int): Option<int> {
    if name !in fields then None
    else match AsSafeInteger(fields[name])
      case Some(n) => if minimum <= n then Some(n) else None
      case None => None
  }

  /** A lower-case SHA-256 digest in hexadecimal. */
  predicate IsHash(s: string) {
    |s| == 64 && forall i | 0 <= i < |s| :: '0' <= s[i] <= '9' || 'a' <= s[i] <= 'f'
  }

  function Utf8Width(c: char): nat {
    var n := c as int;
    if n < 0x80 then 1 else if n < 0x800 then 2 else if n < 0x1_0000 then 3 else 4
  }

  function Utf8Bytes(s: string): nat {
    if s == "" then 0 else Utf8Width(s[0]) + Utf8Bytes(s[1..])
  }

  /** One, two, three or four bytes: up to 7, 11, 16 and more bits. */
  lemma Utf8ByCodePoint(c: char, s: string)
    ensures Utf8Bytes("") == 0
    ensures var n := Utf8Bytes([c] + s) - Utf8Bytes(s); var bits := c as int;
      && (n == 1 <==> bits / 128 == 0) && (n == 2 <==> bits / 128 > 0 && bits / 2048 == 0)
      && (n == 3 <==> bits / 2048 > 0 && bits / 65536 == 0) && (n == 4 <==> bits / 65536 > 0)
  {
  }

  lemma HashDigits(s: string)
    ensures IsHash(s) <==> |s| == 64 && forall i | 0 <= i < |s| :: s[i] in "0123456789abcdef"
  {
    var digits := "0123456789abcdef";
    forall c: char ensures c in digits <==> '0' <= c <= '9' || 'a' <= c <= 'f' {
      if '0' <= c <= '9' { assert digits[c as int - 48] == c; }
      if 'a' <= c <= 'f' { assert digits[c as int - 87] == c; }
    }
  }

  predicate ValidClaim(c: Claim) {
    && SafeInteger(c.revision, 1)
    && NotBlank(c.claimId) && Utf8Bytes(c.claimId) <= 128
    && IsHash(c.turnIdHash)
    && SafeInteger(c.expiresAt, 1)
  }

  const CLAIM_FIELDS := {Revision, ClaimId, TurnIdHash, ExpiresAt}
  const BASE_FIELDS := {PendingRevision, DeliveredRevision, UpdatedAt, ExpiresAt}

  function DecodeClaim(j: Json): Option<Claim> {
    match j
    case Obj(f) =>
      if f.Keys != CLAIM_FIELDS then None
      else (
        match (IntegerField(f, Revision, 1), f[ClaimId], f[TurnIdHash], IntegerField(f, ExpiresAt, 1))
        case (Some(revision), Str(id), Str(hash), Some(expires)) =>
          var c := Claim(revision, id, hash, expires);
          if ValidClaim(c) then Some(c) else None
        case _ => None)
    case _ => None
  }

  /** The relations between the fields of a stored record, once each field has its type. */
  predicate Coherent(s: State) {
    && s.deliveredRevision <= s.pendingRevision
    && s.updatedAt < s.expiresAt <= s.updatedAt + RECORD_MS
    && (s.deliveredTurnIdHash.Some? ==> s.deliveredRevision != 0 && IsHash(s.deliveredTurnIdHash.value))
    && (s.claim.Some? ==>
          && s.claim.value.revision == s.pendingRevision
          && s.deliveredRevision < s.claim.value.revision
          && s.claim.value.expiresAt <= s.expiresAt
          && s.claim.value.expiresAt - s.updatedAt <= CLAIM_MS)
  }

  /** The in-memory records that `decode` can return. */
  predicate ValidState(s: State) {
    && SafeInteger(s.pendingRevision, 1) && SafeInteger(s.deliveredRevision, 0)
    && SafeInteger(s.updatedAt, 0) && SafeInteger(s.expiresAt, 1)
    && (s.claim.Some? ==> ValidClaim(s.claim.value))
    && Coherent(s)
  }

  function DecodeText(f: map<FieldName, Json>, name: FieldName): Option<string>
    requires name in f
  {
    if f[name].Str? then Some(f[name].s) else None
  }

  /** Every record that `decode` accepts, whoever wrote it, is valid. */
  function Decode(raw: Raw): (r: Option<State>)
    ensures r.Some? ==> ValidState(r.value)
  {
    if raw.bytes > MAX_BYTES || raw.json.None? || !raw.json.value.Obj? then None
    else DecodeFields(raw.json.value.fields)
  }

  function DecodeFields(f: map<FieldName, Json>): (r: Option<State>)
    ensures r.Some? ==> ValidState(r.value)
  {
    if !(BASE_FIELDS <= f.Keys <= BASE_FIELDS + {ClaimField, DeliveredTurnIdHash}) then None
    else if ClaimField in f && DecodeClaim(f[ClaimField]).None? then None
    else if DeliveredTurnIdHash in f && DecodeText(f, DeliveredTurnIdHash).None? then None
    else
      var claim := if ClaimField in f then DecodeClaim(f[ClaimField]) else None;
      var turn := if DeliveredTurnIdHash in f then DecodeText(f, DeliveredTurnIdHash) else None;
      match (IntegerField(f, PendingRevision, 1), IntegerField(f, DeliveredRevision, 0),
             IntegerField(f, UpdatedAt, 0), IntegerField(f, ExpiresAt, 1))
      case (Some(pending), Some(delivered), Some(updated), Some(expires)) =>
        var s := State(pending, delivered, claim, turn, updated, expires);
        if Coherent(s) then Some(s) else None
      case _ => None
  }

  /** The stored object is that claim, with four fields and no other. */
  predicate StoresClaim(j: Json, c: Claim) {
    && j.Obj? && j.fields.Keys == {Revision, ClaimId, TurnIdHash, ExpiresAt}
    && AsSafeInteger(j.fields[Revision]) == Some(c.revision) && j.fields[ClaimId] == Str(c.claimId)
    && j.fields[TurnIdHash] == Str(c.turnIdHash) && AsSafeInteger(j.fields[ExpiresAt]) == Some(c.expiresAt)
  }

  /** The stored object has the fields of the record, the optional ones exactly if the record has them, and no other. */
  predicate StoresRecord(f: map<FieldName, Json>, s: State) {
    && f.Keys == {PendingRevision, DeliveredRevision, UpdatedAt, ExpiresAt}
                 + (if s.claim.Some? then {ClaimField} else {})
                 + (if s.deliveredTurnIdHash.Some? then {DeliveredTurnIdHash} else {})
    && AsSafeInteger(f[PendingRevision]) == Some(s.pendingRevision)
    && AsSafeInteger(f[DeliveredRevision]) == Some(s.deliveredRevision)
    && AsSafeInteger(f[UpdatedAt]) == Some(s.updatedAt) && AsSafeInteger(f[ExpiresAt]) == Some(s.expiresAt)
    && (s.claim.Some? ==> StoresClaim(f[ClaimField], s.claim.value))
    && (s.deliveredTurnIdHash.Some? ==> f[DeliveredTurnIdHash] == Str(s.deliveredTurnIdHash.value))
  }

  /** The bounds of a record: at most seven days, and a claim of at most 30 s for the pending, undelivered revision. */
  predicate IsBounded(s: State) {
    && 1 <= s.pendingRevision && 0 <= s.deliveredRevision <= s.pendingRevision
    && 0 <= s.updatedAt < s.expiresAt <= s.updatedAt + 604_800_000
    && (s.deliveredTurnIdHash.Some? ==> s.deliveredRevision > 0 && IsHash(s.deliveredTurnIdHash.value))
    && (s.claim.Some? ==>
          && s.deliveredRevision < s.claim.value.revision == s.pendingRevision
          && 1 <= s.claim.value.expiresAt <= s.expiresAt && s.claim.value.expiresAt <= s.updatedAt + 30_000
          && NotBlank(s.claim.value.claimId) && Utf8Bytes(s.claim.value.claimId) <= 128
          && IsHash(s.claim.value.turnIdHash))
  }

  /** Exactly which stored texts are read as which record. */
  lemma DecodeIff(raw: Raw, s: State)
    ensures Decode(raw) == Some(s) <==>
      raw.bytes <= 2048 && raw.json.Some? && raw.json.value.Obj? && StoresRecord(raw.json.value.fields, s)
        && IsBounded(s)
  {
    hide IsHash, NotBlank, Utf8Bytes, IsBounded, Coherent;
    BoundedIff(s);
    if raw.json.Some? && raw.json.value.Obj? {
      var f := raw.json.value.fields;
      if ClaimField in f { forall c { ClaimIff(f[ClaimField], c); } }
      forall j: Json ensures AsSafeInteger(j).Some? ==> SafeInteger(AsSafeInteger(j).value, AsSafeInteger(j).value) {}
      hide DecodeClaim, StoresClaim, AsSafeInteger;
    }
  }

  lemma BoundedIff(s: State)
    ensures IsBounded(s) <==>
      && 1 <= s.pendingRevision && 0 <= s.deliveredRevision && 0 <= s.updatedAt && 1 <= s.expiresAt && Coherent(s)
      && (s.claim.Some? ==>
            && 1 <= s.claim.value.revision && 1 <= s.claim.value.expiresAt
            && NotBlank(s.claim.value.claimId) && Utf8Bytes(s.claim.value.claimId) <= 128
            && IsHash(s.claim.value.turnIdHash))
  {
    hide IsHash, NotBlank, Utf8Bytes;
  }

  lemma ClaimIff(j: Json, c: Claim)
    ensures DecodeClaim(j) == Some(c) <==> StoresClaim(j, c) && ValidClaim(c)
  {
    hide IsHash, NotBlank, Utf8Bytes;
  }

  function EncodeClaim(c: Claim): Json {
    Obj(map[Revision := Int(c.revision), ClaimId := Str(c.claimId),
            TurnIdHash := Str(c.turnIdHash), ExpiresAt := Int(c.expiresAt)])
  }

  function EncodeFields(s: State): map<FieldName, Json> {
    map[PendingRevision := Int(s.pendingRevision), DeliveredRevision := Int(s.deliveredRevision),
        UpdatedAt := Int(s.updatedAt), ExpiresAt := Int(s.expiresAt)]
    + (if s.claim.Some? then map[ClaimField := EncodeClaim(s.claim.value)] else map[])
    + (if s.deliveredTurnIdHash.Some? then map[DeliveredTurnIdHash := Str(s.deliveredTurnIdHash.value)] else map[])
  }

  function Digits(n: int): nat
    decreases n < 0, if n < 0 then -n else n
  {
    if n < 0 then 1 + Digits(-n) else if n < 10 then 1 else 1 + Digits(n / 10)
  }

  /** UTF-8 length of one character inside a JSON string literal. */
  function QuotedWidth(c: char): nat {
    var n := c as int;
    if c == '"' || c == '\\' || n in {8, 9, 10, 12, 13} then 2
    else if n < 0x20 then 6
    else Utf8Width(c)
  }

  function QuotedBody(s: string): nat {
    if s == "" then 0 else QuotedWidth(s[0]) + QuotedBody(s[1..])
  }

  function QuotedBytes(s: string): nat { 2 + QuotedBody(s) }

  /** UTF-8 length of `JSON.stringify(state)`: punctuation and field names, then the values. */
  function EncodedBytes(s: State): nat {
    67 + Digits(s.pendingRevision) + Digits(s.deliveredRevision) + Digits(s.updatedAt) + Digits(s.expiresAt)
    + (if s.claim.None? then 0 else
         var c := s.claim.value;
         60 + Digits(c.revision) + QuotedBytes(c.claimId) + QuotedBytes(c.turnIdHash) + Digits(c.expiresAt))
    + (if s.deliveredTurnIdHash.None? then 0 else 23 + QuotedBytes(s.deliveredTurnIdHash.value))
  }

  function Encode(s: State): Raw {
    Raw(Some(Obj(EncodeFields(s))), EncodedBytes(s))
  }

  /** The size of a record's text, on two texts; more digits and longer strings add their own units. */
  lemma SizeOfSmallest()
    ensures EncodedBytes(State(1, 0, None, None, 1, 2))
      == |"{\"pendingRevision\":1,\"deliveredRevision\":0,\"updatedAt\":1,\"expiresAt\":2}"|
  {
  }

  lemma SizeOfOptionalFields(s: State, c: Claim, turn: string)
    requires s.claim.None? && s.deliveredTurnIdHash.None?
    ensures EncodedBytes(s.(claim := Some(c))) == EncodedBytes(s)
      + |",\"claim\":{\"revision\":,\"claimId\":,\"turnIdHash\":,\"expiresAt\":}"|
      + Digits(c.revision) + QuotedBytes(c.claimId) + QuotedBytes(c.turnIdHash) + Digits(c.expiresAt)
    ensures EncodedBytes(s.(deliveredTurnIdHash := Some(turn)))
      == EncodedBytes(s) + |",\"deliveredTurnIdHash\":"| + QuotedBytes(turn)
  {
  }

  lemma DigitsByTens(n: nat)
    ensures n < 10 ==> Digits(n) == 1
    ensures Digits(10 * n + 10) == 1 + Digits(n + 1)
  {
  }

  /** A character that JSON writes with a letter takes two bytes, another control character six. */
  lemma QuotedByKind(c: char)
    ensures c in {'"', '\\', '\n', '\r', '\t', 8 as char, 12 as char} ==> QuotedWidth(c) == 2
    ensures c !in {'"', '\\', '\n', '\r', '\t', 8 as char, 12 as char} ==>
      QuotedWidth(c) == if c as int / 32 == 0 then 6 else Utf8Width(c)
  {
  }

  // ---------- the codec ----------

  lemma {:induction false} DigitsBound(n: nat, k: nat, limit: nat)
    requires k > 0 && limit == Pow10(k) && n < limit
    ensures Digits(n) <= k
  {
    if n >= 10 {
      DigitsBound(n / 10, k - 1, Pow10(k - 1));
    }
  }

  function Pow10(k: nat): nat {
    if k == 0 then 1 else 10 * Pow10(k - 1)
  }

  lemma SafeDigits(n: nat)
    requires SafeInteger(n, 0)
    ensures Digits(n) <= 16
  {
    assert Pow10(4) == 10_000;
    assert Pow10(8) == 100_000_000;
    assert Pow10(12) == 1_000_000_000_000;
    assert Pow10(16) == 10_000_000_000_000_000;
    DigitsBound(n, 16, Pow10(16));
  }

  lemma {:induction false} QuotingBound(s: string)
    ensures QuotedBody(s) <= 6 * Utf8Bytes(s)
  {
    if s != "" { QuotingBound(s[1..]); }
  }

  lemma {:induction false} PlainQuoting(s: string)
    requires forall i | 0 <= i < |s| :: '0' <= s[i] <= '9' || 'a' <= s[i] <= 'f'
    ensures QuotedBody(s) == |s|
  {
    if s != "" { PlainQuoting(s[1..]); }
  }

  /** No valid record is too long for its own size limit, however its claim id is escaped. */
  lemma ValidStatesFit(s: State)
    requires ValidState(s)
    ensures EncodedBytes(s) <= MAX_BYTES
  {
    SafeDigits(s.pendingRevision);
    SafeDigits(s.deliveredRevision);
    SafeDigits(s.updatedAt);
    SafeDigits(s.expiresAt);
    if s.claim.Some? {
      var c := s.claim.value;
      SafeDigits(c.revision);
      SafeDigits(c.expiresAt);
      QuotingBound(c.claimId);
      PlainQuoting(c.turnIdHash);
    }
    if s.deliveredTurnIdHash.Some? {
      PlainQuoting(s.deliveredTurnIdHash.value);
    }
  }

  lemma ClaimRoundTrip(c: Claim)
    ensures DecodeClaim(EncodeClaim(c)) == if ValidClaim(c) then Some(c) else None
  {
    var f := EncodeClaim(c).fields;
    assert f.Keys == CLAIM_FIELDS;
  }

  lemma EncodedFields(s: State)
    ensures var f := EncodeFields(s);
      && f.Keys == BASE_FIELDS + (if s.claim.Some? then {ClaimField} else {})
                   + (if s.deliveredTurnIdHash.Some? then {DeliveredTurnIdHash} else {})
      && f[PendingRevision] == Int(s.pendingRevision) && f[DeliveredRevision] == Int(s.deliveredRevision)
      && f[UpdatedAt] == Int(s.updatedAt) && f[ExpiresAt] == Int(s.expiresAt)
      && (s.claim.Some? ==> f[ClaimField] == EncodeClaim(s.claim.value))
      && (s.deliveredTurnIdHash.Some? ==> f[DeliveredTurnIdHash] == Str(s.deliveredTurnIdHash.value))
  {
  }

  lemma FieldsRoundTrip(s: State)
    ensures DecodeFields(EncodeFields(s)) == if ValidState(s) then Some(s) else None
  {
    hide EncodeFields, EncodeClaim, DecodeClaim, ValidClaim, IsHash;
    EncodedFields(s);
    var f := EncodeFields(s);
    if s.claim.Some? { ClaimRoundTrip(s.claim.value); }
    assert (ClaimField in f ==> s.claim.Some?) && (DeliveredTurnIdHash in f ==> s.deliveredTurnIdHash.Some?);
  }

  /** `decode` reads back exactly the valid records that were written, and refuses every other one. */
  lemma RecordRoundTrip(s: State)
    ensures Decode(Encode(s)) == if ValidState(s) then Some(s) else None
  {
    if ValidState(s) { ValidStatesFit(s); }
    FieldsRoundTrip(s);
  }
}
