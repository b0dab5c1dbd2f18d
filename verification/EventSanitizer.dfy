/**
 * The event payload sanitizer: which payloads it rejects, how far an accepted one is bounded, and why
 * the version 15 migration never rejects (src/db/agent-integration-event-sanitizer.ts:475-621).
 */
module EventSanitizer {
  import opened Wrappers

  const MAX_PAYLOAD_BYTES := 8 * 1024
  const MAX_STRING_LENGTH := 512
  const MAX_KEY_LENGTH := 96
  const MAX_DEPTH := 6
  const MAX_COLLECTION_SIZE := 32
  const REDACTED_CREDENTIAL := "<redacted-credential>"
  const REDACTED_CONTENT := "<redacted-config-content>"
  const TRUNCATED_DEPTH := "<truncated-depth>"
  const TRUNCATED_COLLECTION := "<truncated-items>"
  const CIRCULAR := "<circular-reference>"
  const TRUNCATION_KEY := "_truncated"
  const SCRUBBED_KEY := "_scrubbed"
  const LEGACY_OBJECT := "legacy_v15_truncated_object"

  /**
   * A payload as the sanitizer walks it. `Other` is undefined, a function or a symbol; a back reference is
   * an object that is one of its own ancestors.
   */
  datatype Value =
    | Null
    | Bool(flag: bool)
    | Number(finite: bool, digits: string)
    | Text(text: string)
    | BigInt(digits: string)
    | Other
    | BackReference
    | Array(items: seq<Value>)
    | Record(entries: seq<Entry>)

  datatype Entry = Entry(key: string, item: Value)

  /** The text heuristics, as functions: redaction of a text, of field names, and the digest of a key. */
  datatype Policy = Policy(
    text: (string, nat, string) -> string, sensitive: string -> bool, content: string -> bool,
    lower: string -> string, digest: string -> string)

  datatype Rejection = KeyCollision

  function Truncate(s: string, maximum: nat): string {
    if |s| <= maximum then s else s[..if maximum < 3 then 0 else maximum - 3] + "..."
  }

  function SafeKey(policy: Policy, raw: string): string {
    if policy.text(raw, MAX_KEY_LENGTH, "") == raw then raw else "_redacted_key_sha256_" + policy.digest(raw)
  }

  predicate HasKey(entries: seq<Entry>, key: string) {
    exists k | 0 <= k < |entries| :: entries[k].key == key
  }

  predicate LooksLikeConfiguration(policy: Policy, entries: seq<Entry>) {
    exists k | 0 <= k < |entries| :: policy.lower(entries[k].key) in {"mcpservers", "hooks"}
  }

  function Kept(length: nat): nat {
    if length < MAX_COLLECTION_SIZE then length else MAX_COLLECTION_SIZE
  }

  // ---------- sanitizing ----------

  function Sanitize(policy: Policy, v: Value, depth: nat, field: string): Result<Value, Rejection>
    decreases v, 1, 0
  {
    if field != "" && policy.sensitive(field) then Ok(Text(REDACTED_CREDENTIAL))
    else if field != "" && policy.content(field) then Ok(Text(REDACTED_CONTENT))
    else match v
      case Null => Ok(Null)
      case Bool(_) => Ok(v)
      case Number(finite, _) => Ok(if finite then v else Null)
      case Text(text) => Ok(Text(policy.text(text, MAX_STRING_LENGTH, field)))
      case BigInt(digits) => Ok(Text(Truncate(digits, MAX_STRING_LENGTH)))
      case Other => Ok(Null)
      case BackReference => Ok(Text(if depth >= MAX_DEPTH then TRUNCATED_DEPTH else CIRCULAR))
      case Array(items) =>
        if depth >= MAX_DEPTH then Ok(Text(TRUNCATED_DEPTH))
        else
          var kept := Items(policy, v, depth, Kept(|items|));
          if kept.Err? then Err(kept.error)
          else Ok(Array(if |items| > MAX_COLLECTION_SIZE then kept.value + [Text(TRUNCATED_COLLECTION)]
                        else kept.value))
      case Record(entries) =>
        if depth >= MAX_DEPTH then Ok(Text(TRUNCATED_DEPTH))
        else if LooksLikeConfiguration(policy, entries) then Ok(Text(REDACTED_CONTENT))
        else if |entries| > MAX_COLLECTION_SIZE && HasKey(entries, TRUNCATION_KEY) then Err(KeyCollision)
        else
          var kept := Fields(policy, v, depth, Kept(|entries|));
          if kept.Err? then Err(kept.error)
          else Ok(Record(if |entries| > MAX_COLLECTION_SIZE
                         then kept.value + [Entry(TRUNCATION_KEY, Text(TRUNCATED_COLLECTION))]
                         else kept.value))
  }

  /** The first `n` items of an array. */
  function Items(policy: Policy, v: Value, depth: nat, n: nat): (r: Result<seq<Value>, Rejection>)
    requires v.Array? && n <= |v.items|
    ensures r.Ok? ==> |r.value| == n
    decreases v, 0, n
  {
    if n == 0 then Ok([])
    else
      var before := Items(policy, v, depth, n - 1);
      if before.Err? then before
      else
        var next := Sanitize(policy, v.items[n - 1], depth + 1, "");
        if next.Err? then Err(next.error) else Ok(before.value + [next.value])
  }

  /** The first `n` fields of an object; two keys with the same safe form reject the whole event. */
  function Fields(policy: Policy, v: Value, depth: nat, n: nat): (r: Result<seq<Entry>, Rejection>)
    requires v.Record? && n <= |v.entries|
    ensures r.Ok? ==> |r.value| == n
    decreases v, 0, n
  {
    if n == 0 then Ok([])
    else
      var before := Fields(policy, v, depth, n - 1);
      if before.Err? then before
      else
        var entry := v.entries[n - 1];
        var safe := SafeKey(policy, entry.key);
        if HasKey(before.value, safe) then Err(KeyCollision)
        else
          var next := Sanitize(policy, entry.item, depth + 1, entry.key);
          if next.Err? then Err(next.error) else Ok(before.value + [Entry(safe, next.value)])
  }

  // ---------- the loops of the program ----------

  predicate DistinctKeys(entries: seq<Entry>) {
    forall i, j | 0 <= i < j < |entries| :: entries[i].key != entries[j].key
  }

  /** A JavaScript value: the keys of each object are distinct. */
  predicate WellKeyed(v: Value)
    decreases v
  {
    match v
    case Array(items) => forall k | 0 <= k < |items| :: WellKeyed(items[k])
    case Record(entries) => DistinctKeys(entries) && forall k | 0 <= k < |entries| :: WellKeyed(entries[k].item)
    case _ => true
  }

  method SanitizeItems(policy: Policy, v: Value, depth: nat) returns (r: Result<seq<Value>, Rejection>)
    requires v.Array? && WellKeyed(v)
    ensures r == Items(policy, v, depth, Kept(|v.items|))
    decreases v, 0
  {
    hide Sanitize;
    var kept: seq<Value> := [];
    for k := 0 to Kept(|v.items|)
      invariant Items(policy, v, depth, k) == Ok(kept)
    {
      var next := SanitizeValue(policy, v.items[k], depth + 1, "");
      if next.Err? {
        RejectionStays(policy, v, depth, k + 1);
        return Err(next.error);
      }
      kept := kept + [next.value];
    }
    return Ok(kept);
  }

  /** The record that is filled and the map from safe keys to the raw keys they came from. */
  method SanitizeFields(policy: Policy, v: Value, depth: nat) returns (r: Result<seq<Entry>, Rejection>)
    requires v.Record? && WellKeyed(v)
    ensures r == Fields(policy, v, depth, Kept(|v.entries|))
    decreases v, 0
  {
    hide Sanitize, SafeKey;
    var sanitized: seq<Entry> := [];
    var originalKeys: map<string, string> := map[];
    for k := 0 to Kept(|v.entries|)
      invariant Fields(policy, v, depth, k) == Ok(sanitized)
      invariant forall key :: key in originalKeys <==> HasKey(sanitized, key)
      invariant forall key | key in originalKeys :: exists j | 0 <= j < k :: v.entries[j].key == originalKeys[key]
    {
      var Entry(rawKey, item) := v.entries[k];
      var safeKey := SafeKey(policy, rawKey);
      if safeKey in originalKeys && originalKeys[safeKey] != rawKey {
        FieldRejectionStays(policy, v, depth, k + 1);
        return Err(KeyCollision);
      }
      var next := SanitizeValue(policy, item, depth + 1, rawKey);
      if next.Err? {
        FieldRejectionStays(policy, v, depth, k + 1);
        return Err(next.error);
      }
      originalKeys := originalKeys[safeKey := rawKey];
      var filled := sanitized + [Entry(safeKey, next.value)];
      OneMoreKey(sanitized, Entry(safeKey, next.value));
      sanitized := filled;
    }
    return Ok(sanitized);
  }

  lemma OneMoreKey(entries: seq<Entry>, e: Entry)
    ensures forall key :: HasKey(entries + [e], key) <==> key == e.key || HasKey(entries, key)
  {
    assert (entries + [e])[|entries|] == e;
    forall key | HasKey(entries, key) ensures HasKey(entries + [e], key) {
      var k :| 0 <= k < |entries| && entries[k].key == key;
      assert (entries + [e])[k].key == key;
    }
  }

  lemma {:induction false} RejectionStays(policy: Policy, v: Value, depth: nat, n: nat)
    requires v.Array? && n <= Kept(|v.items|) && Items(policy, v, depth, n).Err?
    ensures Items(policy, v, depth, Kept(|v.items|)) == Items(policy, v, depth, n)
    decreases |v.items| - n
  {
    hide Sanitize;
    if n < Kept(|v.items|) { RejectionStays(policy, v, depth, n + 1); }
  }

  lemma {:induction false} FieldRejectionStays(policy: Policy, v: Value, depth: nat, n: nat)
    requires v.Record? && n <= Kept(|v.entries|) && Fields(policy, v, depth, n).Err?
    ensures Fields(policy, v, depth, Kept(|v.entries|)) == Fields(policy, v, depth, n)
    decreases |v.entries| - n
  {
    hide Sanitize, SafeKey;
    if n < Kept(|v.entries|) { FieldRejectionStays(policy, v, depth, n + 1); }
  }

  /** `sanitizeValue`: the loops compute the sanitized value, and reject exactly when it is rejected. */
  method SanitizeValue(policy: Policy, v: Value, depth: nat, field: string) returns (r: Result<Value, Rejection>)
    requires WellKeyed(v)
    ensures r == Sanitize(policy, v, depth, field)
    decreases v, 1
  {
    hide Items, Fields, HasKey, LooksLikeConfiguration;
    if field != "" && policy.sensitive(field) { return Ok(Text(REDACTED_CREDENTIAL)); }
    if field != "" && policy.content(field) { return Ok(Text(REDACTED_CONTENT)); }
    match v {
      case Null => return Ok(Null);
      case Bool(_) => return Ok(v);
      case Number(finite, _) => return Ok(if finite then v else Null);
      case Text(text) => return Ok(Text(policy.text(text, MAX_STRING_LENGTH, field)));
      case BigInt(digits) => return Ok(Text(Truncate(digits, MAX_STRING_LENGTH)));
      case Other => return Ok(Null);
      case BackReference => return Ok(Text(if depth >= MAX_DEPTH then TRUNCATED_DEPTH else CIRCULAR));
      case Array(items) =>
        if depth >= MAX_DEPTH { return Ok(Text(TRUNCATED_DEPTH)); }
        var kept := SanitizeItems(policy, v, depth);
        if kept.Err? { return Err(kept.error); }
        return Ok(Array(if |items| > MAX_COLLECTION_SIZE then kept.value + [Text(TRUNCATED_COLLECTION)]
                        else kept.value));
      case Record(entries) =>
        if depth >= MAX_DEPTH { return Ok(Text(TRUNCATED_DEPTH)); }
        if LooksLikeConfiguration(policy, entries) { return Ok(Text(REDACTED_CONTENT)); }
        if |entries| > MAX_COLLECTION_SIZE && HasKey(entries, TRUNCATION_KEY) { return Err(KeyCollision); }
        var kept := SanitizeFields(policy, v, depth);
        if kept.Err? { return Err(kept.error); }
        var sanitized := kept.value;
        if |entries| > MAX_COLLECTION_SIZE {
          sanitized := sanitized + [Entry(TRUNCATION_KEY, Text(TRUNCATED_COLLECTION))];
        }
        return Ok(Record(sanitized));
    }
  }

  // ---------- what an object's fields become ----------

  predicate SafeKeysCollide(policy: Policy, entries: seq<Entry>, n: nat)
    requires n <= |entries|
  {
    exists i, j | 0 <= i < j < n :: SafeKey(policy, entries[i].key) == SafeKey(policy, entries[j].key)
  }

  predicate SomeFieldRejected(policy: Policy, entries: seq<Entry>, depth: nat, n: nat)
    requires n <= |entries|
  {
    exists i | 0 <= i < n :: Sanitize(policy, entries[i].item, depth + 1, entries[i].key).Err?
  }

  /** Every kept field appears once, in place, under its safe key; nothing is overwritten. */
  lemma {:induction false} FieldsAreImages(policy: Policy, v: Value, depth: nat, n: nat)
    requires v.Record? && n <= |v.entries|
    ensures var r := Fields(policy, v, depth, n);
      && (r.Err? <==> SafeKeysCollide(policy, v.entries, n) || SomeFieldRejected(policy, v.entries, depth, n))
      && (r.Ok? ==> forall k | 0 <= k < n ::
            && r.value[k].key == SafeKey(policy, v.entries[k].key)
            && Sanitize(policy, v.entries[k].item, depth + 1, v.entries[k].key) == Ok(r.value[k].item))
    decreases n
  {
    hide Sanitize, SafeKey;
    if n > 0 {
      FieldsAreImages(policy, v, depth, n - 1);
      var before := Fields(policy, v, depth, n - 1);
      var last := v.entries[n - 1];
      if before.Ok? && HasKey(before.value, SafeKey(policy, last.key)) {
        var k :| 0 <= k < n - 1 && before.value[k].key == SafeKey(policy, last.key);
        assert SafeKey(policy, v.entries[k].key) == SafeKey(policy, v.entries[n - 1].key);
      } else if before.Ok? {
        assert forall k | 0 <= k < n - 1 :: before.value[k].key != SafeKey(policy, last.key);
      }
    }
  }

  lemma {:induction false} ItemsAreImages(policy: Policy, v: Value, depth: nat, n: nat)
    requires v.Array? && n <= |v.items|
    ensures var r := Items(policy, v, depth, n);
      && (r.Err? <==> exists k | 0 <= k < n :: Sanitize(policy, v.items[k], depth + 1, "").Err?)
      && (r.Ok? ==> forall k | 0 <= k < n :: Sanitize(policy, v.items[k], depth + 1, "") == Ok(r.value[k]))
    decreases n
  {
    hide Sanitize;
    if n > 0 { ItemsAreImages(policy, v, depth, n - 1); }
  }

  /** The object is walked: not redacted by its field, not below the depth limit, not configuration. */
  predicate IsWalked(policy: Policy, v: Value, depth: nat, field: string) {
    && (field == "" || (!policy.sensitive(field) && !policy.content(field)))
    && depth < MAX_DEPTH && (v.Record? ==> !LooksLikeConfiguration(policy, v.entries))
  }

  /** An object is rejected exactly for a reserved key, for two kept keys with one safe form, or for a kept field. */
  lemma ObjectRejectedIff(policy: Policy, v: Value, depth: nat, field: string)
    requires v.Record?
    ensures Sanitize(policy, v, depth, field).Err? <==>
      && IsWalked(policy, v, depth, field)
      && (|| (|v.entries| > MAX_COLLECTION_SIZE && HasKey(v.entries, TRUNCATION_KEY))
          || SafeKeysCollide(policy, v.entries, Kept(|v.entries|))
          || SomeFieldRejected(policy, v.entries, depth, Kept(|v.entries|)))
  {
    hide HasKey, SafeKeysCollide, SomeFieldRejected, Fields, LooksLikeConfiguration;
    FieldsAreImages(policy, v, depth, Kept(|v.entries|));
  }

  // ---------- the bounds of an accepted payload ----------

  /** Plain JSON: at most `room` containers deep, at most 33 entries each, and the 33rd only as the marker. */
  predicate Fits(v: Value, room: nat)
    decreases v
  {
    match v
    case Null => true
    case Bool(_) => true
    case Number(finite, _) => finite
    case Text(_) => true
    case BigInt(_) => false
    case Other => false
    case BackReference => false
    case Array(items) =>
      && room > 0 && |items| <= MAX_COLLECTION_SIZE + 1
      && (|items| == MAX_COLLECTION_SIZE + 1 ==> items[MAX_COLLECTION_SIZE] == Text(TRUNCATED_COLLECTION))
      && forall k | 0 <= k < |items| :: Fits(items[k], room - 1)
    case Record(entries) =>
      && room > 0 && |entries| <= MAX_COLLECTION_SIZE + 1 && DistinctKeys(entries)
      && (|entries| == MAX_COLLECTION_SIZE + 1 ==>
            entries[MAX_COLLECTION_SIZE] == Entry(TRUNCATION_KEY, Text(TRUNCATED_COLLECTION)))
      && forall k | 0 <= k < |entries| :: Fits(entries[k].item, room - 1)
  }

  lemma {:induction false} AcceptedFits(policy: Policy, v: Value, depth: nat, field: string)
    requires depth <= MAX_DEPTH
    ensures var r := Sanitize(policy, v, depth, field); r.Ok? ==> Fits(r.value, MAX_DEPTH - depth)
    decreases v
  {
    var r := Sanitize(policy, v, depth, field);
    if r.Ok? && r.value.Array? && depth < MAX_DEPTH {
      ArrayFits(policy, v, depth, field);
    } else if r.Ok? && r.value.Record? && depth < MAX_DEPTH {
      RecordFits(policy, v, depth, field);
    }
  }

  lemma {:induction false} ArrayFits(policy: Policy, v: Value, depth: nat, field: string)
    requires depth < MAX_DEPTH && Sanitize(policy, v, depth, field).Ok?
      && Sanitize(policy, v, depth, field).value.Array?
    ensures Fits(Sanitize(policy, v, depth, field).value, MAX_DEPTH - depth)
    decreases v, 0
  {
    hide Items;
    var n := Kept(|v.items|);
    ItemsAreImages(policy, v, depth, n);
    var kept := Items(policy, v, depth, n).value;
    forall k | 0 <= k < n ensures Fits(kept[k], MAX_DEPTH - depth - 1) {
      AcceptedFits(policy, v.items[k], depth + 1, "");
    }
  }

  lemma {:induction false} RecordFits(policy: Policy, v: Value, depth: nat, field: string)
    requires depth < MAX_DEPTH && Sanitize(policy, v, depth, field).Ok?
      && Sanitize(policy, v, depth, field).value.Record?
    ensures Fits(Sanitize(policy, v, depth, field).value, MAX_DEPTH - depth)
    decreases v, 0
  {
    hide Fields, LooksLikeConfiguration, HasKey, SafeKeysCollide, SomeFieldRejected;
    var n := Kept(|v.entries|);
    FieldsAreImages(policy, v, depth, n);
    var kept := Fields(policy, v, depth, n).value;
    forall k | 0 <= k < n ensures Fits(kept[k].item, MAX_DEPTH - depth - 1) {
      AcceptedFits(policy, v.entries[k].item, depth + 1, v.entries[k].key);
    }
    KeptKeysAreDistinct(policy, v, depth, n);
    if |v.entries| > MAX_COLLECTION_SIZE {
      MarkerIsNoKey(policy, v, depth, n);
      MarkerStaysDistinct(kept, Entry(TRUNCATION_KEY, Text(TRUNCATED_COLLECTION)));
    }
  }

  lemma MarkerStaysDistinct(entries: seq<Entry>, marker: Entry)
    requires DistinctKeys(entries) && !HasKey(entries, marker.key)
    ensures DistinctKeys(entries + [marker])
  {
  }

  lemma KeptKeysAreDistinct(policy: Policy, v: Value, depth: nat, n: nat)
    requires v.Record? && n <= |v.entries| && Fields(policy, v, depth, n).Ok?
    ensures DistinctKeys(Fields(policy, v, depth, n).value)
  {
    hide Fields, SafeKey, Sanitize;
    FieldsAreImages(policy, v, depth, n);
    var kept := Fields(policy, v, depth, n).value;
    forall i, j | 0 <= i < j < |kept| ensures kept[i].key != kept[j].key {
      assert kept[i].key == SafeKey(policy, v.entries[i].key) && kept[j].key == SafeKey(policy, v.entries[j].key);
    }
  }

  /** The marker's key can only come from itself, and an object with it and more than 32 keys was rejected. */
  lemma MarkerIsNoKey(policy: Policy, v: Value, depth: nat, n: nat)
    requires v.Record? && n <= |v.entries| && Fields(policy, v, depth, n).Ok? && !HasKey(v.entries, TRUNCATION_KEY)
    ensures !HasKey(Fields(policy, v, depth, n).value, TRUNCATION_KEY)
  {
    hide Fields, Sanitize;
    FieldsAreImages(policy, v, depth, n);
    var kept := Fields(policy, v, depth, n).value;
    forall k | 0 <= k < n ensures kept[k].key != TRUNCATION_KEY {
      RedactedFormIsNoMarker(policy.digest(v.entries[k].key));
    }
  }

  lemma RedactedFormIsNoMarker(digest: string)
    ensures "_redacted_key_sha256_" + digest != TRUNCATION_KEY
  {
    assert ("_redacted_key_sha256_" + digest)[1] == 'r';
  }

  // ---------- what an accepted payload can hold ----------

  /** No text and no key anywhere in the value is bad. */
  predicate Clean(v: Value, bad: string -> bool)
    decreases v
  {
    match v
    case Text(text) => !bad(text)
    case BigInt(digits) => !bad(digits)
    case Array(items) => forall k | 0 <= k < |items| :: Clean(items[k], bad)
    case Record(entries) => forall k | 0 <= k < |entries| :: !bad(entries[k].key) && Clean(entries[k].item, bad)
    case _ => true
  }

  predicate IsDecimal(digits: string) {
    forall k | 0 <= k < |digits| :: '0' <= digits[k] <= '9' || (k == 0 && digits[k] == '-')
  }

  /** The integers of a payload are written in decimal. */
  predicate DecimalIntegers(v: Value)
    decreases v
  {
    match v
    case BigInt(digits) => IsDecimal(digits)
    case Array(items) => forall k | 0 <= k < |items| :: DecimalIntegers(items[k])
    case Record(entries) => forall k | 0 <= k < |entries| :: DecimalIntegers(entries[k].item)
    case _ => true
  }

  /** What redaction never returns, and what is none of the fixed texts, redacted keys and decimal integers. */
  ghost predicate NeverWritten(policy: Policy, bad: string -> bool) {
    && (forall raw: string, field: string :: !bad(policy.text(raw, 512, field)))
    && (forall raw: string :: !bad(policy.text(raw, 96, "")))
    && (forall raw: string :: !bad("_redacted_key_sha256_" + policy.digest(raw)))
    && (forall digits: string | IsDecimal(digits) :: !bad(Truncate(digits, 512)))
    && !bad("<redacted-credential>") && !bad("<redacted-config-content>") && !bad("<truncated-depth>")
    && !bad("<truncated-items>") && !bad("<circular-reference>") && !bad("_truncated")
  }

  lemma KeysAreClean(policy: Policy, raw: string, bad: string -> bool)
    requires NeverWritten(policy, bad)
    ensures !bad(SafeKey(policy, raw))
  {
    assert !bad(policy.text(raw, 96, ""));
  }

  /**
   * Nothing that redaction takes out of a text is ever stored: no text and no key of an accepted payload,
   * at any depth, is one that redaction does not return.
   */
  lemma {:induction false} NothingLeaks(policy: Policy, v: Value, depth: nat, field: string, bad: string -> bool)
    requires NeverWritten(policy, bad) && DecimalIntegers(v)
    ensures var r := Sanitize(policy, v, depth, field); r.Ok? ==> Clean(r.value, bad)
    decreases v
  {
    hide NeverWritten, Items, Fields, SafeKey, LooksLikeConfiguration, HasKey, IsDecimal, Truncate;
    LeavesAreClean(policy, bad);
    var r := Sanitize(policy, v, depth, field);
    if r.Ok? && r.value.Array? {
      var n := Kept(|v.items|);
      ItemsAreImages(policy, v, depth, n);
      forall k | 0 <= k < n ensures Clean(r.value.items[k], bad) {
        NothingLeaks(policy, v.items[k], depth + 1, "", bad);
      }
    } else if r.Ok? && r.value.Record? {
      var n := Kept(|v.entries|);
      FieldsAreImages(policy, v, depth, n);
      forall k | 0 <= k < n ensures !bad(r.value.entries[k].key) && Clean(r.value.entries[k].item, bad) {
        KeysAreClean(policy, v.entries[k].key, bad);
        NothingLeaks(policy, v.entries[k].item, depth + 1, v.entries[k].key, bad);
      }
    }
  }

  lemma LeavesAreClean(policy: Policy, bad: string -> bool)
    requires NeverWritten(policy, bad)
    ensures forall raw: string, field: string :: !bad(policy.text(raw, MAX_STRING_LENGTH, field))
    ensures forall digits: string | IsDecimal(digits) :: !bad(Truncate(digits, MAX_STRING_LENGTH))
    ensures !bad(REDACTED_CREDENTIAL) && !bad(REDACTED_CONTENT) && !bad(TRUNCATED_DEPTH) && !bad(CIRCULAR)
    ensures !bad(TRUNCATED_COLLECTION) && !bad(TRUNCATION_KEY)
  {
    hide IsDecimal, Truncate;
  }

  /**
   * What is no container is kept as it is or replaced whole: a field by its name, an ordinary text by its
   * redaction, and booleans and finite numbers not at all.
   */
  lemma LeavesByKind(policy: Policy, v: Value, depth: nat, field: string)
    requires !v.Array? && !v.Record?
    ensures var r := Sanitize(policy, v, depth, field);
      if field != "" && policy.sensitive(field) then r == Ok(Text("<redacted-credential>"))
      else if field != "" && policy.content(field) then r == Ok(Text("<redacted-config-content>"))
      else
        && (v.Bool? || (v.Number? && v.finite) ==> r == Ok(v))
        && (v.Null? || v.Other? || (v.Number? && !v.finite) ==> r == Ok(Null))
        && (v.Text? ==> r == Ok(Text(policy.text(v.text, 512, field))))
        && (v.BackReference? ==> r == Ok(Text(if depth >= 6 then "<truncated-depth>" else "<circular-reference>")))
        && (v.BigInt? && |v.digits| <= 512 ==> r == Ok(Text(v.digits)))
        && (v.BigInt? && |v.digits| > 512 ==> r == Ok(Text(v.digits[..509] + "...")))
  {
  }

  /** A container of a sensitive or content field, too deep, or of configuration is replaced whole. */
  lemma ContainersReplaced(policy: Policy, v: Value, depth: nat, field: string)
    requires v.Array? || v.Record?
    ensures var r := Sanitize(policy, v, depth, field);
      if field != "" && policy.sensitive(field) then r == Ok(Text("<redacted-credential>"))
      else if field != "" && policy.content(field) then r == Ok(Text("<redacted-config-content>"))
      else
        && (depth >= 6 ==> r == Ok(Text("<truncated-depth>")))
        && (depth < 6 && v.Record?
            && (exists k | 0 <= k < |v.entries| ::
                  policy.lower(v.entries[k].key) == "mcpservers" || policy.lower(v.entries[k].key) == "hooks") ==>
              r == Ok(Text("<redacted-config-content>")))
  {
    hide Items, Fields, HasKey;
  }

  /**
   * Every other accepted container keeps its first 32 entries, in place, each sanitized, and says if
   * there were more.
   */
  lemma ContainersKept(policy: Policy, v: Value, depth: nat, field: string)
    requires (v.Array? || v.Record?) && IsWalked(policy, v, depth, field) && Sanitize(policy, v, depth, field).Ok?
    ensures var r := Sanitize(policy, v, depth, field).value;
      && (v.Array? ==>
            && r.Array? && |r.items| == (if |v.items| <= 32 then |v.items| else 33)
            && (|v.items| > 32 ==> r.items[32] == Text("<truncated-items>"))
            && forall k | 0 <= k < |v.items| && k < 32 :: Sanitize(policy, v.items[k], depth + 1, "") == Ok(r.items[k]))
      && (v.Record? ==>
            && r.Record? && |r.entries| == (if |v.entries| <= 32 then |v.entries| else 33)
            && (|v.entries| > 32 ==> r.entries[32] == Entry("_truncated", Text("<truncated-items>")))
            && forall k | 0 <= k < |v.entries| && k < 32 ::
                 && Sanitize(policy, v.entries[k].item, depth + 1, v.entries[k].key) == Ok(r.entries[k].item)
                 && r.entries[k].key == (if policy.text(v.entries[k].key, 96, "") == v.entries[k].key
                                         then v.entries[k].key
                                         else "_redacted_key_sha256_" + policy.digest(v.entries[k].key)))
  {
    hide Items, Fields, HasKey, LooksLikeConfiguration;
    if v.Array? {
      ItemsAreImages(policy, v, depth, Kept(|v.items|));
    } else {
      FieldsAreImages(policy, v, depth, Kept(|v.entries|));
    }
  }

  // ---------- the version 15 migration ----------

  predicate IsLegacyTruncated(entries: seq<Entry>) {
    |entries| == MAX_COLLECTION_SIZE + 1 && Entry(TRUNCATION_KEY, Text(TRUNCATED_COLLECTION)) in entries
  }

  /** `scrubHistoricalV15TruncatedObjects` */
  function Scrub(v: Value, depth: nat): Value
    decreases v
  {
    if depth >= MAX_DEPTH then v
    else match v
      case Array(items) => Array(seq(|items|, k requires 0 <= k < |items| => Scrub(items[k], depth + 1)))
      case Record(entries) =>
        if IsLegacyTruncated(entries) then Record([Entry(SCRUBBED_KEY, Text(LEGACY_OBJECT))])
        else Record(seq(|entries|, k requires 0 <= k < |entries| =>
                        Entry(entries[k].key, Scrub(entries[k].item, depth + 1))))
      case _ => v
  }

  /** An object of 33 keys with the old marker is in reach of the walk. */
  predicate HasLegacy(v: Value, depth: nat)
    decreases v
  {
    && depth < 6
    && match v
       case Array(items) => exists k | 0 <= k < |items| :: HasLegacy(items[k], depth + 1)
       case Record(entries) =>
         || (|entries| == 33 && Entry("_truncated", Text("<truncated-items>")) in entries)
         || exists k | 0 <= k < |entries| :: HasLegacy(entries[k].item, depth + 1)
       case _ => false
  }

  /** The scrub replaces exactly such objects: without one it changes nothing. */
  lemma {:induction false} ScrubChangesIff(v: Value, depth: nat)
    ensures Scrub(v, depth) != v <==> HasLegacy(v, depth)
    decreases v
  {
    if depth < MAX_DEPTH {
      match v
      case Array(items) =>
        forall k | 0 <= k < |items| ensures Scrub(items[k], depth + 1) != items[k] <==> HasLegacy(items[k], depth + 1) {
          ScrubChangesIff(items[k], depth + 1);
        }
      case Record(entries) =>
        forall k | 0 <= k < |entries|
          ensures Scrub(entries[k].item, depth + 1) != entries[k].item <==> HasLegacy(entries[k].item, depth + 1)
        {
          ScrubChangesIff(entries[k].item, depth + 1);
        }
      case _ =>
    }
  }

  /** And replaces each of them whole, and every other container entry by entry. */
  lemma ScrubByKind(v: Value, depth: nat)
    requires depth < 6
    ensures v.Array? ==> var r := Scrub(v, depth);
      r.Array? && |r.items| == |v.items| && forall k | 0 <= k < |v.items| :: r.items[k] == Scrub(v.items[k], depth + 1)
    ensures v.Record? ==> var r := Scrub(v, depth);
      if |v.entries| == 33 && Entry("_truncated", Text("<truncated-items>")) in v.entries
      then r == Record([Entry("_scrubbed", Text("legacy_v15_truncated_object"))])
      else
        && r.Record? && |r.entries| == |v.entries|
        && forall k | 0 <= k < |v.entries| ::
             r.entries[k] == Entry(v.entries[k].key, Scrub(v.entries[k].item, depth + 1))
  {
  }

  /**
   * What version 15 could have stored: objects of at most 33 keys, 33 only with its marker, keys that
   * redaction keeps.
   */
  predicate StorableV15(policy: Policy, v: Value)
    decreases v
  {
    match v
    case Array(items) => forall k | 0 <= k < |items| :: StorableV15(policy, items[k])
    case Record(entries) =>
      && |entries| <= MAX_COLLECTION_SIZE + 1 && DistinctKeys(entries)
      && (|entries| == MAX_COLLECTION_SIZE + 1 ==> Entry(TRUNCATION_KEY, Text(TRUNCATED_COLLECTION)) in entries)
      && (forall k | 0 <= k < |entries| :: SafeKey(policy, entries[k].key) == entries[k].key)
      && forall k | 0 <= k < |entries| :: StorableV15(policy, entries[k].item)
    case _ => true
  }

  /** The migration never hits the collision error. */
  lemma {:induction false} MigrationIsTotal(policy: Policy, v: Value, depth: nat, field: string)
    requires StorableV15(policy, v)
    ensures Sanitize(policy, Scrub(v, depth), depth, field).Ok?
    decreases v
  {
    if depth < MAX_DEPTH {
      match v
      case Array(items) =>
        var s := Scrub(v, depth);
        ItemsAreImages(policy, s, depth, Kept(|s.items|));
        forall k | 0 <= k < Kept(|s.items|) ensures Sanitize(policy, s.items[k], depth + 1, "").Ok? {
          MigrationIsTotal(policy, items[k], depth + 1, "");
        }
        AcceptedItems(policy, s, depth, field);
      case Record(entries) =>
        var s := Scrub(v, depth);
        ObjectRejectedIff(policy, s, depth, field);
        if IsLegacyTruncated(entries) {
          SingleTextIsAccepted(policy, s, depth);
        } else {
          forall k | 0 <= k < |entries| ensures Sanitize(policy, s.entries[k].item, depth + 1, s.entries[k].key).Ok? {
            MigrationIsTotal(policy, entries[k].item, depth + 1, entries[k].key);
          }
          StableKeysDoNotCollide(policy, entries, s.entries);
        }
      case _ =>
    }
  }

  lemma AcceptedItems(policy: Policy, v: Value, depth: nat, field: string)
    requires v.Array? && Items(policy, v, depth, Kept(|v.items|)).Ok?
    ensures Sanitize(policy, v, depth, field).Ok?
  {
    hide Items;
  }

  lemma SingleTextIsAccepted(policy: Policy, v: Value, depth: nat)
    requires v.Record? && |v.entries| == 1 && v.entries[0].item.Text?
    ensures !SafeKeysCollide(policy, v.entries, 1) && !SomeFieldRejected(policy, v.entries, depth, 1)
  {
  }

  lemma StableKeysDoNotCollide(policy: Policy, before: seq<Entry>, after: seq<Entry>)
    requires |before| == |after| && DistinctKeys(before)
    requires forall k | 0 <= k < |before| ::
      after[k].key == before[k].key && SafeKey(policy, before[k].key) == before[k].key
    ensures !SafeKeysCollide(policy, after, Kept(|after|))
  {
    hide SafeKey;
    forall i, j | 0 <= i < j < Kept(|after|) ensures SafeKey(policy, after[i].key) != SafeKey(policy, after[j].key) {
      assert before[i].key != before[j].key;
    }
  }

  /** The redacted form of a key is one that redaction keeps. */
  ghost predicate RedactionIsStable(policy: Policy) {
    && SafeKey(policy, TRUNCATION_KEY) == TRUNCATION_KEY
    && forall raw: string :: SafeKey(policy, SafeKey(policy, raw)) == SafeKey(policy, raw)
  }

  /** What the sanitizer accepts today is again something that a later migration can take. */
  lemma {:induction false} AcceptedIsStorable(policy: Policy, v: Value, depth: nat, field: string)
    requires RedactionIsStable(policy) && depth <= MAX_DEPTH
    ensures var r := Sanitize(policy, v, depth, field); r.Ok? ==> StorableV15(policy, r.value)
    decreases v
  {
    hide Items, Fields, SafeKey, LooksLikeConfiguration, HasKey, SafeKeysCollide, SomeFieldRejected, DistinctKeys;
    var r := Sanitize(policy, v, depth, field);
    if r.Ok? && r.value.Array? {
      var n := Kept(|v.items|);
      ItemsAreImages(policy, v, depth, n);
      forall k | 0 <= k < n ensures StorableV15(policy, r.value.items[k]) {
        AcceptedIsStorable(policy, v.items[k], depth + 1, "");
      }
    } else if r.Ok? && r.value.Record? {
      var n := Kept(|v.entries|);
      FieldsAreImages(policy, v, depth, n);
      forall k | 0 <= k < n ensures StorableV15(policy, r.value.entries[k].item) {
        AcceptedIsStorable(policy, v.entries[k].item, depth + 1, v.entries[k].key);
      }
      RecordFits(policy, v, depth, field);
      if |v.entries| > MAX_COLLECTION_SIZE { assert r.value.entries[MAX_COLLECTION_SIZE] in r.value.entries; }
    }
  }

  // ---------- the stored text ----------

  /** The bytes of a text in UTF-8, by code point. */
  function Utf8Length(s: string): nat {
    if s == "" then 0
    else
      var c := s[|s| - 1] as int;
      Utf8Length(s[..|s| - 1]) + (if c < 0x80 then 1 else if c < 0x800 then 2 else if c < 0x1_0000 then 3 else 4)
  }

  /** One, two, three or four bytes: up to 7, 11, 16 and more bits. */
  lemma Utf8ByCodePoint(s: string, c: char)
    ensures Utf8Length("") == 0
    ensures var n := Utf8Length(s + [c]) - Utf8Length(s); var bits := c as int;
      && (n == 1 <==> bits / 128 == 0) && (n == 2 <==> bits / 128 > 0 && bits / 2048 == 0)
      && (n == 3 <==> bits / 2048 > 0 && bits / 65536 == 0) && (n == 4 <==> bits / 65536 > 0)
  {
    assert (s + [c])[..|s + [c]| - 1] == s;
  }

  lemma {:induction false} Utf8IsShort(s: string)
    ensures Utf8Length(s) <= 4 * |s|
  {
    if s != "" { Utf8IsShort(s[..|s| - 1]); }
  }

  /** `JSON.stringify`; `quote` writes a text as a JSON string. */
  function Stringify(v: Value, quote: string -> string): string
    decreases v, 1, 0
  {
    match v
    case Bool(flag) => if flag then "true" else "false"
    case Number(_, digits) => digits
    case Text(text) => quote(text)
    case Array(items) => "[" + StringifyItems(v, |items|, quote) + "]"
    case Record(entries) => "{" + StringifyFields(v, |entries|, quote) + "}"
    case _ => "null"
  }

  function StringifyItems(v: Value, n: nat, quote: string -> string): string
    requires v.Array? && n <= |v.items|
    decreases v, 0, n
  {
    if n == 0 then ""
    else StringifyItems(v, n - 1, quote) + (if n > 1 then "," else "") + Stringify(v.items[n - 1], quote)
  }

  function StringifyFields(v: Value, n: nat, quote: string -> string): string
    requires v.Record? && n <= |v.entries|
    decreases v, 0, n
  {
    if n == 0 then ""
    else
      StringifyFields(v, n - 1, quote) + (if n > 1 then "," else "")
      + quote(v.entries[n - 1].key) + ":" + Stringify(v.entries[n - 1].item, quote)
  }

  /** The words and brackets of JSON: two entries of a container are enough to see where they go. */
  lemma StringifyLeaves(v: Value, quote: string -> string)
    ensures Stringify(Null, quote) == "null" && Stringify(Bool(true), quote) == "true"
    ensures Stringify(Bool(false), quote) == "false"
    ensures v.Number? ==> Stringify(v, quote) == v.digits
    ensures v.Text? ==> Stringify(v, quote) == quote(v.text)
  {
  }

  lemma StringifyItemsInOrder(a: Value, b: Value, quote: string -> string)
    ensures Stringify(Array([a, b]), quote) == "[" + (Stringify(a, quote) + "," + Stringify(b, quote)) + "]"
  {
    var v := Array([a, b]);
    var x, y := Stringify(a, quote), Stringify(b, quote);
    assert StringifyItems(v, 0, quote) == "";
    assert StringifyItems(v, 1, quote) == "" + "" + Stringify(v.items[0], quote) == x;
    assert StringifyItems(v, 2, quote) == x + "," + Stringify(v.items[1], quote);
  }

  lemma StringifyFieldsInOrder(a: Entry, b: Entry, quote: string -> string)
    ensures Stringify(Record([a, b]), quote)
      == "{" + (quote(a.key) + ":" + Stringify(a.item, quote)
                + "," + quote(b.key) + ":" + Stringify(b.item, quote)) + "}"
  {
    var v := Record([a, b]);
    var first := quote(a.key) + ":" + Stringify(a.item, quote);
    assert StringifyFields(v, 0, quote) == "";
    assert StringifyFields(v, 1, quote) == "" + "" + quote(v.entries[0].key) + ":" + Stringify(v.entries[0].item, quote)
      == first;
    assert StringifyFields(v, 2, quote)
      == first + "," + quote(v.entries[1].key) + ":" + Stringify(v.entries[1].item, quote);
  }

  const OVERSIZED := "{" + ("\"_scrubbed\"" + ":" + "\"payload_limit_exceeded\"") + "}"

  /** What is stored of a payload: its sanitized value, and an empty object for none or for null. */
  function Stored(policy: Policy, payload: Option<Value>): Result<Value, Rejection> {
    if payload.None? then Ok(Record([]))
    else
      var sanitized := Sanitize(policy, payload.value, 0, "");
      if sanitized == Ok(Null) then Ok(Record([])) else sanitized
  }

  /** It is within the bounds. */
  lemma StoredFits(policy: Policy, payload: Option<Value>)
    ensures Stored(policy, payload).Ok? ==> Fits(Stored(policy, payload).value, MAX_DEPTH)
  {
    hide Sanitize;
    EmptyRecord(policy);
    if payload.Some? { AcceptedFits(policy, payload.value, 0, ""); }
  }

  /** The notice that is stored in place of an oversized payload. */
  const NOTICE: Value := Record([Entry(SCRUBBED_KEY, Text("payload_limit_exceeded"))])

  /** The value whose text is stored: the payload's own, or the notice. */
  function StoredValue(policy: Policy, payload: Option<Value>, quote: string -> string): Result<Value, Rejection> {
    var stored := Stored(policy, payload);
    if stored.Ok? && Utf8Length(Stringify(stored.value, quote)) > MAX_PAYLOAD_BYTES then Ok(NOTICE) else stored
  }

  /** A JSON quotation puts these two plain texts between quotation marks; the fixed text is then the notice's. */
  lemma NoticeText(quote: string -> string)
    requires quote(SCRUBBED_KEY) == "\"_scrubbed\"" && quote("payload_limit_exceeded") == "\"payload_limit_exceeded\""
    ensures Stringify(NOTICE, quote) == OVERSIZED
  {
    hide Stringify;
    OneTextField(SCRUBBED_KEY, "payload_limit_exceeded", quote);
  }

  lemma OneTextField(key: string, text: string, quote: string -> string)
    ensures Stringify(Record([Entry(key, Text(text))]), quote) == "{" + (quote(key) + ":" + quote(text)) + "}"
  {
    var v := Record([Entry(key, Text(text))]);
    assert v.entries[0] == Entry(key, Text(text)) && Stringify(v.entries[0].item, quote) == quote(text);
    assert StringifyFields(v, 0, quote) == "";
    assert StringifyFields(v, 1, quote) == "" + "" + quote(key) + ":" + quote(text) == quote(key) + ":" + quote(text);
  }

  /** Scrubbing and sanitizing a notice, whatever its text, is never rejected. */
  lemma NoticeIsAccepted(policy: Policy, text: string)
    ensures Sanitize(policy, Scrub(Record([Entry(SCRUBBED_KEY, Text(text))]), 0), 0, "").Ok?
  {
    hide Sanitize, SafeKeysCollide, SomeFieldRejected;
    var notice := Record([Entry(SCRUBBED_KEY, Text(text))]);
    ObjectRejectedIff(policy, notice, 0, "");
    SingleTextIsAccepted(policy, notice, 0);
    assert Scrub(notice, 0) == notice;
  }

  /** Whatever is stored, scrubbing and sanitizing it once more is never rejected. */
  lemma ResanitizingIsTotal(policy: Policy, payload: Option<Value>, quote: string -> string)
    requires RedactionIsStable(policy)
    ensures var stored := StoredValue(policy, payload, quote);
      stored.Ok? ==> Sanitize(policy, Scrub(stored.value, 0), 0, "").Ok?
  {
    hide StorableV15, RedactionIsStable, Sanitize, Stringify, Utf8Length;
    var stored := Stored(policy, payload);
    NoticeIsAccepted(policy, "payload_limit_exceeded");
    EmptyRecord(policy);
    if payload.Some? { AcceptedIsStorable(policy, payload.value, 0, ""); }
    EmptyIsStorable(policy);
    if stored.Ok? { MigrationIsTotal(policy, stored.value, 0, ""); }
  }

  lemma EmptyIsStorable(policy: Policy)
    ensures StorableV15(policy, Record([]))
  {
  }

  /**
   * The stored text of a payload: that of its own sanitized value exactly when it is within 8 KiB, and
   * otherwise a fixed notice; nothing when the payload is rejected.
   */
  method SanitizedPayloadJson(policy: Policy, payload: Option<Value>, quote: string -> string)
      returns (r: Result<string, Rejection>)
    ensures r.Err? <==> Stored(policy, payload).Err?
    ensures r.Ok? ==>
      var value := Stored(policy, payload).value; var text := Stringify(value, quote);
      && Fits(value, MAX_DEPTH)
      && r.value == (if Utf8Length(text) <= MAX_PAYLOAD_BYTES then text else OVERSIZED)
      && Utf8Length(r.value) <= MAX_PAYLOAD_BYTES
      && (OVERSIZED == Stringify(NOTICE, quote) ==>
          r.value == Stringify(StoredValue(policy, payload, quote).value, quote))
  {
    hide Utf8Length, Stringify, Sanitize, Fits;
    EmptyRecord(policy);
    StoredFits(policy, payload);
    Utf8IsShort(OVERSIZED);
    var sanitized := Sanitize(policy, if payload.None? then Record([]) else payload.value, 0, "");
    if sanitized.Err? { return Err(sanitized.error); }
    var value := if sanitized.value == Null then Record([]) else sanitized.value;
    var serialized := Stringify(value, quote);
    if Utf8Length(serialized) <= MAX_PAYLOAD_BYTES { return Ok(serialized); }
    return Ok(OVERSIZED);
  }

  lemma EmptyRecord(policy: Policy)
    ensures Sanitize(policy, Record([]), 0, "") == Ok(Record([])) && Fits(Record([]), MAX_DEPTH)
  {
    assert !LooksLikeConfiguration(policy, []);
  }
}
