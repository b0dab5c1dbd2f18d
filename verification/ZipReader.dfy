/**
 * The bounded ZIP reader: end-record search, central directory, local binding and extraction
 * accounting, and the partition of the archive that a successful reading establishes
 * (scripts/capture-agent-distribution-receipt.ts:1672-1912).
 */
module ZipReader {
  import opened Wrappers
  import opened ZipFormat
  import opened PartialIo
  import Crc32

  /** The parts of a file name's treatment that are text processing, given as functions. */
  datatype Names = Names(decode: seq<Byte> -> Option<string>, fold: string -> string)

  // ---------- the end record ----------

  ghost predicate LastEndRecord(s: seq<Byte>, p: nat) {
    EndRecordAt(s, p) && forall q: nat | EndRecordAt(s, q) :: q <= p
  }

  ghost predicate HasEndRecord(s: seq<Byte>) {
    exists p: nat :: EndRecordAt(s, p)
  }

  lemma LastIsOnly(s: seq<Byte>)
    ensures forall p: nat | LastEndRecord(s, p) :: HasEndRecord(s)
    ensures forall p: nat, q: nat | LastEndRecord(s, p) && LastEndRecord(s, q) :: p == q
  {
    hide EndRecordAt;
  }

  /** Searches the tail backwards for an end record whose comment ends with the archive. */
  method FindEndRecord(tail: seq<Byte>, tailOffset: nat, archiveSize: nat) returns (r: Option<nat>)
    requires tailOffset + |tail| == archiveSize
    ensures r.Some? ==> LastEndRecord(tail, r.value)
    ensures r.None? ==> !HasEndRecord(tail)
  {
    var offset := |tail| - 22;
    while offset >= 0
      invariant -1 <= offset || |tail| < 22
      invariant forall p: nat | EndRecordAt(tail, p) :: p <= offset
    {
      if U32(tail, offset) == END_SIGNATURE && tailOffset + offset + 22 + U16(tail, offset + 20) == archiveSize {
        return Some(offset);
      }
      offset := offset - 1;
    }
    return None;
  }

  // ---------- the central directory ----------

  /** The fields of a central entry that the reader looks at. */
  datatype Central = Central(
    made: nat, flags: nat, compression: nat, crc: nat, compressed: nat, uncompressed: nat, nameLength: nat, disk: nat,
    external: nat, localOffset: nat)

  function CentralFields(s: seq<Byte>, p: nat): Central
    requires p + 46 <= |s|
  {
    Central(U16(s, p + 4), U16(s, p + 8), U16(s, p + 10), U32(s, p + 16), U32(s, p + 20), U32(s, p + 24),
            U16(s, p + 28),
            U16(s, p + 34), U32(s, p + 38), U32(s, p + 42))
  }

  /** The features and sizes that an entry may have, in the order the reader checks them. */
  function FeatureError(c: Central, signedApp: bool, total: nat): Option<string> {
    if !SupportedFlags(c.flags) || (c.compression != 0 && c.compression != 8)
      || (c.compression == 0 && (Bit(c.flags, 0x2) || Bit(c.flags, 0x4)))
    then Some("zip_entry_features_unsupported")
    else if c.compressed > MAX_ARTIFACT_BYTES || c.uncompressed > Limit(signedApp)
      || (c.compression == 0 && c.compressed != c.uncompressed)
      || (if c.compressed == 0 then c.uncompressed != 0 else c.uncompressed > c.compressed * MAX_COMPRESSION_RATIO)
    then Some("zip_entry_expansion_limit_exceeded")
    else if total + c.uncompressed > Limit(signedApp) then Some("zip_total_expansion_limit_exceeded")
    else None
  }

  /** The name and kind that an entry may have. */
  function NamedEntry(c: Central, rawName: seq<Byte>, signedApp: bool, portable: set<string>, names: Names)
      : (r: Result<(Entry, string), string>)
    ensures r.Ok? ==>
      && r.value.0 == Entry(rawName, r.value.0.directory, r.value.0.symlink, c.flags, c.compression, c.crc,
                            c.compressed,
                            c.uncompressed, c.localOffset, r.value.0.unixMode, None)
      && names.decode(rawName).Some? && r.value.1 == names.fold(names.decode(rawName).value) && r.value.1 !in portable
      && (r.value.0.directory ==> c.compressed == 0 && c.uncompressed == 0 && c.crc == 0)
      && (r.value.0.symlink ==> signedApp && 0 < c.uncompressed <= 4096)
  {
    if !Bit(c.flags, 0x800) && exists k | 0 <= k < |rawName| :: rawName[k] > 0x7f
    then Err("zip_non_utf8_name_unsupported")
    else if names.decode(rawName).None? then Err("zip_entry_name_invalid_utf8")
    else
      var name := names.decode(rawName).value;
      var directory := name != "" && name[|name| - 1] == '/';
      var folded := names.fold(name);
      var unixMode := if c.made / 0x100 == 3 then Some(c.external / 0x1_0000) else None;
      var kind := if unixMode.Some? then unixMode.value / 0x1000 else 0;
      var symlink := unixMode.Some? && kind == 10;
      if folded in portable then Err("zip_portable_path_collision")
      else if symlink && (c.uncompressed == 0 || c.uncompressed > 4096) then Err("zip_symlink_target_size_invalid")
      else if unixMode.Some? && ((directory && kind != 4) || (!directory && kind != 8 && !(signedApp && symlink)))
      then Err("zip_symlink_or_special_node_forbidden")
      else if unixMode.None? && directory != Bit(c.external, 0x10) then Err("zip_entry_type_mismatch")
      else if directory && (c.compressed != 0 || c.uncompressed != 0 || c.crc != 0)
      then Err("zip_directory_payload_forbidden")
      else Ok((Entry(rawName, directory, symlink, c.flags, c.compression, c.crc, c.compressed, c.uncompressed,
                     c.localOffset,
                     unixMode, None), folded))
  }

  /** The checks on one central entry, in the order the reader makes them. */
  function CentralEntry(s: seq<Byte>, p: nat, signedApp: bool, total: nat, portable: set<string>, names: Names)
      : (r: Result<(Entry, string), string>)
    ensures r.Ok? ==> CentralRecord(s, p, |s|, r.value.0) && r.value.0.dataOffset.None?
    ensures r.Ok? ==> total + r.value.0.uncompressedSize <= Limit(signedApp) && r.value.1 !in portable
    ensures r.Ok? ==> EntryIsPlain(r.value.0, signedApp)
    ensures r.Ok? ==> names.decode(r.value.0.rawName).Some? && r.value.1 == PortableName(names, r.value.0)
  {
    if p + 46 > |s| || U32(s, p) != CENTRAL_SIGNATURE then Err("zip_central_entry_invalid")
    else
      var c := CentralFields(s, p);
      if c.nameLength == 0 || p + CentralLength(s, p) > |s| || c.disk != 0
        || c.compressed == 0xffff_ffff || c.uncompressed == 0xffff_ffff || c.localOffset == 0xffff_ffff
      then Err("zip_central_entry_bounds_invalid")
      else
        var featureError := FeatureError(c, signedApp, total);
        if featureError.Some? then Err(featureError.value)
        else NamedEntry(c, s[p + 46..p + 46 + c.nameLength], signedApp, portable, names)
  }

  /** The folded name by which two entries collide on some file system. */
  function PortableName(names: Names, e: Entry): string {
    var name := names.decode(e.rawName);
    if name.Some? then names.fold(name.value) else ""
  }

  predicate DistinctNames(names: Names, entries: seq<Entry>) {
    && (forall k | 0 <= k < |entries| :: names.decode(entries[k].rawName).Some?)
    && forall j, k | 0 <= j < k < |entries| :: PortableName(names, entries[j]) != PortableName(names, entries[k])
  }

  function Limit(signedApp: bool): nat {
    if signedApp then MAX_ARTIFACT_BYTES else MAX_TOTAL_UNCOMPRESSED_BYTES
  }

  /** What an accepted entry may be: a file, an empty directory, or a short link in a signed app. */
  predicate EntryIsPlain(e: Entry, signedApp: bool) {
    && e.uncompressedSize <= e.compressedSize * MAX_COMPRESSION_RATIO
    && (e.directory ==> e.compressedSize == 0 && e.uncompressedSize == 0 && e.crc == 0)
    && (e.symlink ==> signedApp && 0 < e.uncompressedSize <= 4096)
    && (e.compression == 0 ==> e.compressedSize == e.uncompressedSize)
  }

  function TotalUncompressed(entries: seq<Entry>): nat {
    if entries == [] then 0 else TotalUncompressed(entries[..|entries| - 1]) + entries[|entries| - 1].uncompressedSize
  }

  lemma CentralFieldsInPlace(s: seq<Byte>, lo: nat, hi: nat, p: nat)
    requires lo <= hi <= |s| && p + 46 <= hi - lo
    ensures var t := s[lo..hi];
      && U32(t, p) == U32(s, lo + p) && U16(t, p + 8) == U16(s, lo + p + 8) && U16(t, p + 10) == U16(s, lo + p + 10)
      && U32(t, p + 16) == U32(s, lo + p + 16) && U32(t, p + 20) == U32(s, lo + p + 20)
      && U32(t, p + 24) == U32(s, lo + p + 24)
      && U16(t, p + 28) == U16(s, lo + p + 28) && U16(t, p + 30) == U16(s, lo + p + 30)
      && U16(t, p + 32) == U16(s, lo + p + 32)
      && U32(t, p + 42) == U32(s, lo + p + 42)
  {
    hide U16, U32;
    SliceReads(s, lo, hi, p);
    SliceReads(s, lo, hi, p + 8);
    SliceReads(s, lo, hi, p + 10);
    SliceReads(s, lo, hi, p + 16);
    SliceReads(s, lo, hi, p + 20);
    SliceReads(s, lo, hi, p + 24);
    SliceReads(s, lo, hi, p + 28);
    SliceReads(s, lo, hi, p + 30);
    SliceReads(s, lo, hi, p + 32);
    SliceReads(s, lo, hi, p + 42);
  }

  lemma SliceOfSlice(s: seq<Byte>, lo: nat, hi: nat, a: nat, b: nat)
    requires lo <= hi <= |s| && a <= b <= hi - lo
    ensures s[lo..hi][a..b] == s[lo + a..lo + b]
  {
    var x, y := s[lo..hi][a..b], s[lo + a..lo + b];
    assert |x| == |y|;
    forall k | 0 <= k < |x| ensures x[k] == y[k] {}
  }

  /** A record found in a slice is the same record at its place in the archive. */
  lemma CentralRecordInPlace(s: seq<Byte>, lo: nat, hi: nat, p: nat, e: Entry)
    requires lo <= hi <= |s| && CentralRecord(s[lo..hi], p, hi - lo, e)
    ensures CentralRecord(s, lo + p, hi, e) && CentralLength(s, lo + p) == CentralLength(s[lo..hi], p)
  {
    hide U16, U32;
    CentralFieldsInPlace(s, lo, hi, p);
    SliceOfSlice(s, lo, hi, p + 46, p + 46 + U16(s[lo..hi], p + 28));
  }

  lemma CentralRunNext(s: seq<Byte>, lo: nat, cursor: nat, hi: nat, entries: seq<Entry>, e: Entry)
    requires CentralRun(s, lo, cursor, hi, entries) && lo <= cursor && CentralRecord(s, cursor, hi, e)
    ensures CentralRun(s, lo, cursor + CentralLength(s, cursor), hi, entries + [e])
  {
    hide CentralRecord, CentralLength;
    assert (entries + [e])[..|entries + [e]| - 1] == entries;
    LengthIsPositive(s, cursor, hi, e);
  }

  lemma LengthIsPositive(s: seq<Byte>, p: nat, hi: nat, e: Entry)
    requires CentralRecord(s, p, hi, e)
    ensures p + 46 <= |s| && CentralLength(s, p) >= 46
  {
  }

  /** What other records add to the checks on one record: the total must hold it, and its name must be new. */
  lemma EntryIff(s: seq<Byte>, p: nat, signedApp: bool, total: nat, portable: set<string>, names: Names)
    ensures var r := CentralEntry(s, p, signedApp, total, portable, names);
      var alone := RecordAlone(s, p, signedApp, names);
      && (r.Ok? <==> (alone.Ok? && total + alone.value.0.uncompressedSize <= Limit(signedApp)
                      && alone.value.1 !in portable))
      && (r.Ok? ==> r == alone)
  {
    hide U16, U32, FeatureError, NamedEntry, Limit;
    if p + 46 <= |s| {
      var c := CentralFields(s, p);
      FeatureIff(c, signedApp, total);
      if p + 46 + c.nameLength <= |s| { NamedIff(c, s[p + 46..p + 46 + c.nameLength], signedApp, portable, names); }
    }
  }

  lemma FeatureIff(c: Central, signedApp: bool, total: nat)
    ensures FeatureError(c, signedApp, total).None?
      <==> (FeatureError(c, signedApp, 0).None? && total + c.uncompressed <= Limit(signedApp))
  {
    hide SupportedFlags, Bit, Limit;
  }

  lemma NamedIff(c: Central, rawName: seq<Byte>, signedApp: bool, portable: set<string>, names: Names)
    ensures var r := NamedEntry(c, rawName, signedApp, portable, names);
      var alone := NamedEntry(c, rawName, signedApp, {}, names);
      && (r.Ok? <==> (alone.Ok? && alone.value.1 !in portable))
      && (r.Ok? ==> r == alone)
  {
    hide Bit;
  }

  /** One record checked on its own: its entry and folded name. */
  function RecordAlone(s: seq<Byte>, p: nat, signedApp: bool, names: Names): Result<(Entry, string), string> {
    CentralEntry(s, p, signedApp, 0, {}, names)
  }

  // ---------- which records are acceptable ----------

  /** The bits an entry may set: 3 and 11, and the deflate options 1 and 2 only when it is deflated. */
  predicate FlagsArePermitted(flags: nat, compression: nat) {
    && (flags / 0x10 == 0 || flags / 0x10 == 0x80) && flags % 2 == 0
    && (compression == 0 ==> flags % 8 == 0)
  }

  predicate SizesArePermitted(compression: nat, compressed: nat, uncompressed: nat, signedApp: bool) {
    && compressed <= 0x8000_0000 && uncompressed <= (if signedApp then 0x8000_0000 else 0x4000_0000)
    && uncompressed <= 200 * compressed && (compression == 0 ==> compressed == uncompressed)
  }

  /** The node kinds by their Unix type, 4 a directory, 8 a file, 10 a link; without one, by the DOS directory bit. */
  predicate KindIsPermitted(made: nat, external: nat, directory: bool, uncompressed: nat, signedApp: bool) {
    if made / 0x100 != 3 then directory == (external / 0x10 % 2 == 1)
    else if directory then external / 0x1000_0000 == 4
    else external / 0x1000_0000 == 8 || (external / 0x1000_0000 == 10 && signedApp && 0 < uncompressed <= 4096)
  }

  function RawName(s: seq<Byte>, p: nat): seq<Byte>
    requires p + 46 <= |s| && p + 46 + U16(s, p + 28) <= |s|
  {
    s[p + 46..p + 46 + U16(s, p + 28)]
  }

  predicate IsDirectory(names: Names, rawName: seq<Byte>) {
    var name := names.decode(rawName);
    name.Some? && name.value != "" && name.value[|name.value| - 1] == '/'
  }

  /** The bytes at `p` are a record of one disk, with a name, and with features, sizes and a kind that are permitted. */
  predicate RecordIsPermitted(s: seq<Byte>, p: nat, signedApp: bool, names: Names) {
    && p + 46 <= |s| && U32(s, p) == 0x0201_4b50
    && U16(s, p + 28) > 0 && p + 46 + U16(s, p + 28) + U16(s, p + 30) + U16(s, p + 32) <= |s|
    && U16(s, p + 34) == 0 && U32(s, p + 42) < 0xffff_ffff
    && (U16(s, p + 10) == 0 || U16(s, p + 10) == 8) && FlagsArePermitted(U16(s, p + 8), U16(s, p + 10))
    && SizesArePermitted(U16(s, p + 10), U32(s, p + 20), U32(s, p + 24), signedApp)
    && var rawName := RawName(s, p); var directory := IsDirectory(names, rawName);
       && (U16(s, p + 8) < 0x800 ==> forall k | 0 <= k < |rawName| :: rawName[k] < 0x80)
       && names.decode(rawName).Some?
       && KindIsPermitted(U16(s, p + 4), U32(s, p + 38), directory, U32(s, p + 24), signedApp)
       && (directory ==> U32(s, p + 16) == 0 && U32(s, p + 20) == 0 && U32(s, p + 24) == 0)
  }

  /** What the record says, field by field. */
  function EntryOf(s: seq<Byte>, p: nat, names: Names): Entry
    requires p + 46 <= |s| && p + 46 + U16(s, p + 28) <= |s|
  {
    var unix, kind := U16(s, p + 4) / 0x100 == 3, U32(s, p + 38) / 0x1000_0000;
    Entry(RawName(s, p), IsDirectory(names, RawName(s, p)), unix && kind == 10, U16(s, p + 8), U16(s, p + 10),
          U32(s, p + 16), U32(s, p + 20), U32(s, p + 24), U32(s, p + 42),
          if unix then Some(U32(s, p + 38) / 0x1_0000) else None, None)
  }

  /** Exactly which records the reader accepts, from their bytes, and what it makes of them. */
  lemma CentralEntryIff(s: seq<Byte>, p: nat, signedApp: bool, total: nat, portable: set<string>, names: Names)
    ensures var r := CentralEntry(s, p, signedApp, total, portable, names);
      && (r.Ok? <==>
            && RecordIsPermitted(s, p, signedApp, names)
            && total + U32(s, p + 24) <= (if signedApp then 0x8000_0000 else 0x4000_0000)
            && names.fold(names.decode(RawName(s, p)).value) !in portable)
      && (r.Ok? ==> r.value == (EntryOf(s, p, names), names.fold(names.decode(RawName(s, p)).value)))
  {
    hide U16, U32, FeatureError, NamedEntry, FlagsArePermitted, KindIsPermitted, IsDirectory, Bit,
      SupportedFlags;
    if p + 46 <= |s| && p + 46 + U16(s, p + 28) <= |s| {
      var c := CentralFields(s, p);
      FeaturesIff(c, signedApp, total);
      if FlagsArePermitted(c.flags, c.compression) { PermittedUtf8(c.flags, c.compression); }
      NamesIff(c, RawName(s, p), signedApp, portable, names);
    }
  }

  lemma FeaturesIff(c: Central, signedApp: bool, total: nat)
    requires c.flags < 0x1_0000
    ensures FeatureError(c, signedApp, total).None? <==>
      && (c.compression == 0 || c.compression == 8) && FlagsArePermitted(c.flags, c.compression)
      && SizesArePermitted(c.compression, c.compressed, c.uncompressed, signedApp)
      && total + c.uncompressed <= (if signedApp then 0x8000_0000 else 0x4000_0000)
  {
    hide SupportedFlags;
    FlagsIff(c.flags);
  }

  lemma PermittedUtf8(flags: nat, compression: nat)
    requires flags < 0x1_0000 && FlagsArePermitted(flags, compression)
    ensures Bit(flags, 0x800) <==> flags >= 0x800
  {
  }

  lemma FlagsIff(flags: nat)
    requires flags < 0x1_0000
    ensures SupportedFlags(flags) <==> flags % 2 == 0 && (flags / 0x10 == 0 || flags / 0x10 == 0x80)
    ensures SupportedFlags(flags) ==> (!Bit(flags, 0x2) && !Bit(flags, 0x4) <==> flags % 8 == 0)
    ensures SupportedFlags(flags) ==> (Bit(flags, 0x800) <==> flags >= 0x800)
  {
  }

  lemma NamesIff(c: Central, rawName: seq<Byte>, signedApp: bool, portable: set<string>, names: Names)
    ensures var r := NamedEntry(c, rawName, signedApp, portable, names); var directory := IsDirectory(names, rawName);
      && (r.Ok? <==>
            && (!Bit(c.flags, 0x800) ==> forall k | 0 <= k < |rawName| :: rawName[k] < 0x80)
            && names.decode(rawName).Some?
            && KindIsPermitted(c.made, c.external, directory, c.uncompressed, signedApp)
            && (directory ==> c.crc == 0 && c.compressed == 0 && c.uncompressed == 0)
            && names.fold(names.decode(rawName).value) !in portable)
      && (r.Ok? ==> var (e, folded) := r.value;
            && folded == names.fold(names.decode(rawName).value)
            && e.directory == directory && e.symlink == (c.made / 0x100 == 3 && c.external / 0x1000_0000 == 10)
            && e.unixMode == if c.made / 0x100 == 3 then Some(c.external / 0x1_0000) else None)
  {
    assert c.external / 0x1_0000 / 0x1000 == c.external / 0x1000_0000;
  }

  /** The entries of the first `n` records, each acceptable on its own, and where the next record starts. */
  function Listed(central: seq<Byte>, n: nat, signedApp: bool, names: Names): (r: Option<(seq<Entry>, nat)>)
    ensures r.Some? ==> |r.value.0| == n && r.value.1 <= |central|
  {
    if n == 0 then Some(([], 0))
    else
      var before := Listed(central, n - 1, signedApp, names);
      if before.None? then None
      else
        var (entries, cursor) := before.value;
        var record := RecordAlone(central, cursor, signedApp, names);
        if record.Err? then None else Some((entries + [record.value.0], cursor + CentralLength(central, cursor)))
  }

  /** The directory's records are acceptable, end where it ends, fit the total and have distinct names. */
  predicate IsAcceptable(central: seq<Byte>, count: nat, signedApp: bool, names: Names) {
    var listed := Listed(central, count, signedApp, names);
    && listed.Some? && listed.value.1 == |central|
    && TotalUncompressed(listed.value.0) <= Limit(signedApp) && DistinctNames(names, listed.value.0)
  }

  /** Each record is permitted and starts where the one before it ends, the first at the beginning. */
  predicate IsChain(central: seq<Byte>, starts: seq<nat>, signedApp: bool, names: Names) {
    && starts != [] && starts[0] == 0
    && forall k | 0 <= k < |starts| - 1 ::
         && RecordIsPermitted(central, starts[k], signedApp, names)
         && starts[k + 1] == starts[k] + 46 + U16(central, starts[k] + 28) + U16(central, starts[k] + 30)
                             + U16(central, starts[k] + 32)
  }

  function PermittedEntry(s: seq<Byte>, p: nat, signedApp: bool, names: Names): Entry
    requires RecordIsPermitted(s, p, signedApp, names)
  {
    EntryOf(s, p, names)
  }

  function EntriesOf(central: seq<Byte>, starts: seq<nat>, signedApp: bool, names: Names): seq<Entry>
    requires IsChain(central, starts, signedApp, names)
  {
    seq(|starts| - 1, k requires 0 <= k < |starts| - 1 => PermittedEntry(central, starts[k], signedApp, names))
  }

  lemma RecordAloneIff(s: seq<Byte>, p: nat, signedApp: bool, names: Names)
    ensures RecordAlone(s, p, signedApp, names).Ok? <==> RecordIsPermitted(s, p, signedApp, names)
    ensures RecordIsPermitted(s, p, signedApp, names) ==>
      RecordAlone(s, p, signedApp, names).value.0 == PermittedEntry(s, p, signedApp, names)
  {
    hide CentralEntry, U16, U32;
    CentralEntryIff(s, p, signedApp, 0, {}, names);
  }

  /** Where the record after the one at `p` starts. */
  function Next(s: seq<Byte>, p: nat, signedApp: bool, names: Names): nat
    requires RecordIsPermitted(s, p, signedApp, names)
  {
    p + CentralLength(s, p)
  }

  lemma ChainGrows(central: seq<Byte>, starts: seq<nat>, signedApp: bool, names: Names)
    requires |starts| > 1
    requires IsChain(central, starts[..|starts| - 1], signedApp, names)
    requires var p := starts[|starts| - 2];
      RecordIsPermitted(central, p, signedApp, names) && starts[|starts| - 1] == Next(central, p, signedApp, names)
    ensures IsChain(central, starts, signedApp, names)
    ensures EntriesOf(central, starts, signedApp, names)
      == EntriesOf(central, starts[..|starts| - 1], signedApp, names)
         + [PermittedEntry(central, starts[|starts| - 2], signedApp, names)]
  {
    hide RecordIsPermitted, PermittedEntry, U16;
  }

  lemma {:induction false} ListedIsChain(central: seq<Byte>, n: nat, signedApp: bool, names: Names)
      returns (starts: seq<nat>)
    requires Listed(central, n, signedApp, names).Some?
    ensures |starts| == n + 1 && IsChain(central, starts, signedApp, names)
    ensures Listed(central, n, signedApp, names).value == (EntriesOf(central, starts, signedApp, names), starts[n])
  {
    hide RecordAlone, RecordIsPermitted, U16, U32, PermittedEntry, IsChain, EntriesOf;
    if n == 0 {
      starts := [0];
      ChainOfNone(central, signedApp, names);
    } else {
      var before := ListedIsChain(central, n - 1, signedApp, names);
      RecordAloneIff(central, before[n - 1], signedApp, names);
      starts := before + [Next(central, before[n - 1], signedApp, names)];
      assert starts[..n] == before;
      ChainGrows(central, starts, signedApp, names);
    }
  }

  lemma ChainOfNone(central: seq<Byte>, signedApp: bool, names: Names)
    ensures IsChain(central, [0], signedApp, names) && EntriesOf(central, [0], signedApp, names) == []
  {
  }

  lemma ChainShrinks(central: seq<Byte>, starts: seq<nat>, signedApp: bool, names: Names)
    requires IsChain(central, starts, signedApp, names)
    ensures |starts| == 1 ==> starts == [0]
    ensures |starts| > 1 ==>
      && IsChain(central, starts[..|starts| - 1], signedApp, names)
      && RecordIsPermitted(central, starts[|starts| - 2], signedApp, names)
      && starts[|starts| - 1] == Next(central, starts[|starts| - 2], signedApp, names)
  {
    hide RecordIsPermitted, U16;
  }

  lemma {:induction false} ChainIsListed(central: seq<Byte>, starts: seq<nat>, signedApp: bool, names: Names)
    requires IsChain(central, starts, signedApp, names) && |starts| > 0
    ensures Listed(central, |starts| - 1, signedApp, names)
      == Some((EntriesOf(central, starts, signedApp, names), starts[|starts| - 1]))
    decreases |starts|
  {
    hide RecordAlone, RecordIsPermitted, U16, U32, PermittedEntry, IsChain, EntriesOf;
    var n := |starts| - 1;
    ChainShrinks(central, starts, signedApp, names);
    if n == 0 {
      ChainOfNone(central, signedApp, names);
    } else {
      ChainIsListed(central, starts[..n], signedApp, names);
      RecordAloneIff(central, starts[n - 1], signedApp, names);
      ChainGrows(central, starts, signedApp, names);
    }
  }

  /** A directory is acceptable exactly when it is a chain of so many permitted records with fitting total and names. */
  lemma AcceptableIff(central: seq<Byte>, count: nat, signedApp: bool, names: Names)
    ensures IsAcceptable(central, count, signedApp, names) <==> exists starts: seq<nat> ::
      && IsChain(central, starts, signedApp, names) && |starts| == count + 1 && starts[count] == |central|
      && TotalUncompressed(EntriesOf(central, starts, signedApp, names)) <= Limit(signedApp)
      && DistinctNames(names, EntriesOf(central, starts, signedApp, names))
  {
    hide Listed, IsChain, EntriesOf, DistinctNames, TotalUncompressed, Limit;
    if Listed(central, count, signedApp, names).Some? {
      var _ := ListedIsChain(central, count, signedApp, names);
    }
    forall starts | IsChain(central, starts, signedApp, names) && |starts| == count + 1
      ensures Listed(central, count, signedApp, names)
        == Some((EntriesOf(central, starts, signedApp, names), starts[count]))
    {
      ChainIsListed(central, starts, signedApp, names);
    }
  }

  lemma {:induction false} ListedBegins(central: seq<Byte>, n: nat, count: nat, signedApp: bool, names: Names)
    requires n <= count && Listed(central, count, signedApp, names).Some?
    ensures Listed(central, n, signedApp, names).Some?
    ensures Listed(central, n, signedApp, names).value.0 <= Listed(central, count, signedApp, names).value.0
    ensures TotalUncompressed(Listed(central, n, signedApp, names).value.0)
      <= TotalUncompressed(Listed(central, count, signedApp, names).value.0)
  {
    hide RecordAlone, CentralLength;
    if n < count {
      ListedBegins(central, n, count - 1, signedApp, names);
      var all := Listed(central, count, signedApp, names).value.0;
      assert all[..count - 1] == Listed(central, count - 1, signedApp, names).value.0;
    }
  }

  /** The set is that of the entries' folded names. */
  predicate AreNames(names: Names, entries: seq<Entry>, portable: set<string>) {
    && (forall k | 0 <= k < |entries| :: PortableName(names, entries[k]) in portable)
    && forall name | name in portable :: exists k | 0 <= k < |entries| :: PortableName(names, entries[k]) == name
  }

  lemma NamesGrow(names: Names, entries: seq<Entry>, e: Entry, portable: set<string>)
    requires AreNames(names, entries, portable) && DistinctNames(names, entries)
    requires names.decode(e.rawName).Some?
    ensures AreNames(names, entries + [e], portable + {PortableName(names, e)})
    ensures DistinctNames(names, entries + [e]) <==> PortableName(names, e) !in portable
  {
    hide PortableName;
    var all := entries + [e];
    assert all[|entries|] == e;
    forall name | name in portable ensures exists k | 0 <= k < |all| :: PortableName(names, all[k]) == name {
      var k :| 0 <= k < |entries| && PortableName(names, entries[k]) == name;
      assert all[k] == entries[k];
    }
    if PortableName(names, e) in portable {
      var k :| 0 <= k < |entries| && PortableName(names, entries[k]) == PortableName(names, e);
      assert all[k] == entries[k];
    }
  }

  lemma TotalGrows(entries: seq<Entry>, e: Entry)
    ensures TotalUncompressed(entries + [e]) == TotalUncompressed(entries) + e.uncompressedSize
  {
    assert (entries + [e])[..|entries|] == entries;
  }

  lemma DistinctBefore(names: Names, a: seq<Entry>, b: seq<Entry>)
    requires a <= b && DistinctNames(names, b)
    ensures DistinctNames(names, a)
  {
    hide PortableName;
  }

  lemma RecordsHaveNames(s: seq<Byte>, p: nat, signedApp: bool, names: Names)
    requires RecordAlone(s, p, signedApp, names).Ok?
    ensures var (e, folded) := RecordAlone(s, p, signedApp, names).value;
      names.decode(e.rawName).Some? && folded == PortableName(names, e)
  {
    hide CentralEntry, PortableName;
  }

  /** A directory is refused with its first record that is not acceptable, or does not fit what is before it. */
  lemma RefusedRecord(central: seq<Byte>, n: nat, count: nat, signedApp: bool, names: Names, portable: set<string>)
    requires n < count && Listed(central, n, signedApp, names).Some?
    requires var (entries, cursor) := Listed(central, n, signedApp, names).value;
      && CentralEntry(central, cursor, signedApp, TotalUncompressed(entries), portable, names).Err?
      && AreNames(names, entries, portable) && DistinctNames(names, entries)
    ensures !IsAcceptable(central, count, signedApp, names)
  {
    hide CentralEntry, CentralLength, PortableName, RecordAlone, AreNames, DistinctNames, TotalUncompressed, Limit;
    var (entries, cursor) := Listed(central, n, signedApp, names).value;
    EntryIff(central, cursor, signedApp, TotalUncompressed(entries), portable, names);
    if Listed(central, count, signedApp, names).Some? {
      ListedBegins(central, n + 1, count, signedApp, names);
      RecordsHaveNames(central, cursor, signedApp, names);
      var all := Listed(central, count, signedApp, names).value.0;
      var e := RecordAlone(central, cursor, signedApp, names).value.0;
      TotalGrows(entries, e);
      NamesGrow(names, entries, e, portable);
      if DistinctNames(names, all) { DistinctBefore(names, entries + [e], all); }
    }
  }

  /** An accepted record is listed next and fits what is before it. */
  lemma AcceptedRecord(central: seq<Byte>, n: nat, signedApp: bool, names: Names, portable: set<string>)
    requires Listed(central, n, signedApp, names).Some?
    requires var (entries, cursor) := Listed(central, n, signedApp, names).value;
      && CentralEntry(central, cursor, signedApp, TotalUncompressed(entries), portable, names).Ok?
      && AreNames(names, entries, portable) && DistinctNames(names, entries)
    ensures var (entries, cursor) := Listed(central, n, signedApp, names).value;
      var (e, folded) := CentralEntry(central, cursor, signedApp, TotalUncompressed(entries), portable, names).value;
      && cursor + 46 <= |central|
      && Listed(central, n + 1, signedApp, names) == Some((entries + [e], cursor + CentralLength(central, cursor)))
      && TotalUncompressed(entries) + e.uncompressedSize == TotalUncompressed(entries + [e]) <= Limit(signedApp)
      && AreNames(names, entries + [e], portable + {folded}) && DistinctNames(names, entries + [e])
  {
    hide CentralEntry, CentralLength, PortableName, RecordAlone, AreNames, DistinctNames, TotalUncompressed, Limit;
    var (entries, cursor) := Listed(central, n, signedApp, names).value;
    EntryIff(central, cursor, signedApp, TotalUncompressed(entries), portable, names);
    RecordsHaveNames(central, cursor, signedApp, names);
    var e := RecordAlone(central, cursor, signedApp, names).value.0;
    TotalGrows(entries, e);
    NamesGrow(names, entries, e, portable);
  }

  lemma NothingListed(central: seq<Byte>, signedApp: bool, names: Names)
    ensures Listed(central, 0, signedApp, names) == Some(([], 0)) && TotalUncompressed([]) == 0
    ensures AreNames(names, [], {}) && DistinctNames(names, [])
  {
  }

  lemma RunOfNone(s: seq<Byte>, lo: nat, hi: nat)
    ensures CentralRun(s, lo, lo, hi, [])
  {
  }

  lemma RecordIsPlain(s: seq<Byte>, p: nat, signedApp: bool, names: Names)
    requires RecordAlone(s, p, signedApp, names).Ok?
    ensures var e := RecordAlone(s, p, signedApp, names).value.0;
      CentralRecord(s, p, |s|, e) && EntryIsPlain(e, signedApp) && e.dataOffset.None?
  {
    hide CentralEntry, CentralRecord, EntryIsPlain;
  }

  /** The entries listed are plain, and their records are the bytes up to the next one. */
  lemma {:induction false} ListedRuns(s: seq<Byte>, lo: nat, central: seq<Byte>, n: nat, signedApp: bool, names: Names)
    requires lo + |central| <= |s| && central == s[lo..lo + |central|] && Listed(central, n, signedApp, names).Some?
    ensures var (entries, cursor) := Listed(central, n, signedApp, names).value;
      && CentralRun(s, lo, lo + cursor, lo + |central|, entries)
      && forall k | 0 <= k < n :: EntryIsPlain(entries[k], signedApp) && entries[k].dataOffset.None?
  {
    hide CentralRecord, CentralLength, EntryIsPlain, CentralEntry, CentralRun, RecordAlone;
    if n == 0 {
      RunOfNone(s, lo, lo + |central|);
    } else {
      ListedRuns(s, lo, central, n - 1, signedApp, names);
      var (entries, cursor) := Listed(central, n - 1, signedApp, names).value;
      var e := RecordAlone(central, cursor, signedApp, names).value.0;
      RecordIsPlain(central, cursor, signedApp, names);
      CentralRecordInPlace(s, lo, lo + |central|, cursor, e);
      CentralRunNext(s, lo, lo + cursor, lo + |central|, entries, e);
    }
  }

  /** Reads the directory's records; it succeeds exactly on an acceptable directory. */
  method ReadEntries(s: seq<Byte>, lo: nat, central: seq<Byte>, count: nat, signedApp: bool, names: Names)
      returns (r: Result<seq<Entry>, string>)
    requires lo + |central| <= |s| && central == s[lo..lo + |central|]
    ensures r.Ok? <==> IsAcceptable(central, count, signedApp, names)
    ensures r.Ok? ==> r.value == Listed(central, count, signedApp, names).value.0
    ensures r.Ok? ==> |r.value| == count && CentralRun(s, lo, lo + |central|, lo + |central|, r.value)
    ensures r.Ok? ==> TotalUncompressed(r.value) <= Limit(signedApp)
    ensures r.Ok? ==> forall k | 0 <= k < count :: EntryIsPlain(r.value[k], signedApp) && r.value[k].dataOffset.None?
    ensures r.Ok? ==> DistinctNames(names, r.value)
  {
    hide CentralRun, CentralLength, EntryIsPlain, CentralEntry, PortableName, AreNames, DistinctNames,
      TotalUncompressed, Listed, Limit;
    var entries: seq<Entry> := [];
    var portable: set<string> := {};
    var total := 0;
    var cursor := 0;
    NothingListed(central, signedApp, names);
    for index := 0 to count
      invariant Listed(central, index, signedApp, names) == Some((entries, cursor))
      invariant total == TotalUncompressed(entries) <= Limit(signedApp)
      invariant DistinctNames(names, entries) && AreNames(names, entries, portable)
    {
      var entry := CentralEntry(central, cursor, signedApp, total, portable, names);
      if entry.Err? {
        RefusedRecord(central, index, count, signedApp, names, portable);
        return Err(entry.error);
      }
      AcceptedRecord(central, index, signedApp, names, portable);
      var (e, folded) := entry.value;
      total := total + e.uncompressedSize;
      portable := portable + {folded};
      cursor := cursor + CentralLength(central, cursor);
      entries := entries + [e];
    }
    ListedRuns(s, lo, central, count, signedApp, names);
    if cursor != |central| { return Err("zip_central_directory_shape_invalid"); }
    return Ok(entries);
  }

  /** The directory of a usable end record: the bytes from where it says to the record. */
  function Directory(s: seq<Byte>, end: nat): seq<Byte>
    requires EndIsUsable(s, end)
  {
    s[U32(s, end + 16)..end]
  }

  /** The last end record is usable, and its directory is acceptable with its entry count. */
  ghost predicate IsReadable(s: seq<Byte>, end: nat, signedApp: bool, names: Names) {
    LastEndRecord(s, end) && EndIsUsable(s, end) && IsAcceptable(Directory(s, end), U16(s, end + 10), signedApp, names)
  }

  /** The entries of the directory. */
  ghost function EntriesAt(s: seq<Byte>, end: nat, signedApp: bool, names: Names): seq<Entry>
    requires IsReadable(s, end, signedApp, names)
  {
    Listed(Directory(s, end), U16(s, end + 10), signedApp, names).value.0
  }

  lemma ReadableOnce(s: seq<Byte>, p: nat, q: nat, signedApp: bool, names: Names)
    requires LastEndRecord(s, p) && IsReadable(s, q, signedApp, names)
    ensures p == q
  {
    hide EndRecordAt, EndIsUsable, IsAcceptable, Directory;
  }

  lemma ReadableIsUsable(s: seq<Byte>, signedApp: bool, names: Names)
    ensures forall end: nat | IsReadable(s, end, signedApp, names) :: LastEndRecord(s, end) && EndIsUsable(s, end)
  {
    hide EndRecordAt, IsAcceptable, Directory, EndIsUsable, LastEndRecord;
  }

  /** Reads the central directory; it succeeds exactly when the archive has a readable one and no read fails. */
  method ReadCentralDirectory(archive: Source<Byte>, signedApp: bool, names: Names)
      returns (r: Result<(seq<Entry>, nat), string>, ghost endOffset: nat)
    modifies archive`faults
    ensures r.Ok? <==>
      && (exists end: nat :: IsReadable(archive.bytes, end, signedApp, names))
      && archive.faults == old(archive.faults)
    ensures r.Ok? ==>
      && IsReadable(archive.bytes, endOffset, signedApp, names)
      && r.value == (EntriesAt(archive.bytes, endOffset, signedApp, names), U32(archive.bytes, endOffset + 16))
    ensures r.Ok? ==> var (entries, centralOffset) := r.value;
      && centralOffset <= endOffset && CentralRun(archive.bytes, centralOffset, endOffset, endOffset, entries)
      && 0 < |entries| == U16(archive.bytes, endOffset + 10) && TotalUncompressed(entries) <= Limit(signedApp)
      && DistinctNames(names, entries)
      && (forall k | 0 <= k < |entries| :: EntryIsPlain(entries[k], signedApp) && entries[k].dataOffset.None?)
  {
    hide CentralRun, EntryIsPlain, TotalUncompressed, LastEndRecord, DistinctNames, EndIsUsable, U16, U32, IsAcceptable,
      Listed, Limit, EndRecordAt;
    endOffset := 0;
    ReadableIsUsable(archive.bytes, signedApp, names);
    var located := LocateDirectory(archive);
    if located.Err? { return Err(located.error), 0; }
    var (end, centralOffset, entryCount) := located.value;
    endOffset := end;
    forall q: nat | IsReadable(archive.bytes, q, signedApp, names) ensures q == end {
      ReadableOnce(archive.bytes, end, q, signedApp, names);
    }
    var directory := ReadExact(archive, centralOffset, end - centralOffset, "zip_central_directory_truncated");
    if directory.Err? { return Err(directory.error), end; }
    assert directory.value == Directory(archive.bytes, end);
    var entries := ReadEntries(archive.bytes, centralOffset, directory.value, entryCount, signedApp, names);
    if entries.Err? { return Err(entries.error), end; }
    assert IsReadable(archive.bytes, end, signedApp, names);
    return Ok((entries.value, centralOffset)), end;
  }

  /** Fetches the tail of the archive and finds its last end record: the tail, where it starts, and the record in it. */
  method LocateEnd(archive: Source<Byte>) returns (r: Result<(seq<Byte>, nat, nat), string>)
    modifies archive`faults
    ensures r.Ok? <==> HasEndRecord(archive.bytes) && archive.faults == old(archive.faults)
    ensures r.Ok? ==> var (tail, tailOffset, p) := r.value;
      && tailOffset <= |archive.bytes| && tail == archive.bytes[tailOffset..] && LastEndRecord(tail, p)
      && LastEndRecord(archive.bytes, tailOffset + p)
  {
    hide U16, U32, LastEndRecord, HasEndRecord;
    var size := |archive.bytes|;
    var tailSize := if size < MAX_END_BYTES then size else MAX_END_BYTES;
    var tailOffset := size - tailSize;
    var fetched := ReadExact(archive, tailOffset, tailSize, "zip_eocd_truncated");
    if fetched.Err? { return Err(fetched.error); }
    var tail := fetched.value;
    assert tail == archive.bytes[tailOffset..];
    var found := FindEndRecord(tail, tailOffset, size);
    TailSearchMissesNothing(archive.bytes, tailOffset);
    if found.None? { return Err("zip_eocd_missing_or_invalid"); }
    TailSearchIsComplete(archive.bytes, tailOffset, found.value);
    LastIsOnly(archive.bytes);
    return Ok((tail, tailOffset, found.value));
  }

  lemma EndFieldsInPlace(s: seq<Byte>, tailOffset: nat, t: seq<Byte>, p: nat)
    requires tailOffset <= |s| && t == s[tailOffset..] && LastEndRecord(t, p)
    ensures p + 22 <= |t|
    ensures U16(t, p + 4) == U16(s, tailOffset + p + 4) && U16(t, p + 6) == U16(s, tailOffset + p + 6)
    ensures U16(t, p + 8) == U16(s, tailOffset + p + 8) && U16(t, p + 10) == U16(s, tailOffset + p + 10)
    ensures U32(t, p + 12) == U32(s, tailOffset + p + 12) && U32(t, p + 16) == U32(s, tailOffset + p + 16)
  {
    SliceReads(s, tailOffset, |s|, p + 4);
    SliceReads(s, tailOffset, |s|, p + 6);
    SliceReads(s, tailOffset, |s|, p + 8);
    SliceReads(s, tailOffset, |s|, p + 10);
    SliceReads(s, tailOffset, |s|, p + 12);
    SliceReads(s, tailOffset, |s|, p + 16);
    assert s[tailOffset..|s|] == s[tailOffset..];
  }

  /** One disk, some entries and no ZIP64 marker, and a directory of bounded size that ends at the record. */
  predicate EndIsUsable(s: seq<Byte>, end: nat) {
    && end + 22 <= |s|
    && U16(s, end + 4) == 0 && U16(s, end + 6) == 0 && U16(s, end + 8) == U16(s, end + 10)
    && 0 < U16(s, end + 10) <= 120_000 && U16(s, end + 10) != 0xffff
    && U32(s, end + 12) <= ZipFormat.MAX_LISTING_BYTES && U32(s, end + 16) != 0xffff_ffff
    && U32(s, end + 16) + U32(s, end + 12) == end
  }

  /** Finds the end record and reads where the directory is: its end, its start and its entry count. */
  method LocateDirectory(archive: Source<Byte>) returns (r: Result<(nat, nat, nat), string>)
    modifies archive`faults
    ensures r.Ok? <==>
      && (exists end: nat :: LastEndRecord(archive.bytes, end) && EndIsUsable(archive.bytes, end))
      && archive.faults == old(archive.faults)
    ensures r.Ok? ==> var (end, centralOffset, count) := r.value;
      && LastEndRecord(archive.bytes, end) && EndIsUsable(archive.bytes, end)
      && centralOffset <= end <= |archive.bytes| && 0 < count == U16(archive.bytes, end + 10)
      && centralOffset == U32(archive.bytes, end + 16)
      && end - centralOffset == U32(archive.bytes, end + 12) <= ZipFormat.MAX_LISTING_BYTES
  {
    hide U16, U32, LastEndRecord, HasEndRecord;
    LastIsOnly(archive.bytes);
    var located := LocateEnd(archive);
    if located.Err? { return Err(located.error); }
    var (tail, tailOffset, p) := located.value;
    EndFieldsInPlace(archive.bytes, tailOffset, tail, p);
    var entryCount, centralSize, centralOffset := U16(tail, p + 10), U32(tail, p + 12), U32(tail, p + 16);
    if U16(tail, p + 4) != 0 || U16(tail, p + 6) != 0 || U16(tail, p + 8) != entryCount {
      return Err("zip_multidisk_forbidden");
    }
    if entryCount == 0 || entryCount == 0xffff || centralSize == 0xffff_ffff || centralOffset == 0xffff_ffff {
      return Err("zip_empty_or_zip64_forbidden");
    }
    if entryCount > 120_000 || centralSize > ZipFormat.MAX_LISTING_BYTES
      || centralOffset + centralSize != tailOffset + p {
      return Err("zip_central_directory_bounds_invalid");
    }
    return Ok((tailOffset + p, centralOffset, entryCount));
  }

  /** The last end record of the tail is the last end record of the archive. */
  lemma TailSearchIsComplete(s: seq<Byte>, tailOffset: nat, p: nat)
    requires tailOffset == if |s| <= MAX_END_BYTES then 0 else |s| - MAX_END_BYTES
    requires LastEndRecord(s[tailOffset..], p)
    ensures LastEndRecord(s, tailOffset + p)
  {
    EndRecordIsInTail(s, p, tailOffset);
    forall q: nat | EndRecordAt(s, q) ensures q <= tailOffset + p { EndRecordIsInTail(s, q, tailOffset); }
  }

  /** The search over the fetched tail succeeds exactly when the archive has an end record anywhere. */
  lemma TailSearchMissesNothing(s: seq<Byte>, tailOffset: nat)
    requires tailOffset == if |s| <= MAX_END_BYTES then 0 else |s| - MAX_END_BYTES
    ensures HasEndRecord(s) <==> HasEndRecord(s[tailOffset..])
  {
    if p: nat :| EndRecordAt(s, p) {
      EndRecordIsInTail(s, p, tailOffset);
      assert EndRecordAt(s[tailOffset..], p - tailOffset);
    }
    if p: nat :| EndRecordAt(s[tailOffset..], p) { EndRecordIsInTail(s, p, tailOffset); }
  }

  // ---------- local binding ----------

  predicate Sorted(ranges: seq<Range>) {
    forall j, k | 0 <= j < k < |ranges| :: ranges[j].start <= ranges[k].start
  }

  function Insert(r: Range, sorted: seq<Range>): seq<Range> {
    if sorted == [] then [r]
    else if r.start <= sorted[0].start then [r] + sorted
    else [sorted[0]] + Insert(r, sorted[1..])
  }

  lemma {:induction false} InsertAdds(r: Range, sorted: seq<Range>)
    ensures multiset(Insert(r, sorted)) == multiset(sorted) + multiset{r}
  {
    if sorted != [] {
      assert sorted == [sorted[0]] + sorted[1..];
      InsertAdds(r, sorted[1..]);
    }
  }

  lemma InsertMembers(r: Range, sorted: seq<Range>)
    ensures forall x | x in Insert(r, sorted) :: x == r || x in sorted
  {
    InsertAdds(r, sorted);
    forall x | x in Insert(r, sorted) ensures x == r || x in sorted { assert x in multiset(Insert(r, sorted)); }
  }

  lemma {:induction false} InsertSorts(r: Range, sorted: seq<Range>)
    requires Sorted(sorted)
    ensures Sorted(Insert(r, sorted))
  {
    if sorted != [] && r.start > sorted[0].start {
      InsertSorts(r, sorted[1..]);
      InsertMembers(r, sorted[1..]);
      var rest := Insert(r, sorted[1..]);
      assert forall k | 0 <= k < |rest| :: rest[k] in rest;
    }
  }

  /** `ranges.sort` by start. */
  function SortRanges(ranges: seq<Range>): seq<Range> {
    if ranges == [] then [] else Insert(ranges[0], SortRanges(ranges[1..]))
  }

  lemma {:induction false} SortingPermutes(ranges: seq<Range>)
    ensures Sorted(SortRanges(ranges)) && multiset(SortRanges(ranges)) == multiset(ranges)
  {
    if ranges != [] {
      SortingPermutes(ranges[1..]);
      InsertSorts(ranges[0], SortRanges(ranges[1..]));
      InsertAdds(ranges[0], SortRanges(ranges[1..]));
      assert ranges == [ranges[0]] + ranges[1..];
    }
  }

  lemma {:induction false} AdjacentRangesTile(ranges: seq<Range>)
    requires ranges != [] && forall k | 0 <= k < |ranges| :: ranges[k].start < ranges[k].end
    requires forall k | 1 <= k < |ranges| :: ranges[k].start == ranges[k - 1].end
    ensures Tiles(ranges, ranges[0].start, ranges[|ranges| - 1].end)
  {
    if |ranges| > 1 { AdjacentRangesTile(ranges[1..]); }
  }

  lemma SortedMembers(ranges: seq<Range>)
    ensures |SortRanges(ranges)| == |ranges|
    ensures forall r | r in SortRanges(ranges) :: r in ranges
  {
    SortingPermutes(ranges);
    var sorted := SortRanges(ranges);
    assert |multiset(sorted)| == |multiset(ranges)|;
    assert forall r | r in sorted :: r in multiset(sorted);
  }

  /** The entry's local record is at its place and ends before the directory. */
  ghost predicate IsBindable(s: seq<Byte>, e: Entry, centralOffset: nat) {
    exists data: nat, end: nat :: LocalRecord(s, e, data, end) && end <= centralOffset
  }

  /** An entry has one local record at most. */
  lemma LocalRecordIsOne(s: seq<Byte>, e: Entry, data: nat, end: nat, data': nat, end': nat)
    requires LocalRecord(s, e, data, end) && LocalRecord(s, e, data', end')
    ensures data == data' && end == end'
  {
    hide U16, U32, UsesDescriptor;
  }

  /** Where the data starts by the header's own lengths. */
  function DataStart(s: seq<Byte>, e: Entry): nat
    requires e.localOffset + 30 <= |s|
  {
    e.localOffset + 30 + |e.rawName| + U16(s, e.localOffset + 28)
  }

  predicate HeaderAgrees(s: seq<Byte>, e: Entry) {
    e.localOffset + 30 <= |s| && LocalHeader(s, e, DataStart(s, e))
  }

  lemma HeadersAreShort()
    ensures forall p: nat, n: nat | n < 0x2_0000 :: Requestable(p, n)
  {
  }

  /** The tests of the reader, as one: signature, metadata, name, and placeholders or sizes. */
  lemma HeaderParts(s: seq<Byte>, e: Entry)
    ensures HeaderAgrees(s, e) <==>
      var p := e.localOffset;
      && p + 30 <= |s| && U32(s, p) == LOCAL_SIGNATURE
      && p + 30 + U16(s, p + 26) + U16(s, p + 28) <= |s|
      && U16(s, p + 6) == e.flags && U16(s, p + 8) == e.compression && U16(s, p + 26) == |e.rawName|
      && s[p + 30..p + 30 + U16(s, p + 26)] == e.rawName
      && if UsesDescriptor(e.flags) then U32(s, p + 14) == 0 && U32(s, p + 18) == 0 && U32(s, p + 22) == 0
         else U32(s, p + 14) == e.crc && U32(s, p + 18) == e.compressedSize && U32(s, p + 22) == e.uncompressedSize
    ensures e.localOffset + 30 <= |s| ==>
      DataStart(s, e) == e.localOffset + 30 + |e.rawName| + U16(s, e.localOffset + 28)
  {
    hide U16, U32, UsesDescriptor;
  }

  /** Reads the local header of one entry; the answer is where its data starts. */
  method BindHeader(archive: Source<Byte>, entry: Entry) returns (r: Result<nat, string>)
    requires entry.rawName != []
    modifies archive`faults
    ensures r.Ok? ==> LocalHeader(archive.bytes, entry, r.value)
    ensures r.Ok? <==> HeaderAgrees(archive.bytes, entry) && archive.faults == old(archive.faults)
    ensures old(archive.faults) <= archive.faults
  {
    hide U16, U32, UsesDescriptor, LocalHeader, Requestable;
    var s, p := archive.bytes, entry.localOffset;
    HeaderParts(s, entry);
    HeadersAreShort();
    var fetched := ReadExact(archive, p, 30, "zip_local_header_truncated");
    if fetched.Err? { return Err(fetched.error); }
    var header := fetched.value;
    HeaderReads(s, p, header);
    if U32(header, 0) != LOCAL_SIGNATURE { return Err("zip_local_header_invalid"); }
    var nameLength, extraLength := U16(header, 26), U16(header, 28);
    var variable := ReadExact(archive, p + 30, nameLength + extraLength, "zip_local_header_truncated");
    if variable.Err? { return Err(variable.error); }
    if U16(header, 6) != entry.flags || U16(header, 8) != entry.compression || nameLength != |entry.rawName|
      || variable.value[..nameLength] != entry.rawName {
      return Err("zip_local_and_central_metadata_mismatch");
    }
    var dataOffset := p + 30 + nameLength + extraLength;
    SliceOfSlice(s, p + 30, dataOffset, 0, nameLength);
    if UsesDescriptor(entry.flags) {
      if U32(header, 14) != 0 || U32(header, 18) != 0 || U32(header, 22) != 0 {
        return Err("zip_local_descriptor_placeholders_invalid");
      }
    } else if U32(header, 14) != entry.crc || U32(header, 18) != entry.compressedSize
      || U32(header, 22) != entry.uncompressedSize {
      return Err("zip_local_and_central_metadata_mismatch");
    }
    return Ok(dataOffset);
  }

  method CheckDescriptor(archive: Source<Byte>, at: nat, entry: Entry) returns (r: Result<(), string>)
    modifies archive`faults
    ensures r.Ok? <==> Descriptor(archive.bytes, entry, at) && archive.faults == old(archive.faults)
    ensures old(archive.faults) <= archive.faults
  {
    hide U32;
    var read := ReadExact(archive, at, 16, "zip_data_descriptor_truncated");
    if read.Err? { return Err(read.error); }
    DescriptorReads(archive.bytes, at, read.value);
    if U32(read.value, 0) != DESCRIPTOR_SIGNATURE || U32(read.value, 4) != entry.crc
      || U32(read.value, 8) != entry.compressedSize || U32(read.value, 12) != entry.uncompressedSize {
      return Err("zip_data_descriptor_mismatch");
    }
    return Ok(());
  }

  /** Reads and checks the local record of one entry; the answer is where its data starts and it ends. */
  method BindEntry(archive: Source<Byte>, entry: Entry, centralOffset: nat) returns (r: Result<(nat, nat), string>)
    requires entry.rawName != []
    modifies archive`faults
    ensures r.Ok? ==> var (data, end) := r.value;
      LocalRecord(archive.bytes, entry, data, end) && entry.localOffset < end <= centralOffset
    ensures r.Ok? <==> IsBindable(archive.bytes, entry, centralOffset) && archive.faults == old(archive.faults)
    ensures old(archive.faults) <= archive.faults
  {
    hide U16, U32, Descriptor;
    var header := BindHeader(archive, entry);
    if header.Err? { return Err(header.error); }
    var dataOffset := header.value;
    var end := dataOffset + entry.compressedSize;
    if UsesDescriptor(entry.flags) {
      var checked := CheckDescriptor(archive, end, entry);
      if checked.Err? { return Err(checked.error); }
      end := end + 16;
    }
    if end > centralOffset { return Err("zip_entry_data_bounds_invalid"); }
    return Ok((dataOffset, end));
  }

  lemma HeaderReads(s: seq<Byte>, p: nat, header: seq<Byte>)
    requires p + 30 <= |s| && header == s[p..p + 30]
    ensures U32(header, 0) == U32(s, p) && U16(header, 6) == U16(s, p + 6) && U16(header, 8) == U16(s, p + 8)
    ensures U32(header, 14) == U32(s, p + 14) && U32(header, 18) == U32(s, p + 18) && U32(header, 22) == U32(s, p + 22)
    ensures U16(header, 26) == U16(s, p + 26) && U16(header, 28) == U16(s, p + 28)
  {
  }

  lemma DescriptorReads(s: seq<Byte>, p: nat, d: seq<Byte>)
    requires p + 16 <= |s| && d == s[p..p + 16]
    ensures U32(d, 0) == U32(s, p) && U32(d, 4) == U32(s, p + 4) && U32(d, 8) == U32(s, p + 8)
      && U32(d, 12) == U32(s, p + 12)
  {
  }

  ghost predicate EndsAt(s: seq<Byte>, e: Entry, end: nat) {
    exists data: nat :: LocalRecord(s, e, data, end)
  }

  /** The ranges are those of the entries' local records. */
  ghost predicate AreLocals(s: seq<Byte>, entries: seq<Entry>, ranges: seq<Range>) {
    && |ranges| == |entries|
    && forall k | 0 <= k < |entries| ::
         ranges[k].start == entries[k].localOffset && EndsAt(s, entries[k], ranges[k].end)
  }

  /** Every entry has its local record, and the records tile everything before the directory. */
  ghost predicate LocalsTile(s: seq<Byte>, entries: seq<Entry>, centralOffset: nat) {
    exists ranges :: AreLocals(s, entries, ranges) && Tiles(SortRanges(ranges), 0, centralOffset)
  }

  lemma EndsOnce(s: seq<Byte>, e: Entry, end: nat, end': nat)
    requires EndsAt(s, e, end) && EndsAt(s, e, end')
    ensures end == end'
  {
    hide LocalRecord;
    var d: nat :| LocalRecord(s, e, d, end);
    var d': nat :| LocalRecord(s, e, d', end');
    LocalRecordIsOne(s, e, d, end, d', end');
  }

  lemma LocalsAreOne(s: seq<Byte>, entries: seq<Entry>, a: seq<Range>, b: seq<Range>)
    requires AreLocals(s, entries, a) && AreLocals(s, entries, b)
    ensures a == b
  {
    hide EndsAt;
    forall k | 0 <= k < |entries| ensures a[k] == b[k] { EndsOnce(s, entries[k], a[k].end, b[k].end); }
  }

  lemma UnbindableDoesNotTile(s: seq<Byte>, entries: seq<Entry>, k: nat, centralOffset: nat)
    requires k < |entries| && !IsBindable(s, entries[k], centralOffset)
    ensures !LocalsTile(s, entries, centralOffset)
  {
    forall ranges | AreLocals(s, entries, ranges) ensures !Tiles(SortRanges(ranges), 0, centralOffset) {
      if Tiles(SortRanges(ranges), 0, centralOffset) { TiledIsBindable(s, entries, ranges, k, centralOffset); }
    }
  }

  lemma TiledIsBindable(s: seq<Byte>, entries: seq<Entry>, ranges: seq<Range>, k: nat, centralOffset: nat)
    requires k < |entries| && AreLocals(s, entries, ranges) && Tiles(SortRanges(ranges), 0, centralOffset)
    ensures IsBindable(s, entries[k], centralOffset)
  {
    hide LocalRecord, SortRanges;
    TilesAreOrdered(SortRanges(ranges), 0, centralOffset);
    SortingPermutes(ranges);
    assert ranges[k] in multiset(ranges);
    assert ranges[k] in SortRanges(ranges);
  }

  lemma MisplacedDoNotTile(s: seq<Byte>, entries: seq<Entry>, found: seq<Range>, centralOffset: nat)
    requires AreLocals(s, entries, found) && !Tiles(SortRanges(found), 0, centralOffset)
    ensures !LocalsTile(s, entries, centralOffset)
  {
    hide AreLocals, SortRanges, Tiles;
    forall ranges | AreLocals(s, entries, ranges) ensures ranges == found { LocalsAreOne(s, entries, ranges, found); }
  }

  lemma {:induction false} TilesAreAdjacent(ranges: seq<Range>, lo: nat, hi: nat)
    requires ranges != [] && Tiles(ranges, lo, hi)
    ensures ranges[0].start == lo && ranges[|ranges| - 1].end == hi
    ensures forall k | 1 <= k < |ranges| :: ranges[k].start == ranges[k - 1].end
  {
    if |ranges| > 1 {
      TilesAreAdjacent(ranges[1..], ranges[0].end, hi);
      forall k | 1 <= k < |ranges| ensures ranges[k].start == ranges[k - 1].end {
        if k > 1 { assert ranges[1..][k - 1] == ranges[k] && ranges[1..][k - 2] == ranges[k - 1]; }
      }
    }
  }

  /** The adjacency tests of the reader say exactly whether sorted, non-empty ranges tile. */
  lemma TilesIff(ranges: seq<Range>, hi: nat)
    requires ranges != [] && forall k | 0 <= k < |ranges| :: ranges[k].start < ranges[k].end
    ensures Tiles(ranges, 0, hi) <==>
      && ranges[0].start == 0 && ranges[|ranges| - 1].end == hi
      && forall k | 1 <= k < |ranges| :: ranges[k].start == ranges[k - 1].end
  {
    if Tiles(ranges, 0, hi) { TilesAreAdjacent(ranges, 0, hi); }
    if forall k | 1 <= k < |ranges| :: ranges[k].start == ranges[k - 1].end { AdjacentRangesTile(ranges); }
  }

  /**
   * `bindSafeZipLocalEntries`: fills in the data offsets, and accepts exactly the entries whose local
   * records tile the prefix, unless a read fails.
   */
  method BindLocalEntries(archive: Source<Byte>, centralOffset: nat, entries: array<Entry>)
      returns (r: Result<(), string>, ghost ranges: seq<Range>)
    requires forall k | 0 <= k < entries.Length :: entries[k].rawName != []
    modifies entries, archive`faults
    ensures r.Ok? ==> |ranges| == entries.Length
    ensures r.Ok? ==> forall k | 0 <= k < entries.Length ::
      && entries[k].dataOffset.Some? && entries[k] == old(entries[k]).(dataOffset := entries[k].dataOffset)
      && LocalRecord(archive.bytes, old(entries[k]), entries[k].dataOffset.value, ranges[k].end)
      && ranges[k].start == old(entries[k]).localOffset
    ensures r.Ok? ==> Tiles(SortRanges(ranges), 0, centralOffset)
    ensures r.Ok? <==>
      && entries.Length > 0 && LocalsTile(archive.bytes, old(entries[..]), centralOffset)
      && archive.faults == old(archive.faults)
  {
    hide LocalRecord, SortRanges, Tiles, LocalsTile, IsBindable, EndsAt;
    ranges := [];
    ghost var was := entries[..];
    var found: seq<Range> := [];
    for k := 0 to entries.Length
      invariant ranges == found && |found| == k && archive.faults == old(archive.faults)
      invariant forall j | k <= j < entries.Length :: entries[j] == was[j]
      invariant forall j | 0 <= j < k ::
        && entries[j].dataOffset.Some? && entries[j] == was[j].(dataOffset := entries[j].dataOffset)
        && LocalRecord(archive.bytes, was[j], entries[j].dataOffset.value, found[j].end)
        && found[j].start == was[j].localOffset && found[j].start < found[j].end
    {
      var bound := BindEntry(archive, entries[k], centralOffset);
      if bound.Err? {
        if archive.faults == old(archive.faults) { UnbindableDoesNotTile(archive.bytes, was, k, centralOffset); }
        return Err(bound.error), ranges;
      }
      var (dataOffset, end) := bound.value;
      entries[k] := entries[k].(dataOffset := Some(dataOffset));
      found := found + [Range(entries[k].localOffset, end)];
      ranges := found;
    }
    forall j | 0 <= j < |found| ensures EndsAt(archive.bytes, was[j], found[j].end) {
      RecordEnds(archive.bytes, was[j], entries[j].dataOffset.value, found[j].end);
    }
    var accepted := CheckPlacement(archive.bytes, was, found, centralOffset);
    return accepted, ranges;
  }

  lemma RecordEnds(s: seq<Byte>, e: Entry, data: nat, end: nat)
    requires LocalRecord(s, e, data, end)
    ensures EndsAt(s, e, end)
  {
  }

  /** The tests on the sorted ranges: no prefix, overlap, gap or rest. */
  method CheckPlacement(ghost s: seq<Byte>, ghost entries: seq<Entry>, found: seq<Range>, centralOffset: nat)
      returns (r: Result<(), string>)
    requires AreLocals(s, entries, found) && forall k | 0 <= k < |found| :: found[k].start < found[k].end
    ensures r.Ok? <==> found != [] && Tiles(SortRanges(found), 0, centralOffset)
    ensures r.Ok? <==> entries != [] && LocalsTile(s, entries, centralOffset)
  {
    hide SortRanges, Tiles, EndsAt;
    var sorted := SortRanges(found);
    SortedMembers(found);
    if !Tiles(sorted, 0, centralOffset) { MisplacedDoNotTile(s, entries, found, centralOffset); }
    forall j | 0 <= j < |sorted| ensures sorted[j].start < sorted[j].end {
      assert sorted[j] in found;
    }
    if |sorted| == 0 || sorted[0].start != 0 {
      if |sorted| > 0 { TilesIff(sorted, centralOffset); }
      return Err("zip_local_entry_prefix_forbidden");
    }
    TilesIff(sorted, centralOffset);
    for index := 1 to |sorted|
      invariant forall j | 1 <= j < index :: sorted[j].start == sorted[j - 1].end
    {
      if sorted[index].start < sorted[index - 1].end { return Err("zip_local_entries_overlap"); }
      if sorted[index].start != sorted[index - 1].end { return Err("zip_local_entry_gap_forbidden"); }
    }
    if sorted[|sorted| - 1].end != centralOffset { return Err("zip_central_prefix_gap_forbidden"); }
    return Ok(());
  }

  // ---------- the partition ----------

  /**
   * Local records by offset, then the central entries in order, then the end record: together they
   * are the archive, byte for byte, without gap or overlap.
   */
  lemma ArchivePartition(s: seq<Byte>, entries: seq<Entry>, locals: seq<Range>, centralOffset: nat, endOffset: nat)
      returns (central: seq<Range>)
    requires EndRecordAt(s, endOffset) && centralOffset <= endOffset
    requires CentralRun(s, centralOffset, endOffset, endOffset, entries)
    requires |locals| == |entries| && Tiles(SortRanges(locals), 0, centralOffset)
    ensures |central| == |entries|
    ensures forall k | 0 <= k < |entries| :: CentralRecord(s, central[k].start, endOffset, entries[k])
    ensures var all := SortRanges(locals) + central + [Range(endOffset, |s|)];
      && Tiles(all, 0, |s|)
      && (forall k | 0 <= k < |all| :: all[k].start <= all[k].end <= |s|)
      && Slices(s, all) == s
  {
    hide SortRanges, CentralRun;
    var first := SortRanges(locals);
    central := CentralRanges(s, centralOffset, endOffset, endOffset, entries);
    var last := [Range(endOffset, |s|)];
    assert Tiles(last, endOffset, |s|);
    TilesJoin(first, central, 0, centralOffset, endOffset);
    TilesJoin(first + central, last, 0, endOffset, |s|);
    TilesRebuild(s, first + central + last, 0, |s|);
    assert s[0..|s|] == s;
  }

  lemma NamesAreNotEmpty(s: seq<Byte>, lo: nat, hi: nat, entries: seq<Entry>)
    requires CentralRun(s, lo, hi, hi, entries)
    ensures forall k | 0 <= k < |entries| :: entries[k].rawName != []
  {
    hide CentralRun;
    var _ := CentralRanges(s, lo, hi, hi, entries);
  }

  lemma LastIsOne(s: seq<Byte>, p: nat)
    requires LastEndRecord(s, p)
    ensures EndRecordAt(s, p)
  {
  }

  /** The directory is readable, and its entries' local records tile everything before it. */
  ghost predicate IsWhole(s: seq<Byte>, end: nat, signedApp: bool, names: Names) {
    IsReadable(s, end, signedApp, names) && LocalsTile(s, EntriesAt(s, end, signedApp, names), U32(s, end + 16))
  }

  /**
   * Reading a whole archive: it succeeds exactly on an archive that is wholly its records, unless a read
   * fails; the answer is then the directory's entries with their data offsets filled in.
   */
  method ReadArchive(archive: Source<Byte>, signedApp: bool, names: Names)
      returns (r: Result<seq<Entry>, string>, ghost locals: seq<Range>, ghost central: seq<Range>, ghost endOffset: nat)
    modifies archive`faults
    ensures r.Ok? <==>
      (exists end: nat :: IsWhole(archive.bytes, end, signedApp, names)) && archive.faults == old(archive.faults)
    ensures r.Ok? ==> IsWhole(archive.bytes, endOffset, signedApp, names)
    ensures r.Ok? ==> var entries := EntriesAt(archive.bytes, endOffset, signedApp, names);
      && |r.value| == |entries|
      && forall k | 0 <= k < |entries| :: r.value[k] == entries[k].(dataOffset := r.value[k].dataOffset)
    ensures r.Ok? ==> |locals| == |central| == |r.value| && EndRecordAt(archive.bytes, endOffset)
    ensures r.Ok? ==> forall k | 0 <= k < |r.value| ::
      && r.value[k].dataOffset.Some?
      && LocalRecord(archive.bytes, r.value[k], r.value[k].dataOffset.value, locals[k].end)
      && locals[k].start == r.value[k].localOffset
      && CentralRecord(archive.bytes, central[k].start, endOffset, r.value[k])
    ensures r.Ok? ==> Tiles(SortRanges(locals) + central + [Range(endOffset, |archive.bytes|)], 0, |archive.bytes|)
  {
    hide LocalRecord, CentralRecord, SortRanges, CentralRun, CentralLength, Tiles, LastEndRecord, EntryIsPlain,
      TotalUncompressed, DistinctNames, U16, U32, IsReadable, EntriesAt, LocalsTile;
    locals, central := [], [];
    var directory;
    directory, endOffset := ReadCentralDirectory(archive, signedApp, names);
    if directory.Err? { return Err(directory.error), [], [], 0; }
    var (entries, centralOffset) := directory.value;
    ReadableIsUsable(archive.bytes, signedApp, names);
    forall q: nat | IsReadable(archive.bytes, q, signedApp, names) ensures q == endOffset {
      ReadableOnce(archive.bytes, endOffset, q, signedApp, names);
    }
    NamesAreNotEmpty(archive.bytes, centralOffset, endOffset, entries);
    LastIsOne(archive.bytes, endOffset);
    var bound := new Entry[|entries|](k requires 0 <= k < |entries| => entries[k]);
    assert bound[..] == entries;
    var binding;
    binding, locals := BindLocalEntries(archive, centralOffset, bound);
    if binding.Err? { return Err(binding.error), [], [], 0; }
    assert IsWhole(archive.bytes, endOffset, signedApp, names);
    central := ArchivePartition(archive.bytes, entries, locals, centralOffset, endOffset);
    forall k | 0 <= k < |entries|
      ensures LocalRecord(archive.bytes, bound[k], bound[k].dataOffset.value, locals[k].end)
        && CentralRecord(archive.bytes, central[k].start, endOffset, bound[k])
    {
      LocalIgnoresOffset(archive.bytes, entries[k], bound[k].dataOffset, bound[k].dataOffset.value, locals[k].end);
      CentralIgnoresOffset(archive.bytes, entries[k], bound[k].dataOffset, central[k].start, endOffset);
    }
    r := Ok(bound[..]);
  }

  /** No record test looks at the data offset that binding fills in. */
  lemma HeaderIgnoresOffset(s: seq<Byte>, e: Entry, dataOffset: Option<nat>, data: nat)
    ensures LocalHeader(s, e.(dataOffset := dataOffset), data) == LocalHeader(s, e, data)
  {
    hide U16, U32, UsesDescriptor;
  }

  lemma LocalIgnoresOffset(s: seq<Byte>, e: Entry, dataOffset: Option<nat>, data: nat, end: nat)
    ensures LocalRecord(s, e.(dataOffset := dataOffset), data, end) == LocalRecord(s, e, data, end)
  {
    hide U16, U32, UsesDescriptor, LocalHeader;
    HeaderIgnoresOffset(s, e, dataOffset, data);
  }

  lemma CentralIgnoresOffset(s: seq<Byte>, e: Entry, dataOffset: Option<nat>, p: nat, hi: nat)
    ensures CentralRecord(s, p, hi, e.(dataOffset := dataOffset)) == CentralRecord(s, p, hi, e)
  {
    hide U16, U32, CentralLength;
  }

  // ---------- extraction ----------

  /**
   * The sink of one extracted file, over any chunks the decompressor delivers. It is accepted exactly when
   * the decompressor has read all of its input, the chunks have the declared length and CRC-32, and no
   * write stalls; the file is then the chunks, unless a write reported more than it was given.
   */
  method ExtractFile(entry: Entry, chunks: seq<seq<Crc32.Byte>>, drained: bool, table: array<bv32>,
                     target: Sink<Crc32.Byte>)
      returns (r: Result<(), string>)
    requires Crc32.IsTable(table[..]) && target.bytes == []
    modifies target
    ensures var content := if entry.compressedSize > 0 then Crc32.Concat(chunks) else [];
      && (r.Ok? <==>
            && entry.dataOffset.Some? && (entry.compression == 8 && entry.compressedSize > 0 ==> drained)
            && |content| == entry.uncompressedSize && Crc32.Crc(content) as int == entry.crc
            && target.stalls == old(target.stalls))
      && (r.Ok? && target.excesses == old(target.excesses) ==> target.bytes == content)
    ensures |target.bytes| <= entry.uncompressedSize
  {
    hide Crc32.IsTable, Crc32.Register, Crc32.Crc, Crc32.Concat, Crc32.Finished;
    if entry.dataOffset.None? { return Err("zip_entry_data_unbound"); }
    var stream := Stream(entry, chunks);
    NoChunks();
    var delivered := Deliver(entry.uncompressedSize, stream, table, target);
    if delivered.Err? { return Err(delivered.error); }
    if entry.compressedSize > 0 && entry.compression == 8 && !drained {
      return Err("zip_entry_decompression_or_write_failed");
    }
    Crc32.StartAndEnd(Crc32.Concat(stream));
    var (bytesWritten, crc) := delivered.value;
    if bytesWritten != entry.uncompressedSize || Crc32.Finished(crc) as int != entry.crc {
      return Err("zip_entry_size_or_crc_mismatch");
    }
    return Ok(());
  }

  /** The chunks through the sink: counted, summed and written one by one, up to the declared size. */
  method Deliver(size: nat, stream: seq<seq<Crc32.Byte>>, table: array<bv32>, target: Sink<Crc32.Byte>)
      returns (r: Result<(nat, bv32), string>)
    requires Crc32.IsTable(table[..]) && target.bytes == []
    modifies target
    ensures r.Ok? <==> |Crc32.Concat(stream)| <= size && target.stalls == old(target.stalls)
    ensures r.Ok? ==> r.value == (|Crc32.Concat(stream)|, Crc32.Register(Crc32.Concat(stream)))
    ensures r.Ok? && target.excesses == old(target.excesses) ==> target.bytes == Crc32.Concat(stream)
    ensures |target.bytes| <= size
  {
    hide Crc32.IsTable, Crc32.Register, Crc32.Crc, Crc32.Concat;
    var bytesWritten := 0;
    var crc := Crc32.ALL_ONES;
    Crc32.StartAndEnd([]);
    NothingYet(stream);
    for k := 0 to |stream|
      invariant bytesWritten == |Crc32.Concat(stream[..k])| <= size
      invariant |target.bytes| <= bytesWritten && target.stalls == old(target.stalls)
      invariant old(target.excesses) <= target.excesses
      invariant target.excesses == old(target.excesses) ==> target.bytes == Crc32.Concat(stream[..k])
      invariant crc == Crc32.Register(Crc32.Concat(stream[..k]))
      invariant Crc32.IsTable(table[..])
    {
      OneMoreChunk(stream, k);
      bytesWritten := bytesWritten + |stream[k]|;
      if bytesWritten > size { return Err("zip_entry_decompression_or_write_failed"); }
      crc := Crc32.UpdateCrc32(crc, stream[k], table, Crc32.Concat(stream[..k]));
      var written := WriteComplete(target, stream[k]);
      if written.Err? { return Err("zip_entry_decompression_or_write_failed"); }
    }
    assert stream[..|stream|] == stream;
    return Ok((bytesWritten, crc));
  }

  lemma NoChunks()
    ensures Crc32.Concat([]) == []
  {
  }

  lemma NothingYet(stream: seq<seq<Crc32.Byte>>)
    ensures Crc32.Concat(stream[..0]) == []
  {
  }

  lemma OneMoreChunk(stream: seq<seq<Crc32.Byte>>, k: nat)
    requires k < |stream|
    ensures Crc32.Concat(stream[..k + 1]) == Crc32.Concat(stream[..k]) + stream[k]
    ensures |Crc32.Concat(stream[..k + 1])| <= |Crc32.Concat(stream)|
  {
    assert stream[..k + 1][..k] == stream[..k];
    ConcatGrows(stream, k + 1);
  }

  /** What reaches the sink; an entry without data has no stream. */
  function Stream(entry: Entry, chunks: seq<seq<Crc32.Byte>>): seq<seq<Crc32.Byte>> {
    if entry.compressedSize > 0 then chunks else []
  }

  lemma {:induction false} ConcatGrows(stream: seq<seq<Crc32.Byte>>, k: nat)
    requires k <= |stream|
    ensures |Crc32.Concat(stream[..k])| <= |Crc32.Concat(stream)|
    decreases |stream| - k
  {
    if k < |stream| {
      assert stream[..k + 1][..k] == stream[..k];
      ConcatGrows(stream, k + 1);
    } else {
      assert stream[..k] == stream;
    }
  }
}
