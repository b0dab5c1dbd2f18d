/**
 * ZIP records as byte ranges of an archive: the end record, central entries and local records of
 * sections 4.3.7, 4.3.9, 4.3.12 and 4.3.16 of PKWARE APPNOTE.TXT, as the receipt script reads them.
 */
module ZipFormat {
  import opened Wrappers

  type Byte = n: int | 0 <= n < 256

  const END_SIGNATURE := 0x0605_4b50
  const CENTRAL_SIGNATURE := 0x0201_4b50
  const LOCAL_SIGNATURE := 0x0403_4b50
  const DESCRIPTOR_SIGNATURE := 0x0807_4b50
  const MAX_END_BYTES := 22 + 0xffff
  const MAX_LISTING_BYTES := 16 * 1024 * 1024
  const MAX_ARTIFACT_BYTES := 2 * 1024 * 1024 * 1024
  const MAX_TOTAL_UNCOMPRESSED_BYTES := 1024 * 1024 * 1024
  const MAX_COMPRESSION_RATIO := 200

  function U16(s: seq<Byte>, i: nat): (n: nat)
    requires i + 2 <= |s|
    ensures n < 0x1_0000
  {
    var a: int, b: int := s[i], s[i + 1];
    a + 0x100 * b
  }

  function U32(s: seq<Byte>, i: nat): (n: nat)
    requires i + 4 <= |s|
    ensures n < 0x1_0000_0000
  {
    var a: int, b: int, c: int, d: int := s[i], s[i + 1], s[i + 2], s[i + 3];
    a + 0x100 * b + 0x1_0000 * c + 0x100_0000 * d
  }

  predicate Bit(n: nat, weight: nat)
    requires weight > 0
  {
    (n / weight) % 2 == 1
  }

  lemma SliceReads(s: seq<Byte>, lo: nat, hi: nat, i: nat)
    requires lo <= hi <= |s|
    ensures lo + i + 2 <= hi ==> U16(s[lo..hi], i) == U16(s, lo + i)
    ensures lo + i + 4 <= hi ==> U32(s[lo..hi], i) == U32(s, lo + i)
  {
  }

  /** Numbers are stored low byte first. */
  lemma ShortsAreLittleEndian(n: nat)
    requires n < 0x1_0000
    ensures U16([n % 0x100, n / 0x100], 0) == n
  {
  }

  lemma LongsAreLittleEndian(a: Byte, b: Byte, c: Byte, d: Byte)
    ensures U32([a, b, c, d], 0) == a + 0x100 * (b + 0x100 * (c + 0x100 * d))
  {
  }

  /** The signatures are the letters PK and two more bytes. */
  lemma SignaturesArePk()
    ensures U32([0x50, 0x4b, 5, 6], 0) == END_SIGNATURE && U32([0x50, 0x4b, 1, 2], 0) == CENTRAL_SIGNATURE
    ensures U32([0x50, 0x4b, 3, 4], 0) == LOCAL_SIGNATURE && U32([0x50, 0x4b, 7, 8], 0) == DESCRIPTOR_SIGNATURE
  {
  }

  // ---------- the end record ----------

  /** An end record whose comment runs exactly to the end of the bytes. */
  predicate EndRecordAt(s: seq<Byte>, p: nat) {
    p + 22 <= |s| && U32(s, p) == END_SIGNATURE && p + 22 + U16(s, p + 20) == |s|
  }

  /** A comment is shorter than 64 KiB, so every end record lies in the tail that the reader fetches. */
  lemma EndRecordIsInTail(s: seq<Byte>, p: nat, tailOffset: nat)
    requires tailOffset == if |s| <= MAX_END_BYTES then 0 else |s| - MAX_END_BYTES
    ensures EndRecordAt(s, p) ==> tailOffset <= p && EndRecordAt(s[tailOffset..], p - tailOffset)
    ensures EndRecordAt(s[tailOffset..], p) ==> EndRecordAt(s, tailOffset + p)
  {
    if p + 22 <= |s| && p >= tailOffset {
      SliceReads(s, tailOffset, |s|, p - tailOffset);
      SliceReads(s, tailOffset, |s|, p - tailOffset + 20);
    }
    if tailOffset + p + 22 <= |s| {
      SliceReads(s, tailOffset, |s|, p);
      SliceReads(s, tailOffset, |s|, p + 20);
    }
  }

  // ---------- entries ----------

  datatype Entry = Entry(rawName: seq<Byte>, directory: bool, symlink: bool, flags: nat, compression: nat, crc: nat,
                         compressedSize: nat, uncompressedSize: nat, localOffset: nat, unixMode: Option<nat>,
                         dataOffset: Option<nat>)

  predicate UsesDescriptor(flags: nat) { Bit(flags, 0x8) }

  /** A data descriptor follows when bit 3 is set. */
  lemma DescriptorBit(flags: nat)
    ensures UsesDescriptor(flags) <==> flags % 16 >= 8
  {
    EighthsOfSixteen(flags, flags / 16, flags % 16);
  }

  lemma EighthsOfSixteen(n: nat, q: nat, low: nat)
    requires n == 16 * q + low && low < 16
    ensures (n / 8) % 2 == 1 <==> low >= 8
  {
    var half := if low < 8 then 2 * q else 2 * q + 1;
    assert 8 * half <= n < 8 * half + 8;
    assert n / 8 == half;
  }

  /** Only the UTF-8, data descriptor and deflate option bits may be set. */
  predicate SupportedFlags(flags: nat) {
    flags == (if Bit(flags, 0x800) then 0x800 else 0) + (if Bit(flags, 0x8) then 0x8 else 0)
           + (if Bit(flags, 0x4) then 0x4 else 0) + (if Bit(flags, 0x2) then 0x2 else 0)
  }

  function CentralLength(s: seq<Byte>, p: nat): nat
    requires p + 46 <= |s|
  {
    46 + U16(s, p + 28) + U16(s, p + 30) + U16(s, p + 32)
  }

  /** The central entry that starts at `p` and ends before `hi` describes `e`. */
  predicate CentralRecord(s: seq<Byte>, p: nat, hi: nat, e: Entry) {
    && p + 46 <= hi <= |s| && U32(s, p) == CENTRAL_SIGNATURE
    && p + CentralLength(s, p) <= hi
    && 0 < U16(s, p + 28) && e.rawName == s[p + 46..p + 46 + U16(s, p + 28)]
    && e.flags == U16(s, p + 8) && e.compression == U16(s, p + 10)
    && e.crc == U32(s, p + 16) && e.compressedSize == U32(s, p + 20) && e.uncompressedSize == U32(s, p + 24)
    && e.localOffset == U32(s, p + 42)
  }

  /** The entries' central records, in order, are exactly the bytes from `lo` to `cursor`. */
  predicate CentralRun(s: seq<Byte>, lo: nat, cursor: nat, hi: nat, entries: seq<Entry>)
    decreases |entries|
  {
    if entries == [] then cursor == lo
    else exists p: nat | lo <= p < cursor ::
      && CentralRun(s, lo, p, hi, entries[..|entries| - 1])
      && CentralRecord(s, p, hi, entries[|entries| - 1])
      && cursor == p + CentralLength(s, p)
  }

  /** The local header at the entry's offset agrees with it, and its data starts at `data`. */
  predicate LocalHeader(s: seq<Byte>, e: Entry, data: nat) {
    var p := e.localOffset;
    && p + 30 <= data <= |s| && U32(s, p) == LOCAL_SIGNATURE
    && U16(s, p + 6) == e.flags && U16(s, p + 8) == e.compression
    && U16(s, p + 26) == |e.rawName| && data == p + 30 + |e.rawName| + U16(s, p + 28)
    && s[p + 30..p + 30 + |e.rawName|] == e.rawName
    && if UsesDescriptor(e.flags) then U32(s, p + 14) == 0 && U32(s, p + 18) == 0 && U32(s, p + 22) == 0
       else U32(s, p + 14) == e.crc && U32(s, p + 18) == e.compressedSize && U32(s, p + 22) == e.uncompressedSize
  }

  /** The data descriptor at `p` repeats the entry's checksum and sizes. */
  predicate Descriptor(s: seq<Byte>, e: Entry, p: nat) {
    && p + 16 <= |s| && U32(s, p) == DESCRIPTOR_SIGNATURE && U32(s, p + 4) == e.crc
    && U32(s, p + 8) == e.compressedSize && U32(s, p + 12) == e.uncompressedSize
  }

  /** The local record of an entry: header, data and, when its flag says so, a data descriptor. */
  predicate LocalRecord(s: seq<Byte>, e: Entry, data: nat, end: nat) {
    && LocalHeader(s, e, data)
    && if UsesDescriptor(e.flags) then Descriptor(s, e, data + e.compressedSize) && end == data + e.compressedSize + 16
       else end == data + e.compressedSize
  }

  // ---------- ranges that tile ----------

  datatype Range = Range(start: nat, end: nat)

  /** Consecutive ranges from `lo` to `hi`, without gap or overlap. */
  predicate Tiles(ranges: seq<Range>, lo: nat, hi: nat) {
    if ranges == [] then lo == hi
    else ranges[0].start == lo && lo < ranges[0].end && Tiles(ranges[1..], ranges[0].end, hi)
  }

  lemma {:induction false} TilesAreOrdered(ranges: seq<Range>, lo: nat, hi: nat)
    requires Tiles(ranges, lo, hi)
    ensures lo <= hi
    ensures forall k | 0 <= k < |ranges| :: lo <= ranges[k].start < ranges[k].end <= hi
  {
    if ranges != [] {
      TilesAreOrdered(ranges[1..], ranges[0].end, hi);
      forall k | 0 <= k < |ranges| ensures lo <= ranges[k].start < ranges[k].end <= hi {
        if k > 0 { assert ranges[1..][k - 1] == ranges[k]; }
      }
    }
  }

  /** Every position is in exactly one tile. */
  lemma {:induction false} TilesCoverOnce(ranges: seq<Range>, lo: nat, hi: nat, x: nat) returns (k: nat)
    requires Tiles(ranges, lo, hi) && lo <= x < hi
    ensures k < |ranges| && ranges[k].start <= x < ranges[k].end
    ensures forall j | 0 <= j < |ranges| && ranges[j].start <= x < ranges[j].end :: j == k
  {
    TilesAreOrdered(ranges[1..], ranges[0].end, hi);
    if x < ranges[0].end {
      k := 0;
    } else {
      k := TilesCoverOnce(ranges[1..], ranges[0].end, hi, x);
      forall j | 0 <= j < |ranges| && ranges[j].start <= x < ranges[j].end ensures j == k + 1 {
        if j > 0 { assert ranges[1..][j - 1] == ranges[j]; }
      }
      k := k + 1;
    }
  }

  function Slices(s: seq<Byte>, ranges: seq<Range>): seq<Byte>
    requires forall k | 0 <= k < |ranges| :: ranges[k].start <= ranges[k].end <= |s|
  {
    if ranges == [] then [] else s[ranges[0].start..ranges[0].end] + Slices(s, ranges[1..])
  }

  /** Putting the tiles side by side gives the bytes back. */
  lemma {:induction false} TilesRebuild(s: seq<Byte>, ranges: seq<Range>, lo: nat, hi: nat)
    requires Tiles(ranges, lo, hi) && hi <= |s|
    ensures lo <= hi && (forall k | 0 <= k < |ranges| :: ranges[k].start <= ranges[k].end <= |s|)
    ensures Slices(s, ranges) == s[lo..hi]
  {
    TilesAreOrdered(ranges, lo, hi);
    if ranges != [] {
      TilesRebuild(s, ranges[1..], ranges[0].end, hi);
      assert s[lo..hi] == s[lo..ranges[0].end] + s[ranges[0].end..hi];
    }
  }

  lemma {:induction false} TilesJoin(a: seq<Range>, b: seq<Range>, lo: nat, mid: nat, hi: nat)
    requires Tiles(a, lo, mid) && Tiles(b, mid, hi)
    ensures Tiles(a + b, lo, hi)
  {
    if a == [] {
      assert a + b == b;
    } else {
      TilesJoin(a[1..], b, a[0].end, mid, hi);
      assert (a + b)[1..] == a[1..] + b;
    }
  }

  lemma RecordsAreInside(s: seq<Byte>, hi: nat)
    ensures forall p: nat, e: Entry | CentralRecord(s, p, hi, e) :: p + 46 <= |s|
  {
  }

  /** The ranges of the central entries of a run. */
  lemma {:induction false} CentralRanges(s: seq<Byte>, lo: nat, cursor: nat, hi: nat, entries: seq<Entry>)
      returns (ranges: seq<Range>)
    requires CentralRun(s, lo, cursor, hi, entries)
    ensures |ranges| == |entries| && Tiles(ranges, lo, cursor)
    ensures forall k | 0 <= k < |entries| ::
      && CentralRecord(s, ranges[k].start, hi, entries[k])
      && ranges[k].end == ranges[k].start + CentralLength(s, ranges[k].start)
    decreases |entries|
  {
    hide CentralRecord, CentralLength, U16, U32;
    RecordsAreInside(s, hi);
    if entries == [] {
      ranges := [];
    } else {
      var n := |entries| - 1;
      var p: nat :| lo <= p < cursor && CentralRun(s, lo, p, hi, entries[..n])
        && CentralRecord(s, p, hi, entries[n]) && cursor == p + CentralLength(s, p);
      var before := CentralRanges(s, lo, p, hi, entries[..n]);
      assert Tiles([Range(p, cursor)], p, cursor);
      TilesJoin(before, [Range(p, cursor)], lo, p, cursor);
      ranges := before + [Range(p, cursor)];
    }
  }
}
