/**
 * The short-read and short-write loops of the receipt script, over handles that may transfer any part
 * of what they are asked for (scripts/capture-agent-distribution-receipt.ts:1914-1941, 1991-2025).
 */
module PartialIo {
  import opened Wrappers

  const MAX_LISTING_BYTES := 16 * 1024 * 1024
  const COPY_BUFFER_BYTES := 1024 * 1024

  /** A readable file of fixed content. `faults` counts the bad reports for bytes that are there. */
  class Source<T(0)> {
    const bytes: seq<T>
    ghost var faults: nat

    constructor (bytes: seq<T>)
      ensures this.bytes == bytes
    {
      this.bytes := bytes;
      faults := 0;
    }

    /** One positional read: it reports any count, and a usable count means that many bytes arrived. */
    method Read(buffer: array<T>, offset: nat, length: nat, position: nat) returns (bytesRead: int)
      requires offset + length <= buffer.Length
      modifies buffer, this`faults
      ensures 0 < bytesRead <= length ==> position + bytesRead <= |bytes|
      ensures 0 < bytesRead <= length ==>
        buffer[..] == old(buffer[..offset]) + bytes[position..position + bytesRead] + old(buffer[offset + bytesRead..])
      ensures !(0 < bytesRead <= length) ==> buffer[..] == old(buffer[..])
      ensures faults == old(faults) + if position < |bytes| && length > 0 && !(0 < bytesRead <= length) then 1 else 0
    {
      bytesRead := *;
      if 0 < bytesRead <= length {
        if position >= |bytes| {
          bytesRead := 0;
        } else if position + bytesRead > |bytes| {
          bytesRead := |bytes| - position;
        }
      }
      if 0 < bytesRead <= length {
        forall k | 0 <= k < bytesRead { buffer[offset + k] := bytes[position + k]; }
      } else if position < |bytes| && length > 0 {
        faults := faults + 1;
      }
    }
  }

  /**
   * A file being written. `stalls` counts the writes of something that report no progress, `excesses`
   * those that report too much.
   */
  class Sink<T> {
    var bytes: seq<T>
    ghost var stalls: nat
    ghost var excesses: nat

    constructor ()
      ensures bytes == []
    {
      bytes := [];
      stalls, excesses := 0, 0;
    }

    /** One positional write at or before the end of what is there; it may take only part of the data. */
    method Write(data: seq<T>, position: nat) returns (bytesWritten: int)
      requires position <= |bytes|
      modifies this
      ensures 0 < bytesWritten <= |data| ==>
        bytes == old(bytes[..position]) + data[..bytesWritten]
               + old(bytes[if position + bytesWritten <= |bytes| then position + bytesWritten else |bytes|..])
      ensures !(0 < bytesWritten <= |data|) ==> bytes == old(bytes)
      ensures stalls == old(stalls) + if data != [] && bytesWritten <= 0 then 1 else 0
      ensures excesses == old(excesses) + if data != [] && bytesWritten > |data| then 1 else 0
    {
      bytesWritten := *;
      if 0 < bytesWritten <= |data| {
        var rest := if position + bytesWritten <= |bytes| then position + bytesWritten else |bytes|;
        bytes := bytes[..position] + data[..bytesWritten] + bytes[rest..];
      } else if |data| > 0 {
        if bytesWritten <= 0 { stalls := stalls + 1; } else { excesses := excesses + 1; }
      }
    }
  }

  predicate Requestable(position: int, length: int) {
    0 <= position && 0 <= length <= MAX_LISTING_BYTES
  }

  /**
   * `readExactArchiveBytes`: exactly the requested slice. It succeeds exactly when the request is in
   * range, the slice is inside the file, and no read of bytes that are there reports a bad count.
   */
  method ReadExact<T(0)>(archive: Source<T>, position: int, length: int, code: string)
      returns (r: Result<seq<T>, string>)
    modifies archive`faults
    ensures r.Ok? <==>
      && Requestable(position, length) && (length > 0 ==> position + length <= |archive.bytes|)
      && archive.faults == old(archive.faults)
    ensures r.Ok? ==> r.value == if length == 0 then [] else archive.bytes[position..position + length]
    ensures r.Err? ==> r.error == code
    ensures old(archive.faults) <= archive.faults
  {
    if position < 0 || length < 0 || length > MAX_LISTING_BYTES { return Err(code); }
    var buffer := new T[length];
    var offset := 0;
    while offset < length
      invariant 0 <= offset <= length && archive.faults == old(archive.faults)
      invariant offset > 0 ==> position + offset <= |archive.bytes|
      invariant offset > 0 ==> buffer[..offset] == archive.bytes[position..position + offset]
      decreases length - offset
    {
      ghost var before := buffer[..];
      var bytesRead := archive.Read(buffer, offset, length - offset, position + offset);
      if bytesRead <= 0 || bytesRead > length - offset { return Err(code); }
      assert buffer[..offset + bytesRead]
        == before[..offset] + archive.bytes[position + offset..position + offset + bytesRead];
      offset := offset + bytesRead;
    }
    assert buffer[..length] == buffer[..];
    return Ok(buffer[..]);
  }

  /**
   * `writeCompleteZipChunk`: it fails exactly when a write reports no progress. What is appended is a
   * beginning of the chunk; a success appends all of it exactly when no write reported too much, which
   * the loop does not test.
   */
  method WriteComplete<T>(sink: Sink<T>, chunk: seq<T>) returns (r: Result<(), string>)
    modifies sink
    ensures r.Ok? <==> sink.stalls == old(sink.stalls)
    ensures old(sink.bytes) <= sink.bytes <= old(sink.bytes) + chunk
    ensures r.Ok? ==> (sink.bytes == old(sink.bytes) + chunk <==> sink.excesses == old(sink.excesses))
    ensures old(sink.stalls) <= sink.stalls && old(sink.excesses) <= sink.excesses
  {
    var offset := 0;
    ghost var put := 0;
    while offset < |chunk|
      invariant 0 <= put <= |chunk| && 0 <= offset
      invariant sink.bytes == old(sink.bytes) + chunk[..put]
      invariant sink.stalls == old(sink.stalls)
      invariant if sink.excesses == old(sink.excesses) then put == offset <= |chunk|
                else old(sink.excesses) < sink.excesses && put < |chunk| <= offset
      decreases |chunk| - offset
    {
      var bytesWritten := sink.Write(chunk[offset..], |sink.bytes|);
      if bytesWritten <= 0 { return Err("zip_entry_short_write"); }
      if bytesWritten <= |chunk| - offset {
        assert chunk[..offset + bytesWritten] == chunk[..offset] + chunk[offset..][..bytesWritten];
        put := put + bytesWritten;
      }
      offset := offset + bytesWritten;
    }
    assert chunk[..|chunk|] == chunk;
    return Ok(());
  }

  /** The inner loop of the copy: puts one chunk at the end of the output, and fails exactly for a bad count. */
  method WriteChunk<T>(output: Sink<T>, chunk: seq<T>, position: nat) returns (r: Result<(), string>)
    requires |output.bytes| == position
    modifies output
    ensures r.Ok? <==> output.stalls == old(output.stalls) && output.excesses == old(output.excesses)
    ensures r.Ok? ==> output.bytes == old(output.bytes) + chunk
    ensures r.Err? ==> old(output.bytes) <= output.bytes <= old(output.bytes) + chunk
    ensures old(output.stalls) <= output.stalls && old(output.excesses) <= output.excesses
  {
    var written := 0;
    while written < |chunk|
      invariant 0 <= written <= |chunk|
      invariant output.bytes == old(output.bytes) + chunk[..written]
      invariant output.stalls == old(output.stalls) && output.excesses == old(output.excesses)
      decreases |chunk| - written
    {
      var count := output.Write(chunk[written..], position + written);
      if count <= 0 || count > |chunk| - written { return Err("artifact_copy_write_no_progress"); }
      assert chunk[..written + count] == chunk[..written] + chunk[written..][..count];
      written := written + count;
    }
    assert chunk[..|chunk|] == chunk;
    return Ok(());
  }

  /**
   * `copyStableInputFile`: however the reads and writes are split, the copy succeeds exactly when the file
   * is the expected one, before and after, and no read or write reports a bad count; then the output is
   * the source. `sameBefore` and `sameAfter` are the file identity checks.
   */
  method CopyStable<T(0), D(==)>(input: Source<T>, output: Sink<T>, size: int, digest: seq<T> -> D, expected: D,
                                 sameBefore: bool, sameAfter: bool) returns (r: Result<(), string>)
    requires output.bytes == []
    modifies input`faults, output
    ensures r.Ok? <==>
      && sameBefore && sameAfter && size == |input.bytes| && digest(input.bytes) == expected
      && input.faults == old(input.faults)
      && output.stalls == old(output.stalls) && output.excesses == old(output.excesses)
    ensures r.Ok? ==> output.bytes == input.bytes
    ensures r.Err? ==> output.bytes <= input.bytes
  {
    if !sameBefore || |input.bytes| != size { return Err("artifact_changed_before_copy"); }
    var buffer := new T[COPY_BUFFER_BYTES];
    var hashed: seq<T> := [];
    var offset := 0;
    while offset < size
      invariant 0 <= offset <= size
      invariant output.bytes == hashed == input.bytes[..offset]
      invariant input.faults == old(input.faults)
      invariant output.stalls == old(output.stalls) && output.excesses == old(output.excesses)
      decreases size - offset
    {
      var length := if size - offset > buffer.Length then buffer.Length else size - offset;
      var bytesRead := input.Read(buffer, 0, length, offset);
      // A file handle reports between nothing and what it was asked for.
      if bytesRead <= 0 || bytesRead > length { return Err("artifact_short_read"); }
      var chunk := buffer[..bytesRead];
      NextPart(input.bytes, offset, bytesRead);
      hashed := hashed + chunk;
      var written := WriteChunk(output, chunk, offset);
      if written.Err? {
        PrefixChain(output.bytes, input.bytes[..offset + bytesRead], input.bytes);
        return written;
      }
      offset := offset + bytesRead;
    }
    assert input.bytes[..size] == input.bytes;
    if !sameAfter || digest(hashed) != expected { return Err("artifact_changed_during_copy"); }
    if |output.bytes| != size || digest(output.bytes) != expected { return Err("artifact_copy_readback_mismatch"); }
    return Ok(());
  }

  lemma NextPart<T>(s: seq<T>, offset: nat, count: nat)
    requires offset + count <= |s|
    ensures s[..offset + count] == s[..offset] + s[offset..offset + count]
  {
  }

  lemma PrefixChain<T>(a: seq<T>, b: seq<T>, c: seq<T>)
    requires a <= b <= c
    ensures a <= c
  {
  }
}
