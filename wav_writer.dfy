/** The WAV file writer (WavWriter): a RIFF/WAVE file whose `fmt ` chunk is
    the capture format copied verbatim and whose `data` chunk grows with
    every Write; the two size fields are written as zero placeholders and
    patched when the writer is closed.

    The file is modelled as the sequence of bytes on disk. Whether each
    stream operation succeeds is an input (`ioOk`), since it depends on the
    disk. */
module Wav {
  import opened Common
  import opened WaveFormat

  datatype WavError =
    | OpenFailed      // the output file could not be opened
    | StreamNotOpen   // Write on a stream already in a failed state
    | WriteFailed     // the stream failed while writing sample bytes
    | FlushFailed     // the stream failed while flushing

  /** How far Close's unchecked patch of the two size fields gets: a failed
      seekp or write leaves the stream failed, so the data size is patched
      only after the RIFF size was. */
  datatype PatchOutcome = Patched | RiffSizeOnly | NotPatched

  /** RIFF(4) + size(4) + WAVE(4) + "fmt "(4) + size(4) + blob + "data"(4) + size(4) */
  function HeaderSize(blobSize: nat): nat { 28 + blobSize }

  /** Offset of the RIFF size field. */
  const RIFF_SIZE_OFFSET: nat := 4

  /** Offset of the data chunk's size field: everything before it in the header. */
  function DataSizeOffset(blobSize: nat): nat { 24 + blobSize }

  /** The RIFF size field as the 32-bit unsigned sum 4 + 8 + blob + 8 + data. */
  function RiffSize(blobSize: nat, dataBytes: nat): (r: nat)
    ensures IsU32(r)
  {
    (4 + 8 + blobSize + 8 + dataBytes) % U32_LIMIT
  }

  function WavHeader(blob: seq<byte>, riffSize: nat, dataSize: nat): (h: seq<byte>)
    requires IsU32(|blob|) && IsU32(riffSize) && IsU32(dataSize)
    ensures |h| == HeaderSize(|blob|)
  {
    RIFF_ID + LE32(riffSize) + WAVE_ID
    + FMT_ID + LE32(|blob|) + blob
    + DATA_ID + LE32(dataSize)
  }

  /** Overwrites the four bytes at `offset` with a 32-bit field (seekp + write). */
  function PatchField(file: seq<byte>, offset: nat, value: nat): (f: seq<byte>)
    requires offset + 4 <= |file| && IsU32(value)
    ensures |f| == |file|
  {
    file[..offset] + LE32(value) + file[offset + 4..]
  }

  /** Where the fields of a header sit. */
  lemma HeaderLayout(blob: seq<byte>, riffSize: nat, dataSize: nat, payload: seq<byte>)
    requires IsU32(|blob|) && IsU32(riffSize) && IsU32(dataSize)
    ensures var f := WavHeader(blob, riffSize, dataSize) + payload;
      && f[..4] == RIFF_ID && f[4..8] == LE32(riffSize) && f[8..12] == WAVE_ID
      && f[12..16] == FMT_ID && f[16..20] == LE32(|blob|)
      && f[20..20 + |blob|] == blob
      && f[20 + |blob|..24 + |blob|] == DATA_ID
      && f[24 + |blob|..28 + |blob|] == LE32(dataSize)
      && f[28 + |blob|..] == payload
  {
    var p1 := RIFF_ID + LE32(riffSize);
    var p2 := p1 + WAVE_ID;
    var p3 := p2 + FMT_ID;
    var p4 := p3 + LE32(|blob|);
    var p5 := p4 + blob;
    var p6 := p5 + DATA_ID;
    var h := p6 + LE32(dataSize);
    assert h == WavHeader(blob, riffSize, dataSize);
    var f := h + payload;
    assert f[..20] == p4 && f[20..20 + |blob|] == blob;
    assert p4[..4] == RIFF_ID && p4[4..8] == LE32(riffSize) && p4[8..12] == WAVE_ID;
    assert p4[12..16] == FMT_ID && p4[16..20] == LE32(|blob|);
  }

  /** The bytes between the two size fields of a header. */
  function Middle(blob: seq<byte>): (m: seq<byte>)
    requires IsU32(|blob|)
    ensures |m| == 16 + |blob|
  {
    WAVE_ID + FMT_ID + LE32(|blob|) + blob + DATA_ID
  }

  lemma HeaderSplit(blob: seq<byte>, riffSize: nat, dataSize: nat)
    requires IsU32(|blob|) && IsU32(riffSize) && IsU32(dataSize)
    ensures WavHeader(blob, riffSize, dataSize) == RIFF_ID + LE32(riffSize) + Middle(blob) + LE32(dataSize)
  {
  }

  /** Overwriting a field that sits between `a` and `b` replaces just it. */
  lemma PatchBetween(a: seq<byte>, x: seq<byte>, b: seq<byte>, value: nat)
    requires |x| == 4 && IsU32(value)
    ensures PatchField(a + x + b, |a|, value) == a + LE32(value) + b
  {
    var f := a + x + b;
    assert f[..|a|] == a;
    assert f[|a| + 4..] == b;
  }

  /** Patching the RIFF size of a placeholder header sets just that field. */
  lemma PatchRiffSize(blob: seq<byte>, payload: seq<byte>, riffSize: nat)
    requires IsU32(|blob|) && IsU32(riffSize)
    ensures PatchField(WavHeader(blob, 0, 0) + payload, RIFF_SIZE_OFFSET, riffSize)
              == WavHeader(blob, riffSize, 0) + payload
  {
    var z := LE32(0);
    HeaderSplit(blob, 0, 0);
    HeaderSplit(blob, riffSize, 0);
    assert WavHeader(blob, 0, 0) + payload == RIFF_ID + z + (Middle(blob) + z + payload);
    PatchBetween(RIFF_ID, z, Middle(blob) + z + payload, riffSize);
  }

  /** Then patching the data size gives the header with both sizes, and
      leaves the blob and the samples alone. */
  lemma PatchDataSize(blob: seq<byte>, payload: seq<byte>, riffSize: nat, dataSize: nat)
    requires IsU32(|blob|) && IsU32(riffSize) && IsU32(dataSize)
    ensures PatchField(WavHeader(blob, riffSize, 0) + payload, DataSizeOffset(|blob|), dataSize)
              == WavHeader(blob, riffSize, dataSize) + payload
  {
    var z := LE32(0);
    HeaderSplit(blob, riffSize, 0);
    HeaderSplit(blob, riffSize, dataSize);
    assert WavHeader(blob, riffSize, 0) + payload == (RIFF_ID + LE32(riffSize) + Middle(blob)) + z + payload;
    PatchBetween(RIFF_ID + LE32(riffSize) + Middle(blob), z, payload, dataSize);
  }

  /** Patching both size fields of a placeholder header gives the header
      with those sizes. */
  lemma PatchSizes(blob: seq<byte>, payload: seq<byte>, riffSize: nat, dataSize: nat)
    requires IsU32(|blob|) && IsU32(riffSize) && IsU32(dataSize)
    ensures var f := WavHeader(blob, 0, 0) + payload;
      PatchField(PatchField(f, RIFF_SIZE_OFFSET, riffSize), DataSizeOffset(|blob|), dataSize)
        == WavHeader(blob, riffSize, dataSize) + payload
  {
    PatchRiffSize(blob, payload, riffSize);
    PatchDataSize(blob, payload, riffSize, dataSize);
  }

  /** In a finalised file the RIFF size field holds the file length minus
      the 8 bytes of the RIFF header, and the data size field the number of
      sample bytes, both modulo 2^32. */
  lemma FinalizedSizesAgree(blob: seq<byte>, payload: seq<byte>)
    requires IsU32(|blob|)
    ensures var d := |payload| % U32_LIMIT;
      var f := WavHeader(blob, RiffSize(|blob|, d), d) + payload;
      && LeValue(f[4..8]) == (|f| - 8) % U32_LIMIT
      && LeValue(f[DataSizeOffset(|blob|)..DataSizeOffset(|blob|) + 4]) == |payload| % U32_LIMIT
  {
    var d := |payload| % U32_LIMIT;
    var r := RiffSize(|blob|, d);
    HeaderLayout(blob, r, d, payload);
    LE32RoundTrip(r);
    LE32RoundTrip(d);
    ModSumRight(20 + |blob|, |payload|, U32_LIMIT);
  }

  /** The 32-bit byte count after `n` more bytes, kept as the writer keeps
      it, is the new length modulo 2^32. */
  lemma CountAppended(count: nat, len: nat, n: nat)
    requires count == len % U32_LIMIT
    ensures (count + n % U32_LIMIT) % U32_LIMIT == (len + n) % U32_LIMIT
    ensures (count + n % U32_LIMIT) % U32_LIMIT == (count + n) % U32_LIMIT
  {
    ModSumRight(count, n, U32_LIMIT);
    ModSumRight(n, len, U32_LIMIT);
    assert (count + n) % U32_LIMIT == (n + len % U32_LIMIT) % U32_LIMIT;
  }

  lemma ModSumRight(a: nat, b: nat, m: nat)
    requires m > 0
    ensures (a + b % m) % m == (a + b) % m
  {
    var q := b / m;
    assert a + b == q * m + (a + b % m);
    assert (a + b % m) % m == (a + b % m) - ((a + b % m) / m) * m;
    ModUnique(a + b, q + (a + b % m) / m, (a + b % m) % m, m);
  }

  class WavWriter {
    const formatBlob: seq<byte>
    /** The bytes on disk. */
    var file: seq<byte>
    /** dataBytes_, a uint32_t: the bytes of the writes that succeeded. */
    var dataBytes: nat
    /** The values of the RIFF and data size fields on disk. */
    var riffField: nat
    var dataField: nat
    var finalized: bool
    /** The stream's state is good (no failbit or badbit). */
    var good: bool
    /** The file is still open; only a successful Close closes it. */
    var isOpen: bool
    /** Every sample byte that reached the file after the header. */
    ghost var Payload: seq<byte>

    /** The file is the header with the size fields as they stand, then
        the samples. Both fields are zero placeholders while the file is
        open; a closed file whose stream stayed sound has both patched.
        The count of written bytes is exact while the stream is sound. */
    ghost predicate Valid()
      reads this
    {
      && IsU32(|formatBlob|) && IsU32(dataBytes) && IsU32(riffField) && IsU32(dataField)
      && (good ==> dataBytes == |Payload| % U32_LIMIT)
      && (!isOpen ==> finalized)
      && (isOpen ==> riffField == 0 && dataField == 0)
      && (!isOpen && good ==> riffField == RiffSize(|formatBlob|, dataBytes) && dataField == dataBytes)
      && (!isOpen ==> dataBytes == |Payload| % U32_LIMIT)
      && (!isOpen && !good ==>
            || (riffField == 0 && dataField == 0)
            || (riffField == RiffSize(|formatBlob|, dataBytes) && (dataField == 0 || dataField == dataBytes)))
      && file == WavHeader(formatBlob, riffField, dataField) + Payload
    }

    /** The file is truncated and starts with the header, both size fields
        zero; the format blob is sizeof(WAVEFORMATEX) + cbSize bytes. */
    constructor (block: FormatBlock)
      requires block.WellFormed()
      ensures Valid()
      ensures formatBlob == FormatBlob(block)
      ensures file == WavHeader(formatBlob, 0, 0)
      ensures Payload == [] && dataBytes == 0
      ensures good && isOpen && !finalized
    {
      formatBlob := FormatBlob(block);
      file := WavHeader(FormatBlob(block), 0, 0);
      dataBytes := 0;
      riffField, dataField := 0, 0;
      finalized := false;
      good := true;
      isOpen := true;
      Payload := [];
      new;
      assert file == WavHeader(formatBlob, 0, 0) + Payload;
    }

    /** Appends sample bytes. A stream that has already failed is refused;
        a write that fails (the disk, or a file already closed) puts the
        stream into the failed state, after the first `landed` bytes of the
        data reached an open file, and is not counted. */
    method Write(data: seq<byte>, ioOk: bool, landed: nat) returns (r: Outcome<WavError>)
      requires Valid()
      modifies this
      ensures Valid()
      ensures finalized == old(finalized) && isOpen == old(isOpen)
      ensures riffField == old(riffField) && dataField == old(dataField)
      ensures !old(good) ==> r == Fail(StreamNotOpen) && !good
                             && file == old(file) && Payload == old(Payload) && dataBytes == old(dataBytes)
      ensures old(good) && old(isOpen) && ioOk ==>
                r == Pass && good
                && Payload == old(Payload) + data && file == old(file) + data
                && dataBytes == (old(dataBytes) + |data|) % U32_LIMIT
      ensures old(good) && !(old(isOpen) && ioOk) ==>
                var kept := if old(isOpen) then data[..Min(landed, |data|)] else [];
                r == Fail(WriteFailed) && !good
                && Payload == old(Payload) + kept && file == old(file) + kept
                && dataBytes == old(dataBytes)
    {
      if !good {
        return Fail(StreamNotOpen);
      }
      if !isOpen || !ioOk {
        FailWith(if isOpen then data[..Min(landed, |data|)] else []);
        return Fail(WriteFailed);
      }
      Append(data);
      r := Pass;
    }

    /** A successful write: the bytes follow the file and are counted. */
    method Append(data: seq<byte>)
      requires Valid() && good && isOpen
      modifies this
      ensures Valid() && good && isOpen && finalized == old(finalized)
      ensures riffField == old(riffField) && dataField == old(dataField)
      ensures Payload == old(Payload) + data && file == old(file) + data
      ensures dataBytes == (old(dataBytes) + |data|) % U32_LIMIT
    {
      var count := (dataBytes + |data| % U32_LIMIT) % U32_LIMIT;
      CountAppended(dataBytes, |Payload|, |data|);
      assert file + data == WavHeader(formatBlob, riffField, dataField) + (Payload + data);
      file := file + data;
      Payload := Payload + data;
      dataBytes := count;
    }

    /** A failed write: what landed of it stays in the file, uncounted, and
        the stream is in the failed state. A closed file takes nothing. */
    method FailWith(kept: seq<byte>)
      requires Valid() && good && (!isOpen ==> kept == [])
      modifies this
      ensures Valid() && !good && isOpen == old(isOpen) && finalized == old(finalized)
      ensures riffField == old(riffField) && dataField == old(dataField)
      ensures Payload == old(Payload) + kept && file == old(file) + kept && dataBytes == old(dataBytes)
    {
      file := file + kept;
      Payload := Payload + kept;
      good := false;
    }

    /** A stream in a failed state is left alone; flushing a file already
        closed does nothing. */
    method Flush(ioOk: bool) returns (r: Outcome<WavError>)
      requires Valid()
      modifies this
      ensures Valid()
      ensures file == old(file) && Payload == old(Payload) && dataBytes == old(dataBytes)
      ensures finalized == old(finalized) && isOpen == old(isOpen)
      ensures riffField == old(riffField) && dataField == old(dataField)
      ensures r.Fail? <==> old(good) && old(isOpen) && !ioOk
      ensures r.Fail? ==> r.error == FlushFailed && !good
      ensures r.Pass? ==> good == old(good)
    {
      if !good {
        return Pass;
      }
      if isOpen && !ioOk {
        good := false;
        return Fail(FlushFailed);
      }
      r := Pass;
    }

    /** Patches both size fields and closes the file, once. A stream in a
        failed state is not touched, but the writer still counts as
        finalised. The patch is not checked: as far as it gets, the fields
        are patched, and the file is closed either way. */
    method Close(patch: PatchOutcome)
      requires Valid()
      modifies this
      ensures Valid()
      ensures finalized
      ensures Payload == old(Payload) && dataBytes == old(dataBytes)
      ensures old(finalized) || !old(good) ==>
                file == old(file) && isOpen == old(isOpen) && good == old(good)
                && riffField == old(riffField) && dataField == old(dataField)
      ensures !old(finalized) && old(good) ==>
                && !isOpen && (good <==> patch == Patched)
                && riffField == (if patch == NotPatched then 0 else RiffSize(|formatBlob|, dataBytes))
                && dataField == (if patch == Patched then dataBytes else 0)
                && file == WavHeader(formatBlob, riffField, dataField) + Payload
    {
      if finalized {
        return;
      }
      if good {
        FinalizeHeader(patch);
        isOpen := false;
      }
      finalized := true;
    }

    /** The two seekp + write pairs; a failed one fails the stream, which
        makes the rest do nothing. */
    method FinalizeHeader(patch: PatchOutcome)
      requires Valid() && isOpen && good
      modifies this
      ensures Payload == old(Payload) && dataBytes == old(dataBytes)
      ensures riffField == (if patch == NotPatched then 0 else RiffSize(|formatBlob|, dataBytes))
      ensures dataField == (if patch == Patched then dataBytes else 0)
      ensures file == WavHeader(formatBlob, riffField, dataField) + Payload
      ensures (good <==> patch == Patched) && isOpen == old(isOpen) && finalized == old(finalized)
    {
      var riffSize := RiffSize(|formatBlob|, dataBytes);
      if patch == NotPatched {
        good := false;
        return;
      }
      PatchRiffSize(formatBlob, Payload, riffSize);
      file := PatchField(file, RIFF_SIZE_OFFSET, riffSize);
      riffField := riffSize;
      if patch == RiffSizeOnly {
        good := false;
        return;
      }
      PatchDataSize(formatBlob, Payload, riffSize, dataBytes);
      file := PatchField(file, DataSizeOffset(|formatBlob|), dataBytes);
      dataField := dataBytes;
    }
  }

  /** Opening the output: a file that cannot be opened is an error, and no
      writer exists. */
  method OpenWavWriter(block: FormatBlock, openOk: bool) returns (r: Result<WavWriter, WavError>)
    requires block.WellFormed()
    ensures r.Err? <==> !openOk
    ensures r.Err? ==> r.error == OpenFailed
    ensures r.Ok? ==>
              && fresh(r.value) && r.value.Valid() && r.value.good && r.value.isOpen
              && !r.value.finalized && r.value.Payload == []
              && r.value.file == WavHeader(FormatBlob(block), 0, 0)
              && r.value.formatBlob == FormatBlob(block) && r.value.dataBytes == 0
  {
    if !openOk {
      return Err(OpenFailed);
    }
    var w := new WavWriter(block);
    r := Ok(w);
  }
}
