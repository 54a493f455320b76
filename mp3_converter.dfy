/** The WAV-to-MP3 side of the recorder (Mp3Converter): the chunk walker
    that reads a WAV file back, the 16-bit PCM sample conversion that feeds
    the encoder, the encoder settings, and the live MP3 stream writer's
    carry-over buffer of partial frames.

    The file being parsed is a byte sequence and the stream position an
    index into it that may move past the end (seeking past the end of a file
    succeeds; the next read fails). The LAME encoder is not modelled: the
    stream writer records the frame-aligned blocks it hands to the sample
    conversion and the encoder, in order. */
module Mp3Converter {
  import opened Common
  import opened WaveFormat
  import Wav

  // ---------------------------------------------------------------------
  // ParseWav
  // ---------------------------------------------------------------------

  datatype ParseError =
    | TruncatedRead      // a required read ran past the end of the file
    | NotRiffWave        // the file does not start with RIFF....WAVE
    | FmtTooSmall        // the fmt chunk is shorter than a WAVEFORMATEX
    | MissingChunk       // no fmt chunk or no data chunk before the end
    | UnsupportedFormat  // zero channels or a zero sample rate
    | NoAudioData        // the data chunk is empty

  datatype DataChunk = DataChunk(offset: nat, size: nat)

  datatype WavMetadata = WavMetadata(format: WaveFormatEx, dataOffset: nat, dataSize: nat)

  const RIFF_HEADER_SIZE: nat := 12
  const CHUNK_HEADER_SIZE: nat := 8

  /** A read of `n` bytes at `pos` that must not come up short. */
  function ReadBytes(b: seq<byte>, pos: nat, n: nat): (r: Result<seq<byte>, ParseError>)
    ensures r.Ok? <==> pos + n <= |b|
    ensures r.Ok? ==> |r.value| == n && r.value == b[pos..pos + n]
    ensures r.Err? ==> r.error == TruncatedRead
  {
    if pos + n <= |b| then Ok(b[pos..pos + n]) else Err(TruncatedRead)
  }

  /** Where the next chunk starts: after the body and, for an odd size, one
      pad byte. */
  function NextChunk(body: nat, size: nat): (next: nat)
    ensures next >= body + size && next - (body + size) == size % 2
  {
    body + size + size % 2
  }

  /** The remaining work of the chunk loop, for termination: positions past
      the end all count as finished. */
  function Remaining(b: seq<byte>, pos: nat): nat
  {
    |b| + 1 - Min(pos, |b| + 1)
  }

  /** The outcome of one turn of the chunk loop. */
  datatype Step =
    | Next(pos: nat, fmt: Option<WaveFormatEx>, data: Option<DataChunk>)
    | Stop                       // the chunk header could not be read
    | Abort(error: ParseError)

  /** One turn of the chunk loop at `pos`: read a chunk header, then take in
      a `fmt ` body, note a `data` chunk, or skip anything else. */
  function ChunkStep(b: seq<byte>, pos: nat, fmt: Option<WaveFormatEx>, data: Option<DataChunk>)
    : (s: Step)
    ensures s.Stop? <==> pos + CHUNK_HEADER_SIZE > |b|
    ensures s.Next? ==> s.pos >= pos + CHUNK_HEADER_SIZE
  {
    if pos + CHUNK_HEADER_SIZE > |b| then Stop
    else
      var id := b[pos..pos + 4];
      var size := LeValue(b[pos + 4..pos + 8]);
      var body := pos + CHUNK_HEADER_SIZE;
      if id == FMT_ID then
        if body + size > |b| then Abort(TruncatedRead)
        else if size < WAVEFORMATEX_SIZE then Abort(FmtTooSmall)
        else Next(NextChunk(body, size), Some(FormatFromChunk(b[body..body + size])), data)
      else if id == DATA_ID then
        Next(NextChunk(body, size), fmt, Some(DataChunk(body, size)))
      else
        Next(NextChunk(body, size), fmt, data)
  }

  /** The chunk loop from `pos` on, having found `fmt` and `data` so far: it
      stops once both are found or when a chunk header cannot be read. */
  function Walk(b: seq<byte>, pos: nat, fmt: Option<WaveFormatEx>, data: Option<DataChunk>)
    : Result<(Option<WaveFormatEx>, Option<DataChunk>), ParseError>
    decreases Remaining(b, pos)
  {
    if fmt.Some? && data.Some? then Ok((fmt, data))
    else
      match ChunkStep(b, pos, fmt, data)
      case Stop => Ok((fmt, data))
      case Abort(e) => Err(e)
      case Next(p, f, d) => Walk(b, p, f, d)
  }

  /** The checks after the chunk loop, in the source's order. */
  function Finish(fmt: Option<WaveFormatEx>, data: Option<DataChunk>): (r: Result<WavMetadata, ParseError>)
    ensures r.Ok? <==> fmt.Some? && data.Some? && fmt.value.channels != 0
                       && fmt.value.samplesPerSec != 0 && data.value.size != 0
    ensures (fmt.None? || data.None?) ==> r == Err(MissingChunk)
    ensures r.Ok? ==> r.value == WavMetadata(fmt.value, data.value.offset, data.value.size)
  {
    if fmt.None? || data.None? then Err(MissingChunk)
    else if fmt.value.channels == 0 || fmt.value.samplesPerSec == 0 then Err(UnsupportedFormat)
    else if data.value.size == 0 then Err(NoAudioData)
    else Ok(WavMetadata(fmt.value, data.value.offset, data.value.size))
  }

  /** A data chunk header really sits just before `d.offset`. */
  predicate DataHeaderBefore(b: seq<byte>, d: DataChunk)
  {
    && CHUNK_HEADER_SIZE <= d.offset <= |b|
    && b[d.offset - 8..d.offset - 4] == DATA_ID
    && LeValue(b[d.offset - 4..d.offset]) == d.size
  }

  /** What ParseWav yields for a whole file. */
  function WavSpec(b: seq<byte>): (r: Result<WavMetadata, ParseError>)
    ensures |b| < RIFF_HEADER_SIZE ==> r == Err(TruncatedRead)
    ensures (|b| >= RIFF_HEADER_SIZE && (b[0..4] != RIFF_ID || b[8..12] != WAVE_ID))
              ==> r == Err(NotRiffWave)
    ensures r.Ok? ==>
              && r.value.format.WellFormed()
              && r.value.format.channels != 0 && r.value.format.samplesPerSec != 0
              && r.value.dataSize != 0
              && DataHeaderBefore(b, DataChunk(r.value.dataOffset, r.value.dataSize))
  {
    if |b| < RIFF_HEADER_SIZE then Err(TruncatedRead)
    else if b[0..4] != RIFF_ID || b[8..12] != WAVE_ID then Err(NotRiffWave)
    else
      var w := Walk(b, RIFF_HEADER_SIZE, None, None);
      WalkFindsDataHeader(b, RIFF_HEADER_SIZE, None, None);
      if w.Err? then Err(w.error) else Finish(w.value.0, w.value.1)
  }

  /** A step that notes a data chunk notes one whose header is in the file,
      and a format it takes in has fields that fit their C types. */
  lemma StepFindsDataHeader(b: seq<byte>, pos: nat, fmt: Option<WaveFormatEx>, data: Option<DataChunk>)
    requires data.Some? ==> DataHeaderBefore(b, data.value)
    requires fmt.Some? ==> fmt.value.WellFormed()
    ensures var s := ChunkStep(b, pos, fmt, data);
      && (s.Next? && s.data.Some? ==> DataHeaderBefore(b, s.data.value))
      && (s.Next? && s.fmt.Some? ==> s.fmt.value.WellFormed())
  {
    if pos + CHUNK_HEADER_SIZE <= |b| {
      var body := pos + CHUNK_HEADER_SIZE;
      assert b[body - 8..body - 4] == b[pos..pos + 4];
      assert b[body - 4..body] == b[pos + 4..pos + 8];
    }
  }

  /** The data chunk the walk reports is one whose header is in the file,
      and the format it reports is well formed. */
  lemma {:induction false} WalkFindsDataHeader(b: seq<byte>, pos: nat, fmt: Option<WaveFormatEx>,
                                               data: Option<DataChunk>)
    requires data.Some? ==> DataHeaderBefore(b, data.value)
    requires fmt.Some? ==> fmt.value.WellFormed()
    ensures var w := Walk(b, pos, fmt, data);
      && (w.Ok? && w.value.1.Some? ==> DataHeaderBefore(b, w.value.1.value))
      && (w.Ok? && w.value.0.Some? ==> w.value.0.value.WellFormed())
    decreases Remaining(b, pos)
  {
    if fmt.None? || data.None? {
      var s := ChunkStep(b, pos, fmt, data);
      if s.Next? {
        StepFindsDataHeader(b, pos, fmt, data);
        WalkFindsDataHeader(b, s.pos, s.fmt, s.data);
      }
    }
  }

  /** One unfolding of the walk while a chunk is still missing. */
  lemma WalkUnfold(b: seq<byte>, pos: nat, fmt: Option<WaveFormatEx>, data: Option<DataChunk>)
    requires fmt.None? || data.None?
    ensures var s := ChunkStep(b, pos, fmt, data);
      Walk(b, pos, fmt, data) ==
        match s
        case Stop => Ok((fmt, data))
        case Abort(e) => Err(e)
        case Next(p, f, d) => Walk(b, p, f, d)
  {
  }

  /** One turn of ParseWav's chunk loop: read the chunk header at `pos`,
      then read a `fmt ` body, note a `data` chunk or skip the chunk. */
  method ReadChunk(b: seq<byte>, pos: nat, fmt: Option<WaveFormatEx>, data: Option<DataChunk>)
    returns (s: Step)
    ensures s == ChunkStep(b, pos, fmt, data)
  {
    var header := ReadBytes(b, pos, CHUNK_HEADER_SIZE);
    if header.Err? {
      return Stop;
    }
    var id := header.value[0..4];
    var size := LeValue(header.value[4..8]);
    var body := pos + CHUNK_HEADER_SIZE;
    assert id == b[pos..pos + 4] && header.value[4..8] == b[pos + 4..pos + 8];
    if id == FMT_ID {
      var buffer := ReadBytes(b, body, size);
      if buffer.Err? {
        return Abort(buffer.error);
      }
      if size < WAVEFORMATEX_SIZE {
        return Abort(FmtTooSmall);
      }
      s := Next(NextChunk(body, size), Some(FormatFromChunk(buffer.value)), data);
    } else if id == DATA_ID {
      s := Next(NextChunk(body, size), fmt, Some(DataChunk(body, size)));
    } else {
      s := Next(NextChunk(body, size), fmt, data);
    }
  }

  /** ParseWav: reads the RIFF header, then walks the chunks with a moving
      stream position until both `fmt ` and `data` are found or a chunk
      header cannot be read. */
  method ParseWav(b: seq<byte>) returns (r: Result<WavMetadata, ParseError>)
    ensures r == WavSpec(b)
  {
    var riff := ReadBytes(b, 0, RIFF_HEADER_SIZE);
    if riff.Err? {
      return Err(riff.error);
    }
    if riff.value[0..4] != RIFF_ID || riff.value[8..12] != WAVE_ID {
      return Err(NotRiffWave);
    }
    var pos: nat := RIFF_HEADER_SIZE;
    var fmt: Option<WaveFormatEx> := None;
    var data: Option<DataChunk> := None;
    while fmt.None? || data.None?
      invariant Walk(b, pos, fmt, data) == Walk(b, RIFF_HEADER_SIZE, None, None)
      decreases Remaining(b, pos)
    {
      WalkUnfold(b, pos, fmt, data);
      var step := ReadChunk(b, pos, fmt, data);
      match step {
        case Stop =>
          break;
        case Abort(e) =>
          return Err(e);
        case Next(p, f, d) =>
          pos, fmt, data := p, f, d;
      }
    }
    r := Finish(fmt, data);
  }

  // ---------------------------------------------------------------------
  // Reading back what the WAV writer produced
  // ---------------------------------------------------------------------

  /** The turn of the chunk loop at a chunk whose header is `id`, `size`. */
  lemma StepAt(b: seq<byte>, pos: nat, id: seq<byte>, size: nat, fmt: Option<WaveFormatEx>,
               data: Option<DataChunk>)
    requires IsU32(size) && pos + CHUNK_HEADER_SIZE <= |b|
    requires b[pos..pos + 4] == id && b[pos + 4..pos + 8] == LE32(size)
    ensures id == DATA_ID ==>
              ChunkStep(b, pos, fmt, data) == Next(NextChunk(pos + 8, size), fmt, Some(DataChunk(pos + 8, size)))
    ensures id == FMT_ID && pos + 8 + size <= |b| && size >= WAVEFORMATEX_SIZE ==>
              ChunkStep(b, pos, fmt, data)
                == Next(NextChunk(pos + 8, size), Some(FormatFromChunk(b[pos + 8..pos + 8 + size])), data)
    ensures id == FMT_ID && pos + 8 + size > |b| ==> ChunkStep(b, pos, fmt, data) == Abort(TruncatedRead)
    ensures id == FMT_ID && pos + 8 + size <= |b| && size < WAVEFORMATEX_SIZE ==>
              ChunkStep(b, pos, fmt, data) == Abort(FmtTooSmall)
  {
    LE32RoundTrip(size);
  }

  /** A chunk header with identifier `id` and size `size` at `pos`. */
  predicate ChunkHeaderAt(b: seq<byte>, pos: nat, id: seq<byte>, size: nat)
  {
    && pos + CHUNK_HEADER_SIZE <= |b|
    && b[pos..pos + 4] == id && LeValue(b[pos + 4..pos + 8]) == size
  }

  /** The walk over a file whose first chunk is an even-sized `fmt ` chunk
      and whose second is a `data` chunk header. */
  lemma WalkFmtThenData(b: seq<byte>, n: nat, dataSize: nat)
    requires n % 2 == 0 && n >= WAVEFORMATEX_SIZE && |b| >= 20 + n
    requires ChunkHeaderAt(b, 12, FMT_ID, n) && ChunkHeaderAt(b, 20 + n, DATA_ID, dataSize)
    ensures Walk(b, RIFF_HEADER_SIZE, None, None)
              == Ok((Some(FormatFromChunk(b[20..20 + n])), Some(DataChunk(28 + n, dataSize))))
  {
    var f := Some(FormatFromChunk(b[20..20 + n]));
    WalkPastFmt(b, n);
    WalkAtData(b, 20 + n, dataSize, f);
  }

  /** The walk takes in a first `fmt ` chunk of even size and goes on right
      behind it. */
  lemma WalkPastFmt(b: seq<byte>, n: nat)
    requires n % 2 == 0 && n >= WAVEFORMATEX_SIZE && |b| >= 20 + n
    requires ChunkHeaderAt(b, 12, FMT_ID, n)
    ensures Walk(b, RIFF_HEADER_SIZE, None, None) == Walk(b, 20 + n, Some(FormatFromChunk(b[20..20 + n])), None)
  {
    FmtWalk(b, 12, n);
  }

  /** The walk goes on right behind a whole first `fmt ` chunk. */
  lemma FmtWalk(b: seq<byte>, pos: nat, size: nat)
    requires size >= WAVEFORMATEX_SIZE && pos + CHUNK_HEADER_SIZE + size <= |b|
    requires ChunkHeaderAt(b, pos, FMT_ID, size)
    ensures Walk(b, pos, None, None)
              == Walk(b, NextChunk(pos + 8, size), Some(FormatFromChunk(b[pos + 8..pos + 8 + size])), None)
  {
    FmtStepAt(b, pos, size);
    WalkUnfold(b, pos, None, None);
  }

  /** With the format known, the walk ends at a `data` chunk header. */
  lemma WalkAtData(b: seq<byte>, pos: nat, dataSize: nat, f: Option<WaveFormatEx>)
    requires f.Some? && ChunkHeaderAt(b, pos, DATA_ID, dataSize)
    ensures Walk(b, pos, f, None) == Ok((f, Some(DataChunk(pos + 8, dataSize))))
  {
    DataStepAt(b, pos, dataSize, f);
    WalkUnfold(b, pos, f, None);
  }

  /** The chunk loop at a whole `fmt ` chunk of at least 18 bytes. */
  lemma FmtStepAt(b: seq<byte>, pos: nat, size: nat)
    requires size >= WAVEFORMATEX_SIZE && pos + CHUNK_HEADER_SIZE + size <= |b|
    requires ChunkHeaderAt(b, pos, FMT_ID, size)
    ensures ChunkStep(b, pos, None, None)
              == Next(NextChunk(pos + 8, size), Some(FormatFromChunk(b[pos + 8..pos + 8 + size])), None)
  {
  }

  /** The chunk loop at a `data` chunk header, once the format is known. */
  lemma DataStepAt(b: seq<byte>, pos: nat, size: nat, fmt: Option<WaveFormatEx>)
    requires ChunkHeaderAt(b, pos, DATA_ID, size)
    ensures ChunkStep(b, pos, fmt, None) == Next(NextChunk(pos + 8, size), fmt, Some(DataChunk(pos + 8, size)))
  {
    assert DATA_ID[0] != FMT_ID[0];
  }

  /** Where the WAV writer's header puts the RIFF and WAVE tags, the blob
      and the two chunk headers. */
  lemma HeaderChunks(blob: seq<byte>, riffSize: nat, dataSize: nat, rest: seq<byte>)
    requires IsU32(|blob|) && IsU32(riffSize) && IsU32(dataSize)
    ensures var b := Wav.WavHeader(blob, riffSize, dataSize) + rest;
      && |b| >= 28 + |blob|
      && b[0..4] == RIFF_ID && b[8..12] == WAVE_ID && b[20..20 + |blob|] == blob
      && ChunkHeaderAt(b, 12, FMT_ID, |blob|) && ChunkHeaderAt(b, 20 + |blob|, DATA_ID, dataSize)
  {
    Wav.HeaderLayout(blob, riffSize, dataSize, rest);
    LE32RoundTrip(|blob|);
    LE32RoundTrip(dataSize);
  }

  /** The header the WAV writer puts in front of a format blob of even
      size parses to the blob's format and to the data chunk right behind
      the header, whatever follows. */
  lemma HeaderBytesParse(blob: seq<byte>, riffSize: nat, dataSize: nat, rest: seq<byte>)
    requires IsU32(|blob|) && |blob| % 2 == 0 && |blob| >= WAVEFORMATEX_SIZE
    requires IsU32(riffSize) && IsU32(dataSize)
    ensures WavSpec(Wav.WavHeader(blob, riffSize, dataSize) + rest)
              == Finish(Some(FormatFromChunk(blob)), Some(DataChunk(28 + |blob|, dataSize)))
  {
    var b := Wav.WavHeader(blob, riffSize, dataSize) + rest;
    HeaderChunks(blob, riffSize, dataSize, rest);
    WalkFmtThenData(b, |blob|, dataSize);
    WavSpecOfWalk(b, Some(FormatFromChunk(blob)), Some(DataChunk(28 + |blob|, dataSize)));
  }

  /** A file with the RIFF and WAVE tags whose chunk walk succeeds parses
      as the checks after the walk say. */
  lemma WavSpecOfWalk(b: seq<byte>, fmt: Option<WaveFormatEx>, data: Option<DataChunk>)
    requires |b| >= RIFF_HEADER_SIZE && b[0..4] == RIFF_ID && b[8..12] == WAVE_ID
    requires Walk(b, RIFF_HEADER_SIZE, None, None) == Ok((fmt, data))
    ensures WavSpec(b) == Finish(fmt, data)
  {
  }

  /** A file that starts with a WAV writer's header parses to the blob's
      format and to the data chunk right behind the header, whatever
      follows, as long as the `fmt ` chunk has an even size. The RIFF size
      is ignored and the samples are not read. */
  lemma ParseWriterHeader(block: FormatBlock, riffSize: nat, dataSize: nat, rest: seq<byte>)
    requires block.WellFormed() && block.header.cbSize % 2 == 0
    requires IsU32(riffSize) && IsU32(dataSize)
    ensures var blob := FormatBlob(block);
      WavSpec(Wav.WavHeader(blob, riffSize, dataSize) + rest)
        == Finish(Some(NormalizedFormat(block.header, block.tail[..block.header.cbSize])),
                  Some(DataChunk(28 + |blob|, dataSize)))
  {
    var blob := FormatBlob(block);
    HeaderBytesParse(blob, riffSize, dataSize, rest);
    FormatFromBlob(block);
  }

  /** A finished recording reads back with the recorded format, its data
      right after the header and its full length. */
  lemma ParseFinalizedWav(block: FormatBlock, payload: seq<byte>)
    requires block.WellFormed() && block.header.cbSize % 2 == 0
    requires block.header.channels != 0 && block.header.samplesPerSec != 0
    requires 0 < |payload| < U32_LIMIT
    ensures var blob := FormatBlob(block);
      WavSpec(Wav.WavHeader(blob, Wav.RiffSize(|blob|, |payload|), |payload|) + payload)
        == Ok(WavMetadata(NormalizedFormat(block.header, block.tail[..block.header.cbSize]),
                          Wav.HeaderSize(|blob|), |payload|))
  {
    ParseWriterHeader(block, Wav.RiffSize(|FormatBlob(block)|, |payload|), |payload|, payload);
  }

  /** A recording whose data size field was never patched (the writer was
      not closed, or its patch failed) still has zero there, and reading it
      back fails for want of audio data, whatever the RIFF size. */
  lemma ParseUnfinalizedWav(block: FormatBlock, riffSize: nat, payload: seq<byte>)
    requires block.WellFormed() && block.header.cbSize % 2 == 0
    requires block.header.channels != 0 && block.header.samplesPerSec != 0
    requires IsU32(riffSize)
    ensures WavSpec(Wav.WavHeader(FormatBlob(block), riffSize, 0) + payload) == Err(NoAudioData)
  {
    ParseWriterHeader(block, riffSize, 0, payload);
  }

  /** A first `fmt ` chunk that is cut short is a truncated read; one that is
      whole but smaller than a WAVEFORMATEX is too small. */
  lemma ParseShortFmt(riffSize: nat, size: nat, rest: seq<byte>)
    requires IsU32(riffSize) && IsU32(size)
    ensures var b := RIFF_ID + LE32(riffSize) + WAVE_ID + FMT_ID + LE32(size) + rest;
      && (|rest| < size ==> WavSpec(b) == Err(TruncatedRead))
      && (size <= |rest| && size < WAVEFORMATEX_SIZE ==> WavSpec(b) == Err(FmtTooSmall))
  {
    var b := RIFF_ID + LE32(riffSize) + WAVE_ID + FMT_ID + LE32(size) + rest;
    assert b[0..4] == RIFF_ID && b[8..12] == WAVE_ID;
    assert b[12..16] == FMT_ID && b[16..20] == LE32(size);
    StepAt(b, 12, FMT_ID, size, None, None);
  }

  /** A file with a RIFF header and nothing after it lacks both chunks. */
  lemma ParseEmptyRiff(riffSize: nat)
    requires IsU32(riffSize)
    ensures WavSpec(RIFF_ID + LE32(riffSize) + WAVE_ID) == Err(MissingChunk)
  {
    var b := RIFF_ID + LE32(riffSize) + WAVE_ID;
    assert b[0..4] == RIFF_ID && b[8..12] == WAVE_ID;
  }

  /** Any chunk other than `fmt ` and `data` is skipped by its declared size
      plus the pad byte of an odd size, whatever its contents. */
  lemma SkipUnknownChunk(b: seq<byte>, pos: nat, fmt: Option<WaveFormatEx>, data: Option<DataChunk>)
    requires fmt.None? || data.None?
    requires pos + CHUNK_HEADER_SIZE <= |b|
    requires b[pos..pos + 4] != FMT_ID && b[pos..pos + 4] != DATA_ID
    ensures var size := LeValue(b[pos + 4..pos + 8]);
      Walk(b, pos, fmt, data) == Walk(b, pos + 8 + size + size % 2, fmt, data)
  {
  }

  // ---------------------------------------------------------------------
  // Samples
  // ---------------------------------------------------------------------

  const INT16_MIN: int := -32768
  const INT16_MAX: int := 32767

  predicate IsInt16(x: int) { INT16_MIN <= x <= INT16_MAX }

  predicate AllInt16(s: seq<int>) { forall i :: 0 <= i < |s| ==> IsInt16(s[i]) }

  /** Saturates a 32-bit value to the 16-bit sample range. */
  function ClampToInt16(value: int): (r: int)
    ensures IsInt16(r)
    ensures IsInt16(value) ==> r == value
    ensures value > INT16_MAX ==> r == INT16_MAX
    ensures value < INT16_MIN ==> r == INT16_MIN
  {
    if value > INT16_MAX then INT16_MAX
    else if value < INT16_MIN then INT16_MIN
    else value
  }

  /** How ConvertSamples treats a format. */
  datatype SampleKind = Pcm16 | Float32 | UnsupportedSamples

  function SampleKindOf(f: WaveFormatEx): (k: SampleKind)
    ensures k == Pcm16 <==> f.formatTag == WAVE_FORMAT_PCM && f.bitsPerSample == 16
    ensures k == Float32 <==> f.formatTag == WAVE_FORMAT_IEEE_FLOAT && f.bitsPerSample == 32
  {
    if f.formatTag == WAVE_FORMAT_PCM && f.bitsPerSample == 16 then Pcm16
    else if f.formatTag == WAVE_FORMAT_IEEE_FLOAT && f.bitsPerSample == 32 then Float32
    else UnsupportedSamples
  }

  /** The sum of a frame's first samples, in order. */
  function Sum(s: seq<int>): int
  {
    if s == [] then 0 else Sum(s[..|s| - 1]) + s[|s| - 1]
  }

  /** The sum of the samples at even (parity 0) or odd (parity 1) channel
      positions. */
  function ParitySum(s: seq<int>, parity: nat): int
  {
    if s == [] then 0
    else ParitySum(s[..|s| - 1], parity) + (if (|s| - 1) % 2 == parity then s[|s| - 1] else 0)
  }

  /** How many of the first n channel positions have the given parity. */
  function ParityCount(n: nat, parity: nat): nat
  {
    if n == 0 then 0 else ParityCount(n - 1, parity) + (if (n - 1) % 2 == parity then 1 else 0)
  }

  /** One frame of `src` samples mixed down to `tgt` channels. */
  function MixFrame(f: seq<int>, tgt: nat): (out: seq<int>)
    requires |f| >= 1 && (tgt == 1 || tgt == 2)
    ensures |out| == tgt
  {
    if tgt == 1 then [MonoMix(f)] else [StereoMix(f).0, StereoMix(f).1]
  }

  /** A channel mean as the mix computes it: truncated, then clamped. */
  function Mean(sum: int, count: nat): int
    requires count >= 1
  {
    ClampToInt16(TruncDiv(sum, count))
  }

  /** The mono output: the mean of all channels. */
  function MonoMix(f: seq<int>): int
    requires |f| >= 1
  {
    Mean(Sum(f), |f|)
  }

  /** The stereo output: the mean of the even channels on the left and of
      the odd channels on the right; with a single channel the right side
      takes the left side's sum and count. */
  function StereoMix(f: seq<int>): (int, int)
    requires |f| >= 1
  {
    ParityCountPositive(|f|);
    var l, lc := ParitySum(f, 0), ParityCount(|f|, 0);
    if ParityCount(|f|, 1) == 0 then (Mean(l, lc), Mean(l, lc))
    else (Mean(l, lc), Mean(ParitySum(f, 1), ParityCount(|f|, 1)))
  }

  lemma {:induction false} ParityCountPositive(n: nat)
    requires n >= 1
    ensures ParityCount(n, 0) >= 1
  {
    if n > 1 {
      ParityCountPositive(n - 1);
    }
  }

  /** Even positions are the first half rounded up, odd ones the rest. */
  lemma {:induction false} ParityCountHalves(n: nat)
    ensures ParityCount(n, 1) == n / 2 && ParityCount(n, 0) == n - n / 2
  {
    if n > 0 {
      ParityCountHalves(n - 1);
    }
  }

  /** The frames of `samples`, each converted to `tgt` channels: copied when
      the counts agree, mixed otherwise. */
  function Converted(samples: seq<int>, frames: nat, src: nat, tgt: nat): (out: seq<int>)
    requires src >= 1 && (src == tgt || tgt == 1 || tgt == 2)
    requires |samples| >= frames * src
    ensures |out| == frames * tgt
  {
    if frames == 0 then []
    else
      MulMonotone(frames - 1, frames, src);
      Converted(samples, frames - 1, src, tgt) + ConvertedFrame(samples, frames - 1, src, tgt)
  }

  function ConvertedFrame(samples: seq<int>, frame: nat, src: nat, tgt: nat): (out: seq<int>)
    requires src >= 1 && (src == tgt || tgt == 1 || tgt == 2)
    requires |samples| >= (frame + 1) * src
    ensures |out| == tgt
  {
    var f := samples[frame * src..(frame + 1) * src];
    if src == tgt then f else MixFrame(f, tgt)
  }

  lemma MulMonotone(a: nat, b: nat, c: nat)
    requires a <= b
    ensures a * c <= b * c
  {
  }

  /** ConvertSamples for 16-bit PCM: a straight copy when the channel counts
      agree, otherwise a per-frame mix with 32-bit accumulators. */
  method ConvertPcm16(samples: seq<int>, frames: nat, src: nat, tgt: nat) returns (dest: seq<int>)
    requires src >= 1 && (src == tgt || tgt == 1 || tgt == 2)
    requires |samples| >= frames * src
    requires src < U16_LIMIT && AllInt16(samples)
    ensures dest == Converted(samples, frames, src, tgt)
  {
    if src == tgt {
      dest := samples[..frames * tgt];
      CopyConverted(samples, frames, src);
      return;
    }
    dest := MixFrames(samples, frames, src, tgt);
  }

  /** The frame loop of ConvertSamples when the channel counts differ. */
  method MixFrames(samples: seq<int>, frames: nat, src: nat, tgt: nat) returns (dest: seq<int>)
    requires src >= 1 && (src == tgt || tgt == 1 || tgt == 2) && src != tgt
    requires |samples| >= frames * src
    requires src < U16_LIMIT && AllInt16(samples)
    ensures dest == Converted(samples, frames, src, tgt)
  {
    dest := [];
    var frame := 0;
    while frame < frames
      invariant frame <= frames && frame * src <= |samples|
      invariant dest == Converted(samples, frame, src, tgt)
    {
      dest := MixNext(samples, frame, frames, src, tgt, dest);
      frame := frame + 1;
    }
  }

  /** One turn of the frame loop: mix frame `frame` and append it. */
  method MixNext(samples: seq<int>, frame: nat, frames: nat, src: nat, tgt: nat, dest: seq<int>)
    returns (dest': seq<int>)
    requires src >= 1 && (tgt == 1 || tgt == 2) && src != tgt
    requires frame < frames && |samples| >= frames * src
    requires src < U16_LIMIT && AllInt16(samples)
    requires frame * src <= |samples| && dest == Converted(samples, frame, src, tgt)
    ensures (frame + 1) * src <= |samples| && dest' == Converted(samples, frame + 1, src, tgt)
  {
    var offset := frame * src;
    FrameInBounds(samples, frame, frames, src);
    var f := samples[offset..offset + src];
    ConvertedNext(samples, frame, src, tgt);
    if tgt == 1 {
      var mono := MixMono(f);
      dest' := dest + [mono];
    } else {
      var left, right := MixStereo(f);
      dest' := dest + [left, right];
    }
  }

  /** Frame `frame` of `frames` lies inside the samples and holds 16-bit
      values. */
  lemma FrameInBounds(samples: seq<int>, frame: nat, frames: nat, src: nat)
    requires frame < frames && |samples| >= frames * src && AllInt16(samples)
    ensures frame * src + src == (frame + 1) * src <= |samples|
    ensures AllInt16(samples[frame * src..frame * src + src])
  {
    MulMonotone(frame + 1, frames, src);
  }

  lemma ConvertedNext(samples: seq<int>, frame: nat, src: nat, tgt: nat)
    requires src >= 1 && (src == tgt || tgt == 1 || tgt == 2) && src != tgt
    requires |samples| >= (frame + 1) * src
    ensures frame * src + src <= |samples|
    ensures Converted(samples, frame + 1, src, tgt)
              == Converted(samples, frame, src, tgt) + MixFrame(samples[frame * src..frame * src + src], tgt)
  {
    assert frame * src + src == (frame + 1) * src;
  }

  /** The mono branch of the frame loop: sum every channel in a 32-bit
      accumulator, then divide by the channel count. */
  method MixMono(f: seq<int>) returns (sample: int)
    requires 1 <= |f| < U16_LIMIT && AllInt16(f)
    ensures sample == MonoMix(f)
  {
    var acc := 0;
    var c := 0;
    while c < |f|
      invariant c <= |f|
      invariant acc == Sum(f[..c]) && IsInt32(acc)
    {
      assert f[..c + 1][..c] == f[..c];
      SumBound(f[..c + 1]);
      Int32Room(c + 1);
      acc := acc + f[c];
      c := c + 1;
    }
    assert f[..|f|] == f;
    sample := ClampToInt16(TruncDiv(acc, |f|));
  }

  /** The stereo branch of the frame loop: even channels feed the left
      accumulator and odd channels the right one; a side without channels
      takes the other side's sum and count. */
  method MixStereo(f: seq<int>) returns (left: int, right: int)
    requires 1 <= |f| < U16_LIMIT && AllInt16(f)
    ensures (left, right) == StereoMix(f)
  {
    var leftAcc, rightAcc := 0, 0;
    var leftCount, rightCount := 0, 0;
    var c := 0;
    while c < |f|
      invariant c <= |f|
      invariant leftAcc == ParitySum(f[..c], 0) && rightAcc == ParitySum(f[..c], 1)
      invariant leftCount == ParityCount(c, 0) && rightCount == ParityCount(c, 1)
      invariant IsInt32(leftAcc) && IsInt32(rightAcc)
    {
      ParityStep(f, c);
      if c % 2 == 0 {
        leftAcc := leftAcc + f[c];
        leftCount := leftCount + 1;
      } else {
        rightAcc := rightAcc + f[c];
        rightCount := rightCount + 1;
      }
      c := c + 1;
    }
    assert f[..|f|] == f;
    ParityCountPositive(|f|);
    if leftCount == 0 {
      leftAcc := rightAcc;
      leftCount := rightCount;
    }
    if rightCount == 0 {
      rightAcc := leftAcc;
      rightCount := leftCount;
    }
    left := ClampToInt16(TruncDiv(leftAcc, leftCount));
    right := ClampToInt16(TruncDiv(rightAcc, rightCount));
  }

  /** One more channel in the stereo mix's accumulators: it joins the sum
      and count of its parity, and both sums still fit 32 bits. */
  lemma ParityStep(f: seq<int>, c: nat)
    requires c < |f| < U16_LIMIT && AllInt16(f)
    ensures ParitySum(f[..c + 1], 0) == ParitySum(f[..c], 0) + (if c % 2 == 0 then f[c] else 0)
    ensures ParitySum(f[..c + 1], 1) == ParitySum(f[..c], 1) + (if c % 2 == 1 then f[c] else 0)
    ensures ParityCount(c + 1, 0) == ParityCount(c, 0) + (if c % 2 == 0 then 1 else 0)
    ensures ParityCount(c + 1, 1) == ParityCount(c, 1) + (if c % 2 == 1 then 1 else 0)
    ensures IsInt32(ParitySum(f[..c + 1], 0)) && IsInt32(ParitySum(f[..c + 1], 1))
  {
    assert f[..c + 1][..c] == f[..c];
    ParitySumBound(f[..c + 1], 0);
    ParitySumBound(f[..c + 1], 1);
    Int32Room(ParityCount(c + 1, 0));
    Int32Room(ParityCount(c + 1, 1));
  }

  /** n 16-bit samples, for any channel count a WAVEFORMATEX can hold, sum
      to a value that fits a 32-bit accumulator. */
  lemma Int32Room(n: nat)
    requires n < U16_LIMIT
    ensures IsInt32(INT16_MIN * n) && IsInt32(INT16_MAX * n)
  {
    MulMonotone(n, U16_LIMIT - 1, 32768);
  }

  /** With equal channel counts the conversion is the identity on the
      samples it covers. */
  lemma {:induction false} CopyConverted(samples: seq<int>, frames: nat, ch: nat)
    requires ch >= 1 && |samples| >= frames * ch
    ensures Converted(samples, frames, ch, ch) == samples[..frames * ch]
  {
    if frames > 0 {
      MulMonotone(frames - 1, frames, ch);
      CopyConverted(samples, frames - 1, ch);
      assert (frames - 1) * ch + ch == frames * ch;
      assert samples[..frames * ch]
               == samples[..(frames - 1) * ch] + samples[(frames - 1) * ch..frames * ch];
    }
  }

  /** A sum of n 16-bit samples stays within n times the sample range. */
  lemma {:induction false} SumBound(s: seq<int>)
    requires AllInt16(s)
    ensures INT16_MIN * |s| <= Sum(s) <= INT16_MAX * |s|
  {
    if s != [] {
      SumBound(s[..|s| - 1]);
    }
  }

  lemma {:induction false} ParitySumBound(s: seq<int>, parity: nat)
    requires AllInt16(s)
    ensures INT16_MIN * ParityCount(|s|, parity) <= ParitySum(s, parity)
              <= INT16_MAX * ParityCount(|s|, parity)
    ensures ParityCount(|s|, parity) <= |s|
  {
    if s != [] {
      ParitySumBound(s[..|s| - 1], parity);
    }
  }

  /** Truncated division by a positive count. */
  lemma DivAtMost(a: nat, k: nat, n: nat)
    requires n >= 1 && a <= k * n
    ensures a / n <= k
  {
    assert a == (a / n) * n + a % n;
    MulAtLeast(a / n - k, n);
    assert (a / n - k) * n == (a / n) * n - k * n;
  }

  /** The truncated mean of values that are each 16-bit is 16-bit. */
  lemma TruncDivInRange(x: int, n: nat)
    requires n >= 1 && INT16_MIN * n <= x <= INT16_MAX * n
    ensures IsInt16(TruncDiv(x, n))
  {
    if x >= 0 {
      DivAtMost(x, INT16_MAX, n);
    } else {
      DivAtMost(-x, -INT16_MIN, n);
    }
  }

  lemma TruncDivOfMultiple(v: int, n: nat)
    requires n >= 1
    ensures TruncDiv(v * n, n) == v
  {
    if v >= 0 {
      ModUnique(v * n, v, 0, n);
    } else {
      assert -(v * n) == (-v) * n;
      ModUnique((-v) * n, -v, 0, n);
    }
  }

  /** The down-mix never saturates: every mean of 16-bit samples is itself a
      16-bit value, so the clamp in the mix is the identity. A mono output is
      the truncated mean of all channels; with two or more channels a stereo
      output is the truncated means of the even and of the odd channels; a
      single channel is duplicated. */
  lemma MixNeverClamps(f: seq<int>)
    requires |f| >= 1 && AllInt16(f)
    ensures MonoMix(f) == TruncDiv(Sum(f), |f|)
    ensures |f| >= 2 ==>
      StereoMix(f) == (TruncDiv(ParitySum(f, 0), |f| - |f| / 2), TruncDiv(ParitySum(f, 1), |f| / 2))
    ensures |f| == 1 ==> StereoMix(f) == (f[0], f[0])
  {
    SumBound(f);
    TruncDivInRange(Sum(f), |f|);
    ParityCountPositive(|f|);
    ParityCountHalves(|f|);
    ParitySumBound(f, 0);
    ParitySumBound(f, 1);
    TruncDivInRange(ParitySum(f, 0), ParityCount(|f|, 0));
    if |f| >= 2 {
      TruncDivInRange(ParitySum(f, 1), ParityCount(|f|, 1));
    } else {
      assert f[..0] == [];
      assert ParitySum(f, 0) == f[0];
      TruncDivOfMultiple(f[0], 1);
    }
  }

  lemma {:induction false} SumOfConstant(f: seq<int>, v: int)
    requires forall i :: 0 <= i < |f| ==> f[i] == v
    ensures Sum(f) == |f| * v
    ensures ParitySum(f, 0) == ParityCount(|f|, 0) * v
    ensures ParitySum(f, 1) == ParityCount(|f|, 1) * v
  {
    PlainSumOfConstant(f, v);
    ParitySumOfConstant(f, v, 0);
    ParitySumOfConstant(f, v, 1);
  }

  lemma {:induction false} PlainSumOfConstant(f: seq<int>, v: int)
    requires forall i :: 0 <= i < |f| ==> f[i] == v
    ensures Sum(f) == |f| * v
  {
    if f != [] {
      var g := f[..|f| - 1];
      PlainSumOfConstant(g, v);
      assert Sum(f) == Sum(g) + v;
      assert |f| * v == |g| * v + v;
    }
  }

  lemma {:induction false} ParitySumOfConstant(f: seq<int>, v: int, parity: nat)
    requires forall i :: 0 <= i < |f| ==> f[i] == v
    ensures ParitySum(f, parity) == ParityCount(|f|, parity) * v
  {
    if f != [] {
      var g := f[..|f| - 1];
      ParitySumOfConstant(g, v, parity);
      var hit := if (|f| - 1) % 2 == parity then 1 else 0;
      assert ParitySum(f, parity) == ParitySum(g, parity) + hit * v;
      assert ParityCount(|f|, parity) * v == ParityCount(|g|, parity) * v + hit * v;
    }
  }

  /** A sound that is the same on every channel comes out of the mix
      unchanged, on one channel or on both. */
  lemma UniformFrameKept(f: seq<int>, v: int)
    requires |f| >= 1 && IsInt16(v)
    requires forall i :: 0 <= i < |f| ==> f[i] == v
    ensures MonoMix(f) == v
    ensures StereoMix(f) == (v, v)
  {
    SumOfConstant(f, v);
    MeanOfMultiple(v, |f|);
    UniformStereo(f, v);
  }

  lemma UniformStereo(f: seq<int>, v: int)
    requires |f| >= 1 && IsInt16(v)
    requires ParitySum(f, 0) == ParityCount(|f|, 0) * v
    requires ParitySum(f, 1) == ParityCount(|f|, 1) * v
    ensures StereoMix(f) == (v, v)
  {
    ParityCountPositive(|f|);
    MeanOfMultiple(v, ParityCount(|f|, 0));
    if ParityCount(|f|, 1) >= 1 {
      MeanOfMultiple(v, ParityCount(|f|, 1));
    }
  }

  lemma MeanOfMultiple(v: int, n: nat)
    requires n >= 1 && IsInt16(v)
    ensures Mean(n * v, n) == v
  {
    assert n * v == v * n;
    TruncDivOfMultiple(v, n);
  }

  // ---------------------------------------------------------------------
  // Encoder settings
  // ---------------------------------------------------------------------

  datatype Mp3Error =
    | InvalidBlockAlign   // a zero nBlockAlign
    | EncoderInitFailed   // lame_init or lame_init_params failed
    | OpenFailed          // the MP3 output could not be opened
    | StreamNotOpen       // Write on a stream in a failed state
    | FlushFailed         // the stream failed while flushing
    | SamplesRefused      // ConvertSamples met neither 16-bit PCM nor 32-bit float

  datatype LameMode = Stereo | Mono

  datatype EncoderSettings = EncoderSettings(
    format: WaveFormatEx,
    bytesPerFrame: nat,
    targetChannels: nat,
    bitrateKbps: nat,
    mode: LameMode)

  const MIN_BITRATE_KBPS: nat := 64
  const MAX_BITRATE_KBPS: nat := 320
  const DEFAULT_BITRATE_KBPS: nat := 192

  /** The encoder takes mono or stereo: more channels are mixed down to two. */
  function TargetChannels(channels: nat): (t: nat)
    ensures t <= 2 && t <= channels
    ensures channels >= 1 ==> t >= 1
    ensures channels <= 2 ==> t == channels
  {
    Min(channels, 2)
  }

  function Settings(f: WaveFormatEx, bitrateKbps: nat): (s: EncoderSettings)
    ensures s.format == f && s.bytesPerFrame == f.blockAlign
    ensures s.targetChannels == TargetChannels(f.channels)
    ensures MIN_BITRATE_KBPS <= s.bitrateKbps <= MAX_BITRATE_KBPS
    ensures MIN_BITRATE_KBPS <= bitrateKbps <= MAX_BITRATE_KBPS ==> s.bitrateKbps == bitrateKbps
    ensures s.mode == Mono <==> s.targetChannels == 1
  {
    var t := TargetChannels(f.channels);
    EncoderSettings(f, f.blockAlign, t,
                    Clamp(bitrateKbps, MIN_BITRATE_KBPS, MAX_BITRATE_KBPS),
                    if t == 1 then Mono else Stereo)
  }

  /** The settings of a file conversion, with its failures in the order the
      conversion meets them: the encoder, the output file, the block size. */
  function ConversionSettings(m: WavMetadata, bitrateKbps: nat, encoderOk: bool, openOk: bool)
    : (r: Result<EncoderSettings, Mp3Error>)
    ensures r.Ok? <==> encoderOk && openOk && m.format.blockAlign != 0
    ensures !encoderOk ==> r == Err(EncoderInitFailed)
    ensures encoderOk && !openOk ==> r == Err(OpenFailed)
    ensures r.Ok? ==> r.value == Settings(m.format, bitrateKbps)
  {
    if !encoderOk then Err(EncoderInitFailed)
    else if !openOk then Err(OpenFailed)
    else if m.format.blockAlign == 0 then Err(InvalidBlockAlign)
    else Ok(Settings(m.format, bitrateKbps))
  }

  /** The settings of the live stream writer, which first normalises an
      extensible format, then checks the block size, then sets up the
      encoder and opens the output. */
  function StreamSettings(block: FormatBlock, bitrateKbps: nat, encoderOk: bool, openOk: bool)
    : (r: Result<EncoderSettings, Mp3Error>)
    requires block.WellFormed()
    ensures r.Ok? <==> encoderOk && openOk && block.header.blockAlign != 0
    ensures block.header.blockAlign == 0 ==> r == Err(InvalidBlockAlign)
    ensures r.Ok? ==> r.value == Settings(NormalizedFormat(block.header, block.tail[..block.header.cbSize]), bitrateKbps)
  {
    var f := NormalizedFormat(block.header, block.tail[..block.header.cbSize]);
    if f.blockAlign == 0 then Err(InvalidBlockAlign)
    else if !encoderOk then Err(EncoderInitFailed)
    else if !openOk then Err(OpenFailed)
    else Ok(Settings(f, bitrateKbps))
  }

  /** Converting a finished recording later sets the encoder up exactly as
      encoding the same capture live would have. */
  lemma LiveAndFileSettingsAgree(block: FormatBlock, payload: seq<byte>, bitrateKbps: nat)
    requires block.WellFormed() && block.header.cbSize % 2 == 0
    requires block.header.channels != 0 && block.header.samplesPerSec != 0
    requires block.header.blockAlign != 0
    requires 0 < |payload| < U32_LIMIT
    ensures var blob := FormatBlob(block);
      var file := Wav.WavHeader(blob, Wav.RiffSize(|blob|, |payload|), |payload|) + payload;
      && WavSpec(file).Ok?
      && ConversionSettings(WavSpec(file).value, bitrateKbps, true, true)
           == StreamSettings(block, bitrateKbps, true, true)
  {
    ParseFinalizedWav(block, payload);
  }

  // ---------------------------------------------------------------------
  // Mp3StreamWriter
  // ---------------------------------------------------------------------

  function Concat(blocks: seq<seq<byte>>): seq<byte>
  {
    if blocks == [] then [] else Concat(blocks[..|blocks| - 1]) + blocks[|blocks| - 1]
  }

  predicate AllZero(s: seq<byte>) { forall i :: 0 <= i < |s| ==> s[i] == 0 }

  /** The bytes of the whole frames at the front of `n` bytes. */
  function WholeFrames(n: nat, bytesPerFrame: nat): (w: nat)
    requires bytesPerFrame >= 1
    ensures w <= n && n - w < bytesPerFrame && w % bytesPerFrame == 0
    ensures w == 0 <==> n < bytesPerFrame
  {
    var k := n / bytesPerFrame;
    ModUnique(k * bytesPerFrame, k, 0, bytesPerFrame);
    MulAtLeast(k, bytesPerFrame);
    k * bytesPerFrame
  }

  /** `pending` followed by zeros up to a whole number of frames. */
  function PadToFrame(pending: seq<byte>, bytesPerFrame: nat): (padded: seq<byte>)
    requires bytesPerFrame >= 1
    ensures |pending| <= |padded| && |padded| - |pending| < bytesPerFrame
    ensures |padded| % bytesPerFrame == 0
    ensures padded[..|pending|] == pending && AllZero(padded[|pending|..])
  {
    var remainder := |pending| % bytesPerFrame;
    if remainder == 0 then pending
    else
      var k := |pending| / bytesPerFrame;
      var padded := pending + seq(bytesPerFrame - remainder, _ => 0 as byte);
      assert |padded| == (k + 1) * bytesPerFrame;
      ModUnique(|padded|, k + 1, 0, bytesPerFrame);
      assert padded[|pending|..] == seq(bytesPerFrame - remainder, _ => 0 as byte);
      padded
  }

  /** Blocks that are each a whole number of frames concatenate to a whole
      number of frames. */
  lemma {:induction false} ConcatFrameAligned(blocks: seq<seq<byte>>, bytesPerFrame: nat)
    requires bytesPerFrame >= 1
    requires forall i :: 0 <= i < |blocks| ==> |blocks[i]| % bytesPerFrame == 0
    ensures |Concat(blocks)| % bytesPerFrame == 0
  {
    if blocks != [] {
      var init := blocks[..|blocks| - 1];
      ConcatFrameAligned(init, bytesPerFrame);
      assert |Concat(blocks)| == |Concat(init)| + |blocks[|blocks| - 1]|;
      MultipleSum(|Concat(init)|, |blocks[|blocks| - 1]|, bytesPerFrame);
    }
  }

  lemma MultipleSum(a: nat, b: nat, d: nat)
    requires d >= 1 && a % d == 0 && b % d == 0
    ensures (a + b) % d == 0
  {
    var qa, qb := a / d, b / d;
    assert a == qa * d && b == qb * d;
    assert a + b == (qa + qb) * d;
    ModUnique(a + b, qa + qb, 0, d);
  }

  lemma ConcatAppend(blocks: seq<seq<byte>>, b: seq<byte>)
    ensures Concat(blocks + [b]) == Concat(blocks) + b
  {
    assert (blocks + [b])[..|blocks|] == blocks;
  }

  /** Taking the whole frames out of the pending bytes keeps every byte,
      in order: what was handed over plus what is still pending is what was
      accepted. */
  lemma TakeWholeFrames(batches: seq<seq<byte>>, all: seq<byte>, input: seq<byte>, w: nat)
    requires Concat(batches) + all == input && w <= |all|
    ensures Concat(batches + [all[..w]]) + all[w..] == input
  {
    ConcatAppend(batches, all[..w]);
    assert all == all[..w] + all[w..];
  }

  /** Padding the last partial frame hands over every pending byte and then
      only zeros. */
  lemma PadLastFrame(batches: seq<seq<byte>>, pending: seq<byte>, input: seq<byte>, bytesPerFrame: nat)
    requires bytesPerFrame >= 1
    requires Concat(batches) + pending == input
    ensures var padded := PadToFrame(pending, bytesPerFrame);
      Concat(batches + [padded]) + [] == input + padded[|pending|..]
  {
    var padded := PadToFrame(pending, bytesPerFrame);
    ConcatAppend(batches, padded);
    assert padded == pending + padded[|pending|..];
  }

  class Mp3StreamWriter {
    const settings: EncoderSettings
    /** Bytes received but not yet encoded: less than a frame, unless the
        format is one ConvertSamples refuses. */
    var pending: seq<byte>
    /** The frame-aligned blocks handed to ConvertSamples and the encoder, in
        order. */
    var batches: seq<seq<byte>>
    var finalized: bool
    /** The output stream's state is good. */
    var good: bool
    /** The encoder has been flushed and the output closed. */
    var encoderFlushed: bool
    /** Every byte accepted by Write. */
    ghost var Input: seq<byte>
    /** The zeros added on Close to complete the last frame. */
    ghost var Padding: seq<byte>

    ghost predicate Valid()
      reads this
    {
      && settings.bytesPerFrame >= 1
      && (|pending| < settings.bytesPerFrame || SampleKindOf(settings.format) == UnsupportedSamples)
      && (SampleKindOf(settings.format) == UnsupportedSamples ==> batches == [])
      && (forall i :: 0 <= i < |batches| ==>
            |batches[i]| > 0 && |batches[i]| % settings.bytesPerFrame == 0)
      && Concat(batches) + pending == Input + Padding
      && AllZero(Padding) && |Padding| < settings.bytesPerFrame
      && (!finalized ==> Padding == [])
      && (encoderFlushed ==> finalized && pending == [])
    }

    constructor (s: EncoderSettings)
      requires s.bytesPerFrame >= 1
      ensures Valid() && settings == s
      ensures pending == [] && batches == [] && Input == []
      ensures !finalized && good && !encoderFlushed
    {
      settings := s;
      pending, batches := [], [];
      finalized, good, encoderFlushed := false, true, false;
      Input, Padding := [], [];
    }

    /** After the stream is flushed every accepted byte has reached the
        encoder, in order, followed only by the zeros of the last frame. */
    lemma DeliveredAfterClose()
      requires Valid() && encoderFlushed
      ensures Concat(batches)[..|Input|] == Input
      ensures AllZero(Concat(batches)[|Input|..])
      ensures |Concat(batches)| % settings.bytesPerFrame == 0
      ensures |Concat(batches)| - |Input| < settings.bytesPerFrame
    {
      ConcatFrameAligned(batches, settings.bytesPerFrame);
      assert Concat(batches) == Input + Padding;
      assert (Input + Padding)[|Input|..] == Padding;
    }

    /** Appends `data` to the pending bytes and hands every whole frame to
        the encoder, keeping the partial frame for later. `ioOk` says whether
        writing the encoded bytes succeeded; a failure leaves the stream in a
        failed state for the next call. A sample format ConvertSamples
        refuses fails as soon as there is a whole frame, with every byte
        still pending. */
    method Write(data: seq<byte>, ioOk: bool) returns (r: Outcome<Mp3Error>)
      requires Valid()
      modifies this
      ensures Valid()
      ensures finalized == old(finalized) && encoderFlushed == old(encoderFlushed)
      ensures old(finalized) ==> r == Pass && unchanged(this)
      ensures !old(finalized) && !old(good) ==> r == Fail(StreamNotOpen) && unchanged(this)
      ensures !old(finalized) && old(good) && |data| == 0 ==> r == Pass && unchanged(this)
      ensures !old(finalized) && old(good) && |data| > 0 ==> Input == old(Input) + data
      ensures !old(finalized) && old(good) && |data| > 0 ==>
                var all := old(pending) + data;
                var whole := WholeFrames(|all|, settings.bytesPerFrame);
                if SampleKindOf(settings.format) == UnsupportedSamples && whole > 0 then
                  r == Fail(SamplesRefused) && pending == all && batches == old(batches) && good
                else
                  && r == Pass
                  && pending == all[whole..]
                  && batches == old(batches) + (if whole > 0 then [all[..whole]] else [])
                  && good == (whole == 0 || ioOk)
    {
      if finalized {
        return Pass;
      }
      if !good {
        return Fail(StreamNotOpen);
      }
      if |data| == 0 {
        return Pass;
      }
      assert Input + Padding == Input;
      pending := pending + data;
      Input := Input + data;
      assert Concat(batches) + pending == Input + Padding;
      var bytesToProcess := WholeFrames(|pending|, settings.bytesPerFrame);
      if bytesToProcess == 0 {
        return Pass;
      }
      if SampleKindOf(settings.format) == UnsupportedSamples {
        return Fail(SamplesRefused);
      }
      TakeWholeFrames(batches, pending, Input, bytesToProcess);
      batches := batches + [pending[..bytesToProcess]];
      if !ioOk {
        good := false;
      }
      pending := pending[bytesToProcess..];
      r := Pass;
    }

    /** Flushing is skipped once finalised or after a failure. */
    method Flush(ioOk: bool) returns (r: Outcome<Mp3Error>)
      requires Valid()
      modifies this
      ensures Valid()
      ensures pending == old(pending) && batches == old(batches) && Input == old(Input)
      ensures finalized == old(finalized) && encoderFlushed == old(encoderFlushed)
      ensures r.Fail? <==> !old(finalized) && old(good) && !ioOk
      ensures r.Fail? ==> r.error == FlushFailed && !good
      ensures r.Pass? ==> good == old(good)
    {
      if finalized || !good {
        return Pass;
      }
      if !ioOk {
        good := false;
        return Fail(FlushFailed);
      }
      r := Pass;
    }

    /** Once: pads the partial frame with zeros, encodes it, and flushes the
        encoder. A stream in a failed state is only marked finalised. With a
        sample format ConvertSamples refuses, pending bytes are padded and
        then fail, and the encoder is never flushed. */
    method Close() returns (r: Outcome<Mp3Error>)
      requires Valid()
      modifies this
      ensures Valid() && finalized
      ensures Input == old(Input) && good == old(good)
      ensures old(finalized) ==> r == Pass && unchanged(this)
      ensures !old(finalized) && !old(good) ==>
                r == Pass && pending == old(pending) && batches == old(batches) && !encoderFlushed
      ensures !old(finalized) && old(good) ==>
                if old(pending) != [] && SampleKindOf(settings.format) == UnsupportedSamples then
                  && r == Fail(SamplesRefused) && !encoderFlushed
                  && pending == PadToFrame(old(pending), settings.bytesPerFrame) && batches == old(batches)
                else
                  && r == Pass && encoderFlushed && pending == []
                  && batches == old(batches)
                       + (if old(pending) == [] then [] else [PadToFrame(old(pending), settings.bytesPerFrame)])
    {
      if finalized {
        return Pass;
      }
      finalized := true;
      if !good {
        return Pass;
      }
      r := EncodeRest();
    }

    /** Close on a sound stream, once finalised: the pending bytes, padded
        to a whole frame, are encoded, and then the encoder is flushed. */
    method EncodeRest() returns (r: Outcome<Mp3Error>)
      requires Valid() && finalized && good && !encoderFlushed && Padding == []
      modifies this
      ensures Valid() && finalized && good && Input == old(Input)
      ensures if old(pending) != [] && SampleKindOf(settings.format) == UnsupportedSamples then
                && r == Fail(SamplesRefused) && !encoderFlushed
                && pending == PadToFrame(old(pending), settings.bytesPerFrame) && batches == old(batches)
              else
                && r == Pass && encoderFlushed && pending == []
                && batches == old(batches)
                     + (if old(pending) == [] then [] else [PadToFrame(old(pending), settings.bytesPerFrame)])
    {
      if pending != [] {
        var padded := PadToFrame(pending, settings.bytesPerFrame);
        PadLastFrame(batches, pending, Input, settings.bytesPerFrame);
        Padding := padded[|pending|..];
        if SampleKindOf(settings.format) == UnsupportedSamples {
          pending := padded;
          return Fail(SamplesRefused);
        }
        var framesAvailable := |padded| / settings.bytesPerFrame;
        if framesAvailable > 0 {
          batches := batches + [padded];
        }
        pending := [];
      }
      encoderFlushed := true;
      r := Pass;
    }
  }

  /** Creating a stream writer: nothing is created when a setting fails. */
  method OpenMp3StreamWriter(block: FormatBlock, bitrateKbps: nat, encoderOk: bool, openOk: bool)
    returns (r: Result<Mp3StreamWriter, Mp3Error>)
    requires block.WellFormed()
    ensures r.Err? <==> StreamSettings(block, bitrateKbps, encoderOk, openOk).Err?
    ensures r.Err? ==> r.error == StreamSettings(block, bitrateKbps, encoderOk, openOk).error
    ensures r.Ok? ==>
              && fresh(r.value) && r.value.Valid()
              && r.value.settings == StreamSettings(block, bitrateKbps, encoderOk, openOk).value
              && r.value.pending == [] && r.value.batches == [] && r.value.good
              && !r.value.finalized
  {
    var s := StreamSettings(block, bitrateKbps, encoderOk, openOk);
    if s.Err? {
      return Err(s.error);
    }
    var w := new Mp3StreamWriter(s.value);
    r := Ok(w);
  }

  // ---------------------------------------------------------------------
  // Converting a recorded file
  // ---------------------------------------------------------------------

  const FRAMES_PER_CHUNK: nat := 4096

  /** The bytes of the data chunk that the file really holds: a chunk whose
      size runs past the end of the file ends at the end of the file. */
  function DataBytes(file: seq<byte>, offset: nat, size: nat): (d: seq<byte>)
    ensures |d| <= size
    ensures offset <= |file| ==> |d| == Min(size, |file| - offset)
  {
    if offset >= |file| then [] else file[offset..offset + Min(size, |file| - offset)]
  }

  /** A signed 16-bit little-endian sample. */
  function Int16Of(lo: byte, hi: byte): (v: int)
    ensures IsInt16(v)
    ensures v >= 0 ==> v == lo as int + 256 * hi as int
    ensures v < 0 ==> v + U16_LIMIT == lo as int + 256 * hi as int
  {
    var u := lo as int + 256 * hi as int;
    if u >= 0x8000 then u - U16_LIMIT else u
  }

  /** The raw bytes of a PCM16 block read as samples. */
  function Pcm16Samples(raw: seq<byte>): (s: seq<int>)
    ensures |s| == |raw| / 2 && AllInt16(s)
  {
    seq(|raw| / 2, i requires 0 <= i < |raw| / 2 => Int16Of(raw[2 * i], raw[2 * i + 1]))
  }

  /** Whole frames at the front of a multiple of a chunk are the frames of
      the rest on top of it. */
  lemma WholeFramesAfter(a: nat, b: nat, bytesPerFrame: nat)
    requires bytesPerFrame >= 1 && a % bytesPerFrame == 0
    ensures WholeFrames(a + b, bytesPerFrame) == a + WholeFrames(b, bytesPerFrame)
  {
    var w := WholeFrames(b, bytesPerFrame);
    var k, j := a / bytesPerFrame, w / bytesPerFrame;
    assert a == k * bytesPerFrame && w == j * bytesPerFrame;
    assert a + b == (k + j) * bytesPerFrame + (b - w);
    ModUnique(a + b, k + j, b - w, bytesPerFrame);
  }

  lemma ChunkIsWholeFrames(n: nat, bytesPerFrame: nat)
    requires bytesPerFrame >= 1 && n % (bytesPerFrame * FRAMES_PER_CHUNK) == 0
    ensures n % bytesPerFrame == 0
  {
    var k := n / (bytesPerFrame * FRAMES_PER_CHUNK);
    assert n == (k * FRAMES_PER_CHUNK) * bytesPerFrame;
    ModUnique(n, k * FRAMES_PER_CHUNK, 0, bytesPerFrame);
  }

  /** The read loop of a file conversion: it reads the data chunk a chunk
      of FRAMES_PER_CHUNK frames at a time and hands the whole frames of
      each read on, stopping at the end of the chunk, at the end of the file
      or at a read too short for one frame. The batches are every whole
      frame of the data the file holds, in order. */
  method ReadDataChunks(file: seq<byte>, offset: nat, size: nat, bytesPerFrame: nat)
    returns (batches: seq<seq<byte>>)
    requires bytesPerFrame >= 1
    ensures Concat(batches) == DataBytes(file, offset, size)[..WholeFrames(|DataBytes(file, offset, size)|, bytesPerFrame)]
    ensures forall i :: 0 <= i < |batches| ==>
              0 < |batches[i]| <= bytesPerFrame * FRAMES_PER_CHUNK && |batches[i]| % bytesPerFrame == 0
  {
    ghost var d := DataBytes(file, offset, size);
    var remaining := size;
    var pos := offset;
    batches := [];
    while remaining > 0
      invariant pos >= offset && remaining == size - (pos - offset)
      invariant ReadProgress(d, pos - offset, batches, bytesPerFrame)
      decreases remaining
    {
      var stop;
      pos, remaining, batches, stop := ReadOnce(file, offset, size, bytesPerFrame, pos, remaining, batches);
      if stop {
        break;
      }
    }
  }

  /** How far the read loop has come: `consumed` bytes of the data `d`
      read; before the end of the data a whole number of chunks, all handed
      on, and at its end every whole frame handed on; each batch a
      non-empty whole number of frames, at most a chunk. */
  ghost predicate ReadProgress(d: seq<byte>, consumed: nat, batches: seq<seq<byte>>, bytesPerFrame: nat)
    requires bytesPerFrame >= 1
  {
    var chunk := bytesPerFrame * FRAMES_PER_CHUNK;
    && consumed <= |d|
    && (consumed < |d| ==> consumed % chunk == 0 && Concat(batches) == d[..consumed])
    && (consumed == |d| ==> Concat(batches) == d[..WholeFrames(|d|, bytesPerFrame)])
    && forall i :: 0 <= i < |batches| ==> 0 < |batches[i]| <= chunk && |batches[i]| % bytesPerFrame == 0
  }

  /** One turn of the read loop: read up to a chunk at `pos` and hand its
      whole frames on. It stops at the end of the data, and otherwise
      reads something. */
  method ReadOnce(file: seq<byte>, offset: nat, size: nat, bytesPerFrame: nat,
                  pos: nat, remaining: nat, batches: seq<seq<byte>>)
    returns (pos': nat, remaining': nat, batches': seq<seq<byte>>, stop: bool)
    requires bytesPerFrame >= 1 && remaining > 0
    requires pos >= offset && remaining == size - (pos - offset)
    requires ReadProgress(DataBytes(file, offset, size), pos - offset, batches, bytesPerFrame)
    ensures pos' >= offset && remaining' == size - (pos' - offset)
    ensures ReadProgress(DataBytes(file, offset, size), pos' - offset, batches', bytesPerFrame)
    ensures stop ==> pos' - offset == |DataBytes(file, offset, size)|
    ensures !stop ==> remaining' < remaining
  {
    ghost var d := DataBytes(file, offset, size);
    var chunk := bytesPerFrame * FRAMES_PER_CHUNK;
    var toRead := Min(remaining, chunk);
    var bytesRead := if pos <= |file| then Min(toRead, |file| - pos) else 0;
    ghost var consumed := pos - offset;
    ReadStep(file, offset, size, consumed, chunk);
    pos', remaining', batches', stop := pos, remaining, batches, true;
    if bytesRead == 0 {
      return;
    }
    var raw := file[pos..pos + bytesRead];
    pos' := pos + bytesRead;
    remaining' := remaining - bytesRead;
    var whole := WholeFrames(bytesRead, bytesPerFrame);
    if whole == 0 {
      ChunkIsWholeFrames(consumed, bytesPerFrame);
      WholeFramesAfter(consumed, bytesRead, bytesPerFrame);
      return;
    }
    NextBatch(batches, d, consumed, bytesRead, whole, chunk, bytesPerFrame);
    batches' := batches + [raw[..whole]];
    stop := false;
  }

  /** What one read of the loop gets: the next bytes of the data; fewer
      than a chunk only at the end of the data, none only past it. */
  lemma ReadStep(file: seq<byte>, offset: nat, size: nat, consumed: nat, chunk: nat)
    requires consumed <= |DataBytes(file, offset, size)| && chunk >= 1
    ensures var d := DataBytes(file, offset, size);
      var pos := offset + consumed;
      var bytesRead := if pos <= |file| then Min(Min(size - consumed, chunk), |file| - pos) else 0;
      && consumed + bytesRead <= |d|
      && (bytesRead < chunk ==> consumed + bytesRead == |d|)
      && (bytesRead > 0 ==> file[pos..pos + bytesRead] == d[consumed..consumed + bytesRead])
  {
  }

  /** One read of the loop: the batch continues the data, and a read that
      leaves data behind was a full chunk. */
  lemma NextBatch(batches: seq<seq<byte>>, d: seq<byte>, consumed: nat, bytesRead: nat,
                  whole: nat, chunk: nat, bytesPerFrame: nat)
    requires bytesPerFrame >= 1 && chunk == bytesPerFrame * FRAMES_PER_CHUNK
    requires consumed + bytesRead <= |d| && consumed < |d|
    requires consumed % chunk == 0 && Concat(batches) == d[..consumed]
    requires bytesRead <= chunk && (bytesRead < chunk ==> consumed + bytesRead == |d|)
    requires whole == WholeFrames(bytesRead, bytesPerFrame)
    ensures var next := Concat(batches + [d[consumed..consumed + bytesRead][..whole]]);
      && (consumed + bytesRead < |d| ==> next == d[..consumed + bytesRead] && (consumed + bytesRead) % chunk == 0)
      && (consumed + bytesRead == |d| ==> next == d[..WholeFrames(|d|, bytesPerFrame)])
  {
    ChunkIsWholeFrames(consumed, bytesPerFrame);
    var raw := d[consumed..consumed + bytesRead];
    ConcatAppend(batches, raw[..whole]);
    assert d[..consumed + whole] == d[..consumed] + raw[..whole];
    if consumed + bytesRead < |d| {
      FullChunkStep(consumed, chunk, bytesPerFrame);
    } else {
      WholeFramesAfter(consumed, bytesRead, bytesPerFrame);
    }
  }

  /** A full chunk is all whole frames, and reading one keeps the count of
      bytes read a whole number of chunks. */
  lemma FullChunkStep(consumed: nat, chunk: nat, bytesPerFrame: nat)
    requires bytesPerFrame >= 1 && chunk == bytesPerFrame * FRAMES_PER_CHUNK && consumed % chunk == 0
    ensures WholeFrames(chunk, bytesPerFrame) == chunk && (consumed + chunk) % chunk == 0
  {
    ModUnique(chunk, FRAMES_PER_CHUNK, 0, bytesPerFrame);
    var k := consumed / chunk;
    assert consumed == k * chunk;
    assert consumed + chunk == (k + 1) * chunk;
    ModUnique(consumed + chunk, k + 1, 0, chunk);
  }

  /** Frames of a PCM16 block fit in its samples when every frame holds a
      16-bit sample per channel. */
  lemma FramesFit(raw: seq<byte>, f: WaveFormatEx)
    requires 1 <= f.channels && 2 * f.channels <= f.blockAlign
    ensures |raw| / f.blockAlign * f.channels <= |raw| / 2
  {
    var k := |raw| / f.blockAlign;
    assert k * f.blockAlign <= |raw|;
    MulMonotone(2 * f.channels, f.blockAlign, k);
    assert 2 * (k * f.channels) <= |raw|;
  }

  /** The whole frames in `n` bytes. */
  function FrameCount(n: nat, bytesPerFrame: nat): (k: nat)
    requires bytesPerFrame >= 1
    ensures k == n / bytesPerFrame
  {
    n / bytesPerFrame
  }

  /** The samples the encoder receives for one batch of a PCM16 file. */
  function BatchPcm(raw: seq<byte>, f: WaveFormatEx): (pcm: seq<int>)
    requires 1 <= f.channels && 2 * f.channels <= f.blockAlign
    ensures |pcm| == |raw| / f.blockAlign * TargetChannels(f.channels)
  {
    FramesFit(raw, f);
    Converted(Pcm16Samples(raw), |raw| / f.blockAlign, f.channels, TargetChannels(f.channels))
  }

  /** What the file system says of the input path, in the order the
      converter asks: the path is empty, it names no file, the file cannot
      be opened for reading, or the file's bytes. */
  datatype WavInput = EmptyPath | NoSuchFile | Unopenable | Readable(bytes: seq<byte>)

  datatype ConversionError =
    | InputPathEmpty
    | InputMissing
    | InputUnopenable
    | ParseFailed(parse: ParseError)
    | SetupFailed(setup: Mp3Error)
    | UnsupportedSampleFormat   // neither 16-bit PCM nor 32-bit float

  /** What a file conversion hands to the encoder: its settings, the raw
      frame batches in order and, for 16-bit PCM, the samples of each batch
      after conversion to the target channel count. */
  datatype Conversion = Conversion(settings: EncoderSettings, batches: seq<seq<byte>>, pcm: seq<seq<int>>)

  /** Converts a finished WAV file: refuse an empty path, a missing file
      and a file that does not open, in that order; parse it, set up the
      encoder and the output, then feed the whole frames of the data chunk through the
      sample conversion. An unsupported sample format is reported by the
      first batch, so a file without a whole frame passes. */
  method ConvertWavToMp3(input: WavInput, bitrateKbps: nat, encoderOk: bool, openOk: bool)
    returns (r: Result<Conversion, ConversionError>)
    ensures input == EmptyPath ==> r == Err(InputPathEmpty)
    ensures input == NoSuchFile ==> r == Err(InputMissing)
    ensures input == Unopenable ==> r == Err(InputUnopenable)
    ensures r == Err(InputPathEmpty) || r == Err(InputMissing) || r == Err(InputUnopenable) ==> !input.Readable?
    ensures input.Readable? && WavSpec(input.bytes).Err? ==> r == Err(ParseFailed(WavSpec(input.bytes).error))
    ensures (input.Readable? && WavSpec(input.bytes).Ok?
             && ConversionSettings(WavSpec(input.bytes).value, bitrateKbps, encoderOk, openOk).Err?)
              ==> r == Err(SetupFailed(ConversionSettings(WavSpec(input.bytes).value, bitrateKbps, encoderOk, openOk).error))
    ensures r.Ok? || r == Err(UnsupportedSampleFormat) ==> input.Readable?
    ensures r.Ok? || r == Err(UnsupportedSampleFormat) ==>
              var file := input.bytes;
              var m := WavSpec(file).value;
              var d := DataBytes(file, m.dataOffset, m.dataSize);
              && WavSpec(file).Ok? && m.format.blockAlign >= 1
              && ConversionSettings(m, bitrateKbps, encoderOk, openOk).Ok?
              && ((r == Err(UnsupportedSampleFormat))
                    <==> SampleKindOf(m.format) == UnsupportedSamples && WholeFrames(|d|, m.format.blockAlign) > 0)
    ensures r.Ok? ==>
              var file := input.bytes;
              var m := WavSpec(file).value;
              var d := DataBytes(file, m.dataOffset, m.dataSize);
              && r.value.settings == ConversionSettings(m, bitrateKbps, encoderOk, openOk).value
              && Concat(r.value.batches) == d[..WholeFrames(|d|, m.format.blockAlign)]
              && (forall i :: 0 <= i < |r.value.batches| ==>
                    0 < |r.value.batches[i]| <= m.format.blockAlign * FRAMES_PER_CHUNK
                    && |r.value.batches[i]| % m.format.blockAlign == 0)
              && (SampleKindOf(m.format) == Pcm16 && 2 * m.format.channels <= m.format.blockAlign ==>
                    && |r.value.pcm| == |r.value.batches|
                    && forall i :: 0 <= i < |r.value.batches| ==>
                         r.value.pcm[i] == BatchPcm(r.value.batches[i], m.format))
  {
    match input {
      case EmptyPath => return Err(InputPathEmpty);
      case NoSuchFile => return Err(InputMissing);
      case Unopenable => return Err(InputUnopenable);
      case Readable(_) =>
    }
    var file := input.bytes;
    var parsed := ParseWav(file);
    if parsed.Err? {
      return Err(ParseFailed(parsed.error));
    }
    var m := parsed.value;
    var settings := ConversionSettings(m, bitrateKbps, encoderOk, openOk);
    if settings.Err? {
      return Err(SetupFailed(settings.error));
    }
    var frameBytes := m.format.blockAlign;
    var batches := ReadDataChunks(file, m.dataOffset, m.dataSize, frameBytes);
    ghost var d := DataBytes(file, m.dataOffset, m.dataSize);
    NoBatchesNoFrames(batches, d[..WholeFrames(|d|, frameBytes)]);
    var kind := SampleKindOf(m.format);
    if kind == UnsupportedSamples && batches != [] {
      return Err(UnsupportedSampleFormat);
    }
    var pcm: seq<seq<int>> := [];
    if kind == Pcm16 && 2 * m.format.channels <= frameBytes {
      pcm := ConvertBatches(batches, m.format);
    }
    r := Ok(Conversion(settings.value, batches, pcm));
  }

  /** The 16-bit PCM samples of each batch, converted to the target
      channel count, in batch order. */
  method ConvertBatches(batches: seq<seq<byte>>, f: WaveFormatEx) returns (pcm: seq<seq<int>>)
    requires f.WellFormed() && 1 <= f.channels && 2 * f.channels <= f.blockAlign
    ensures |pcm| == |batches|
    ensures forall j :: 0 <= j < |batches| ==> pcm[j] == BatchPcm(batches[j], f)
  {
    var src := f.channels;
    var tgt := TargetChannels(src);
    pcm := [];
    var i := 0;
    while i < |batches|
      invariant i <= |batches| && |pcm| == i
      invariant forall j :: 0 <= j < i ==> pcm[j] == BatchPcm(batches[j], f)
    {
      var raw := batches[i];
      var frames := FrameCount(|raw|, f.blockAlign);
      FramesFit(raw, f);
      var samples := Pcm16Samples(raw);
      assert |samples| >= frames * src;
      var block := ConvertPcm16(samples, frames, src, tgt);
      assert block == BatchPcm(raw, f);
      pcm := pcm + [block];
      i := i + 1;
    }
  }

  /** Non-empty batches concatenate to nothing only when there are none. */
  lemma NoBatchesNoFrames(batches: seq<seq<byte>>, whole: seq<byte>)
    requires Concat(batches) == whole
    requires forall i :: 0 <= i < |batches| ==> |batches[i]| > 0
    ensures batches == [] <==> |whole| == 0
  {
    if batches != [] {
      var n := |batches| - 1;
      assert Concat(batches) == Concat(batches[..n]) + batches[n];
    }
  }
}
