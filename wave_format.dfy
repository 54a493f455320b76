/** The WAVEFORMATEX structure that the recorder negotiates with the audio
    engine, copies into the `fmt ` chunk of a WAV file and reads back when
    converting to MP3: seven little-endian fields in 18 bytes, optionally
    followed by `cbSize` extension bytes. For WAVE_FORMAT_EXTENSIBLE the
    extension holds wValidBitsPerSample (2 bytes), dwChannelMask (4 bytes)
    and the SubFormat GUID (16 bytes), so SubFormat sits at offset 24 of the
    structure and the whole WAVEFORMATEXTENSIBLE is 40 bytes. */
module WaveFormat {
  import opened Common

  const WAVE_FORMAT_PCM: nat := 1
  const WAVE_FORMAT_IEEE_FLOAT: nat := 3
  const WAVE_FORMAT_EXTENSIBLE: nat := 0xFFFE

  /** Chunk identifiers of a RIFF/WAVE file, as the four bytes on disk. */
  const RIFF_ID: seq<byte> := [0x52, 0x49, 0x46, 0x46]  // "RIFF"
  const WAVE_ID: seq<byte> := [0x57, 0x41, 0x56, 0x45]  // "WAVE"
  const FMT_ID: seq<byte> := [0x66, 0x6D, 0x74, 0x20]   // "fmt "
  const DATA_ID: seq<byte> := [0x64, 0x61, 0x74, 0x61]  // "data"

  const WAVEFORMATEX_SIZE: nat := 18
  const WAVEFORMATEXTENSIBLE_SIZE: nat := 40
  /** Offset of SubFormat within the bytes that follow the 18-byte header. */
  const SUBFORMAT_OFFSET_IN_TAIL: nat := 6

  /** KSDATAFORMAT_SUBTYPE_PCM, {00000001-0000-0010-8000-00AA00389B71}, as
      it is laid out in memory. */
  const SUBTYPE_PCM: seq<byte> :=
    [0x01, 0x00, 0x00, 0x00, 0x00, 0x00, 0x10, 0x00, 0x80, 0x00, 0x00, 0xAA, 0x00, 0x38, 0x9B, 0x71]
  /** KSDATAFORMAT_SUBTYPE_IEEE_FLOAT, {00000003-0000-0010-8000-00AA00389B71}. */
  const SUBTYPE_IEEE_FLOAT: seq<byte> :=
    [0x03, 0x00, 0x00, 0x00, 0x00, 0x00, 0x10, 0x00, 0x80, 0x00, 0x00, 0xAA, 0x00, 0x38, 0x9B, 0x71]

  datatype WaveFormatEx = WaveFormatEx(
    formatTag: nat,
    channels: nat,
    samplesPerSec: nat,
    avgBytesPerSec: nat,
    blockAlign: nat,
    bitsPerSample: nat,
    cbSize: nat)
  {
    /** Every field fits its C type. */
    predicate WellFormed()
    {
      && IsU16(formatTag) && IsU16(channels) && IsU32(samplesPerSec)
      && IsU32(avgBytesPerSec) && IsU16(blockAlign) && IsU16(bitsPerSample) && IsU16(cbSize)
    }
  }

  /** A format as it sits in memory: the 18-byte header and the bytes that
      follow it (at least `cbSize` of them). */
  datatype FormatBlock = FormatBlock(header: WaveFormatEx, tail: seq<byte>)
  {
    predicate WellFormed()
    {
      header.WellFormed() && |tail| >= header.cbSize
    }
  }

  function EncodeFormat(f: WaveFormatEx): (b: seq<byte>)
    requires f.WellFormed()
    ensures |b| == WAVEFORMATEX_SIZE
  {
    LE16(f.formatTag) + LE16(f.channels) + LE32(f.samplesPerSec) + LE32(f.avgBytesPerSec)
    + LE16(f.blockAlign) + LE16(f.bitsPerSample) + LE16(f.cbSize)
  }

  /** Reading a WAVEFORMATEX out of the first 18 bytes (memcpy). */
  function DecodeFormat(b: seq<byte>): (f: WaveFormatEx)
    requires |b| >= WAVEFORMATEX_SIZE
  {
    WaveFormatEx(LeValue(b[0..2]), LeValue(b[2..4]), LeValue(b[4..8]), LeValue(b[8..12]),
                 LeValue(b[12..14]), LeValue(b[14..16]), LeValue(b[16..18]))
  }

  lemma DecodeWellFormed(b: seq<byte>)
    requires |b| >= WAVEFORMATEX_SIZE
    ensures DecodeFormat(b).WellFormed()
  {
    LeValueBound(b[0..2]); LeValueBound(b[2..4]); LeValueBound(b[4..8]); LeValueBound(b[8..12]);
    LeValueBound(b[12..14]); LeValueBound(b[14..16]); LeValueBound(b[16..18]);
    assert Pow256(2) == U16_LIMIT;
    assert Pow256(4) == U32_LIMIT;
  }

  /** The 18-byte layout loses nothing: decoding an encoded header, with any
      bytes after it, gives the header back. */
  lemma DecodeEncode(f: WaveFormatEx, rest: seq<byte>)
    requires f.WellFormed()
    ensures DecodeFormat(EncodeFormat(f) + rest) == f
  {
    var b := EncodeFormat(f) + rest;
    assert b[0..2] == LE16(f.formatTag);
    assert b[2..4] == LE16(f.channels);
    assert b[4..8] == LE32(f.samplesPerSec);
    assert b[8..12] == LE32(f.avgBytesPerSec);
    assert b[12..14] == LE16(f.blockAlign);
    assert b[14..16] == LE16(f.bitsPerSample);
    assert b[16..18] == LE16(f.cbSize);
    LE16RoundTrip(f.formatTag); LE16RoundTrip(f.channels); LE32RoundTrip(f.samplesPerSec);
    LE32RoundTrip(f.avgBytesPerSec); LE16RoundTrip(f.blockAlign); LE16RoundTrip(f.bitsPerSample);
    LE16RoundTrip(f.cbSize);
  }

  /** The format blob a WAV writer copies: sizeof(WAVEFORMATEX) + cbSize
      bytes starting at the structure. */
  function FormatBlob(block: FormatBlock): (blob: seq<byte>)
    requires block.WellFormed()
    ensures |blob| == WAVEFORMATEX_SIZE + block.header.cbSize
    ensures blob[..WAVEFORMATEX_SIZE] == EncodeFormat(block.header)
  {
    EncodeFormat(block.header) + block.tail[..block.header.cbSize]
  }

  /** The SubFormat GUID of an extensible format, when the memory behind the
      header is long enough to hold one. */
  function SubFormat(tail: seq<byte>): (g: Option<seq<byte>>)
    ensures g.Some? ==> |g.value| == 16
  {
    if |tail| >= SUBFORMAT_OFFSET_IN_TAIL + 16
    then Some(tail[SUBFORMAT_OFFSET_IN_TAIL..SUBFORMAT_OFFSET_IN_TAIL + 16])
    else None
  }

  /** The plain tag that an extensible SubFormat stands for: PCM and IEEE
      float become their own tags, anything else keeps the extensible tag. */
  function NormalizedTag(tag: nat, subFormat: Option<seq<byte>>): (t: nat)
    ensures subFormat == Some(SUBTYPE_PCM) ==> t == WAVE_FORMAT_PCM
    ensures subFormat == Some(SUBTYPE_IEEE_FLOAT) ==> t == WAVE_FORMAT_IEEE_FLOAT
    ensures subFormat != Some(SUBTYPE_PCM) && subFormat != Some(SUBTYPE_IEEE_FLOAT) ==> t == tag
  {
    if subFormat == Some(SUBTYPE_PCM) then WAVE_FORMAT_PCM
    else if subFormat == Some(SUBTYPE_IEEE_FLOAT) then WAVE_FORMAT_IEEE_FLOAT
    else tag
  }

  /** An extensible format with a full extension (22 bytes or more after the
      header) takes the plain tag its SubFormat stands for; any other format
      is kept as it is. `ext` is the memory after the 18-byte header. */
  function NormalizedFormat(f: WaveFormatEx, ext: seq<byte>): (g: WaveFormatEx)
    ensures g == f.(formatTag := g.formatTag)
    ensures (f.formatTag != WAVE_FORMAT_EXTENSIBLE || |ext| < WAVEFORMATEXTENSIBLE_SIZE - WAVEFORMATEX_SIZE)
              ==> g == f
    ensures (f.formatTag == WAVE_FORMAT_EXTENSIBLE && |ext| >= WAVEFORMATEXTENSIBLE_SIZE - WAVEFORMATEX_SIZE)
              ==> g.formatTag == NormalizedTag(f.formatTag, SubFormat(ext))
  {
    if f.formatTag == WAVE_FORMAT_EXTENSIBLE && |ext| >= WAVEFORMATEXTENSIBLE_SIZE - WAVEFORMATEX_SIZE
    then f.(formatTag := NormalizedTag(f.formatTag, SubFormat(ext)))
    else f
  }

  /** The format a reader recovers from the bytes of a `fmt ` chunk body of
      at least 18 bytes: the header, normalised by the SubFormat found in the
      rest of the body. */
  function FormatFromChunk(body: seq<byte>): (f: WaveFormatEx)
    requires |body| >= WAVEFORMATEX_SIZE
    ensures f.WellFormed()
  {
    DecodeWellFormed(body);
    NormalizedFormat(DecodeFormat(body), body[WAVEFORMATEX_SIZE..])
  }

  /** Reading back the blob copied from a format gives the format as the
      live encoder normalises it: the SubFormat read from a file is the
      SubFormat in memory behind the structure. */
  lemma FormatFromBlob(block: FormatBlock)
    requires block.WellFormed()
    ensures FormatFromChunk(FormatBlob(block))
              == NormalizedFormat(block.header, block.tail[..block.header.cbSize])
  {
    var blob := FormatBlob(block);
    DecodeEncode(block.header, block.tail[..block.header.cbSize]);
    assert blob[WAVEFORMATEX_SIZE..] == block.tail[..block.header.cbSize];
  }
}
