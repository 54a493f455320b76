# Loopback recorder, modelled in Dafny

A model of the recording core of a Windows loopback audio recorder, with
proofs. The recorder works in these steps:

- It captures what the default playback device plays, through WASAPI loopback.
- It passes the audio through a single-producer/single-consumer byte ring to
  a writer thread.
- The writer thread stores it as a RIFF/WAVE file.
- The recorder can then convert the WAV file, or the segments of a
  recording, to MP3.

Around that core are several smaller parts:

- the console front end: option parsing and the recorder configuration;
- the formatting of HRESULTs for messages;
- the path helpers that choose output and segment file names;
- the state machine of the Media Foundation playback controller;
- the start/stop guard and bitrate field of the GUI.

Each source file of the core is one module.

- `Common` (common.dfy): bytes, 32-bit bounds, little-endian fields, C++
  truncating division, decimal text, ASCII case folding, and the
  Option/Result/Outcome wrappers that stand for the source's exceptions.
- `WaveFormat` (wave_format.dfy): the 18-byte WAVEFORMATEX. It covers the
  extensible SubFormat and its normalisation to the plain PCM or IEEE-float
  tag.
- `SpscRing` (spsc_ring.dfy): `SpscByteRingBuffer`, a class over an
  `array<byte>` with two cursors. Ghost sequences record the bytes accepted,
  the bytes delivered and the unread contents.
- `Wav` (wav_writer.dfy): `WavWriter`, a class whose file is the sequence of
  bytes on disk. It writes placeholder sizes and patches them on `Close`.
  The patch is not checked, so how far it gets is an input.
- `Mp3Converter` (mp3_converter.dfy) covers:
  - the `ParseWav` chunk walk, a loop proved against a recursive
    specification;
  - the 16-bit PCM branch of `ConvertSamples`;
  - the encoder settings and their clamps;
  - `Mp3StreamWriter`'s buffer of partial frames;
  - `ConvertWavToMp3`: its input checks (an empty path, a missing file, a
    file that does not open) and its read loop. What the file system holds
    at the input path is an input.
- `Loopback` (loopback_recorder.dfy) covers:
  - `IsSupportedFormat`;
  - the latency, ring-capacity, chunk and wait arithmetic;
  - `handleAudioError` and `pushToRing`;
  - the capture loop, with the bytes the ring takes traced back, in order,
    to the packets they came from;
  - the writer thread's drain-and-flush loop;
  - `Record` as a whole.

  The capture thread and the writer thread are one sequence of steps. The
  audio engine, the Win32 waits and the disk are inputs.
- `Paths` (paths.dfy): the parts of `std::filesystem::path` the recorder
  uses: parent path, file name, stem, extension and `replace_extension`.
- `SegmentNaming` (segment_naming.dfy): `BuildSegmentPath`.
- `RecordingUtils` (recording_utils.dfy): `EnsureExtension`,
  `EnsureUniquePath` (over a set of existing paths) and
  `ConvertRecordedSegmentsToMp3`.
- `CommandLine` (command_line.dfy): `ParseInt`, `ParseArgs` (a loop proved
  against a recursive specification), and the options-to-`RecorderConfig`
  mapping of `wmain`.
- `HResultUtils` (hresult_utils.dfy): `DescribeHRESULTW` and
  `DescribeHRESULTA`. The system message is a parameter. A Dafny `char` is
  a Unicode scalar value, so the wide string is encoded as UTF-16 units
  before each unit is narrowed, as the cast in the source narrows
  `wchar_t` units.
- `MediaPlayer` (media_player.dfy): the `Player` class. The outcome of each
  media-session call is an input. The calls made and the listener's
  notifications are recorded in order.
- `GuiApp` (gui_app.dfy): `GetBitrateFromEdit` and the `AppState` start/stop
  guard with the controls it enables.

Notes on where the model departs from the described design or pins down an
edge case:

- The offset of the data chunk's size field is 24 + |blob| in the code,
  counting the RIFF tag and size, the WAVE tag, the `fmt ` tag and size, the
  blob and the `data` tag. The model follows the code.
- The writer copies the `fmt ` blob (18 + cbSize bytes) without a pad byte.
  A file with an odd cbSize therefore does not read back through a
  RIFF-conforming parser. The read-back lemmas require an even cbSize.
- `Record` in LoopbackRecorder.cpp takes a `std::function<bool()>`, which
  differs from the header's declaration. The model follows the .cpp, and
  `Record` implements no pause, segments or live MP3.
- `Record` reads the writer thread's failure flag before the writer is
  joined. A failure during the final drain therefore yields `Ok` with a WAV
  file that lacks the last bytes. `Loopback.Record` states when this can
  happen: an `Ok` with a failed writer implies that a drain turn or the
  final flush failed. A started client whose writer turns, drain turns and
  final flush all succeed gives `Ok` with every captured byte in the file.
- The frame limit is the sample rate times the maximum duration, computed in
  64 unsigned bits. A negative duration therefore wraps to a limit near
  2^64, and `Loopback.FrameLimit` states that wrap.
- A push that fails adds nothing to the recorded frames, even for bytes the
  ring took before the failure.
- In the GUI, `GetBitrateFromEdit` calls `std::stoi` without checking where
  it stopped, so "128kbps" reads as 128. The console's `ParseInt` refuses
  that text.
- The playback controller has two edge cases:
  - After `EndGetEvent` fails, no further event is requested.
  - An `OpenFile` that fails at `SetTopology` leaves the session open.

## Model

| member | source | states |
|---|---|---|
| Common.Clamp | src/LoopbackRecorder.cpp:140 | std::clamp: the result lies in [lo, hi], equals v inside the range and the nearer bound outside it |
| Common.TruncDivBounds | src/Mp3Converter.cpp:262 | C++ division by a positive count truncates toward zero: the remainder has the dividend's sign and is smaller than the divisor |
| Common.LE32RoundTrip | src/WavWriter.cpp:8-10 | a 32-bit field written little-endian reads back as its value |
| Common.LE16RoundTrip | src/WavWriter.cpp:8-10 | the same for a 16-bit field of WAVEFORMATEX |
| Common.LeRoundTrip | src/WavWriter.cpp:8-10 | an n-byte little-endian store keeps the value modulo 256^n |
| Common.DecimalValue | src/main.cpp:54 | the shortest decimal rendering of n reads back as n |
| Common.ZeroPadded | src/SegmentNaming.cpp:14 | setw(w) with fill '0' gives max(w, digits of n) digit characters and never truncates |
| Common.ZeroPaddedValue | src/SegmentNaming.cpp:14 | zero-padded digits read back as the number |
| Common.ZeroPaddedInjective | src/SegmentNaming.cpp:14 | different numbers never pad to the same text |
| Common.Lower | src/RecordingUtils.cpp:33-38 | case folding keeps the length and folds each character |
| WaveFormat.EncodeFormat | src/WavWriter.cpp:21-22 | a WAVEFORMATEX is 18 bytes |
| WaveFormat.DecodeWellFormed | src/Mp3Converter.cpp:185 | a header copied out of 18 bytes has fields that fit their C types |
| WaveFormat.DecodeEncode | src/Mp3Converter.cpp:185 | decoding the 18 bytes of an encoded header, whatever follows, gives the header back |
| WaveFormat.FormatBlob | src/WavWriter.cpp:21-22 | the blob is sizeof(WAVEFORMATEX) + cbSize bytes and starts with the encoded header |
| WaveFormat.SubFormat | src/Mp3Converter.cpp:186-187 | the SubFormat GUID is 16 bytes when the memory holds one |
| WaveFormat.NormalizedTag | src/Mp3Converter.cpp:189-193 | a PCM SubFormat gives the PCM tag, an IEEE-float SubFormat the float tag, and any other keeps the tag |
| WaveFormat.NormalizedFormat | src/Mp3Converter.cpp:455-463 | only the tag changes, and only for an extensible format whose extension is at least 22 bytes |
| WaveFormat.FormatFromChunk | src/Mp3Converter.cpp:185-194 | the format read from a `fmt ` body is well formed |
| WaveFormat.FormatFromBlob | src/Mp3Converter.cpp:186-194 | reading back the writer's blob gives the format exactly as the live MP3 writer normalises it |
| SpscRing.WrapIndex | src/SpscByteRing.h:43-49 | logical byte base + j sits at slot (base % cap + j) or that minus cap: the copy splits at cap - offset |
| SpscRing.WriteLandsInPlace | src/SpscByteRing.h:43-49 | the two-piece copy puts logical byte readPos + k of contents ++ data at slot (readPos + k) % cap |
| SpscRing.CopyInTwoPieces | src/SpscByteRing.h:43-49 | the two memcpy calls: the first piece at offset.., the rest at 0.., every other slot unchanged |
| SpscRing.SpscByteRingBuffer.constructor | src/SpscByteRing.h:16-17 | a capacity of 0 becomes 1, and the ring starts empty |
| SpscRing.SpscByteRingBuffer.Capacity | src/SpscByteRing.h:19 | the capacity is at least 1 and is the buffer's length |
| SpscRing.SpscByteRingBuffer.AvailableToWrite | src/SpscByteRing.h:21-25 | free space is the capacity minus the unread bytes |
| SpscRing.SpscByteRingBuffer.AvailableToRead | src/SpscByteRing.h:27-31 | used space is the number of unread bytes |
| SpscRing.SpscByteRingBuffer.SpaceAccounting | src/SpscByteRing.h:21-31 | free plus used space is the capacity in every state, and the bytes read are a prefix of the bytes accepted |
| SpscRing.SpscByteRingBuffer.Write | src/SpscByteRing.h:33-52 | writes min(bytes, free space), appends exactly those input bytes to the FIFO and advances only the write cursor |
| SpscRing.SpscByteRingBuffer.Read | src/SpscByteRing.h:54-73 | returns the min(maxBytes, used space) oldest unread bytes in order and advances only the read cursor |
| SpscRing.SpscByteRingBuffer.CopyOut | src/SpscByteRing.h:63-70 | the copy in two parts, the second from the buffer's start, yields exactly the oldest unread bytes asked for, in order |
| Wav.RiffSize | src/WavWriter.cpp:78 | the RIFF size is the 32-bit sum 4 + 8 + blob + 8 + data |
| Wav.WavHeader | src/WavWriter.cpp:62-73 | the header is 28 + |blob| bytes |
| Wav.HeaderLayout | src/WavWriter.cpp:62-73 | RIFF, size, WAVE, `fmt `, blob size, blob, `data`, data size, then the samples, each at its offset |
| Wav.PatchSizes | src/WavWriter.cpp:75-94 | patching offsets 4 and 24 + |blob| of a placeholder header gives the header with those sizes and leaves the blob and samples alone |
| Wav.PatchRiffSize | src/WavWriter.cpp:76-79 | patching the RIFF size of a placeholder header gives the header with that RIFF size, blob and samples untouched |
| Wav.PatchDataSize | src/WavWriter.cpp:81-91 | patching the data size of a header gives the header with that data size, blob and samples untouched |
| Wav.FinalizedSizesAgree | src/WavWriter.cpp:78-91 | in a finalised file the RIFF size is the file length minus 8 and the data size the sample count, both modulo 2^32 |
| Wav.WavWriter.constructor | src/WavWriter.cpp:13-24 | the file is truncated and holds the header with zero sizes |
| Wav.WavWriter.Write | src/WavWriter.cpp:30-39 | a failed stream is refused; a good write appends the bytes verbatim and adds their count to dataBytes modulo 2^32; a failing write puts the stream in the failed state, leaves in the file the part of the data that landed, and counts none of it |
| Wav.WavWriter.Append | src/WavWriter.cpp:34-38 | a good write: the bytes follow the file and dataBytes grows by their count modulo 2^32 |
| Wav.WavWriter.FailWith | src/WavWriter.cpp:34-36 | a failed write: what landed stays in the file uncounted and the stream is failed |
| Wav.WavWriter.Flush | src/WavWriter.cpp:41-49 | a no-op on a failed stream; a failing flush is an error and fails the stream; the bytes never change |
| Wav.WavWriter.Close | src/WavWriter.cpp:51-60 | once only: a good stream has its size fields patched as far as the unchecked patch gets (both, the RIFF size only, or neither) and is closed, staying good only when both landed; a failed stream is left alone; the writer is finalised either way |
| Wav.WavWriter.FinalizeHeader | src/WavWriter.cpp:75-94 | the file becomes the header with the RIFF size and then the data size patched as far as the patch gets, followed by the unchanged samples; a failed seek or write fails the stream and skips the rest |
| Wav.OpenWavWriter | src/WavWriter.cpp:17-20 | a file that cannot be opened is an error; otherwise a fresh writer with just the header |
| Mp3Converter.ReadBytes | src/Mp3Converter.cpp:141-146 | a read succeeds exactly when the bytes are there and is otherwise a truncated read |
| Mp3Converter.NextChunk | src/Mp3Converter.cpp:179-181 | the next chunk starts after the body plus one pad byte for an odd size |
| Mp3Converter.ChunkStep | src/Mp3Converter.cpp:170-210 | a turn of the chunk loop stops exactly when a chunk header cannot be read, and otherwise moves past that header |
| Mp3Converter.Finish | src/Mp3Converter.cpp:213-221 | succeeds exactly with both chunks, nonzero channels and rate and a nonzero data size; a missing chunk is reported first |
| Mp3Converter.WavSpec | src/Mp3Converter.cpp:148-225 | a short file is a truncated read, a file without RIFF...WAVE is refused, and an accepted file has a well-formed, nonzero format and a real data chunk header before its data |
| Mp3Converter.StepFindsDataHeader | src/Mp3Converter.cpp:196-204 | a data chunk a step notes has its header in the file |
| Mp3Converter.WalkFindsDataHeader | src/Mp3Converter.cpp:169-211 | the data chunk the walk reports has its header in the file and the format is well formed |
| Mp3Converter.WalkUnfold | src/Mp3Converter.cpp:169-174 | the walk continues while a chunk is missing and stops when a header cannot be read |
| Mp3Converter.ParseWav | src/Mp3Converter.cpp:148-225 | the loop with its moving stream position yields exactly the specification's result |
| Mp3Converter.StepAt | src/Mp3Converter.cpp:176-204 | a `data` chunk is noted at the position after its header; a `fmt ` chunk is read, or is a truncated read, or is too small |
| Mp3Converter.WalkFmtThenData | src/Mp3Converter.cpp:169-211 | a file with a `fmt ` then a `data` chunk walks to that format and that data chunk |
| Mp3Converter.HeaderBytesParse | src/Mp3Converter.cpp:148-225 | the header the writer puts before an even-sized format blob parses to that blob's format and the data chunk right behind the header |
| Mp3Converter.ParseWriterHeader | src/Mp3Converter.cpp:148-225 | a writer's header parses to its blob's normalised format and the data right behind it, whatever the RIFF size |
| Mp3Converter.ParseFinalizedWav | src/Mp3Converter.cpp:148-225 | a finished recording reads back with its format, data offset 28 + |blob| and full length |
| Mp3Converter.ParseUnfinalizedWav | src/Mp3Converter.cpp:219-221 | a recording whose data size field was never patched fails for want of audio data, whatever its RIFF size |
| Mp3Converter.ParseShortFmt | src/Mp3Converter.cpp:177-184 | a cut-off `fmt ` body is a truncated read; a whole one under 18 bytes is too small |
| Mp3Converter.ParseEmptyRiff | src/Mp3Converter.cpp:213-215 | a RIFF header with nothing after it lacks both chunks |
| Mp3Converter.SkipUnknownChunk | src/Mp3Converter.cpp:205-210 | an unknown chunk is skipped by its size plus the pad byte of an odd size |
| Mp3Converter.ClampToInt16 | src/Mp3Converter.cpp:227-235 | the result is 16-bit, the identity in range and the nearer bound outside it |
| Mp3Converter.SampleKindOf | src/Mp3Converter.cpp:249-333 | 16-bit PCM and 32-bit float are recognised exactly; every other format is unsupported |
| Mp3Converter.ParityCountHalves | src/Mp3Converter.cpp:268-276 | even channel positions are the first half rounded up, odd ones the rest |
| Mp3Converter.ConvertPcm16 | src/Mp3Converter.cpp:249-288 | equals the frame-by-frame conversion specification |
| Mp3Converter.MixFrames | src/Mp3Converter.cpp:255-288 | the frame loop yields the specification's frames in order |
| Mp3Converter.MixNext | src/Mp3Converter.cpp:256-286 | one turn of the frame loop appends exactly the next frame of the specification |
| Mp3Converter.MixMono | src/Mp3Converter.cpp:257-262 | the 32-bit accumulator loop gives the clamped truncated mean of all channels |
| Mp3Converter.MixStereo | src/Mp3Converter.cpp:263-286 | even channels feed the left and odd the right; a side without channels takes the other's sum and count |
| Mp3Converter.Int32Room | src/Mp3Converter.cpp:258-260 | up to 65535 16-bit samples fit a 32-bit accumulator |
| Mp3Converter.CopyConverted | src/Mp3Converter.cpp:251-253 | with equal channel counts the samples are copied unchanged |
| Mp3Converter.SumBound | src/Mp3Converter.cpp:258-260 | a sum of n 16-bit samples is within n times the sample range |
| Mp3Converter.TruncDivInRange | src/Mp3Converter.cpp:262 | the truncated mean of 16-bit values is 16-bit |
| Mp3Converter.MixNeverClamps | src/Mp3Converter.cpp:255-288 | the clamp in the mix never applies: mono is the truncated mean, stereo the truncated even and odd means, and one channel is duplicated |
| Mp3Converter.UniformFrameKept | src/Mp3Converter.cpp:255-288 | a frame with the same value on every channel mixes to that value |
| Mp3Converter.TargetChannels | src/Mp3Converter.cpp:470 | min(channels, 2): mono and stereo kept, more channels mixed to two |
| Mp3Converter.Settings | src/Mp3Converter.cpp:378-384 | bitrate clamped to [64, 320], target channels, and mono mode exactly for one channel |
| Mp3Converter.ConversionSettings | src/Mp3Converter.cpp:373-403 | a file conversion fails at the encoder, then the output file, then a zero block size |
| Mp3Converter.StreamSettings | src/Mp3Converter.cpp:453-506 | the live writer normalises the format, then refuses a zero block size, then sets up the encoder and the output |
| Mp3Converter.LiveAndFileSettingsAgree | src/Mp3Converter.cpp:338-506 | converting a finished recording sets the encoder up exactly as live encoding of the same capture would |
| Mp3Converter.WholeFrames | src/Mp3Converter.cpp:538-542 | the whole frames in n bytes: at most n, less than a frame short, and a multiple of the frame size |
| Mp3Converter.PadToFrame | src/Mp3Converter.cpp:587-592 | the pending bytes followed by fewer than a frame of zeros, to a whole frame |
| Mp3Converter.ConcatFrameAligned | src/Mp3Converter.cpp:538-544 | whole-frame blocks concatenate to whole frames |
| Mp3Converter.TakeWholeFrames | src/Mp3Converter.cpp:534-567 | taking the whole frames out of the pending bytes keeps every byte, in order |
| Mp3Converter.PadLastFrame | src/Mp3Converter.cpp:587-613 | padding hands over every pending byte, then only zeros |
| Mp3Converter.Mp3StreamWriter.constructor | src/Mp3Converter.cpp:448-517 | a fresh writer has no pending bytes and nothing encoded |
| Mp3Converter.Mp3StreamWriter.DeliveredAfterClose | src/Mp3Converter.cpp:523-613 | after Close the encoder received every written byte in order, then fewer than a frame of zeros, as whole frames |
| Mp3Converter.Mp3StreamWriter.Write | src/Mp3Converter.cpp:523-567 | a no-op when finalised or for no bytes; an error on a failed stream; otherwise the data joins the pending bytes, and either a sample format ConvertSamples refuses fails once there is a whole frame, with every byte left pending, or the whole frames go to the encoder and the rest stays pending |
| Mp3Converter.Mp3StreamWriter.Flush | src/Mp3Converter.cpp:570-578 | skipped once finalised or failed; a failing flush is an error |
| Mp3Converter.Mp3StreamWriter.Close | src/Mp3Converter.cpp:580-631 | once only, finalising first: pads the last partial frame, encodes it and flushes the encoder; with a refused sample format, pending bytes are padded and then fail without a flush; a failed stream is only marked finalised |
| Mp3Converter.Mp3StreamWriter.EncodeRest | src/Mp3Converter.cpp:589-631 | on a sound stream: pads, encodes and flushes, or with a refused sample format pads and fails |
| Mp3Converter.OpenMp3StreamWriter | src/Mp3Converter.cpp:448-517 | fails exactly as the settings do, and otherwise yields an empty, open writer |
| Mp3Converter.DataBytes | src/Mp3Converter.cpp:410-419 | the data the file really holds: a chunk running past the end stops at the end |
| Mp3Converter.Int16Of | src/Mp3Converter.cpp:250 | a little-endian sample is a 16-bit two's-complement value |
| Mp3Converter.Pcm16Samples | src/Mp3Converter.cpp:250 | a byte block read as 16-bit samples |
| Mp3Converter.ReadDataChunks | src/Mp3Converter.cpp:405-434 | the read loop hands over every whole frame of the data in order, in batches of at most 4096 frames |
| Mp3Converter.ReadOnce | src/Mp3Converter.cpp:412-424 | one read keeps every whole frame read so far handed over in order, each batch at most a chunk, and stops only at the end of the data |
| Mp3Converter.ReadStep | src/Mp3Converter.cpp:413-419 | a read gets the next data bytes, fewer than a chunk only at the end |
| Mp3Converter.BatchPcm | src/Mp3Converter.cpp:420-424 | a batch converts to frames times target channels samples |
| Mp3Converter.ConvertWavToMp3 | src/Mp3Converter.cpp:338-446 | an empty input path, a missing file and a file that does not open are refused in that order; then parse errors, then setup errors, are reported; an unsupported sample format fails at the first batch; otherwise the encoder gets the settings and every whole frame in order, and when the format is 16-bit PCM with 2 × channels ≤ blockAlign, each batch's converted samples |
| Mp3Converter.NoBatchesNoFrames | src/Mp3Converter.cpp:420-423 | there are no batches exactly when the data holds no whole frame |
| Loopback.DefaultConfig | src/LoopbackRecorder.h:16-28 | RecorderConfig's defaults: 200 ms latency, 4000 ms watchdog, 2000 ms ring, no limit, all flags off |
| Loopback.SupportedFormatConverts | src/LoopbackRecorder.cpp:83-103 | every accepted capture format normalises to 16-bit PCM or 32-bit float, which the converter reads |
| Loopback.IsSupportedFormat | src/LoopbackRecorder.cpp:83-103 | a missing format is refused; an accepted one has 16 or 32 bits per sample and the PCM, float or extensible tag; a PCM tag is accepted exactly at 16 bits, a float tag exactly at 32, and an extensible one without a SubFormat never |
| Loopback.BufferDuration | src/LoopbackRecorder.cpp:140-141 | the latency hint clamped to [10, 500] ms, in 100 ns units |
| Loopback.RingFrames | src/LoopbackRecorder.cpp:204-205 | the ring holds at least one frame |
| Loopback.RingCapacityBounds | src/LoopbackRecorder.cpp:204-207 | the ring capacity is whole frames, at least two frames and at least the clamped duration, and it fits 64 bits |
| Loopback.RingCapacity | src/LoopbackRecorder.cpp:204-206 | the larger of the clamped duration in frames and two frames, in bytes |
| Loopback.FlushThreshold | src/LoopbackRecorder.cpp:243 | the bytes of exactly sampleRate whole frames, one second of audio |
| Loopback.WriterChunkBytes | src/LoopbackRecorder.cpp:239 | the writer's chunk is min(capacity, max(512 frames, 16 KiB)) |
| Loopback.WriterWaitMs | src/LoopbackRecorder.cpp:241 | the writer waits half the watchdog, clamped to [5, 500] ms |
| Loopback.CaptureWaitMs | src/LoopbackRecorder.cpp:289 | the capture thread waits the watchdog, clamped to [50, 60000] ms |
| Loopback.FrameLimit | src/LoopbackRecorder.cpp:200-202 | there is a frame limit exactly when there is a maximum duration; it is the product of rate and duration taken modulo 2^64, so a negative duration wraps to 2^64 minus the product's magnitude |
| Loopback.AfterAudioError | src/LoopbackRecorder.cpp:313-322 | the device-invalidated flag is raised exactly by AUDCLNT_E_DEVICE_INVALIDATED |
| Loopback.Staged | src/LoopbackRecorder.cpp:423-432 | a packet stages frames times bytesPerFrame bytes, all zero when silent |
| Loopback.WholeFramesFit | src/LoopbackRecorder.cpp:442-443 | counting accepted bytes' whole frames keeps the frame count within the bytes |
| Loopback.CapturedPrefix | src/LoopbackRecorder.cpp:401-456 | the packets of a burst's first steps come first among the burst's packets |
| Loopback.EventPrefix | src/LoopbackRecorder.cpp:359-458 | the packets handed out by the first events come first among all the packets the events hand out |
| Loopback.StoppedBurstIsPrefix | src/LoopbackRecorder.cpp:359-458 | a capture stopped inside a burst has handled a prefix of the packets the events hand out |
| Loopback.BurstTakenStep | src/LoopbackRecorder.cpp:405-449 | a run of handled packets grows by one packet and a prefix of its staged bytes, and the concatenation grows by that prefix |
| Loopback.JoinPieces | src/LoopbackRecorder.cpp:359-458 | two runs of in-order prefixes joined are one such run, their bytes concatenate, and whole pieces stay whole |
| Loopback.PassExtends | src/LoopbackRecorder.cpp:359-458 | after a capture step the handled packets stay a prefix of those the events hand out, and when the loop goes on they are exactly those of the events so far |
| Loopback.CaptureSession.constructor | src/LoopbackRecorder.cpp:209-215 | an empty ring of the given capacity, zeroed statistics and no fatal error |
| Loopback.CaptureSession.WriterStep | src/LoopbackRecorder.cpp:245-265 | reads up to a chunk; on an empty ring counts a timeout or fails on a failed wait; otherwise writes it and flushes after a second of audio; a failed write or flush is fatal; a turn whose wait, write and flush succeed never raises the fatal error |
| Loopback.CaptureSession.RunWriter | src/LoopbackRecorder.cpp:245-265 | writer turns keep the accepted bytes and never clear a fatal error; a sound writer stays sound when every turn's wait, write and flush succeed, and a new fatal error comes from a turn where one of them failed |
| Loopback.CaptureSession.RingWrite | src/LoopbackRecorder.cpp:327 | a ring write takes a prefix of the data, and takes something when there is room |
| Loopback.CaptureSession.AwaitSpace | src/LoopbackRecorder.cpp:328-352 | a zero-byte write counts a wait; a fatal error ends the push; a missed wait counts a timeout and drops the remaining frames; when every writer turn it runs succeeds, a sound writer stays sound |
| Loopback.CaptureSession.PushToRing | src/LoopbackRecorder.cpp:324-357 | never accepts more than asked; counts waits, timeouts and dropped frames; fails only on a fatal error at a full ring or a timeout under failOnGlitch; when every writer turn it runs succeeds, a sound writer stays sound |
| Loopback.CaptureSession.OnAudioError | src/LoopbackRecorder.cpp:313-322 | only the device-invalidated flag changes |
| Loopback.CaptureSession.HandlePacket | src/LoopbackRecorder.cpp:412-449 | a discontinuity is counted and aborts only under failOnGlitch; a silent packet counts its frames; accepted whole frames are recorded; the frame limit ends the capture; when every writer turn it runs succeeds, a sound writer stays sound |
| Loopback.CaptureSession.PushStaged | src/LoopbackRecorder.cpp:436-449 | the push and the frame accounting after it |
| Loopback.CaptureSession.HandlePackets | src/LoopbackRecorder.cpp:401-456 | the packets of a burst are handled in order while GetBuffer succeeds; without a stop the ring took, in order, a prefix of each handled packet's staged bytes (the whole of each unless a ring wait timed out), and the run ends at the first failed GetBuffer, whose code it reports |
| Loopback.CaptureSession.TakePacket | src/LoopbackRecorder.cpp:405-449 | handling one more packet extends the run by a prefix of that packet's staged bytes, or ends the burst with a glitch abort, a writer failure, an overrun abort or the frame limit |
| Loopback.CaptureSession.HandleBurst | src/LoopbackRecorder.cpp:394-456 | the bytes the ring took are the concatenation of prefixes of the burst's first packets, in order; a failed GetBuffer, or a failed GetNextPacketSize after the last packet, ends the capture as an audio error; with no stop every packet was handled, each whole unless a ring wait timed out; when every writer turn it runs succeeds, a sound writer stays sound |
| Loopback.CaptureSession.CaptureStep | src/LoopbackRecorder.cpp:359-456 | a fatal writer error, then a stop request, end the loop with the statistics unchanged; a watchdog timeout adds one to its counter and aborts exactly under failOnGlitch; any other unexpected wait result ends it; signalled samples end as their burst does, and only they add bytes to the ring, as in-order prefixes of their packets' staged bytes; when every writer turn it runs succeeds, a sound writer stays sound |
| Loopback.CaptureSession.WriterPass | src/LoopbackRecorder.cpp:245-265 | a writer turn between two capture passes leaves the capture's bytes and its glitch counters as they were |
| Loopback.CaptureSession.StepPass | src/LoopbackRecorder.cpp:359-458 | a capture pass either goes on, with the ring's bytes still the prefixes of exactly the packets handed out so far, or ends the capture with the reasons that end it |
| Loopback.CaptureSession.CapturePass | src/LoopbackRecorder.cpp:359-458 | one pass of the loop, a writer turn or a capture step, keeps the run's bookkeeping or ends the capture |
| Loopback.CaptureSession.Capture | src/LoopbackRecorder.cpp:359-458 | the ring's bytes are the concatenation of in-order prefixes of the packets handled, which are the first packets the events hand out; when the events run out every event was one the loop goes on after, every packet was handled, and without a ring timeout each was taken whole; under failOnGlitch at most one glitch is counted and it is the one that ended the capture; when every writer turn it runs succeeds, a sound writer stays sound |
| Loopback.CaptureSession.FinishWriter | src/LoopbackRecorder.cpp:245-268 | a sound writer drains the ring completely and leaves nothing pending a flush, so the WAV payload is every accepted byte; sound drain turns and a successful final flush keep a sound writer sound; a failed writer stays failed |
| Loopback.Record | src/LoopbackRecorder.cpp:110-491 | the engine, format and output failures; the file as a header plus payload, its sizes patched as far as the closing patch gets; the captured bytes are in-order prefixes of the packets handed out, all of them whole when the events run out with no ring timeout; with a sound writer the file holds every captured byte, reads back with its format when fully patched, and fails for want of audio data when the data size was not patched; under failOnGlitch at most one glitch; for a started client, writer turns that all succeed give `Ok`, and with a sound drain and final flush a sound writer; an `Ok` with a failed writer means a drain turn or the final flush failed |
| Loopback.RecordStarted | src/LoopbackRecorder.cpp:198-491 | once the client has started: the statistics or the writer's failure, the captured bytes as in-order prefixes of the packets handed out (whole, and every packet, when the events run out with no ring timeout), and the file as a header plus payload as far as the patch gets; writer turns that all succeed during capture give `Ok`, and with a sound drain and final flush a sound writer; an `Ok` with a failed writer means a drain turn or the final flush failed |
| Loopback.CloseUnstarted | src/LoopbackRecorder.cpp:138-195 | a capture that never started leaves just the header, patched as far as the patch gets |
| Loopback.UnpatchedRecordingFails | src/LoopbackRecorder.cpp:460-490 | a recording whose closing patch stopped before the data size fails to read back for want of audio data |
| Loopback.RecordingReadsBack | src/LoopbackRecorder.cpp:469-490 | a finalised recording under 2^32 bytes parses to its own format, offset and length |
| Loopback.StopAndClose | src/LoopbackRecorder.cpp:460-490 | the writer is joined and the WAV writer closed; with a sound writer the file is the header patched as far as the patch gets, plus every accepted byte, and the stream stays good exactly when both sizes landed; a sound drain and a successful final flush keep a sound writer sound |
| Paths.LastDot | src/RecordingUtils.cpp:32 | the rightmost period, with none after it |
| Paths.ExtensionShape | src/RecordingUtils.cpp:61-62 | a name is its stem followed by its extension, which is empty or a period without another period |
| Paths.ReplaceExtensionShape | src/RecordingUtils.cpp:40 | replacing the extension of a name with a stem keeps the stem and gives exactly the new extension, with its period added when it was written without one |
| Paths.LastDotAppend | src/SegmentNaming.cpp:15-18 | the rightmost period of a + b is b's when b has one, and a's otherwise |
| Paths.AppendedExtension | src/SegmentNaming.cpp:16-18 | appending a proper extension gives a name with exactly that extension and the old name as stem |
| Paths.AppendedNoDot | src/SegmentNaming.cpp:14 | appending text without a period keeps an empty extension empty |
| SegmentNaming.SegmentStem | src/SegmentNaming.cpp:8-12 | the base stem, or "segment" when it is empty |
| SegmentNaming.SegmentNumber | src/SegmentNaming.cpp:14 | at least three decimal digits |
| SegmentNaming.BuildSegmentPath | src/SegmentNaming.cpp:6-20 | the segment stays in the base path's directory |
| SegmentNaming.SegmentNumberValue | src/SegmentNaming.cpp:14 | the number reads back as index + 1 and is never cut to three digits |
| SegmentNaming.SegmentKeepsExtension | src/SegmentNaming.cpp:6-20 | a segment keeps the base's extension, and its stem is the segment stem, "_" and the number |
| SegmentNaming.UnnumberedStemHasNoExtension | src/SegmentNaming.cpp:16-18 | without an extension the segment name has none |
| SegmentNaming.SegmentPathInjective | src/SegmentNaming.cpp:14 | distinct indices give distinct paths |
| RecordingUtils.EnsureExtensionResult | src/RecordingUtils.cpp:31-43 | the result keeps the directory and the stem and has the desired extension up to case |
| RecordingUtils.EnsureExtension | src/RecordingUtils.cpp:31-43 | keeps the directory; keeps the path when the extension already matches up to case, and otherwise only replaces its extension |
| RecordingUtils.EnsureExtensionIdempotent | src/RecordingUtils.cpp:39-42 | applying it twice is applying it once |
| RecordingUtils.EnsureUniquePath | src/RecordingUtils.cpp:45-76 | an empty or free path is kept; otherwise the first free stem_001..stem_9999, or the path itself when all collide |
| RecordingUtils.CandidateShape | src/RecordingUtils.cpp:60-70 | alternatives keep the directory and the extension, and distinct numbers give distinct paths |
| RecordingUtils.SegmentPairs | src/RecordingUtils.cpp:87-89 | the i-th conversion is segment i of the WAV base to segment i of the MP3 base |
| RecordingUtils.ConvertRecordedSegmentsToMp3 | src/RecordingUtils.cpp:78-97 | converts segments in order; stops at the first missing WAV segment or failed conversion and says which |
| RecordingUtils.SegmentTargetsDistinct | src/RecordingUtils.cpp:87-94 | no two segments convert into the same MP3 file |
| CommandLine.SpaceCount | src/main.cpp:54 | the white space stoi skips |
| CommandLine.WholeInt | src/main.cpp:51-63 | an accepted text is an int that ends in a digit |
| CommandLine.ParseInt | src/main.cpp:51-63 | succeeds exactly when stoi consumes the whole text; on failure the value is unchanged |
| CommandLine.WholeIntOfDecimal | src/main.cpp:51-63 | decimal text, with or without a minus sign, parses to its value |
| CommandLine.WholeIntSpaceAndTail | src/main.cpp:54-57 | leading white space is skipped; a trailing non-digit makes the text invalid |
| CommandLine.SpellingRecognised | src/main.cpp:69-133 | every option is recognised by its spelling, and -h as help |
| CommandLine.ParseFromFlag | src/main.cpp:69-72 | a flag sets its field and consumes only itself |
| CommandLine.ParseFromValue | src/main.cpp:73-131 | a value option consumes exactly one more argument |
| CommandLine.ParseArgs | src/main.cpp:65-139 | the index loop equals the left-to-right specification, skipping argv[0] |
| CommandLine.ParseArgsSpec | src/main.cpp:65-139 | no arguments after the program give the defaults; an unknown argument reported is one of the arguments after the program; a missing value is reported only for a value option that is the last argument |
| CommandLine.ParseFrom | src/main.cpp:67-136 | a flag once set is never cleared; an unknown argument reported is one of the arguments and no option; a missing value is reported only for a value option that is the last argument |
| CommandLine.SetValue | src/main.cpp:73-131 | a value option never clears a flag, and the only error it reports is an invalid value for that option |
| CommandLine.SetFlagInBounds | src/main.cpp:69-72 | flags keep the option bounds |
| CommandLine.SetValueInBounds | src/main.cpp:78-125 | an accepted value meets its option's bound |
| CommandLine.ParsedInBounds | src/main.cpp:78-125 | accepted options have device-index >= 0, seconds > 0, latency > 0, watchdog >= 100 and buffer >= 200 |
| CommandLine.ParseAppend | src/main.cpp:67-137 | arguments are handled left to right, and a later option overwrites an earlier one |
| CommandLine.TrailingValueOption | src/main.cpp:74-76 | a value option at the end is missing its value |
| CommandLine.UnknownArgumentRefused | src/main.cpp:134-136 | an unknown argument is an error wherever it stands |
| CommandLine.FlagParses | src/main.cpp:69-72 | a flag alone parses to that flag set |
| CommandLine.ValueParses | src/main.cpp:91-95 | an option and its value parse to that value set |
| CommandLine.NumberParses | src/main.cpp:73-126 | an integer option with an in-bounds decimal value parses to that number |
| CommandLine.SegmentParses | src/main.cpp:67-137 | each option's arguments parse to that option's field |
| CommandLine.RenderFromParses | src/main.cpp:67-137 | the arguments for the remaining options complete the options |
| CommandLine.RenderParses | src/main.cpp:67-137 | any in-bounds options, written as arguments, parse back to themselves |
| CommandLine.ParseRender | src/main.cpp:65-139 | the same after the program name |
| CommandLine.DefaultsKept | src/main.cpp:209-225 | no options leave RecorderConfig's defaults, apart from the output path |
| CommandLine.ConfigFromOptions | src/main.cpp:209-225 | the given output path or the default one; the three flags as given; each given duration, otherwise its default; no segmenting and no MP3 bitrate |
| CommandLine.ParsedConfigInBounds | src/main.cpp:209-225 | an accepted command line gives a positive duration limit, a positive latency, a watchdog of at least 100 ms and a ring of at least 200 ms |
| HResultUtils.HexDigits | src/HResultUtils.cpp:27-28 | exactly n upper-case hexadecimal digits |
| HResultUtils.HexRoundTrip | src/HResultUtils.cpp:27-28 | a value below 16^n reads back from its n digits |
| HResultUtils.U32Of | src/HResultUtils.cpp:28 | static_cast<uint32_t>: the result is 32-bit and keeps non-negative values |
| HResultUtils.U32OfNegative | src/HResultUtils.cpp:28 | a negative HRESULT becomes hr + 2^32 |
| HResultUtils.TrimLineEnds | src/HResultUtils.cpp:22-24 | a prefix of the message, not ending in CR or LF, with only CRs and LFs removed |
| HResultUtils.TrimLineEndsUnique | src/HResultUtils.cpp:22-24 | the trimmed message is the only such prefix |
| HResultUtils.TrimLineEndsIdempotent | src/HResultUtils.cpp:22-24 | trimming twice is trimming once |
| HResultUtils.TrimMessage | src/HResultUtils.cpp:22-24 | the pop_back loop yields the trimmed message |
| HResultUtils.HResultCode | src/HResultUtils.cpp:26-28 | the code part is ten characters |
| HResultUtils.DescribeHResultW | src/HResultUtils.cpp:13-33 | equals the description of the code and the trimmed message |
| HResultUtils.DescriptionReadsBack | src/HResultUtils.cpp:26-31 | "0x" and eight upper-case digits that read back as the unsigned HRESULT, then " (message)" exactly when the trimmed message is not empty |
| HResultUtils.Utf16Units | src/HResultUtils.cpp:8-10 | a character below 0x10000 is one 16-bit unit, itself; any other is a high and a low surrogate |
| HResultUtils.SurrogatesReadBack | src/HResultUtils.cpp:8-10 | a surrogate pair decodes back to its character |
| HResultUtils.Utf16 | src/HResultUtils.cpp:8-10 | a wide string has at least one unit per character, exactly its characters when all are below 0x10000 |
| HResultUtils.Utf16Append | src/HResultUtils.cpp:8-10 | the units of a joined string are the joined units of its parts |
| HResultUtils.NarrowFromWide | src/HResultUtils.cpp:8-10 | one byte per UTF-16 unit of the wide string, each unit narrowed to its low byte |
| HResultUtils.NarrowSplitsAstral | src/HResultUtils.cpp:8-10 | a character beyond 0x10000 narrows to two bytes, the low bytes of its surrogates |
| HResultUtils.NarrowKeepsAsciiPrefix | src/HResultUtils.cpp:8-10 | characters below 128 at the head of a string narrow to themselves |
| HResultUtils.NarrowKeepsLatin1 | src/HResultUtils.cpp:8-10 | characters below 256 survive narrowing, one byte each |
| HResultUtils.DescribeHResultA | src/HResultUtils.cpp:35-37 | the narrowed wide description |
| HResultUtils.NarrowDescriptionKeepsCode | src/HResultUtils.cpp:35-37 | the narrow description has one byte per UTF-16 unit, so the wide length when the message stays below 0x10000, and the same code part |
| MediaPlayer.PlayFrom | src/MediaFoundationPlayer.cpp:395-402 | Play resumes exactly from Paused, and otherwise starts at 0 |
| MediaPlayer.EventStateMapping | src/MediaFoundationPlayer.cpp:498-538 | exactly the five session transitions report a state, each its own: Started to Playing, Paused, Stopped, Ended, Closed to Idle |
| MediaPlayer.Player.constructor | src/MediaFoundationPlayer.h:69-85 | Idle, with no session, nothing initialised and no pending flags |
| MediaPlayer.Player.NotifyState | src/MediaFoundationPlayer.cpp:136-141 | the state becomes the given one and the listener is told |
| MediaPlayer.Player.NotifyError | src/MediaFoundationPlayer.cpp:143-148 | the state becomes Error whatever it was |
| MediaPlayer.Player.Initialize | src/MediaFoundationPlayer.cpp:61-79 | returns true at once when already initialised; otherwise a COM failure other than a changed mode, or a failed MFStartup, is an error reported to the listener; COM is owned exactly after S_OK or S_FALSE |
| MediaPlayer.Player.CloseSession | src/MediaFoundationPlayer.cpp:150-165 | an open session is closed and shut down; every flag and the duration are cleared; the state is Idle |
| MediaPlayer.Player.Shutdown | src/MediaFoundationPlayer.cpp:81-91 | the session is closed (calls, cleared flags and duration, an Idle notice), then Media Foundation and COM are shut down; the listener is kept |
| MediaPlayer.Player.OpenFile | src/MediaFoundationPlayer.cpp:328-378 | succeeds exactly when every step does; a failed Initialize reports an error and changes nothing else; otherwise the old session is closed and shut down, Idle then Opening are reported, a created session has its events requested, every flag and the duration are reset, and a later failure reports an error and ends in Error |
| MediaPlayer.Player.Play | src/MediaFoundationPlayer.cpp:386-408 | a no-op without a session; only notes a pending Play before the topology is ready; otherwise starts, resuming from Paused |
| MediaPlayer.Player.Pause | src/MediaFoundationPlayer.cpp:410-418 | pauses an open session; a failure is an error |
| MediaPlayer.Player.Stop | src/MediaFoundationPlayer.cpp:420-428 | stops an open session; a failure is an error |
| MediaPlayer.Player.SeekTo | src/MediaFoundationPlayer.cpp:430-452 | refused without a session or a ready topology, changing nothing; otherwise restarts at the position and, when paused, notes a pause to follow, leaving the other flags; a failed start reports an error |
| MediaPlayer.Player.HandleTopologyReady | src/MediaFoundationPlayer.cpp:454-488 | the topology is ready, the duration and MediaOpened are reported, and a pending Play is cleared and carried out once; no other flag changes |
| MediaPlayer.Player.HandleSessionEvent | src/MediaFoundationPlayer.cpp:490-544 | a failed read or status is an error; a topology status that is not ready changes nothing; a ready one is handled and may start a pending Play; transitions report their state; a start after a seek while paused pauses again; the flags and notifications of each case; events are requested again except after a failed read |
| MediaPlayer.Player.HandleEventKind | src/MediaFoundationPlayer.cpp:505-538 | the switch on the event type: each state, call and notification it produces |
| MediaPlayer.PlayBeforeTopologyReady | src/MediaFoundationPlayer.cpp:386-393 | a Play before the topology is ready starts the session from 0 once it is ready |
| MediaPlayer.SeekWhilePaused | src/MediaFoundationPlayer.cpp:430-444 | a seek while paused restarts and then pauses the session again |
| GuiApp.DigitRun | src/GuiApp.cpp:171 | the longest run of leading digits |
| GuiApp.LeadingInt | src/GuiApp.cpp:171 | a value stoi reads is an int |
| GuiApp.LeadingIntExtendsWholeInt | src/GuiApp.cpp:171 | where the whole text is an integer the bitrate field reads the same value; text with a trailing non-digit is read here but refused by ParseInt |
| GuiApp.BitrateBounds | src/GuiApp.cpp:165-178 | the fallback for empty or non-numeric text; otherwise the integer clamped to [32, 320] |
| GuiApp.GetBitrateFromEdit | src/GuiApp.cpp:165-178 | the fallback, or a bitrate within [32, 320]; the fallback for empty text or text without a leading integer |
| GuiApp.InitialBitrate | src/GuiApp.cpp:255 | the initial field text "192" reads as 192 |
| GuiApp.OutputPathFor | src/GuiApp.cpp:189-194 | the output path gets .mp3 or .wav by the check box, up to case |
| GuiApp.AppState.constructor | src/GuiApp.cpp:234-275 | the output box holds the default output path; not running, MP3 checked, bitrate 192, Stop disabled |
| GuiApp.AppState.EnableControlsForRun | src/GuiApp.cpp:85-91 | Start and the settings enabled exactly when not running, Stop exactly when running |
| GuiApp.AppState.StartRecording | src/GuiApp.cpp:180-205 | a no-op while running; otherwise fills an empty path, forces the extension, clears the stop flag, runs, and hands the job to the worker; the bitrate box, the check box and the default bitrate are kept, and the worker is joinable |
| GuiApp.AppState.StopRecording | src/GuiApp.cpp:207-213 | a no-op unless running; otherwise raises the stop flag; the boxes and the default bitrate are kept |
| GuiApp.AppState.CleanupWorker | src/GuiApp.cpp:215-223 | joins the worker, clears both flags and re-enables the controls; the boxes and the default bitrate are kept |
| GuiApp.StartStopCycle | src/GuiApp.cpp:180-223 | start, stop and cleanup return the window to idle with one job handed out: every control, box and flag as before apart from the output box and the log |

## Left out

- Threads, atomics and Win32 events: the capture thread, the writer thread and
  the stop watcher are one sequence of steps. Wait outcomes are inputs.
- WASAPI and COM calls are inputs: device activation, `GetMixFormat`,
  `Initialize`, `GetBuffer`, `Start` and `Stop`. The engine's packet size
  (frames × nBlockAlign bytes) and nBlockAlign >= 1 are requires of
  `Loopback.Record`.
- The LAME encoder and its dynamic loading: the MP3 stream writer records
  the frame-aligned blocks it would encode, and the file conversion the
  samples it would pass.
- Floating point: `FloatToInt16`, the IEEE-float branches of
  `ConvertSamples`, `SetVolume`, and the `1.25 *` buffer sizing.
- `Logger`, status reports and console output: I/O only.
- `DefaultOutputPath`: it reads the clock, so it is a parameter.
- `DeviceEnumerator`: COM wrappers.
- The GUI window, its message loop, the file dialog, `RunRecorder` and log
  posting. The texts of the edit boxes are fields, and reading text as a
  path is a parameter.
- `CreateMediaSource`, topology building, `SessionCallback`,
  `GetPosition100ns` and `EnsureEventPump`: their outcomes are inputs.
- `MixMicrophoneIfEnabled`: an empty stub.
- Pause, segment rollover and live MP3 in `Record`: the code does not have
  them.
- Path separators and root names: a path is its parent directory and file
  name.
- Paths.Extension, Paths.Stem, Paths.ReplaceExtension: they carry no
  contract of their own. Their properties are the lemmas
  `Paths.ExtensionShape` and `Paths.ReplaceExtensionShape`, which callers
  invoke where they need them, so the many file-name terms in the
  segment and GUI proofs do not each bring those facts along.
- Case folding is ASCII only, and `isspace` is the ASCII set.
- SpscRing.SpscByteRingBuffer.Write: the 64-bit cursors are unbounded
  naturals, so their wrap-around after 2^64 bytes is not modelled.
- Loopback.Record: the 64-bit frame counters and the 32-bit statistics
  counters are unbounded, so their wrap-around is not modelled.
- Mp3Converter.DataBytes: stream offsets are unbounded naturals, so
  `std::streamoff` overflow is not modelled.
- Loopback.RingCapacityBounds: the `min` with SIZE_MAX is shown never to
  apply, not modelled.
- RecordingUtils.EnsureExtensionIdempotent: it requires a non-empty file
  name. For an empty file name `replace_extension` makes the extension the
  whole name, and a second call changes it again.
- Wav.WavWriter.Close: the stream's own buffer is not modelled. The file is
  every byte written, so a `close` that fails to write out buffered bytes is
  not modelled, and a failed patch is an input that says how far the patch
  got.
- Wav.WavWriter.Write: a failed write is an input giving how many bytes
  landed; which bytes a real stream buffers or drops is not modelled.
- Mp3Converter.Mp3StreamWriter.Write: a negative return from the encoder is
  not modelled, because the encoder is not. The same holds for
  Mp3Converter.Mp3StreamWriter.Close and its encoder flush.
- MediaPlayer.Player.HandleTopologyReady: it requires an open session,
  because the source uses the session without checking for it. The same holds for
  MediaPlayer.Player.HandleSessionEvent.
- A file name ".." is excluded from the extension lemmas, because it has no
  extension.
