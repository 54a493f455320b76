/** The loopback capture of LoopbackRecorder::Record: the capture loop takes
    packets from the audio engine, stages them and pushes them into the
    SPSC ring; the writer loop drains the ring into the WAV writer.

    The two threads are modelled as one sequence of steps. The audio engine,
    the waits on Win32 events and the disk are oracles: a `CaptureEvent`
    says what the capture thread saw next (or that the writer thread ran
    one turn of its loop), a `SpaceWait` says how a wait for ring space
    ended and which writer turns ran meanwhile, and a `WriterTurn` gives the
    outcomes of one writer turn. */
module Loopback {
  import opened Common
  import opened WaveFormat
  import opened SpscRing
  import opened Wav
  import opened Paths
  import Mp3Converter

  // ---------------------------------------------------------------------
  // Configuration and statistics
  // ---------------------------------------------------------------------

  /** RecorderConfig: durations in seconds and milliseconds, as counted by
      std::chrono. */
  datatype RecorderConfig = RecorderConfig(
    outputPath: Path,
    maxDurationSec: Option<int>,
    enableMicMix: bool,
    latencyHintMs: int,
    watchdogTimeoutMs: int,
    failOnGlitch: bool,
    ringBufferMs: int,
    quietStatusUpdates: bool,
    segmentDurationSec: Option<int>,
    segmentBytes: Option<nat>,
    mp3BitrateKbps: Option<nat>)

  /** The defaults of RecorderConfig's member initialisers. */
  function DefaultConfig(): (c: RecorderConfig)
    ensures c.maxDurationSec.None? && !c.enableMicMix && !c.failOnGlitch && !c.quietStatusUpdates
    ensures c.latencyHintMs == 200 && c.watchdogTimeoutMs == 4000 && c.ringBufferMs == 2000
    ensures c.segmentDurationSec.None? && c.segmentBytes.None? && c.mp3BitrateKbps.None?
  {
    RecorderConfig(Path("", ""), None, false, 200, 4000, false, 2000, false, None, None, None)
  }

  datatype RecorderStats = RecorderStats(
    framesCaptured: nat,
    silentFrames: nat,
    glitchCount: nat,
    watchdogTimeouts: nat,
    ringBufferWaits: nat,
    ringBufferTimeouts: nat,
    writerWaitTimeouts: nat,
    framesDropped: nat,
    deviceInvalidated: bool,
    framesWhilePaused: nat,
    segmentsWritten: nat)

  // ---------------------------------------------------------------------
  // Format acceptance
  // ---------------------------------------------------------------------

  /** IsSupportedFormat: 32-bit float or 16-bit PCM, either as a plain tag
      or as WAVE_FORMAT_EXTENSIBLE with the matching SubFormat. `None` is
      a missing format; the SubFormat is read from the memory after the
      18-byte header, which for an extensible format holds it. */
  predicate IsSupportedFormat(format: Option<FormatBlock>): (ok: bool)
    ensures ok ==> format.Some? && format.value.header.bitsPerSample in {16, 32}
    ensures ok ==> format.value.header.formatTag in {WAVE_FORMAT_PCM, WAVE_FORMAT_IEEE_FLOAT, WAVE_FORMAT_EXTENSIBLE}
    ensures format.Some? && format.value.header.formatTag == WAVE_FORMAT_PCM ==>
              (ok <==> format.value.header.bitsPerSample == 16)
    ensures format.Some? && format.value.header.formatTag == WAVE_FORMAT_IEEE_FLOAT ==>
              (ok <==> format.value.header.bitsPerSample == 32)
    ensures (format.Some? && format.value.header.formatTag == WAVE_FORMAT_EXTENSIBLE
             && SubFormat(format.value.tail).None?) ==> !ok
  {
    && format.Some?
    && var f := format.value.header;
       var sub := SubFormat(format.value.tail);
       || (f.formatTag == WAVE_FORMAT_IEEE_FLOAT && f.bitsPerSample == 32)
       || (f.formatTag == WAVE_FORMAT_PCM && f.bitsPerSample == 16)
       || (f.formatTag == WAVE_FORMAT_EXTENSIBLE && sub == Some(SUBTYPE_PCM) && f.bitsPerSample == 16)
       || (f.formatTag == WAVE_FORMAT_EXTENSIBLE && sub == Some(SUBTYPE_IEEE_FLOAT) && f.bitsPerSample == 32)
  }

  /** Whatever the recorder accepts, the converter can read back from the
      file it writes: the normalised format is 16-bit PCM or 32-bit float. */
  lemma SupportedFormatConverts(block: FormatBlock)
    requires block.WellFormed() && IsSupportedFormat(Some(block))
    requires block.header.formatTag == WAVE_FORMAT_EXTENSIBLE ==> block.header.cbSize >= 22
    ensures Mp3Converter.SampleKindOf(NormalizedFormat(block.header, block.tail[..block.header.cbSize]))
              != Mp3Converter.UnsupportedSamples
  {
    var ext := block.tail[..block.header.cbSize];
    if block.header.formatTag == WAVE_FORMAT_EXTENSIBLE {
      assert |block.tail| >= |ext| == block.header.cbSize >= 22;
      assert forall i :: 6 <= i < 22 ==> ext[i] == block.tail[i];
      assert ext[6..22] == block.tail[6..22];
    }
  }

  // ---------------------------------------------------------------------
  // Buffer sizing
  // ---------------------------------------------------------------------

  const HNS_PER_MS: nat := 10000
  const U64_LIMIT: int := 0x1_0000_0000_0000_0000

  /** The requested engine buffer in 100-ns units: the latency hint clamped
      to [10, 500] ms. */
  function BufferDuration(latencyHintMs: int): (d: nat)
    ensures 10 * HNS_PER_MS <= d <= 500 * HNS_PER_MS && d % HNS_PER_MS == 0
    ensures 10 <= latencyHintMs <= 500 ==> d == latencyHintMs * HNS_PER_MS
  {
    Clamp(latencyHintMs, 10, 500) * HNS_PER_MS
  }

  /** The frames the ring holds: the ring duration clamped to
      [200, 10000] ms at the sample rate, and at least one. */
  function RingFrames(sampleRate: nat, ringBufferMs: int): (n: nat)
    ensures n >= 1
  {
    Max(sampleRate * Clamp(ringBufferMs, 200, 10000) / 1000, 1)
  }

  /** Counting the whole frames of `accepted` more bytes keeps the frame
      count within the bytes. */
  lemma WholeFramesFit(frames: nat, accepted: nat, bytesPerFrame: nat, bytes: nat)
    requires bytesPerFrame >= 1 && frames * bytesPerFrame <= bytes
    ensures (frames + accepted / bytesPerFrame) * bytesPerFrame <= bytes + accepted
  {
    var q := accepted / bytesPerFrame;
    assert q * bytesPerFrame <= accepted;
    assert (frames + q) * bytesPerFrame == frames * bytesPerFrame + q * bytesPerFrame;
  }

  /** The ring capacity in bytes: whole frames, and never less than two. */
  function RingCapacity(sampleRate: nat, ringBufferMs: int, bytesPerFrame: nat): (c: nat)
    ensures c >= 2 * bytesPerFrame
    ensures c >= RingFrames(sampleRate, ringBufferMs) * bytesPerFrame
    ensures c == 2 * bytesPerFrame || c == RingFrames(sampleRate, ringBufferMs) * bytesPerFrame
  {
    Max(RingFrames(sampleRate, ringBufferMs) * bytesPerFrame, 2 * bytesPerFrame)
  }

  /** The ring holds a whole number of frames, at least two, and at least
      the clamped duration; for 32-bit rates and 16-bit frames it fits a
      64-bit size, so the `min` with SIZE_MAX never applies. */
  lemma RingCapacityBounds(sampleRate: nat, ringBufferMs: int, bytesPerFrame: nat)
    requires bytesPerFrame >= 1
    ensures var c := RingCapacity(sampleRate, ringBufferMs, bytesPerFrame);
      && c % bytesPerFrame == 0
      && c >= 2 * bytesPerFrame
      && c >= RingFrames(sampleRate, ringBufferMs) * bytesPerFrame
      && (IsU32(sampleRate) && IsU16(bytesPerFrame) ==> c < U64_LIMIT)
  {
    var n := RingFrames(sampleRate, ringBufferMs);
    ModUnique(n * bytesPerFrame, n, 0, bytesPerFrame);
    ModUnique(2 * bytesPerFrame, 2, 0, bytesPerFrame);
    if IsU32(sampleRate) && IsU16(bytesPerFrame) {
      var ms := Clamp(ringBufferMs, 200, 10000);
      MulMonotone(sampleRate, U32_LIMIT, ms);
      MulMonotone(ms, 10000, U32_LIMIT);
      assert sampleRate * ms / 1000 <= U32_LIMIT * 10;
      MulMonotone(n, U32_LIMIT * 10, bytesPerFrame);
      MulMonotone(bytesPerFrame, U16_LIMIT, U32_LIMIT * 10);
    }
  }

  lemma MulMonotone(a: nat, b: nat, c: nat)
    requires a <= b
    ensures a * c <= b * c
  {
  }

  /** The writer reads up to 512 frames or 16 KiB at a time, but never more
      than the ring holds. */
  function WriterChunkBytes(capacity: nat, bytesPerFrame: nat): (n: nat)
    ensures n <= capacity
    ensures n == capacity || n == Max(bytesPerFrame * 512, 16384)
    ensures capacity >= 1 ==> n >= 1
  {
    Min(capacity, Max(bytesPerFrame * 512, 16384))
  }

  /** The writer's wait: half the watchdog (C++ division), within [5, 500]
      ms. */
  function WriterWaitMs(watchdogMs: int): (ms: int)
    ensures 5 <= ms <= 500
    ensures 10 <= watchdogMs <= 1000 && watchdogMs % 2 == 0 ==> ms == watchdogMs / 2
  {
    Clamp(TruncDiv(watchdogMs, 2), 5, 500)
  }

  /** The capture thread's wait: the watchdog within [50, 60000] ms. */
  function CaptureWaitMs(watchdogMs: int): (ms: int)
    ensures 50 <= ms <= 60000
    ensures 50 <= watchdogMs <= 60000 ==> ms == watchdogMs
  {
    Clamp(watchdogMs, 50, 60000)
  }

  /** The frame limit: the sample rate times the maximum duration, a
      product taken in 64 unsigned bits, so that a negative duration wraps
      round to a limit near 2^64. */
  function FrameLimit(sampleRate: nat, maxDurationSec: Option<int>): (limit: Option<int>)
    ensures limit.Some? <==> maxDurationSec.Some?
    ensures limit.Some? ==> 0 <= limit.value < U64_LIMIT
    ensures limit.Some? && 0 <= sampleRate * maxDurationSec.value < U64_LIMIT ==>
              limit.value == sampleRate * maxDurationSec.value
    ensures limit.Some? && -U64_LIMIT <= sampleRate * maxDurationSec.value < 0 ==>
              limit.value == U64_LIMIT + sampleRate * maxDurationSec.value
  {
    if maxDurationSec.Some? then Some((sampleRate * maxDurationSec.value) % U64_LIMIT) else None
  }

  /** The writer flushes after about one second of audio: the bytes of
      `sampleRate` whole frames. */
  function FlushThreshold(bytesPerFrame: nat, sampleRate: nat): (t: nat)
    ensures bytesPerFrame >= 1 ==> t % bytesPerFrame == 0 && t / bytesPerFrame == sampleRate
  {
    var t := bytesPerFrame * sampleRate;
    if bytesPerFrame >= 1 then
      ModUnique(t, sampleRate, 0, bytesPerFrame);
      t
    else t
  }

  // ---------------------------------------------------------------------
  // Audio errors
  // ---------------------------------------------------------------------

  /** AUDCLNT_E_DEVICE_INVALIDATED, 0x88890004, as a signed HRESULT. */
  const AUDCLNT_E_DEVICE_INVALIDATED: int := 0x8889_0004 - U32_LIMIT

  /** handleAudioError's effect on the statistics: the device-invalidated
      flag is raised exactly by that error. */
  function AfterAudioError(deviceInvalidated: bool, hr: int): (flag: bool)
    ensures flag <==> deviceInvalidated || hr == AUDCLNT_E_DEVICE_INVALIDATED
    ensures !deviceInvalidated ==> (flag <==> hr == AUDCLNT_E_DEVICE_INVALIDATED)
  {
    if hr == AUDCLNT_E_DEVICE_INVALIDATED then true else deviceInvalidated
  }

  // ---------------------------------------------------------------------
  // What the threads see
  // ---------------------------------------------------------------------

  /** How the writer thread's wait on the data-ready event ended. */
  datatype WriterWait = DataSignalled | WriterTimedOut | WriterWaitFailed

  /** The outcomes of one turn of the writer loop: its wait when the ring
      is empty, whether the WAV write succeeds (and how many of its bytes
      reach the file when it does not), and whether a flush succeeds. */
  datatype WriterTurn = WriterTurn(wait: WriterWait, writeOk: bool, landed: nat, flushOk: bool)

  /** How a wait for ring space ended: signalled, after the writer ran the
      given turns, or not signalled in time (any other result). */
  datatype SpaceWait = SpaceSignalled(writerTurns: seq<WriterTurn>) | SpaceTimedOut

  /** How pushToRing ended. */
  datatype PushEnd = AllAccepted | FatalAtFullRing | TimedOut

  /** A packet from GetBuffer: its frame count, its bytes and its flags. */
  datatype Packet = Packet(frames: nat, samples: seq<byte>, silent: bool, discontinuity: bool)

  /** One GetBuffer call: a packet, with the outcomes of the waits its push
      meets, or a failure. */
  datatype PacketStep = Captured(packet: Packet, waits: seq<SpaceWait>) | BufferFailed(hr: int)

  /** What GetNextPacketSize says after the last packet of a burst: zero,
      or a failure. Before every other packet it says "more". */
  datatype BurstEnd = NoMorePackets | SizeFailed(hr: int)

  /** The next thing the capture thread sees, or a turn of the writer
      thread taken in between. */
  datatype CaptureEvent =
    | WriterRan(turn: WriterTurn)
    | StopRequested              // shouldStop() or the user stop event
    | WatchdogTimeout            // the samples-ready wait timed out
    | UnexpectedWait             // any other wait result
    | SamplesReady(packets: seq<PacketStep>, end: BurstEnd)

  /** Why the capture loop ended. */
  datatype CaptureEnd =
    | EventsExhausted   // no more events: the recording was ended from outside
    | WriterFailed      // the writer thread raised its fatal error
    | Stopped           // shouldStop() or the user stop event
    | WatchdogAbort     // a samples-ready timeout under failOnGlitch
    | WaitFailed        // the samples-ready wait returned something else
    | AudioFailed       // GetNextPacketSize or GetBuffer failed
    | GlitchAbort       // a data discontinuity under failOnGlitch
    | OverrunAbort      // a ring-space timeout under failOnGlitch
    | LimitReached      // the maximum duration was recorded

  /** A writer turn that cannot fail: its wait, its write and its flush
      all succeed. */
  predicate SoundTurn(t: WriterTurn)
  {
    t.wait != WriterWaitFailed && t.writeOk && t.flushOk
  }

  predicate SoundTurns(turns: seq<WriterTurn>)
  {
    forall k :: 0 <= k < |turns| ==> SoundTurn(turns[k])
  }

  /** Every writer turn taken during a signalled wait for ring space is sound. */
  predicate SoundWaits(waits: seq<SpaceWait>)
  {
    forall j :: 0 <= j < |waits| && waits[j].SpaceSignalled? ==> SoundTurns(waits[j].writerTurns)
  }

  predicate SoundBurst(packets: seq<PacketStep>)
  {
    forall i :: 0 <= i < |packets| && packets[i].Captured? ==> SoundWaits(packets[i].waits)
  }

  /** Every writer turn an event takes, directly or while a push waits for
      ring space, is sound. */
  predicate SoundEvent(e: CaptureEvent)
  {
    && (e.WriterRan? ==> SoundTurn(e.turn))
    && (e.SamplesReady? ==> SoundBurst(e.packets))
  }

  predicate SoundEvents(events: seq<CaptureEvent>)
  {
    forall i :: 0 <= i < |events| ==> SoundEvent(events[i])
  }

  /** Every turn of the writer's final drain is sound. */
  ghost predicate SoundDrain(turnAt: nat -> WriterTurn)
  {
    forall i: nat :: SoundTurn(turnAt(i))
  }

  /** The bytes a packet stages: zeros for a silent packet, else its data. */
  function Staged(p: Packet, bytesPerFrame: nat): (staged: seq<byte>)
    requires p.silent || |p.samples| == p.frames * bytesPerFrame
    ensures |staged| == p.frames * bytesPerFrame
    ensures p.silent ==> forall i :: 0 <= i < |staged| ==> staged[i] == 0
  {
    if p.silent then seq(p.frames * bytesPerFrame, _ => 0 as byte) else p.samples
  }

  predicate PacketFits(p: Packet, bytesPerFrame: nat)
  {
    p.silent || |p.samples| == p.frames * bytesPerFrame
  }

  // ---------------------------------------------------------------------
  // The capture session
  // ---------------------------------------------------------------------

  /** Pushing the next `n` bytes after the first `i` extends the pushed
      prefix to `i + n` bytes. */
  lemma PrefixGrows<T>(s: seq<T>, i: nat, n: nat)
    requires i + n <= |s|
    ensures s[..i] + s[i..][..n] == s[..i + n]
  {
    assert forall k :: 0 <= k < i + n ==> (s[..i] + s[i..][..n])[k] == s[k];
  }

  /** The WAV payload is a prefix of what the writer read from the ring,
      and all of it while the writer is sound. */
  ghost predicate WriterMatchesRing(wav: WavWriter, ring: SpscByteRingBuffer, fatalError: bool)
    reads wav, ring
  {
    && wav.Payload <= ring.Delivered
    && (!fatalError ==> wav.good && wav.isOpen && !wav.finalized && wav.Payload == ring.Delivered)
  }

  /** The state Record shares between its capture loop and its writer
      loop: the ring, the WAV writer, the statistics, the writer's flush
      counter and the fatal-error flag the writer raises when it fails. */
  class CaptureSession {
    const bytesPerFrame: nat
    const failOnGlitch: bool
    const frameLimit: Option<int>
    const chunkBytes: nat
    const flushThreshold: nat
    const ring: SpscByteRingBuffer
    const wav: WavWriter

    var framesRecorded: nat
    var silentFrames: nat
    var glitchCount: nat
    var watchdogTimeouts: nat
    var ringBufferWaits: nat
    var ringBufferTimeouts: nat
    var framesDropped: nat
    var deviceInvalidated: bool
    /** writerFailed and fatalError: the writer thread raised an error and
        has ended. */
    var fatalError: bool
    var writerWaitTimeouts: nat
    var bytesPendingFlush: nat

    /** While the writer is sound, the WAV payload is exactly what it has
        read from the ring; after a failure it is a prefix of it. Counted
        frames never exceed the bytes the ring accepted. */
    ghost predicate Valid()
      reads this, ring, ring.buffer, wav
    {
      && bytesPerFrame >= 1 && chunkBytes >= 1
      && ring.Valid() && wav.Valid()
      && WriterMatchesRing(wav, ring, fatalError)
      && framesRecorded * bytesPerFrame <= |ring.Accepted|
    }

    function Stats(): RecorderStats
      reads this
    {
      RecorderStats(framesRecorded, silentFrames, glitchCount, watchdogTimeouts, ringBufferWaits,
                    ringBufferTimeouts, writerWaitTimeouts, framesDropped, deviceInvalidated, 0, 1)
    }

    constructor (w: WavWriter, capacity: nat, bpf: nat, glitchFails: bool, limit: Option<int>,
                 chunk: nat, threshold: nat)
      requires w.Valid() && w.good && w.isOpen && !w.finalized && w.Payload == []
      requires bpf >= 1 && chunk >= 1
      ensures Valid() && fresh(ring) && fresh(ring.buffer) && wav == w
      ensures ring.capacity == (if capacity == 0 then 1 else capacity)
      ensures ring.Accepted == [] && ring.Delivered == [] && ring.Contents == []
      ensures bytesPerFrame == bpf && failOnGlitch == glitchFails && frameLimit == limit
      ensures chunkBytes == chunk && flushThreshold == threshold
      ensures Stats() == RecorderStats(0, 0, 0, 0, 0, 0, 0, 0, false, 0, 1)
      ensures !fatalError && bytesPendingFlush == 0
    {
      bytesPerFrame, failOnGlitch, frameLimit := bpf, glitchFails, limit;
      chunkBytes, flushThreshold := chunk, threshold;
      ring := new SpscByteRingBuffer(capacity);
      wav := w;
      framesRecorded, silentFrames, glitchCount, watchdogTimeouts := 0, 0, 0, 0;
      ringBufferWaits, ringBufferTimeouts, framesDropped := 0, 0, 0;
      deviceInvalidated, fatalError := false, false;
      writerWaitTimeouts, bytesPendingFlush := 0, 0;
    }

    /** One turn of the writer loop: read up to a chunk from the ring; on
        an empty ring wait (a timeout is counted, a failed wait is fatal);
        otherwise write the chunk and flush after about a second of audio.
        A failed write or flush is fatal. Once the writer has failed its
        thread is gone and a turn does nothing. */
    method WriterStep(turn: WriterTurn)
      requires Valid()
      modifies this, ring, wav
      ensures Valid()
      ensures Stats() == old(Stats()).(writerWaitTimeouts := writerWaitTimeouts)
      ensures ring.Accepted == old(ring.Accepted)
      ensures old(fatalError) ==> fatalError
      ensures old(fatalError) ==> ring.Delivered == old(ring.Delivered) && writerWaitTimeouts == old(writerWaitTimeouts)
      ensures !old(fatalError) && SoundTurn(turn) ==> !fatalError
      ensures !old(fatalError) ==>
                var n := Min(chunkBytes, |old(ring.Contents)|);
                && ring.Delivered == old(ring.Delivered) + old(ring.Contents)[..n]
                && ring.Contents == old(ring.Contents)[n..]
                && (n == 0 ==>
                      && fatalError == (turn.wait == WriterWaitFailed)
                      && writerWaitTimeouts == old(writerWaitTimeouts) + (if turn.wait == WriterTimedOut then 1 else 0)
                      && bytesPendingFlush == old(bytesPendingFlush))
                && (n > 0 ==>
                      && writerWaitTimeouts == old(writerWaitTimeouts)
                      && (fatalError <==>
                            (!turn.writeOk || (old(bytesPendingFlush) + n >= flushThreshold && !turn.flushOk)))
                      && (!fatalError ==>
                            bytesPendingFlush == (if old(bytesPendingFlush) + n >= flushThreshold then 0
                                                  else old(bytesPendingFlush) + n)))
    {
      if fatalError {
        return;
      }
      var count, bytes := ring.Read(chunkBytes);
      if count == 0 {
        match turn.wait {
          case WriterTimedOut => writerWaitTimeouts := writerWaitTimeouts + 1;
          case WriterWaitFailed => fatalError := true;
          case DataSignalled =>
        }
        return;
      }
      var written := wav.Write(bytes, turn.writeOk, turn.landed);
      if written.Fail? {
        fatalError := true;
        return;
      }
      bytesPendingFlush := bytesPendingFlush + count;
      if bytesPendingFlush >= flushThreshold {
        var flushed := wav.Flush(turn.flushOk);
        if flushed.Fail? {
          fatalError := true;
          return;
        }
        bytesPendingFlush := 0;
      }
    }
  
    /** Several writer turns in a row. */
    method RunWriter(turns: seq<WriterTurn>)
      requires Valid()
      modifies this, ring, wav
      ensures Valid()
      ensures Stats() == old(Stats()).(writerWaitTimeouts := writerWaitTimeouts)
      ensures ring.Accepted == old(ring.Accepted)
      ensures old(fatalError) ==> fatalError
      ensures !old(fatalError) && SoundTurns(turns) ==> !fatalError
      ensures !old(fatalError) && fatalError ==> exists k :: 0 <= k < |turns| && !SoundTurn(turns[k])
    {
      for k := 0 to |turns|
        invariant Valid()
        invariant Stats() == old(Stats()).(writerWaitTimeouts := writerWaitTimeouts)
        invariant ring.Accepted == old(ring.Accepted)
        invariant old(fatalError) ==> fatalError
        invariant !old(fatalError) && fatalError ==> exists j :: 0 <= j < k && !SoundTurn(turns[j])
      {
        WriterStep(turns[k]);
      }
    }

    /** One ring.Write of the capture thread. */
    method RingWrite(data: seq<byte>) returns (wrote: nat)
      requires Valid()
      modifies ring, ring.buffer
      ensures Valid()
      ensures wrote <= |data| && ring.Accepted == old(ring.Accepted) + data[..wrote]
      ensures |data| > 0 && old(ring.AvailableToWrite()) > 0 ==> wrote > 0
    {
      wrote := ring.Write(data);
    }

    /** What pushToRing does when the ring took nothing: count the wait,
        give up on a fatal writer error, and otherwise wait for space. */
    method AwaitSpace(wait: Option<SpaceWait>, remaining: nat) returns (end: Option<PushEnd>)
      requires Valid()
      modifies this, ring, wav
      ensures Valid()
      ensures ring.Accepted == old(ring.Accepted)
      ensures old(fatalError) ==> fatalError
      ensures end == None <==> !old(fatalError) && wait.Some? && wait.value.SpaceSignalled?
      ensures end == Some(FatalAtFullRing) <==> old(fatalError)
      ensures end != Some(AllAccepted)
      ensures end == Some(FatalAtFullRing) ==> fatalError
      ensures !old(fatalError) && (wait.Some? ==> SoundWaits([wait.value])) ==> !fatalError
      ensures Stats() == old(Stats()).(
                ringBufferWaits := old(ringBufferWaits) + 1,
                ringBufferTimeouts := old(ringBufferTimeouts) + (if end == Some(TimedOut) then 1 else 0),
                framesDropped := old(framesDropped) + (if end == Some(TimedOut) then remaining / bytesPerFrame else 0),
                writerWaitTimeouts := writerWaitTimeouts)
    {
      ringBufferWaits := ringBufferWaits + 1;
      if fatalError {
        return Some(FatalAtFullRing);
      }
      if wait.Some? && wait.value.SpaceSignalled? {
        assert [wait.value][0] == wait.value;
        RunWriter(wait.value.writerTurns);
        return None;
      }
      ringBufferTimeouts := ringBufferTimeouts + 1;
      framesDropped := framesDropped + remaining / bytesPerFrame;
      end := Some(TimedOut);
    }

    /** One turn of pushToRing's loop, with `accepted` bytes of `staged`
        pushed and `signalled` waits used so far: write the rest into the
        ring, and when the ring took nothing hand the next wait outcome, or
        a timeout when there is none, to AwaitSpace. */
    method PushOnce(staged: seq<byte>, accepted: nat, waits: seq<SpaceWait>, signalled: nat)
      returns (wrote: nat, stopped: Option<PushEnd>)
      requires Valid() && accepted < |staged| && signalled <= |waits|
      modifies this, ring, ring.buffer, wav
      ensures Valid()
      ensures accepted + wrote <= |staged|
      ensures ring.Accepted == old(ring.Accepted) + staged[accepted..][..wrote]
      ensures old(fatalError) ==> fatalError
      ensures wrote > 0 ==> stopped.None? && Stats() == old(Stats())
      ensures stopped != Some(AllAccepted)
      ensures wrote == 0 && stopped.None? ==> signalled < |waits| && waits[signalled].SpaceSignalled?
      ensures stopped == Some(TimedOut) ==> signalled == |waits| || waits[signalled] == SpaceTimedOut
      ensures stopped == Some(FatalAtFullRing) ==> fatalError
      ensures !old(fatalError) && SoundWaits(waits) ==> !fatalError
      ensures wrote == 0 ==> Stats() == old(Stats()).(
                ringBufferWaits := old(ringBufferWaits) + 1,
                ringBufferTimeouts := old(ringBufferTimeouts) + (if stopped == Some(TimedOut) then 1 else 0),
                framesDropped := old(framesDropped)
                                 + (if stopped == Some(TimedOut) then (|staged| - accepted) / bytesPerFrame else 0),
                writerWaitTimeouts := writerWaitTimeouts)
    {
      wrote := RingWrite(staged[accepted..]);
      if wrote == 0 {
        var wait := if signalled < |waits| then Some(waits[signalled]) else None;
        if signalled < |waits| {
          assert [waits[signalled]][0] == waits[signalled];
        }
        stopped := AwaitSpace(wait, |staged| - accepted);
      } else {
        stopped := None;
      }
    }

    /** pushToRing: write the staged bytes into the ring, waiting for space
        whenever it is full. Every write that takes nothing is counted as a
        ring wait; a fatal writer error then ends the push at once. A wait
        that is not signalled is counted as a timeout, the frames not yet
        pushed are counted as dropped, and the push ends, failing only
        under failOnGlitch. A wait beyond the given outcomes times out. */
    method PushToRing(staged: seq<byte>, waits: seq<SpaceWait>)
      returns (ok: bool, accepted: nat, end: PushEnd, signalled: nat)
      requires Valid()
      modifies this, ring, ring.buffer, wav
      ensures Valid()
      ensures accepted <= |staged| && signalled <= |waits|
      ensures ring.Accepted == old(ring.Accepted) + staged[..accepted]
      ensures end == AllAccepted <==> accepted == |staged|
      ensures forall i :: 0 <= i < signalled ==> waits[i].SpaceSignalled?
      ensures end == TimedOut ==> signalled == |waits| || waits[signalled] == SpaceTimedOut
      ensures end == FatalAtFullRing ==> fatalError
      ensures ok <==> !(end == FatalAtFullRing || (end == TimedOut && failOnGlitch))
      ensures old(fatalError) ==> fatalError
      ensures !old(fatalError) && SoundWaits(waits) ==> !fatalError
      ensures Stats() == old(Stats()).(
                ringBufferWaits := old(ringBufferWaits) + signalled + (if end == AllAccepted then 0 else 1),
                ringBufferTimeouts := old(ringBufferTimeouts) + (if end == TimedOut then 1 else 0),
                framesDropped := old(framesDropped)
                                 + (if end == TimedOut then (|staged| - accepted) / bytesPerFrame else 0),
                writerWaitTimeouts := writerWaitTimeouts)
    {
      accepted, signalled, end := 0, 0, AllAccepted;
      while accepted < |staged|
        invariant Valid()
        invariant accepted <= |staged| && signalled <= |waits|
        invariant ring.Accepted == old(ring.Accepted) + staged[..accepted]
        invariant forall i :: 0 <= i < signalled ==> waits[i].SpaceSignalled?
        invariant old(fatalError) ==> fatalError
        invariant !old(fatalError) && SoundWaits(waits) ==> !fatalError
        invariant Stats() == old(Stats()).(ringBufferWaits := old(ringBufferWaits) + signalled,
                                           writerWaitTimeouts := writerWaitTimeouts)
        invariant end == AllAccepted
        decreases |waits| - signalled + |staged| - accepted
      {
        var wrote, stopped := PushOnce(staged, accepted, waits, signalled);
        if stopped.Some? {
          end := stopped.value;
          break;
        }
        if wrote == 0 {
          signalled := signalled + 1;
        } else {
          PrefixGrows(staged, accepted, wrote);
          accepted := accepted + wrote;
        }
      }
      ok := end == AllAccepted || (end == TimedOut && !failOnGlitch);
    }

    /** The glitches failOnGlitch aborts on: discontinuities, watchdog
        timeouts and ring-space timeouts. */
    function Glitches(): nat
      reads this
    {
      glitchCount + watchdogTimeouts + ringBufferTimeouts
    }

    /** handleAudioError: only the device-invalidated flag changes. */
    method OnAudioError(hr: int)
      requires Valid()
      modifies this
      ensures Valid()
      ensures Stats() == old(Stats()).(deviceInvalidated := AfterAudioError(old(deviceInvalidated), hr))
      ensures fatalError == old(fatalError) && bytesPendingFlush == old(bytesPendingFlush)
    {
      deviceInvalidated := AfterAudioError(deviceInvalidated, hr);
    }

    /** One packet from GetBuffer: a discontinuity is counted and, under
        failOnGlitch, ends the capture before anything is pushed; a silent
        packet is counted and staged as zeros; the staged bytes are pushed
        and only a push that did not fail counts its whole accepted frames
        as recorded; reaching the frame limit ends the capture. */
    method HandlePacket(p: Packet, waits: seq<SpaceWait>) returns (stop: Option<CaptureEnd>, accepted: nat)
      requires Valid() && PacketFits(p, bytesPerFrame)
      modifies this, ring, ring.buffer, wav
      ensures Valid()
      ensures old(fatalError) ==> fatalError
      ensures watchdogTimeouts == old(watchdogTimeouts) && deviceInvalidated == old(deviceInvalidated)
      ensures glitchCount == old(glitchCount) + (if p.discontinuity then 1 else 0)
      ensures stop == Some(GlitchAbort) <==> p.discontinuity && failOnGlitch
      ensures stop == Some(GlitchAbort) ==>
                && Stats() == old(Stats()).(glitchCount := glitchCount) && ring.Accepted == old(ring.Accepted)
                && accepted == 0
      ensures stop != Some(GlitchAbort) ==>
                && silentFrames == old(silentFrames) + (if p.silent then p.frames else 0)
                && accepted <= p.frames * bytesPerFrame
                && ring.Accepted == old(ring.Accepted) + Staged(p, bytesPerFrame)[..accepted]
      ensures stop == None || stop == Some(LimitReached) ==>
                && framesRecorded == old(framesRecorded) + accepted / bytesPerFrame
                && (stop == Some(LimitReached) <==> frameLimit.Some? && framesRecorded >= frameLimit.value)
      ensures stop == Some(WriterFailed) || stop == Some(OverrunAbort) ==> framesRecorded == old(framesRecorded)
      ensures stop == Some(WriterFailed) ==> fatalError
      ensures stop == Some(OverrunAbort) ==> failOnGlitch && ringBufferTimeouts == old(ringBufferTimeouts) + 1
      ensures stop.None? || stop.value.GlitchAbort? || stop.value.WriterFailed? || stop.value.OverrunAbort?
              || stop.value.LimitReached?
      ensures old(ring.Accepted) <= ring.Accepted && old(framesRecorded) <= framesRecorded
      ensures failOnGlitch && stop.None? ==> glitchCount == old(glitchCount) && ringBufferTimeouts == old(ringBufferTimeouts)
      ensures failOnGlitch ==> Glitches() <= old(Glitches()) + 1
      ensures failOnGlitch && Glitches() > old(Glitches()) ==> stop == Some(GlitchAbort) || stop == Some(OverrunAbort)
      ensures old(ringBufferTimeouts) <= ringBufferTimeouts
      ensures stop == None && ringBufferTimeouts == old(ringBufferTimeouts) ==> accepted == p.frames * bytesPerFrame
      ensures !old(fatalError) && SoundWaits(waits) ==> !fatalError
    {
      accepted := 0;
      if p.discontinuity {
        glitchCount := glitchCount + 1;
        if failOnGlitch {
          return Some(GlitchAbort), 0;
        }
      }
      if p.silent {
        silentFrames := silentFrames + p.frames;
      }
      stop, accepted := PushStaged(Staged(p, bytesPerFrame), waits);
    }

    /** The push of a staged packet and the frame accounting after it. */
    method PushStaged(staged: seq<byte>, waits: seq<SpaceWait>) returns (stop: Option<CaptureEnd>, accepted: nat)
      requires Valid()
      modifies this, ring, ring.buffer, wav
      ensures Valid()
      ensures old(fatalError) ==> fatalError
      ensures watchdogTimeouts == old(watchdogTimeouts) && deviceInvalidated == old(deviceInvalidated)
      ensures glitchCount == old(glitchCount) && silentFrames == old(silentFrames)
      ensures accepted <= |staged| && ring.Accepted == old(ring.Accepted) + staged[..accepted]
      ensures stop == None || stop == Some(LimitReached) ==>
                && framesRecorded == old(framesRecorded) + accepted / bytesPerFrame
                && (stop == Some(LimitReached) <==> frameLimit.Some? && framesRecorded >= frameLimit.value)
      ensures stop == Some(WriterFailed) || stop == Some(OverrunAbort) ==> framesRecorded == old(framesRecorded)
      ensures stop == Some(WriterFailed) ==> fatalError
      ensures stop == Some(OverrunAbort) ==> failOnGlitch && ringBufferTimeouts == old(ringBufferTimeouts) + 1
      ensures stop.None? || stop.value.WriterFailed? || stop.value.OverrunAbort? || stop.value.LimitReached?
      ensures ringBufferTimeouts == old(ringBufferTimeouts) || ringBufferTimeouts == old(ringBufferTimeouts) + 1
      ensures old(ring.Accepted) <= ring.Accepted && old(framesRecorded) <= framesRecorded
      ensures ringBufferTimeouts > old(ringBufferTimeouts) && failOnGlitch ==> stop == Some(OverrunAbort)
      ensures stop == None && ringBufferTimeouts == old(ringBufferTimeouts) ==> accepted == |staged|
      ensures !old(fatalError) && SoundWaits(waits) ==> !fatalError
    {
      var ok, end, signalled;
      ok, accepted, end, signalled := PushToRing(staged, waits);
      if !ok {
        stop := if end == FatalAtFullRing then Some(WriterFailed) else Some(OverrunAbort);
        return;
      }
      WholeFramesFit(framesRecorded, accepted, bytesPerFrame, |old(ring.Accepted)|);
      framesRecorded := framesRecorded + accepted / bytesPerFrame;
      if frameLimit.Some? && framesRecorded >= frameLimit.value {
        return Some(LimitReached), accepted;
      }
      stop := None;
    }

    /** The packets GetBuffer hands out while GetNextPacketSize says there
        are more, up to the first failed GetBuffer, whose error code is
        `failure`; the handling of a packet may stop the burst first.
        `pieces` are what the ring took of each packet handled, `sources`
        those packets. */
    method HandlePackets(packets: seq<PacketStep>)
      returns (stop: Option<CaptureEnd>, failure: Option<int>,
               ghost pieces: seq<seq<byte>>, ghost sources: seq<Packet>)
      requires Valid() && BurstFits(packets, bytesPerFrame)
      modifies this, ring, ring.buffer, wav
      ensures Valid()
      ensures stop.None? ==> RunSoFar(packets, |pieces|, pieces, sources, old(Stats()), old(ring.Accepted), old(fatalError))
      ensures stop.None? ==> (failure.None? <==> |pieces| == |packets|)
      ensures stop.None? && failure.Some? ==> |pieces| < |packets| && packets[|pieces|] == BufferFailed(failure.value)
      ensures stop.Some? ==>
                PacketStopped(packets, pieces, sources, stop.value, old(Stats()), old(ring.Accepted), old(fatalError))
    {
      pieces, sources, failure := [], [], None;
      var k := 0;
      while k < |packets| && packets[k].Captured?
        invariant k <= |packets|
        invariant Valid()
        invariant RunSoFar(packets, k, pieces, sources, old(Stats()), old(ring.Accepted), old(fatalError))
      {
        stop, pieces, sources := TakePacket(packets, k, pieces, sources, old(Stats()), old(ring.Accepted), old(fatalError));
        if stop.Some? {
          return;
        }
        k := k + 1;
      }
      if k < |packets| {
        failure := Some(packets[k].hr);
      }
      stop := None;
    }

    /** The first `k` packets of a burst handled without a stop, measured
        from the statistics `s0`, the accepted bytes `a0` and the fatal
        flag `fatal0` the burst began with. */
    ghost predicate RunSoFar(packets: seq<PacketStep>, k: nat, pieces: seq<seq<byte>>, sources: seq<Packet>,
                             s0: RecorderStats, a0: seq<byte>, fatal0: bool)
      reads this, ring
    {
      && (fatal0 ==> fatalError)
      && watchdogTimeouts == s0.watchdogTimeouts && deviceInvalidated == s0.deviceInvalidated
      && s0.framesCaptured <= framesRecorded
      && (failOnGlitch ==> glitchCount == s0.glitchCount && ringBufferTimeouts == s0.ringBufferTimeouts)
      && BurstTaken(packets, k, pieces, sources, bytesPerFrame)
      && ring.Accepted == a0 + Mp3Converter.Concat(pieces) && a0 <= ring.Accepted
      && s0.ringBufferTimeouts <= ringBufferTimeouts
      && (ringBufferTimeouts == s0.ringBufferTimeouts ==> Complete(pieces, sources, bytesPerFrame))
      && (!fatal0 && SoundBurst(packets) ==> !fatalError)
    }

    /** A burst stopped by the handling of the last of the packets handled,
        measured as in RunSoFar. */
    ghost predicate PacketStopped(packets: seq<PacketStep>, pieces: seq<seq<byte>>, sources: seq<Packet>,
                                  stop: CaptureEnd, s0: RecorderStats, a0: seq<byte>, fatal0: bool)
      reads this, ring
    {
      && 1 <= |pieces|
      && BurstTaken(packets, |pieces|, pieces, sources, bytesPerFrame)
      && (!fatal0 && SoundBurst(packets) ==> !fatalError)
      && ring.Accepted == a0 + Mp3Converter.Concat(pieces) && a0 <= ring.Accepted
      && (fatal0 ==> fatalError)
      && watchdogTimeouts == s0.watchdogTimeouts && deviceInvalidated == s0.deviceInvalidated
      && s0.framesCaptured <= framesRecorded
      && s0.ringBufferTimeouts <= ringBufferTimeouts
      && (stop.GlitchAbort? || stop.WriterFailed? || stop.OverrunAbort? || stop.LimitReached?)
      && (stop == LimitReached ==> frameLimit.Some? && framesRecorded >= frameLimit.value)
      && (stop == WriterFailed ==> fatalError)
      && (stop == GlitchAbort || stop == OverrunAbort ==> failOnGlitch)
      && (failOnGlitch ==> Glitches() <= s0.glitchCount + s0.watchdogTimeouts + s0.ringBufferTimeouts + 1)
      && (failOnGlitch && Glitches() > s0.glitchCount + s0.watchdogTimeouts + s0.ringBufferTimeouts ==>
            stop == GlitchAbort || stop == OverrunAbort)
    }

    /** The k-th packet of a burst, after a run of packets handled without
        a stop: the run grows by it, or its handling stops the burst. */
    method TakePacket(packets: seq<PacketStep>, k: nat, ghost pieces: seq<seq<byte>>, ghost sources: seq<Packet>,
                      ghost s0: RecorderStats, ghost a0: seq<byte>, ghost fatal0: bool)
      returns (stop: Option<CaptureEnd>, ghost pieces': seq<seq<byte>>, ghost sources': seq<Packet>)
      requires Valid() && BurstFits(packets, bytesPerFrame) && k < |packets| && packets[k].Captured?
      requires RunSoFar(packets, k, pieces, sources, s0, a0, fatal0)
      modifies this, ring, ring.buffer, wav
      ensures Valid()
      ensures |pieces'| == k + 1
      ensures stop.None? ==> RunSoFar(packets, k + 1, pieces', sources', s0, a0, fatal0)
      ensures stop.Some? ==> PacketStopped(packets, pieces', sources', stop.value, s0, a0, fatal0)
    {
      var p, waits := packets[k].packet, packets[k].waits;
      ghost var before := ring.Accepted;
      var accepted;
      stop, accepted := HandlePacket(p, waits);
      ghost var piece := Staged(p, bytesPerFrame)[..accepted];
      assert ring.Accepted == before + piece;
      BurstTakenStep(packets, k, pieces, sources, accepted, bytesPerFrame);
      AppendRegroups(a0, Mp3Converter.Concat(pieces), piece);
      pieces', sources' := pieces + [piece], sources + [p];
    }

    /** A burst: its packets, then GetNextPacketSize's last answer. A
        failed GetBuffer or GetNextPacketSize is an audio error that ends
        the capture; so does whatever ends the handling of a packet. */
    method HandleBurst(packets: seq<PacketStep>, end: BurstEnd)
      returns (stop: Option<CaptureEnd>, ghost pieces: seq<seq<byte>>, ghost sources: seq<Packet>)
      requires Valid() && BurstFits(packets, bytesPerFrame)
      modifies this, ring, ring.buffer, wav
      ensures Valid()
      ensures ring.Accepted == old(ring.Accepted) + Mp3Converter.Concat(pieces)
      ensures BurstOutcome(packets, end, stop, pieces, sources, bytesPerFrame)
      ensures old(ringBufferTimeouts) <= ringBufferTimeouts
      ensures stop == None && ringBufferTimeouts == old(ringBufferTimeouts) ==> Complete(pieces, sources, bytesPerFrame)
      ensures old(fatalError) ==> fatalError
      ensures watchdogTimeouts == old(watchdogTimeouts)
      ensures old(ring.Accepted) <= ring.Accepted && old(framesRecorded) <= framesRecorded
      ensures stop.None? || (!stop.value.EventsExhausted? && !stop.value.Stopped? && !stop.value.WatchdogAbort?
                              && !stop.value.WaitFailed?)
      ensures stop == None ==>
                && end == NoMorePackets && deviceInvalidated == old(deviceInvalidated)
                && forall i :: 0 <= i < |packets| ==> packets[i].Captured?
      ensures deviceInvalidated != old(deviceInvalidated) ==> stop == Some(AudioFailed)
      ensures stop == Some(LimitReached) ==> frameLimit.Some? && framesRecorded >= frameLimit.value
      ensures stop == Some(WriterFailed) ==> fatalError
      ensures stop == Some(GlitchAbort) || stop == Some(OverrunAbort) ==> failOnGlitch
      ensures failOnGlitch ==> Glitches() <= old(Glitches()) + 1
      ensures failOnGlitch && Glitches() > old(Glitches()) ==> stop == Some(GlitchAbort) || stop == Some(OverrunAbort)
      ensures failOnGlitch && stop.None? ==>
                glitchCount == old(glitchCount) && ringBufferTimeouts == old(ringBufferTimeouts)
      ensures !old(fatalError) && SoundBurst(packets) ==> !fatalError
    {
      var failure;
      stop, failure, pieces, sources := HandlePackets(packets);
      if stop.Some? {
        return;
      }
      if failure.Some? {
        OnAudioError(failure.value);
        return Some(AudioFailed), pieces, sources;
      }
      assert packets[..|packets|] == packets;
      match end {
        case NoMorePackets =>
        case SizeFailed(hr) =>
          OnAudioError(hr);
          stop := Some(AudioFailed);
      }
    }

    /** One pass of the capture loop on what its wait returned. It first
        checks the writer's fatal error, then a stop request; a watchdog
        timeout is counted and, under failOnGlitch, ends the capture; any
        other unexpected wait result ends it; signalled samples are drained
        as one burst. */
    method CaptureStep(e: CaptureEvent)
      returns (stop: Option<CaptureEnd>, ghost pieces: seq<seq<byte>>, ghost sources: seq<Packet>)
      requires Valid() && !e.WriterRan?
      requires e.SamplesReady? ==> BurstFits(e.packets, bytesPerFrame)
      modifies this, ring, ring.buffer, wav
      ensures Valid()
      ensures ring.Accepted == old(ring.Accepted) + Mp3Converter.Concat(pieces)
      ensures PrefixesOf(pieces, sources, bytesPerFrame)
      ensures old(fatalError) || !e.SamplesReady? ==> pieces == [] && sources == []
      ensures !old(fatalError) && e == StopRequested ==> stop == Some(Stopped) && Stats() == old(Stats())
      ensures !old(fatalError) && e == WatchdogTimeout ==>
                && Stats() == old(Stats()).(watchdogTimeouts := old(watchdogTimeouts) + 1)
                && stop == (if failOnGlitch then Some(WatchdogAbort) else None)
      ensures !old(fatalError) && e == UnexpectedWait ==> stop == Some(WaitFailed) && Stats() == old(Stats())
      ensures !old(fatalError) && e.SamplesReady? ==> BurstOutcome(e.packets, e.end, stop, pieces, sources, bytesPerFrame)
      ensures old(ringBufferTimeouts) <= ringBufferTimeouts
      ensures stop == None && ringBufferTimeouts == old(ringBufferTimeouts) ==> Complete(pieces, sources, bytesPerFrame)
      ensures old(fatalError) ==> fatalError
      ensures old(fatalError) ==> stop == Some(WriterFailed) && Stats() == old(Stats())
      ensures stop != Some(EventsExhausted)
      ensures stop.None? ==> Continues(e, failOnGlitch)
      ensures old(ring.Accepted) <= ring.Accepted && old(framesRecorded) <= framesRecorded
      ensures stop == Some(LimitReached) ==> frameLimit.Some? && framesRecorded >= frameLimit.value
      ensures stop == Some(WriterFailed) ==> fatalError
      ensures e == StopRequested && !old(fatalError) ==> stop == Some(Stopped)
      ensures stop == Some(GlitchAbort) || stop == Some(OverrunAbort) || stop == Some(WatchdogAbort) ==> failOnGlitch
      ensures failOnGlitch && stop.None? ==>
                glitchCount == old(glitchCount) && watchdogTimeouts == old(watchdogTimeouts)
                && ringBufferTimeouts == old(ringBufferTimeouts)
      ensures failOnGlitch ==> Glitches() <= old(Glitches()) + 1
      ensures failOnGlitch && Glitches() > old(Glitches()) ==>
                stop == Some(GlitchAbort) || stop == Some(OverrunAbort) || stop == Some(WatchdogAbort)
      ensures !old(fatalError) && SoundEvent(e) ==> !fatalError
    {
      pieces, sources := [], [];
      if fatalError {
        return Some(WriterFailed), pieces, sources;
      }
      match e {
        case StopRequested =>
          stop := Some(Stopped);
        case WatchdogTimeout =>
          watchdogTimeouts := watchdogTimeouts + 1;
          stop := if failOnGlitch then Some(WatchdogAbort) else None;
        case UnexpectedWait =>
          stop := Some(WaitFailed);
        case SamplesReady(packets, burstEnd) =>
          stop, pieces, sources := HandleBurst(packets, burstEnd);
      }
    }

    /** The first `k` events were handled without ending the capture,
        measured from the statistics `s0`, the accepted bytes `a0` and the
        fatal flag `fatal0` at the start of the capture loop. */
    ghost predicate CaptureSoFar(events: seq<CaptureEvent>, k: nat, pieces: seq<seq<byte>>, sources: seq<Packet>,
                                 s0: RecorderStats, a0: seq<byte>, fatal0: bool)
      reads this, ring
    {
      && k <= |events|
      && (fatal0 ==> fatalError)
      && ring.Accepted == a0 + Mp3Converter.Concat(pieces) && a0 <= ring.Accepted
      && s0.framesCaptured <= framesRecorded
      && (failOnGlitch ==>
            glitchCount == s0.glitchCount && watchdogTimeouts == s0.watchdogTimeouts
            && ringBufferTimeouts == s0.ringBufferTimeouts)
      && PrefixesOf(pieces, sources, bytesPerFrame)
      && sources == EventPackets(events[..k])
      && (forall i :: 0 <= i < k ==> Continues(events[i], failOnGlitch))
      && (!fatal0 && SoundEvents(events) ==> !fatalError)
      && s0.ringBufferTimeouts <= ringBufferTimeouts
      && (ringBufferTimeouts == s0.ringBufferTimeouts ==> Complete(pieces, sources, bytesPerFrame))
    }

    /** The capture loop ended with `stop`, measured as in CaptureSoFar. */
    ghost predicate CaptureStopped(events: seq<CaptureEvent>, pieces: seq<seq<byte>>, sources: seq<Packet>,
                                   stop: CaptureEnd, s0: RecorderStats, a0: seq<byte>, fatal0: bool)
      reads this, ring
    {
      && !stop.EventsExhausted?
      && (fatal0 ==> fatalError)
      && (!fatal0 && SoundEvents(events) ==> !fatalError)
      && ring.Accepted == a0 + Mp3Converter.Concat(pieces) && a0 <= ring.Accepted
      && s0.framesCaptured <= framesRecorded
      && PrefixesOf(pieces, sources, bytesPerFrame)
      && sources <= EventPackets(events)
      && s0.ringBufferTimeouts <= ringBufferTimeouts
      && (stop == LimitReached ==> frameLimit.Some? && framesRecorded >= frameLimit.value)
      && (stop == WriterFailed ==> fatalError)
      && (stop == GlitchAbort || stop == OverrunAbort || stop == WatchdogAbort ==> failOnGlitch)
      && (failOnGlitch ==> Glitches() <= s0.glitchCount + s0.watchdogTimeouts + s0.ringBufferTimeouts + 1)
      && (failOnGlitch && Glitches() > s0.glitchCount + s0.watchdogTimeouts + s0.ringBufferTimeouts ==>
            stop == GlitchAbort || stop == OverrunAbort || stop == WatchdogAbort)
    }

    /** A pass of the capture loop over a writer turn, the k-th event,
        after k passes that did not end the capture: the capture goes on. */
    method WriterPass(events: seq<CaptureEvent>, k: nat, ghost pieces: seq<seq<byte>>, ghost sources: seq<Packet>,
                      ghost s0: RecorderStats, ghost a0: seq<byte>, ghost fatal0: bool)
      requires Valid() && k < |events| && events[k].WriterRan?
      requires CaptureSoFar(events, k, pieces, sources, s0, a0, fatal0)
      modifies this, ring, wav
      ensures Valid()
      ensures CaptureSoFar(events, k + 1, pieces, sources, s0, a0, fatal0)
    {
      EventStep(events, k);
      ghost var before := ring.Accepted;
      WriterStep(events[k].turn);
      assert ring.Accepted == before;
      assert Continues(events[k], failOnGlitch);
    }

    /** A pass of the capture loop over any other event, the k-th, after
        k passes that did not end the capture: the run of pieces grows by
        the step's pieces, and the capture goes on or ends with `stop`. */
    method StepPass(events: seq<CaptureEvent>, k: nat, ghost pieces: seq<seq<byte>>, ghost sources: seq<Packet>,
                    ghost s0: RecorderStats, ghost a0: seq<byte>, ghost fatal0: bool)
      returns (stop: Option<CaptureEnd>, ghost pieces': seq<seq<byte>>, ghost sources': seq<Packet>)
      requires Valid() && EventsFit(events, bytesPerFrame) && k < |events| && !events[k].WriterRan?
      requires CaptureSoFar(events, k, pieces, sources, s0, a0, fatal0)
      modifies this, ring, ring.buffer, wav
      ensures Valid()
      ensures stop.None? ==> CaptureSoFar(events, k + 1, pieces', sources', s0, a0, fatal0)
      ensures stop.Some? ==> CaptureStopped(events, pieces', sources', stop.value, s0, a0, fatal0)
    {
      ghost var ps, ss;
      stop, ps, ss := CaptureStep(events[k]);
      JoinPieces(pieces, sources, ps, ss, bytesPerFrame);
      AppendRegroups(a0, Mp3Converter.Concat(pieces), Mp3Converter.Concat(ps));
      PassExtends(events, k, sources, ps, ss, stop, old(fatalError), failOnGlitch, bytesPerFrame);
      pieces', sources' := pieces + ps, sources + ss;
    }

    /** One pass of the capture loop over the k-th event, after k passes
        that did not end the capture. */
    method CapturePass(events: seq<CaptureEvent>, k: nat, ghost pieces: seq<seq<byte>>, ghost sources: seq<Packet>,
                       ghost s0: RecorderStats, ghost a0: seq<byte>, ghost fatal0: bool)
      returns (stop: Option<CaptureEnd>, ghost pieces': seq<seq<byte>>, ghost sources': seq<Packet>)
      requires Valid() && EventsFit(events, bytesPerFrame) && k < |events|
      requires CaptureSoFar(events, k, pieces, sources, s0, a0, fatal0)
      modifies this, ring, ring.buffer, wav
      ensures Valid()
      ensures stop.None? ==> CaptureSoFar(events, k + 1, pieces', sources', s0, a0, fatal0)
      ensures stop.Some? ==> CaptureStopped(events, pieces', sources', stop.value, s0, a0, fatal0)
    {
      if events[k].WriterRan? {
        WriterPass(events, k, pieces, sources, s0, a0, fatal0);
        return None, pieces, sources;
      }
      stop, pieces', sources' := StepPass(events, k, pieces, sources, s0, a0, fatal0);
    }

    /** The capture loop; a turn of the writer thread may come between any
        two of its passes. The ring takes a prefix of each packet handled,
        in order, and the packets handled are the first of those the events
        hand out; all of them when the events run out, each whole unless a
        ring wait timed out. */
    method Capture(events: seq<CaptureEvent>)
      returns (end: CaptureEnd, ghost pieces: seq<seq<byte>>, ghost sources: seq<Packet>)
      requires Valid() && EventsFit(events, bytesPerFrame)
      modifies this, ring, ring.buffer, wav
      ensures Valid()
      ensures ring.Accepted == old(ring.Accepted) + Mp3Converter.Concat(pieces)
      ensures PrefixesOf(pieces, sources, bytesPerFrame)
      ensures sources <= EventPackets(events)
      ensures end == EventsExhausted ==>
                && sources == EventPackets(events)
                && forall i :: 0 <= i < |events| ==> Continues(events[i], failOnGlitch)
      ensures old(ringBufferTimeouts) <= ringBufferTimeouts
      ensures end == EventsExhausted && ringBufferTimeouts == old(ringBufferTimeouts) ==>
                Complete(pieces, sources, bytesPerFrame)
      ensures old(fatalError) ==> fatalError
      ensures old(ring.Accepted) <= ring.Accepted && old(framesRecorded) <= framesRecorded
      ensures end == LimitReached ==> frameLimit.Some? && framesRecorded >= frameLimit.value
      ensures end == WriterFailed ==> fatalError
      ensures end == GlitchAbort || end == OverrunAbort || end == WatchdogAbort ==> failOnGlitch
      ensures failOnGlitch ==> Glitches() <= old(Glitches()) + 1
      ensures failOnGlitch && Glitches() > old(Glitches()) ==>
                end == GlitchAbort || end == OverrunAbort || end == WatchdogAbort
      ensures !old(fatalError) && SoundEvents(events) ==> !fatalError
    {
      pieces, sources := [], [];
      var k := 0;
      while k < |events|
        invariant Valid()
        invariant CaptureSoFar(events, k, pieces, sources, old(Stats()), old(ring.Accepted), old(fatalError))
      {
        var stop;
        stop, pieces, sources := CapturePass(events, k, pieces, sources, old(Stats()), old(ring.Accepted), old(fatalError));
        k := k + 1;
        if stop.Some? {
          return stop.value, pieces, sources;
        }
      }
      assert events[..k] == events;
      end := EventsExhausted;
    }

    /** The writer's last turns once capture has stopped: it drains the ring
        (the wait on an empty ring no longer happens) and then flushes
        whatever it has not flushed yet. A writer that has already failed
        does nothing. */
    method FinishWriter(turnAt: nat -> WriterTurn, finalFlushOk: bool)
      requires Valid()
      modifies this, ring, wav
      ensures Valid()
      ensures Stats() == old(Stats()) && ring.Accepted == old(ring.Accepted)
      ensures old(fatalError) ==> fatalError && ring.Delivered == old(ring.Delivered)
      ensures !fatalError ==> ring.Contents == [] && wav.Payload == ring.Accepted && bytesPendingFlush == 0
      ensures !old(fatalError) && SoundDrain(turnAt) && finalFlushOk ==> !fatalError
    {
      var step := 0;
      while !fatalError && ring.AvailableToRead() > 0
        invariant Valid()
        invariant Stats() == old(Stats()) && ring.Accepted == old(ring.Accepted)
        invariant old(fatalError) ==> fatalError && ring.Delivered == old(ring.Delivered)
        invariant !old(fatalError) && SoundDrain(turnAt) ==> !fatalError
        decreases |ring.Contents|
      {
        WriterStep(turnAt(step));
        step := step + 1;
      }
      if !fatalError && bytesPendingFlush > 0 {
        var flushed := wav.Flush(finalFlushOk);
        if flushed.Fail? {
          fatalError := true;
        } else {
          bytesPendingFlush := 0;
        }
      }
    }
  }

  predicate BurstFits(packets: seq<PacketStep>, bytesPerFrame: nat)
  {
    forall i :: 0 <= i < |packets| && packets[i].Captured? ==> PacketFits(packets[i].packet, bytesPerFrame)
  }

  predicate EventsFit(events: seq<CaptureEvent>, bytesPerFrame: nat)
  {
    forall i :: 0 <= i < |events| && events[i].SamplesReady? ==> BurstFits(events[i].packets, bytesPerFrame)
  }

  /** The packets GetBuffer hands out in a burst, in order. */
  function CapturedPackets(steps: seq<PacketStep>): (ps: seq<Packet>)
    ensures |ps| <= |steps|
    ensures (forall i :: 0 <= i < |steps| ==> steps[i].Captured?) ==>
              |ps| == |steps| && forall i :: 0 <= i < |steps| ==> ps[i] == steps[i].packet
  {
    if steps == [] then []
    else CapturedPackets(steps[..|steps| - 1])
         + (if steps[|steps| - 1].Captured? then [steps[|steps| - 1].packet] else [])
  }

  /** The packets of every burst among the events, in order. */
  function EventPackets(events: seq<CaptureEvent>): seq<Packet>
  {
    if events == [] then []
    else EventPackets(events[..|events| - 1])
         + (if events[|events| - 1].SamplesReady? then CapturedPackets(events[|events| - 1].packets) else [])
  }

  lemma CapturedStep(steps: seq<PacketStep>, k: nat)
    requires k < |steps|
    ensures CapturedPackets(steps[..k + 1])
              == CapturedPackets(steps[..k]) + (if steps[k].Captured? then [steps[k].packet] else [])
  {
    assert steps[..k + 1][..k] == steps[..k];
  }

  lemma EventStep(events: seq<CaptureEvent>, k: nat)
    requires k < |events|
    ensures EventPackets(events[..k + 1])
              == EventPackets(events[..k]) + (if events[k].SamplesReady? then CapturedPackets(events[k].packets) else [])
  {
    assert events[..k + 1][..k] == events[..k];
  }

  /** The packets of the first steps of a burst come first among its packets. */
  lemma {:induction false} CapturedPrefix(steps: seq<PacketStep>, n: nat)
    requires n <= |steps|
    ensures CapturedPackets(steps[..n]) <= CapturedPackets(steps)
    decreases |steps|
  {
    if n < |steps| {
      var m := |steps| - 1;
      assert steps[..n] == steps[..m][..n];
      CapturedPrefix(steps[..m], n);
    } else {
      assert steps[..n] == steps;
    }
  }

  /** The packets of the first events come first among their packets. */
  lemma {:induction false} EventPrefix(events: seq<CaptureEvent>, n: nat)
    requires n <= |events|
    ensures EventPackets(events[..n]) <= EventPackets(events)
    decreases |events|
  {
    if n < |events| {
      var m := |events| - 1;
      assert events[..n] == events[..m][..n];
      EventPrefix(events[..m], n);
    } else {
      assert events[..n] == events;
    }
  }

  /** A capture stopped in the middle of the k-th event has handled a
      prefix of the packets the events hand out. */
  lemma StoppedBurstIsPrefix(events: seq<CaptureEvent>, k: nat, taken: nat)
    requires 1 <= k <= |events|
    requires events[k - 1].SamplesReady? ==> taken <= |events[k - 1].packets|
    ensures var e := events[k - 1];
      EventPackets(events[..k - 1]) + (if e.SamplesReady? then CapturedPackets(e.packets[..taken]) else [])
        <= EventPackets(events)
  {
    var e := events[k - 1];
    EventStep(events, k - 1);
    if e.SamplesReady? {
      CapturedPrefix(e.packets, taken);
    }
    EventPrefix(events, k);
  }

  /** Each of `pieces` is a prefix of the staged bytes of the packet at the
      same place in `sources`: what the ring took of it. */
  predicate PrefixesOf(pieces: seq<seq<byte>>, sources: seq<Packet>, bytesPerFrame: nat)
  {
    && |pieces| == |sources|
    && forall i :: 0 <= i < |pieces| ==>
         PacketFits(sources[i], bytesPerFrame) && pieces[i] <= Staged(sources[i], bytesPerFrame)
  }

  /** The ring took every packet whole. */
  predicate Complete(pieces: seq<seq<byte>>, sources: seq<Packet>, bytesPerFrame: nat)
  {
    && |pieces| == |sources|
    && forall i :: 0 <= i < |pieces| ==>
         PacketFits(sources[i], bytesPerFrame) && pieces[i] == Staged(sources[i], bytesPerFrame)
  }

  /** How a burst ended, given the packets it handled, which are its first
      ones: it went through every packet and GetNextPacketSize said no more;
      or, an audio error, GetBuffer failed on the first packet not handled
      or GetNextPacketSize failed after the last; or the handling of the last
      packet handled stopped it. */
  predicate BurstOutcome(packets: seq<PacketStep>, end: BurstEnd, stop: Option<CaptureEnd>,
                         pieces: seq<seq<byte>>, sources: seq<Packet>, bytesPerFrame: nat)
  {
    && BurstTaken(packets, |pieces|, pieces, sources, bytesPerFrame)
    && (stop == None ==> |pieces| == |packets| && end == NoMorePackets)
    && (stop == Some(AudioFailed) ==>
          || (|pieces| < |packets| && packets[|pieces|].BufferFailed?)
          || (|pieces| == |packets| && end.SizeFailed?))
    && (stop.Some? && stop != Some(AudioFailed) ==> 1 <= |pieces|)
  }

  /** An event after which the capture loop goes on: a writer turn, a
      watchdog timeout that failOnGlitch does not abort on, or a burst whose
      every packet was handed out and that ended with no more packets. */
  predicate Continues(e: CaptureEvent, failOnGlitch: bool)
  {
    && e != StopRequested && e != UnexpectedWait
    && (e == WatchdogTimeout ==> !failOnGlitch)
    && (e.SamplesReady? ==> e.end == NoMorePackets && forall j :: 0 <= j < |e.packets| ==> e.packets[j].Captured?)
  }

  /** The first `k` steps of a burst were packets, and the ring took a
      prefix of each of them. */
  predicate BurstTaken(packets: seq<PacketStep>, k: nat, pieces: seq<seq<byte>>, sources: seq<Packet>,
                       bytesPerFrame: nat)
  {
    && k <= |packets| && |pieces| == k
    && (forall i :: 0 <= i < k ==> packets[i].Captured?)
    && sources == CapturedPackets(packets[..k])
    && PrefixesOf(pieces, sources, bytesPerFrame)
  }

  /** The ring taking the first `accepted` staged bytes of the next packet
      of a burst. */
  lemma BurstTakenStep(packets: seq<PacketStep>, k: nat, pieces: seq<seq<byte>>, sources: seq<Packet>,
                       accepted: nat, bytesPerFrame: nat)
    requires BurstTaken(packets, k, pieces, sources, bytesPerFrame)
    requires k < |packets| && packets[k].Captured? && PacketFits(packets[k].packet, bytesPerFrame)
    requires accepted <= packets[k].packet.frames * bytesPerFrame
    ensures var p := packets[k].packet;
      var piece := Staged(p, bytesPerFrame)[..accepted];
      && BurstTaken(packets, k + 1, pieces + [piece], sources + [p], bytesPerFrame)
      && Mp3Converter.Concat(pieces + [piece]) == Mp3Converter.Concat(pieces) + piece
      && (Complete(pieces, sources, bytesPerFrame) && accepted == p.frames * bytesPerFrame ==>
            Complete(pieces + [piece], sources + [p], bytesPerFrame))
  {
    var piece := Staged(packets[k].packet, bytesPerFrame)[..accepted];
    Mp3Converter.ConcatAppend(pieces, piece);
    CapturedStep(packets, k);
  }

  lemma AppendRegroups(a: seq<byte>, b: seq<byte>, c: seq<byte>)
    ensures (a + b) + c == a + (b + c)
  {
  }

  /** The pieces of two runs, one after the other. */
  lemma JoinPieces(pieces: seq<seq<byte>>, sources: seq<Packet>, more: seq<seq<byte>>, moreSources: seq<Packet>,
                   bytesPerFrame: nat)
    requires PrefixesOf(pieces, sources, bytesPerFrame) && PrefixesOf(more, moreSources, bytesPerFrame)
    ensures PrefixesOf(pieces + more, sources + moreSources, bytesPerFrame)
    ensures Mp3Converter.Concat(pieces + more) == Mp3Converter.Concat(pieces) + Mp3Converter.Concat(more)
    ensures Complete(pieces, sources, bytesPerFrame) && Complete(more, moreSources, bytesPerFrame) ==>
              Complete(pieces + more, sources + moreSources, bytesPerFrame)
  {
    ConcatJoin(pieces, more);
    var n := |pieces|;
    forall i | 0 <= i < |pieces + more|
      ensures PacketFits((sources + moreSources)[i], bytesPerFrame)
      ensures (pieces + more)[i] <= Staged((sources + moreSources)[i], bytesPerFrame)
    {
      if i < n {
        assert (pieces + more)[i] == pieces[i] && (sources + moreSources)[i] == sources[i];
      } else {
        assert (pieces + more)[i] == more[i - n] && (sources + moreSources)[i] == moreSources[i - n];
      }
    }
    if Complete(pieces, sources, bytesPerFrame) && Complete(more, moreSources, bytesPerFrame) {
      forall i | 0 <= i < |pieces + more|
        ensures (pieces + more)[i] == Staged((sources + moreSources)[i], bytesPerFrame)
      {
        if i < n {
          assert (pieces + more)[i] == pieces[i] && (sources + moreSources)[i] == sources[i];
        } else {
          assert (pieces + more)[i] == more[i - n] && (sources + moreSources)[i] == moreSources[i - n];
        }
      }
    }
  }

  /** The run of pieces after the k-th event, a capture step that took
      `more` from `moreSources` and stopped the capture or not: the packets
      stay the first of those the events hand out, and when the capture
      goes on they are exactly those of the first k + 1 events. */
  lemma PassExtends(events: seq<CaptureEvent>, k: nat, sources: seq<Packet>, more: seq<seq<byte>>,
                    moreSources: seq<Packet>, stop: Option<CaptureEnd>, fatal: bool, failOnGlitch: bool,
                    bytesPerFrame: nat)
    requires k < |events| && sources == EventPackets(events[..k])
    requires forall i :: 0 <= i < k ==> Continues(events[i], failOnGlitch)
    requires fatal || !events[k].SamplesReady? ==> more == [] && moreSources == []
    requires !fatal && events[k].SamplesReady? ==>
               BurstOutcome(events[k].packets, events[k].end, stop, more, moreSources, bytesPerFrame)
    requires stop.None? ==> !fatal && Continues(events[k], failOnGlitch)
    ensures stop.None? ==>
              && sources + moreSources == EventPackets(events[..k + 1])
              && forall i :: 0 <= i < k + 1 ==> Continues(events[i], failOnGlitch)
    ensures stop.Some? ==> sources + moreSources <= EventPackets(events)
  {
    var e := events[k];
    if stop.Some? {
      var taken := if !fatal && e.SamplesReady? then |more| else 0;
      if e.SamplesReady? && fatal {
        assert e.packets[..0] == [];
      }
      PassStops(events, k, sources, moreSources, taken);
    } else {
      if e.SamplesReady? {
        assert e.packets[..|more|] == e.packets;
      }
      PassContinues(events, k, sources, moreSources, failOnGlitch);
    }
  }

  /** A capture step that stopped the capture after taking the first
      `taken` packets of the k-th event: the packets handled so far come
      first among those the events hand out. */
  lemma PassStops(events: seq<CaptureEvent>, k: nat, sources: seq<Packet>, moreSources: seq<Packet>, taken: nat)
    requires k < |events| && sources == EventPackets(events[..k])
    requires events[k].SamplesReady? ==>
               taken <= |events[k].packets| && moreSources == CapturedPackets(events[k].packets[..taken])
    requires !events[k].SamplesReady? ==> moreSources == []
    ensures sources + moreSources <= EventPackets(events)
  {
    StoppedBurstIsPrefix(events, k + 1, taken);
    assert events[..k + 1][..k] == events[..k];
  }

  /** A capture step after which the capture goes on: the packets handled
      so far are those of the first k + 1 events. */
  lemma PassContinues(events: seq<CaptureEvent>, k: nat, sources: seq<Packet>, moreSources: seq<Packet>,
                      failOnGlitch: bool)
    requires k < |events| && sources == EventPackets(events[..k])
    requires forall i :: 0 <= i < k ==> Continues(events[i], failOnGlitch)
    requires Continues(events[k], failOnGlitch)
    requires moreSources == (if events[k].SamplesReady? then CapturedPackets(events[k].packets) else [])
    ensures sources + moreSources == EventPackets(events[..k + 1])
    ensures forall i :: 0 <= i < k + 1 ==> Continues(events[i], failOnGlitch)
  {
    EventStep(events, k);
  }

  lemma {:induction false} ConcatJoin(a: seq<seq<byte>>, b: seq<seq<byte>>)
    ensures Mp3Converter.Concat(a + b) == Mp3Converter.Concat(a) + Mp3Converter.Concat(b)
    decreases |b|
  {
    if b == [] {
      assert a + b == a;
    } else {
      var m := |b| - 1;
      assert a + b == (a + b[..m]) + [b[m]];
      assert b == b[..m] + [b[m]];
      Mp3Converter.ConcatAppend(a + b[..m], b[m]);
      Mp3Converter.ConcatAppend(b[..m], b[m]);
      ConcatJoin(a, b[..m]);
    }
  }

  // ---------------------------------------------------------------------
  // Record
  // ---------------------------------------------------------------------

  /** Why Record throws: no usable audio client (the device, Activate,
      GetMixFormat, Initialize, the events, GetService or Start failed), a
      mix format it cannot record, an output file it cannot open, or a
      writer thread that failed during capture. */
  datatype RecordError = EngineFailed | UnsupportedFormat | OutputOpenFailed | WriterThreadFailed

  /** LoopbackRecorder::Record. `clientOk` is the outcome of the calls up to
      GetMixFormat, `mix` the mix format, `openOk` the opening of the output,
      `startOk` the outcome of the calls from Initialize to Start; `events`
      is what the capture thread meets, `drainTurnAt` the writer's turns
      once capture has stopped, `finalFlushOk` its last flush and `patch`
      how far the closing writer's unchecked patch of the size fields gets.
      The result is the statistics or the error, and the bytes left on disk
      (`None` when no file was created). `captured` is every byte the ring
      accepted, `payload` every byte the writer wrote, and `writerOk` says
      that the writer thread never failed.

      The writer's failure is read before the writer thread is joined: a
      failure during its final drain is not reported, and such a recording
      ends with `Ok` but without all of `captured`. Either way the WAV
      writer's destructor closes the file. */
  method Record(config: RecorderConfig, clientOk: bool, mix: FormatBlock, openOk: bool, startOk: bool,
                events: seq<CaptureEvent>, drainTurnAt: nat -> WriterTurn, finalFlushOk: bool,
                patch: PatchOutcome)
    returns (r: Result<RecorderStats, RecordError>, file: Option<seq<byte>>,
             ghost captured: seq<byte>, ghost payload: seq<byte>, ghost writerOk: bool,
             ghost pieces: seq<seq<byte>>, ghost sources: seq<Packet>, ghost ended: Option<CaptureEnd>)
    requires mix.WellFormed() && mix.header.blockAlign >= 1
    requires EventsFit(events, mix.header.blockAlign)
    ensures captured == Mp3Converter.Concat(pieces) && PrefixesOf(pieces, sources, mix.header.blockAlign)
    ensures sources <= EventPackets(events)
    ensures ended.Some? <==> r.Ok? || r == Err(WriterThreadFailed)
    ensures ended == Some(EventsExhausted) ==>
              && sources == EventPackets(events)
              && forall i :: 0 <= i < |events| ==> Continues(events[i], config.failOnGlitch)
    ensures ended == Some(EventsExhausted) && r.Ok? && r.value.ringBufferTimeouts == 0 ==>
              Complete(pieces, sources, mix.header.blockAlign)
    ensures !clientOk ==> r == Err(EngineFailed) && file == None
    ensures clientOk && !IsSupportedFormat(Some(mix)) ==> r == Err(UnsupportedFormat) && file == None
    ensures clientOk && IsSupportedFormat(Some(mix)) && !openOk ==> r == Err(OutputOpenFailed) && file == None
    ensures clientOk && IsSupportedFormat(Some(mix)) && openOk && !startOk ==>
              var blob := FormatBlob(mix);
              r == Err(EngineFailed)
              && file == Some(WavHeader(blob, if patch == NotPatched then 0 else RiffSize(|blob|, 0), 0))
    ensures r.Ok? || r == Err(WriterThreadFailed) ==>
              clientOk && IsSupportedFormat(Some(mix)) && openOk && startOk && file.Some?
    ensures r == Err(WriterThreadFailed) ==> !writerOk
    ensures clientOk && IsSupportedFormat(Some(mix)) && openOk && startOk && SoundEvents(events) ==> r.Ok?
    ensures (&& clientOk && IsSupportedFormat(Some(mix)) && openOk && startOk && SoundEvents(events)
             && SoundDrain(drainTurnAt) && finalFlushOk) ==> writerOk
    ensures r.Ok? && !writerOk ==> !SoundDrain(drainTurnAt) || !finalFlushOk
    ensures file.Some? ==> payload <= captured
    ensures file.Some? ==>
              var blob := FormatBlob(mix);
              var size := |payload| % U32_LIMIT;
              || file.value == WavHeader(blob, RiffSize(|blob|, size), size) + payload
              || file.value == WavHeader(blob, RiffSize(|blob|, size), 0) + payload
              || file.value == WavHeader(blob, 0, 0) + payload
    ensures file.Some? && writerOk ==>
              var blob := FormatBlob(mix);
              var size := |captured| % U32_LIMIT;
              && payload == captured
              && file.value == WavHeader(blob, if patch == NotPatched then 0 else RiffSize(|blob|, size),
                                         if patch == Patched then size else 0) + captured
    ensures r.Ok? ==>
              && r.value.framesCaptured * mix.header.blockAlign <= |captured|
              && r.value.framesWhilePaused == 0 && r.value.segmentsWritten == 1
    ensures r.Ok? && config.failOnGlitch ==>
              r.value.glitchCount + r.value.watchdogTimeouts + r.value.ringBufferTimeouts <= 1
    ensures (r.Ok? && writerOk && patch == Patched && 0 < |captured| < U32_LIMIT && mix.header.cbSize % 2 == 0
             && mix.header.channels != 0 && mix.header.samplesPerSec != 0) ==>
              Mp3Converter.WavSpec(file.value)
                == Ok(Mp3Converter.WavMetadata(NormalizedFormat(mix.header, mix.tail[..mix.header.cbSize]),
                                               HeaderSize(|FormatBlob(mix)|), |captured|))
    ensures (file.Some? && writerOk && patch != Patched && mix.header.cbSize % 2 == 0
             && mix.header.channels != 0 && mix.header.samplesPerSec != 0) ==>
              Mp3Converter.WavSpec(file.value) == Err(Mp3Converter.NoAudioData)
  {
    captured, payload, writerOk, pieces, sources, ended := [], [], true, [], [], None;
    if !clientOk {
      return Err(EngineFailed), None, captured, payload, writerOk, pieces, sources, ended;
    }
    if !IsSupportedFormat(Some(mix)) {
      return Err(UnsupportedFormat), None, captured, payload, writerOk, pieces, sources, ended;
    }
    var created := OpenWavWriter(mix, openOk);
    if created.Err? {
      return Err(OutputOpenFailed), None, captured, payload, writerOk, pieces, sources, ended;
    }
    var wav := created.value;
    if !startOk {
      var bytes := CloseUnstarted(wav, patch);
      file := Some(bytes);
      if patch != Patched && mix.header.cbSize % 2 == 0 && mix.header.channels != 0 && mix.header.samplesPerSec != 0 {
        UnpatchedRecordingFails(mix, patch, []);
      }
      return Err(EngineFailed), file, captured, payload, writerOk, pieces, sources, ended;
    }
    var bytes;
    ghost var capturedEnd;
    r, bytes, captured, payload, writerOk, pieces, sources, capturedEnd :=
      RecordStarted(config, mix, wav, events, drainTurnAt, finalFlushOk, patch);
    file := Some(bytes);
    ended := Some(capturedEnd);
    if r.Ok? && writerOk && patch == Patched && 0 < |captured| < U32_LIMIT && mix.header.cbSize % 2 == 0
       && mix.header.channels != 0 && mix.header.samplesPerSec != 0 {
      RecordingReadsBack(mix, captured);
    }
    if writerOk && patch != Patched && mix.header.cbSize % 2 == 0
       && mix.header.channels != 0 && mix.header.samplesPerSec != 0 {
      UnpatchedRecordingFails(mix, patch, captured);
    }
  }

  /** Record once the audio client has started: the capture thread runs
      through `events`, the writer's failure is read, and the writer thread
      is joined and the file closed. */
  method RecordStarted(config: RecorderConfig, mix: FormatBlock, wav: WavWriter, events: seq<CaptureEvent>,
                       drainTurnAt: nat -> WriterTurn, finalFlushOk: bool, patch: PatchOutcome)
    returns (r: Result<RecorderStats, RecordError>, file: seq<byte>,
             ghost captured: seq<byte>, ghost payload: seq<byte>, ghost writerOk: bool,
             ghost pieces: seq<seq<byte>>, ghost sources: seq<Packet>, ghost ended: CaptureEnd)
    requires mix.WellFormed() && mix.header.blockAlign >= 1
    requires EventsFit(events, mix.header.blockAlign)
    requires wav.Valid() && wav.good && wav.isOpen && !wav.finalized && wav.Payload == []
    requires wav.formatBlob == FormatBlob(mix)
    modifies wav
    ensures r.Ok? || r == Err(WriterThreadFailed)
    ensures r == Err(WriterThreadFailed) ==> !writerOk
    ensures SoundEvents(events) ==> r.Ok?
    ensures SoundEvents(events) && SoundDrain(drainTurnAt) && finalFlushOk ==> writerOk
    ensures r.Ok? && !writerOk ==> !SoundDrain(drainTurnAt) || !finalFlushOk
    ensures payload <= captured
    ensures captured == Mp3Converter.Concat(pieces) && PrefixesOf(pieces, sources, mix.header.blockAlign)
    ensures sources <= EventPackets(events)
    ensures ended == EventsExhausted ==>
              && sources == EventPackets(events)
              && forall i :: 0 <= i < |events| ==> Continues(events[i], config.failOnGlitch)
    ensures ended == EventsExhausted && r.Ok? && r.value.ringBufferTimeouts == 0 ==>
              Complete(pieces, sources, mix.header.blockAlign)
    ensures var blob := FormatBlob(mix);
            var size := |payload| % U32_LIMIT;
            || file == WavHeader(blob, RiffSize(|blob|, size), size) + payload
            || file == WavHeader(blob, RiffSize(|blob|, size), 0) + payload
            || file == WavHeader(blob, 0, 0) + payload
    ensures writerOk ==>
              var blob := FormatBlob(mix);
              var size := |captured| % U32_LIMIT;
              && payload == captured
              && file == WavHeader(blob, if patch == NotPatched then 0 else RiffSize(|blob|, size),
                                   if patch == Patched then size else 0) + captured
    ensures r.Ok? ==>
              && r.value.framesCaptured * mix.header.blockAlign <= |captured|
              && r.value.framesWhilePaused == 0 && r.value.segmentsWritten == 1
    ensures r.Ok? && config.failOnGlitch ==>
              r.value.glitchCount + r.value.watchdogTimeouts + r.value.ringBufferTimeouts <= 1
  {
    var bpf := mix.header.blockAlign;
    var rate := mix.header.samplesPerSec;
    var capacity := RingCapacity(rate, config.ringBufferMs, bpf);
    RingCapacityBounds(rate, config.ringBufferMs, bpf);
    var session := new CaptureSession(wav, capacity, bpf, config.failOnGlitch,
                                      FrameLimit(rate, config.maxDurationSec),
                                      WriterChunkBytes(capacity, bpf), FlushThreshold(bpf, rate));
    ended, pieces, sources := session.Capture(events);
    var stats := session.Stats();
    r := if session.fatalError then Err(WriterThreadFailed) else Ok(stats);
    file := StopAndClose(session, drainTurnAt, finalFlushOk, patch);
    captured, payload, writerOk := session.ring.Accepted, wav.Payload, !session.fatalError;
  }

  /** A finalised recording of fewer than 2^32 bytes reads back as its own
      format and samples. */
  lemma RecordingReadsBack(mix: FormatBlock, captured: seq<byte>)
    requires mix.WellFormed() && mix.header.cbSize % 2 == 0
    requires mix.header.channels != 0 && mix.header.samplesPerSec != 0
    requires 0 < |captured| < U32_LIMIT
    ensures var blob := FormatBlob(mix);
            var size := |captured| % U32_LIMIT;
            Mp3Converter.WavSpec(WavHeader(blob, RiffSize(|blob|, size), size) + captured)
              == Ok(Mp3Converter.WavMetadata(NormalizedFormat(mix.header, mix.tail[..mix.header.cbSize]),
                                             HeaderSize(|blob|), |captured|))
  {
    assert |captured| % U32_LIMIT == |captured|;
    Mp3Converter.ParseFinalizedWav(mix, captured);
  }

  /** A capture that never started leaves the header alone on disk, as far
      as the closing patch gets. */
  method CloseUnstarted(wav: WavWriter, patch: PatchOutcome) returns (file: seq<byte>)
    requires wav.Valid() && wav.good && wav.isOpen && !wav.finalized && wav.Payload == []
    modifies wav
    ensures file == WavHeader(wav.formatBlob, if patch == NotPatched then 0 else RiffSize(|wav.formatBlob|, 0), 0)
  {
    wav.Close(patch);
    assert wav.file == WavHeader(wav.formatBlob, wav.riffField, wav.dataField) + [];
    file := wav.file;
  }

  /** A recording whose closing patch stopped short of the data size field
      has zero there and fails to read back for want of audio data. */
  lemma UnpatchedRecordingFails(mix: FormatBlock, patch: PatchOutcome, captured: seq<byte>)
    requires mix.WellFormed() && mix.header.cbSize % 2 == 0
    requires mix.header.channels != 0 && mix.header.samplesPerSec != 0
    requires patch != Patched
    ensures var blob := FormatBlob(mix);
            var size := |captured| % U32_LIMIT;
            Mp3Converter.WavSpec(WavHeader(blob, if patch == NotPatched then 0 else RiffSize(|blob|, size), 0)
                                 + captured) == Err(Mp3Converter.NoAudioData)
  {
    var blob := FormatBlob(mix);
    Mp3Converter.ParseUnfinalizedWav(mix, if patch == NotPatched then 0 else RiffSize(|blob|, |captured| % U32_LIMIT),
                                     captured);
  }

  /** The end of Record: the writer thread is joined (it drains the ring
      and flushes) and the WAV writer is closed, which patches the size
      fields, as far as `patch` gets, unless its stream has failed. */
  method StopAndClose(session: CaptureSession, drainTurnAt: nat -> WriterTurn, finalFlushOk: bool,
                      patch: PatchOutcome)
    returns (file: seq<byte>)
    requires session.Valid()
    modifies session, session.ring, session.wav
    ensures session.ring.Valid() && session.wav.Valid() && session.wav.finalized
    ensures session.ring.Accepted == old(session.ring.Accepted) && session.Stats() == old(session.Stats())
    ensures old(session.fatalError) ==> session.fatalError
    ensures !old(session.fatalError) && SoundDrain(drainTurnAt) && finalFlushOk ==> !session.fatalError
    ensures session.wav.Payload <= session.ring.Accepted
    ensures var blob := session.wav.formatBlob;
            var size := |session.wav.Payload| % U32_LIMIT;
            || file == WavHeader(blob, RiffSize(|blob|, size), size) + session.wav.Payload
            || file == WavHeader(blob, RiffSize(|blob|, size), 0) + session.wav.Payload
            || file == WavHeader(blob, 0, 0) + session.wav.Payload
    ensures !session.fatalError ==>
              var blob := session.wav.formatBlob;
              var size := |session.ring.Accepted| % U32_LIMIT;
              && session.wav.Payload == session.ring.Accepted
              && (session.wav.good <==> patch == Patched)
              && file == WavHeader(blob, if patch == NotPatched then 0 else RiffSize(|blob|, size),
                                   if patch == Patched then size else 0) + session.ring.Accepted
  {
    session.FinishWriter(drainTurnAt, finalFlushOk);
    session.wav.Close(patch);
    file := session.wav.file;
  }
}
