/** The segmentation engine of src/seg.rs.

    A stream of raw PCM chunks (16-bit signed little-endian mono samples) is
    fed to a `Segmentation`, one `Accept` call per chunk. Each call classifies
    the chunk as quiet or hot by its peak absolute sample, moves the
    `Quiet -> Pending -> Active` state machine forward by zero or more steps,
    and returns the `Start` / `Data` / `End` events of that call.

    `Step` is the specification of one call, written as a table over the
    old state and the classification of the chunk; `Segmentation.Accept` is
    the engine itself, written in the three sequential phases of the source,
    and is proved to compute exactly `Step`. */
module Seg {
  import opened Ints

  type Nanos = x: int | 0 <= x < 1_000_000_000

  /* ----- Chunk size and durations ----- */

  const BytesPerChunk: nat := 16384
  const SamplesPerMs: nat := 48
  const BytesPerMs: nat := SamplesPerMs * 2

  /** A `std::time::Duration`: whole seconds and the sub-second nanoseconds. */
  datatype Duration = Duration(secs: U64, nanos: Nanos)

  /** `Duration::as_millis`: the whole number of milliseconds, rounded down. */
  function AsMillis(d: Duration): (ms: nat)
    ensures ms * 1_000_000 <= d.secs * 1_000_000_000 + d.nanos < (ms + 1) * 1_000_000
  {
    d.secs * 1000 + d.nanos / 1_000_000
  }

  /** The number of whole chunks recorded in `d`, computed in 128-bit
      arithmetic (which cannot overflow for any `Duration`) and then cast to
      `u32`, which keeps the low 32 bits. */
  function DurationToChunks(d: Duration): (r: U32)
    ensures exists q: nat :: q * BytesPerChunk <= AsMillis(d) * BytesPerMs < (q + 1) * BytesPerChunk
                             && r == q % 0x1_0000_0000
    ensures AsMillis(d) * BytesPerMs < BytesPerChunk * 0x1_0000_0000 ==>
              r * BytesPerChunk <= AsMillis(d) * BytesPerMs < (r + 1) * BytesPerChunk
  {
    var q := AsMillis(d) * BytesPerMs / BytesPerChunk;
    assert q * BytesPerChunk <= AsMillis(d) * BytesPerMs < (q + 1) * BytesPerChunk;
    q % 0x1_0000_0000
  }

  /* ----- Amplitude classifier ----- */

  /** `i16::from_le_bytes([lo, hi])`. */
  function Sample(lo: Byte, hi: Byte): (z: I16)
    ensures z >= 0 <==> hi < 0x80
    ensures z == lo + 256 * hi || z == lo + 256 * hi - 0x1_0000
  {
    var u := lo + 256 * hi;
    if u < 0x8000 then u else u - 0x1_0000
  }

  /** `i16::abs` as an optimised build computes it: the absolute value, except
      that `-32768`, whose absolute value does not fit, stays `-32768`. */
  function WrappingAbs(z: I16): (a: I16)
    ensures z != -0x8000 ==> a >= 0 && (a == z || a == -z)
    ensures z == -0x8000 ==> a == z
  {
    if z == -0x8000 then z else if z < 0 then -z else z
  }

  /** The magnitude of the `i`-th sample of `raw`. */
  function AbsSampleAt(raw: seq<Byte>, i: nat): I16
    requires 2 * i + 1 < |raw|
  {
    WrappingAbs(Sample(raw[2 * i], raw[2 * i + 1]))
  }

  /** The largest sample magnitude of a non-empty, whole-sample slice. */
  function MaxAbs(raw: seq<Byte>): (m: I16)
    requires |raw| >= 2 && |raw| % 2 == 0
    ensures forall i :: 0 <= i < |raw| / 2 ==> AbsSampleAt(raw, i) <= m
    ensures exists i :: 0 <= i < |raw| / 2 && AbsSampleAt(raw, i) == m
    decreases |raw|
  {
    var head := AbsSampleAt(raw, 0);
    if |raw| == 2 then head
    else
      var rest := MaxAbs(raw[2..]);
      assert forall i :: 1 <= i < |raw| / 2 ==> AbsSampleAt(raw, i) == AbsSampleAt(raw[2..], i - 1);
      assert forall i :: 0 <= i < |raw| / 2 - 1 ==> AbsSampleAt(raw[2..], i) == AbsSampleAt(raw, i + 1);
      if head >= rest then head else rest
  }

  /** The peak the classifier compares against the threshold; an empty slice
      has no samples and counts as peak 0. */
  function PeakSample(raw: seq<Byte>): (m: I16)
    requires |raw| % 2 == 0
    ensures raw == [] ==> m == 0
    ensures forall i :: 0 <= i < |raw| / 2 ==> AbsSampleAt(raw, i) <= m
    ensures raw != [] ==> exists i :: 0 <= i < |raw| / 2 && AbsSampleAt(raw, i) == m
  {
    if raw == [] then 0 else MaxAbs(raw)
  }

  /** A chunk is quiet iff no sample magnitude exceeds `threshold`
      (equality counts as quiet). */
  function IsQuiet(raw: seq<Byte>, threshold: I16): (quiet: bool)
    requires |raw| % 2 == 0
    ensures raw == [] ==> (quiet <==> 0 <= threshold)
    ensures raw != [] ==>
              (quiet <==> forall i :: 0 <= i < |raw| / 2 ==> AbsSampleAt(raw, i) <= threshold)
  {
    PeakSample(raw) <= threshold
  }

  /* ----- Configuration, state and events ----- */

  datatype Config = Config(
    chunkSize: nat,
    maxTotalChunks: U32,
    minHotChunks: U32,
    maxQuietChunks: U32,
    threshold: I16)

  /** The engine's state. A pending burst holds the id reserved for it; the
      counters are unbounded integers here (see `Bounded` for the range they
      keep in every reachable state). */
  datatype State =
    | Quiet
    | Pending(id: string, totalChunks: nat, consecutiveHotChunks: nat)
    | Active(totalChunks: nat, consecutiveQuietChunks: nat)

  /** The events of one call. `Data` carries its bytes by value. */
  datatype Event = Start(id: string) | Data(bytes: seq<Byte>) | End

  /** A value snapshot of everything a `Segmentation` holds besides its
      configuration. */
  datatype Engine = Engine(state: State, lastChunk: seq<Byte>, pendingBuf: seq<Byte>)

  /** What one call produces: the next snapshot, the events, and whether the
      id-generating callback was invoked. */
  datatype Outcome = Outcome(next: Engine, events: seq<Event>, idTaken: bool)

  /** The state of a newly constructed engine. */
  function Fresh(): Engine
  {
    Engine(Quiet, [], [])
  }

  /** What the source accepts without panicking: at most `chunkSize` bytes
      (the length assertion) and whole samples (an odd trailing byte is
      indexed out of bounds by the classifier). */
  predicate ValidChunk(cfg: Config, chunk: seq<Byte>)
  {
    |chunk| <= cfg.chunkSize && |chunk| % 2 == 0
  }

  /** The termination test of an active segment, on the counters after they
      have been updated for the current chunk: a segment that goes on is
      below both caps, and the empty end-of-stream chunk always ends it. */
  predicate EndsSegment(cfg: Config, total: nat, quietRun: nat, chunk: seq<Byte>): (ends: bool)
    ensures !ends ==> total < cfg.maxTotalChunks && quietRun < cfg.maxQuietChunks
    ensures |chunk| == 0 ==> ends
  {
    total >= cfg.maxTotalChunks || quietRun >= cfg.maxQuietChunks || |chunk| == 0
  }

  /** The active part of a call: account for `chunk`, emit it, and end the
      segment if a termination condition holds. */
  function ActiveCall(cfg: Config, total: nat, quietRun: nat, chunk: seq<Byte>, quiet: bool)
    : (r: (State, seq<Event>))
    ensures r.1 == [Data(chunk), End] || r.1 == [Data(chunk)]
    ensures r.1 == [Data(chunk), End] <==> r.0 == Quiet
    ensures r.0 == Quiet <==> EndsSegment(cfg, total + 1, if quiet then quietRun + 1 else 0, chunk)
    ensures r.0.Active? ==> r.0.totalChunks == total + 1
    ensures r.0.Active? ==> r.0.consecutiveQuietChunks == if quiet then quietRun + 1 else 0
  {
    var total' := total + 1;
    var quietRun' := if quiet then quietRun + 1 else 0;
    if EndsSegment(cfg, total', quietRun', chunk) then (Quiet, [Data(chunk), End])
    else (Active(total', quietRun'), [Data(chunk)])
  }

  /** Promotion of a pending burst: surface its id and its buffered bytes,
      then treat `chunk` as the first chunk of the active segment. The
      buffer itself is left as it is. */
  function Promote(cfg: Config, id: string, buf: seq<Byte>, total: nat,
                   chunk: seq<Byte>, idTaken: bool): (r: Outcome)
    ensures r.events == [Start(id), Data(buf), Data(chunk)] + (if r.next.state == Quiet then [End] else [])
    ensures r.next.state == if EndsSegment(cfg, total + 1, 0, chunk) then Quiet else Active(total + 1, 0)
    ensures r.next.pendingBuf == buf && r.next.lastChunk == chunk && r.idTaken == idTaken
  {
    var (state', tail) := ActiveCall(cfg, total, 0, chunk, false);
    Outcome(Engine(state', chunk, buf), [Start(id), Data(buf)] + tail, idTaken)
  }

  /** One call of the engine, by cases on the old state and on whether the
      chunk is quiet. */
  function Step(cfg: Config, e: Engine, chunk: seq<Byte>, id: string): (r: Outcome)
    requires ValidChunk(cfg, chunk)
    ensures r.next.lastChunk == chunk
    ensures r.idTaken <==> e.state.Quiet? && !IsQuiet(chunk, cfg.threshold)
    ensures |r.events| <= 4
    ensures forall i :: 0 < i < |r.events| ==> !r.events[i].Start?
    ensures forall i :: 0 <= i < |r.events| - 1 ==> !r.events[i].End?
    ensures End in r.events ==> r.next.state == Quiet
  {
    var quiet := IsQuiet(chunk, cfg.threshold);
    match e.state
    case Quiet =>
      if quiet then
        Outcome(Engine(Quiet, chunk, e.pendingBuf), [], false)
      else
        var preRoll := if |e.lastChunk| == 0 then 0 else 1;
        if 1 >= cfg.minHotChunks then
          Promote(cfg, id, e.lastChunk, preRoll, chunk, true)
        else
          Outcome(Engine(Pending(id, preRoll + 1, 1), chunk, e.lastChunk + chunk), [], true)
    case Pending(pid, total, hot) =>
      if quiet then
        Outcome(Engine(Quiet, chunk, e.pendingBuf), [], false)
      else if hot + 1 >= cfg.minHotChunks then
        Promote(cfg, pid, e.pendingBuf, total, chunk, false)
      else
        Outcome(Engine(Pending(pid, total + 1, hot + 1), chunk, e.pendingBuf + chunk), [], false)
    case Active(total, quietRun) =>
      var (state', events) := ActiveCall(cfg, total, quietRun, chunk, quiet);
      Outcome(Engine(state', chunk, e.pendingBuf), events, false)
  }

  /* ----- The engine ----- */

  class Segmentation {
    const config: Config
    var state: State
    var lastChunk: seq<Byte>
    var pendingBuf: seq<Byte>

    function Snapshot(): Engine
      reads this
    {
      Engine(state, lastChunk, pendingBuf)
    }

    constructor (config: Config)
      ensures this.config == config && Snapshot() == Fresh()
    {
      this.config := config;
      state := Quiet;
      lastChunk := [];
      pendingBuf := [];
    }

    /** Feed one chunk. `id` is the value the caller's id generator would
        return; `idTaken` says whether the generator was invoked. */
    method Accept(chunk: seq<Byte>, id: string) returns (events: seq<Event>, idTaken: bool)
      requires ValidChunk(config, chunk)
      modifies this
      ensures var r := Step(config, old(Snapshot()), chunk, id);
                Snapshot() == r.next && events == r.events && idTaken == r.idTaken
    {
      ghost var e0 := Snapshot();
      events := [];
      idTaken := false;
      var quiet := IsQuiet(chunk, config.threshold);

      // Quiet -> Pending on a hot chunk, seeding the buffer with the pre-roll.
      if state.Quiet? && !quiet {
        idTaken := true;
        pendingBuf := lastChunk;
        state := Pending(id, if |lastChunk| == 0 then 0 else 1, 0);
      }

      // Pending: discard on a quiet chunk, otherwise buffer or promote.
      if state.Pending? {
        if quiet {
          state := Quiet;
        } else {
          var hot := state.consecutiveHotChunks + 1;
          if hot >= config.minHotChunks {
            events := events + [Start(state.id), Data(pendingBuf)];
            state := Active(state.totalChunks, 0);
          } else {
            pendingBuf := pendingBuf + chunk;
            state := Pending(state.id, state.totalChunks + 1, hot);
          }
        }
      }

      // Active: emit the chunk and maybe terminate the segment.
      if state.Active? {
        var total := state.totalChunks + 1;
        events := events + [Data(chunk)];
        var quietRun := if quiet then state.consecutiveQuietChunks + 1 else 0;
        state := Active(total, quietRun);
        if EndsSegment(config, total, quietRun, chunk) {
          events := events + [End];
          state := Quiet;
        }
      }

      lastChunk := chunk;
      assert Snapshot() == Step(config, e0, chunk, id).next;
    }
  }
}
