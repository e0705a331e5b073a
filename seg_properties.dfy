/** What one call of the segmentation engine does, case by case, the ranges
    the counters keep, and the event sequences pinned by the unit tests of
    src/seg.rs. */
module SegProperties {
  import opened Ints
  import opened Seg

  /* ----- Durations ----- */

  /** Chunk counts grow with the duration as long as the `u32` cast keeps
      every bit, that is, below 2^32 chunks (about 23 years of audio). */
  lemma DurationToChunksMonotone(d1: Duration, d2: Duration)
    requires AsMillis(d1) <= AsMillis(d2)
    requires AsMillis(d2) * BytesPerMs < BytesPerChunk * 0x1_0000_0000
    ensures DurationToChunks(d1) <= DurationToChunks(d2)
  {
  }

  /** Past that bound the cast wraps: 733007751.851 s is the first whole
      millisecond worth 2^32 chunks, and it maps to 0 chunks, while one
      millisecond less maps to 2^32 - 1. */
  lemma DurationToChunksWraps()
    ensures DurationToChunks(Duration(733_007_751, 850_000_000)) == 0xffff_ffff
    ensures DurationToChunks(Duration(733_007_751, 851_000_000)) == 0
  {
    assert AsMillis(Duration(733_007_751, 850_000_000)) == 733_007_751_850;
    assert AsMillis(Duration(733_007_751, 851_000_000)) == 733_007_751_851;
  }

  /* ----- Single calls ----- */

  /** A quiet chunk while quiet (including the end-of-stream empty chunk
      when the threshold is not negative) changes nothing but `lastChunk`. */
  lemma QuietChunkWhileQuiet(cfg: Config, e: Engine, chunk: seq<Byte>, id: string)
    requires ValidChunk(cfg, chunk) && e.state == Quiet && IsQuiet(chunk, cfg.threshold)
    ensures Step(cfg, e, chunk, id) == Outcome(Engine(Quiet, chunk, e.pendingBuf), [], false)
  {
  }

  /** A hot chunk while quiet reserves an id (the only case that does) and
      opens a pending burst holding the pre-roll chunk, if there was one,
      followed by the hot chunk; nothing is emitted yet. */
  lemma HotChunkWhileQuiet(cfg: Config, e: Engine, chunk: seq<Byte>, id: string)
    requires ValidChunk(cfg, chunk) && e.state == Quiet && !IsQuiet(chunk, cfg.threshold)
    requires cfg.minHotChunks > 1
    ensures var r := Step(cfg, e, chunk, id);
              && r.idTaken && r.events == []
              && r.next.state == Pending(id, (if e.lastChunk == [] then 0 else 1) + 1, 1)
              && r.next.pendingBuf == e.lastChunk + chunk
  {
  }

  /** With `minHotChunks <= 1` a single hot chunk goes all the way from
      quiet to active: `Start`, then the pre-roll, then the chunk itself. */
  lemma HotChunkWhileQuietActivatesAtOnce(cfg: Config, e: Engine, chunk: seq<Byte>, id: string)
    requires ValidChunk(cfg, chunk) && e.state == Quiet && !IsQuiet(chunk, cfg.threshold)
    requires cfg.minHotChunks <= 1
    ensures var r := Step(cfg, e, chunk, id);
            var total := (if e.lastChunk == [] then 0 else 1) + 1;
              && r.idTaken
              && (if EndsSegment(cfg, total, 0, chunk)
                  then r.events == [Start(id), Data(e.lastChunk), Data(chunk), End] && r.next.state == Quiet
                  else r.events == [Start(id), Data(e.lastChunk), Data(chunk)] && r.next.state == Active(total, 0))
  {
  }

  /** A quiet chunk discards a pending burst: back to quiet, no event, so
      the reserved id is never surfaced. The buffer is not cleared. */
  lemma QuietChunkWhilePending(cfg: Config, e: Engine, chunk: seq<Byte>, id: string)
    requires ValidChunk(cfg, chunk) && e.state.Pending? && IsQuiet(chunk, cfg.threshold)
    ensures Step(cfg, e, chunk, id) == Outcome(Engine(Quiet, chunk, e.pendingBuf), [], false)
  {
  }

  /** A hot chunk that leaves the burst short of `minHotChunks` is buffered
      and counted, silently. */
  lemma HotChunkWhilePendingBuffers(cfg: Config, e: Engine, chunk: seq<Byte>, id: string)
    requires ValidChunk(cfg, chunk) && e.state.Pending? && !IsQuiet(chunk, cfg.threshold)
    requires e.state.consecutiveHotChunks + 1 < cfg.minHotChunks
    ensures var r := Step(cfg, e, chunk, id);
              && !r.idTaken && r.events == []
              && r.next.state == e.state.(totalChunks := e.state.totalChunks + 1,
                                           consecutiveHotChunks := e.state.consecutiveHotChunks + 1)
              && r.next.pendingBuf == e.pendingBuf + chunk
  {
  }

  /** The hot chunk that reaches `minHotChunks` promotes the burst: `Start`
      with the reserved id, the whole buffer, then the chunk, all in this
      call; the segment may end in the same call. */
  lemma HotChunkWhilePendingPromotes(cfg: Config, e: Engine, chunk: seq<Byte>, id: string)
    requires ValidChunk(cfg, chunk) && e.state.Pending? && !IsQuiet(chunk, cfg.threshold)
    requires e.state.consecutiveHotChunks + 1 >= cfg.minHotChunks
    ensures var r := Step(cfg, e, chunk, id);
            var total := e.state.totalChunks + 1;
              && !r.idTaken
              && r.next.pendingBuf == e.pendingBuf
              && (if EndsSegment(cfg, total, 0, chunk)
                  then r.events == [Start(e.state.id), Data(e.pendingBuf), Data(chunk), End] && r.next.state == Quiet
                  else r.events == [Start(e.state.id), Data(e.pendingBuf), Data(chunk)] && r.next.state == Active(total, 0))
  {
  }

  /** While active every chunk is counted and emitted; a hot chunk resets the
      quiet run, a quiet one extends it; `End` follows, and the engine goes
      quiet, exactly when a termination condition holds. */
  lemma ChunkWhileActive(cfg: Config, e: Engine, chunk: seq<Byte>, id: string)
    requires ValidChunk(cfg, chunk) && e.state.Active?
    ensures var r := Step(cfg, e, chunk, id);
            var total := e.state.totalChunks + 1;
            var quietRun := if IsQuiet(chunk, cfg.threshold) then e.state.consecutiveQuietChunks + 1 else 0;
              && !r.idTaken
              && r.next.pendingBuf == e.pendingBuf
              && (if EndsSegment(cfg, total, quietRun, chunk)
                  then r.events == [Data(chunk), End] && r.next.state == Quiet
                  else r.events == [Data(chunk)] && r.next.state == Active(total, quietRun))
  {
  }

  /** The end-of-stream chunk ends an active segment. */
  lemma EmptyChunkEndsActive(cfg: Config, e: Engine, id: string)
    requires e.state.Active?
    ensures var r := Step(cfg, e, [], id);
              r.events == [Data([]), End] && r.next.state == Quiet
  {
    ChunkWhileActive(cfg, e, [], id);
  }

  /** After any `End`, a hot chunk produces no event when `minHotChunks > 1`:
      in particular a segment cut at `maxTotalChunks` while the input stays
      hot is not reopened at once. */
  lemma NoRestartAfterEnd(cfg: Config, e: Engine, c1: seq<Byte>, c2: seq<Byte>, id1: string, id2: string)
    requires ValidChunk(cfg, c1) && ValidChunk(cfg, c2)
    requires End in Step(cfg, e, c1, id1).events
    requires !IsQuiet(c2, cfg.threshold) && cfg.minHotChunks > 1
    ensures Step(cfg, Step(cfg, e, c1, id1).next, c2, id2).events == []
  {
    HotChunkWhileQuiet(cfg, Step(cfg, e, c1, id1).next, c2, id2);
  }

  /** Events are only produced while a segment is, or has just become,
      active; a quiet-or-pending engine that stays so is silent. */
  lemma SilentUnlessActive(cfg: Config, e: Engine, chunk: seq<Byte>, id: string)
    requires ValidChunk(cfg, chunk)
    ensures var r := Step(cfg, e, chunk, id);
              r.events != [] <==> (r.next.state.Active? || End in r.events)
  {
  }

  /* ----- Counter ranges ----- */

  /** The ranges the counters keep between calls: a pending burst has seen
      at least one and fewer than `minHotChunks` hot chunks and holds at
      most one chunk more (the pre-roll); an active segment is below both
      caps. Every counter therefore fits the source's `u32`. */
  ghost predicate Bounded(cfg: Config, s: State)
  {
    match s
    case Quiet => true
    case Pending(_, total, hot) => 1 <= hot < cfg.minHotChunks && total <= hot + 1
    case Active(total, quietRun) => total < cfg.maxTotalChunks && quietRun < cfg.maxQuietChunks
  }

  lemma StepKeepsBounded(cfg: Config, e: Engine, chunk: seq<Byte>, id: string)
    requires ValidChunk(cfg, chunk) && Bounded(cfg, e.state)
    ensures Bounded(cfg, Step(cfg, e, chunk, id).next.state)
  {
  }

  lemma BoundedFitsU32(cfg: Config, s: State)
    requires Bounded(cfg, s)
    ensures s.Pending? ==> s.totalChunks < 0x1_0000_0000 && s.consecutiveHotChunks < 0x1_0000_0000
    ensures s.Active? ==> s.totalChunks < 0x1_0000_0000 && s.consecutiveQuietChunks < 0x1_0000_0000
  {
  }

  /* ----- The unit tests ----- */

  /** The bytes of the `Data` events, in order. */
  function Payload(evs: seq<Event>): seq<Byte>
  {
    if evs == [] then []
    else (if evs[0].Data? then evs[0].bytes else []) + Payload(evs[1..])
  }

  lemma {:induction false} PayloadAppend(a: seq<Event>, b: seq<Event>)
    ensures Payload(a + b) == Payload(a) + Payload(b)
  {
    if a == [] {
      assert a + b == b;
    } else {
      assert (a + b)[0] == a[0];
      assert (a + b)[1..] == a[1..] + b;
      PayloadAppend(a[1..], b);
    }
  }

  /** The events other than `Data`, in order. */
  function NonData(evs: seq<Event>): seq<Event>
  {
    if evs == [] then []
    else (if evs[0].Data? then [] else [evs[0]]) + NonData(evs[1..])
  }

  lemma {:induction false} NonDataAppend(a: seq<Event>, b: seq<Event>)
    ensures NonData(a + b) == NonData(a) + NonData(b)
  {
    if a == [] {
      assert a + b == b;
    } else {
      assert (a + b)[0] == a[0];
      assert (a + b)[1..] == a[1..] + b;
      NonDataAppend(a[1..], b);
    }
  }

  /** No two `Data` events are adjacent. */
  predicate NoAdjacentData(evs: seq<Event>)
  {
    forall i :: 0 <= i < |evs| - 1 ==> !(evs[i].Data? && evs[i + 1].Data?)
  }

  /** One step of `test_events`: a `Data` event following a `Data` event is
      merged into it, anything else is appended. */
  function Push(acc: seq<Event>, ev: Event): (r: seq<Event>)
    ensures r != [] && |r| <= |acc| + 1
  {
    if acc != [] && acc[|acc| - 1].Data? && ev.Data? then
      acc[..|acc| - 1] + [Data(acc[|acc| - 1].bytes + ev.bytes)]
    else
      acc + [ev]
  }

  /** `test_events` of the tests: consecutive `Data` events merged into one,
      everything else kept in order. */
  function Coalesce(evs: seq<Event>): (r: seq<Event>)
    ensures |r| <= |evs| && (r == [] <==> evs == [])
  {
    if evs == [] then [] else Push(Coalesce(evs[..|evs| - 1]), evs[|evs| - 1])
  }

  lemma CoalesceSnoc(evs: seq<Event>, x: Event)
    ensures Coalesce(evs + [x]) == Push(Coalesce(evs), x)
  {
    var s := evs + [x];
    assert s[..|s| - 1] == evs && s[|s| - 1] == x;
  }

  /** Pushing keeps the bytes of the `Data` events, in order. */
  lemma PushPayload(acc: seq<Event>, ev: Event)
    ensures Payload(Push(acc, ev)) == Payload(acc) + Payload([ev])
  {
    if acc != [] && acc[|acc| - 1].Data? && ev.Data? {
      var init, last := acc[..|acc| - 1], acc[|acc| - 1];
      assert acc == init + [last];
      assert Push(acc, ev) == init + [Data(last.bytes + ev.bytes)];
      PayloadAppend(init, [last]);
      PayloadAppend(init, [Data(last.bytes + ev.bytes)]);
    } else {
      PayloadAppend(acc, [ev]);
    }
  }

  /** Pushing keeps the events other than `Data`, in order. */
  lemma PushNonData(acc: seq<Event>, ev: Event)
    ensures NonData(Push(acc, ev)) == NonData(acc) + NonData([ev])
  {
    if acc != [] && acc[|acc| - 1].Data? && ev.Data? {
      var init, last := acc[..|acc| - 1], acc[|acc| - 1];
      assert acc == init + [last];
      assert Push(acc, ev) == init + [Data(last.bytes + ev.bytes)];
      NonDataAppend(init, [last]);
      NonDataAppend(init, [Data(last.bytes + ev.bytes)]);
    } else {
      NonDataAppend(acc, [ev]);
    }
  }

  /** Pushing never puts two `Data` events side by side. */
  lemma PushNoAdjacentData(acc: seq<Event>, ev: Event)
    requires NoAdjacentData(acc)
    ensures NoAdjacentData(Push(acc, ev))
  {
  }

  /** Coalescing keeps the bytes of the `Data` events, in order. */
  lemma {:induction false} CoalescePayload(evs: seq<Event>)
    ensures Payload(Coalesce(evs)) == Payload(evs)
    decreases |evs|
  {
    if evs != [] {
      var init, ev := evs[..|evs| - 1], evs[|evs| - 1];
      assert evs == init + [ev];
      CoalescePayload(init);
      PushPayload(Coalesce(init), ev);
      PayloadAppend(init, [ev]);
    }
  }

  /** Coalescing keeps every event other than `Data`, in order. */
  lemma {:induction false} CoalesceNonData(evs: seq<Event>)
    ensures NonData(Coalesce(evs)) == NonData(evs)
    decreases |evs|
  {
    if evs != [] {
      var init, ev := evs[..|evs| - 1], evs[|evs| - 1];
      assert evs == init + [ev];
      CoalesceNonData(init);
      PushNonData(Coalesce(init), ev);
      NonDataAppend(init, [ev]);
    }
  }

  /** No two `Data` events are left adjacent. */
  lemma {:induction false} CoalesceNoAdjacentData(evs: seq<Event>)
    ensures NoAdjacentData(Coalesce(evs))
    decreases |evs|
  {
    if evs != [] {
      CoalesceNoAdjacentData(evs[..|evs| - 1]);
      PushNoAdjacentData(Coalesce(evs[..|evs| - 1]), evs[|evs| - 1]);
    }
  }

  /** Pushing past a non-empty tail only looks at the tail. */
  lemma PushAppend(p: seq<Event>, q: seq<Event>, ev: Event)
    requires q != []
    ensures Push(p + q, ev) == p + Push(q, ev)
  {
    var pq := p + q;
    var last := q[|q| - 1];
    assert pq[|pq| - 1] == last;
    if last.Data? && ev.Data? {
      var merged := Data(last.bytes + ev.bytes);
      assert Push(pq, ev) == pq[..|pq| - 1] + [merged];
      assert Push(q, ev) == q[..|q| - 1] + [merged];
      assert pq[..|pq| - 1] == p + q[..|q| - 1];
      assert (p + q[..|q| - 1]) + [merged] == p + (q[..|q| - 1] + [merged]);
    } else {
      assert Push(pq, ev) == pq + [ev];
      assert Push(q, ev) == q + [ev];
      assert (p + q) + [ev] == p + (q + [ev]);
    }
  }

  /** After a barrier, an event is pushed onto what follows the barrier. */
  lemma PushAfterBarrier(pre: seq<Event>, cb: seq<Event>, x: Event)
    requires pre != [] && !pre[|pre| - 1].Data?
    ensures Push(pre + cb, x) == pre + Push(cb, x)
  {
    if cb == [] {
      assert pre + cb == pre;
      assert Push(pre, x) == pre + [x];
      assert Push(cb, x) == [x];
    } else {
      PushAppend(pre, cb, x);
    }
  }

  /** Once the coalesced stream splits after a barrier, the split stays
      there when one more event arrives. */
  lemma CoalesceAfterBarrier(pre: seq<Event>, s0: seq<Event>, b: seq<Event>, x: Event)
    requires pre != [] && !pre[|pre| - 1].Data?
    requires Coalesce(s0) == pre + Coalesce(b)
    ensures Coalesce(s0 + [x]) == pre + Coalesce(b + [x])
  {
    CoalesceSnoc(s0, x);
    CoalesceSnoc(b, x);
    PushAfterBarrier(pre, Coalesce(b), x);
  }

  /** A non-`Data` event is a barrier: what comes before it and what comes
      after it are coalesced independently. */
  lemma {:induction false} CoalesceBarrier(a: seq<Event>, ev: Event, b: seq<Event>)
    requires !ev.Data?
    ensures Coalesce(a + [ev] + b) == Coalesce(a) + [ev] + Coalesce(b)
    decreases |b|
  {
    if b == [] {
      assert a + [ev] + b == a + [ev];
      CoalesceSnoc(a, ev);
    } else {
      var b', x := b[..|b| - 1], b[|b| - 1];
      var s0 := a + [ev] + b';
      assert b == b' + [x] && a + [ev] + b == s0 + [x];
      CoalesceBarrier(a, ev, b');
      CoalesceAfterBarrier(Coalesce(a) + [ev], s0, b', x);
    }
  }

  lemma PayloadOfOne(ev: Event)
    ensures Payload([ev]) == if ev.Data? then ev.bytes else []
  {
    assert [ev][1..] == [];
  }

  /** Extending a run of `Data` by one more `Data` event. */
  lemma CoalesceDataSnoc(init: seq<Event>, ev: Event)
    requires ev.Data? && Coalesce(init) == [Data(Payload(init))]
    ensures Coalesce(init + [ev]) == [Data(Payload(init + [ev]))]
  {
    CoalesceSnoc(init, ev);
    PayloadAppend(init, [ev]);
    PayloadOfOne(ev);
  }

  /** A run of `Data` events becomes a single `Data` of their bytes. */
  lemma {:induction false} CoalesceDataRun(evs: seq<Event>)
    requires evs != [] && forall i :: 0 <= i < |evs| ==> evs[i].Data?
    ensures Coalesce(evs) == [Data(Payload(evs))]
    decreases |evs|
  {
    var init, ev := evs[..|evs| - 1], evs[|evs| - 1];
    assert evs == init + [ev];
    if init == [] {
      assert Coalesce(evs) == Push([], ev) == [ev];
      PayloadOfOne(ev);
    } else {
      assert forall i :: 0 <= i < |init| ==> init[i] == evs[i];
      CoalesceDataRun(init);
      CoalesceDataSnoc(init, ev);
    }
  }

  /** A promotion call, as the tests see it: `Start`, then the buffer and
      the chunk merged into one payload. */
  lemma CoalescedPromotion(id: string, buf: seq<Byte>, chunk: seq<Byte>)
    ensures Coalesce([Start(id), Data(buf), Data(chunk)]) == [Start(id), Data(buf + chunk)]
  {
    var s2 := [Start(id), Data(buf)];
    assert [Start(id), Data(buf), Data(chunk)][..2] == s2;
    assert s2[..1] == [Start(id)];
    assert [Start(id)][..0] == [];
    assert Coalesce([Start(id)]) == [Start(id)];
    assert Coalesce(s2) == s2;
  }

  /** The limits all three unit tests configure (`chunk_size` 4 and
      `threshold` 0x0100 enter only through the chunks' classification). */
  predicate TestLimits(cfg: Config)
  {
    cfg.maxTotalChunks == 10 && cfg.minHotChunks == 2 && cfg.maxQuietChunks == 3 && cfg.chunkSize >= 4
  }

  /** The peak of a two-sample chunk. */
  lemma Peak4(raw: seq<Byte>)
    requires |raw| == 4
    ensures var a := AbsSampleAt(raw, 0); var b := AbsSampleAt(raw, 1);
              PeakSample(raw) == if a >= b then a else b
  {
    var rest := raw[2..];
    assert rest[0] == raw[2] && rest[1] == raw[3];
    assert MaxAbs(rest) == AbsSampleAt(rest, 0) == AbsSampleAt(raw, 1);
  }

  /** A two-sample chunk is quiet iff both magnitudes are within the
      threshold. */
  lemma Quiet4(raw: seq<Byte>, threshold: I16, s0: I16, s1: I16)
    requires |raw| == 4 && Sample(raw[0], raw[1]) == s0 && Sample(raw[2], raw[3]) == s1
    ensures IsQuiet(raw, threshold) <==> WrappingAbs(s0) <= threshold && WrappingAbs(s1) <= threshold
  {
    Peak4(raw);
  }

  /** The first chunk of `test_simple_on_off` peaks at exactly the
      threshold 0x0100, which counts as quiet. */
  lemma SimpleOnOffThresholdChunk()
    ensures IsQuiet([0x00, 0x00, 0x00, 0x01], 0x0100)
  {
    Quiet4([0x00, 0x00, 0x00, 0x01], 0x0100, 0, 0x0100);
  }

  /** The other quiet chunks of `test_simple_on_off`. */
  lemma SimpleOnOffQuietChunks()
    ensures IsQuiet([0x08, 0x00, 0x07, 0x00], 0x0100)
    ensures IsQuiet([0x07, 0x00, 0x06, 0x00], 0x0100)
    ensures IsQuiet([0x06, 0x00, 0x05, 0x00], 0x0100)
  {
    Quiet4([0x08, 0x00, 0x07, 0x00], 0x0100, 8, 7);
    Quiet4([0x07, 0x00, 0x06, 0x00], 0x0100, 7, 6);
    Quiet4([0x06, 0x00, 0x05, 0x00], 0x0100, 6, 5);
  }

  /** The hot chunks of `test_simple_on_off` at threshold 0x0100. */
  lemma SimpleOnOffHotChunks()
    ensures !IsQuiet([0x00, 0x02, 0x00, 0x03], 0x0100)
    ensures !IsQuiet([0x00, 0x04, 0x00, 0x05], 0x0100)
    ensures !IsQuiet([0x00, 0x06, 0x00, 0x07], 0x0100)
    ensures !IsQuiet([0x00, 0x08, 0x08, 0x00], 0x0100)
  {
    Quiet4([0x00, 0x02, 0x00, 0x03], 0x0100, 0x0200, 0x0300);
    Quiet4([0x00, 0x04, 0x00, 0x05], 0x0100, 0x0400, 0x0500);
    Quiet4([0x00, 0x06, 0x00, 0x07], 0x0100, 0x0600, 0x0700);
    Quiet4([0x00, 0x08, 0x08, 0x00], 0x0100, 0x0800, 0x0008);
  }

  /** The two chunks of the `test_max_chunks` tests: `chunk_off` (samples 1
      and 1) is quiet, `chunk_on` (samples -13108) is hot. */
  lemma MaxChunksChunks()
    ensures IsQuiet([0x01, 0x00, 0x01, 0x00], 0x0100)
    ensures !IsQuiet([0xcc, 0xcc, 0xcc, 0xcc], 0x0100)
  {
    Quiet4([0x01, 0x00, 0x01, 0x00], 0x0100, 1, 1);
    Quiet4([0xcc, 0xcc, 0xcc, 0xcc], 0x0100, -13108, -13108);
  }

  /** `test_simple_on_off`, calls 1 to 3, for any chunks classified as in
      that test: a quiet chunk, then a hot one that opens a pending burst
      (taking the first id), then a hot one that promotes it with the
      pre-roll. */
  lemma SimpleOnOffOpening(cfg: Config, c0: seq<Byte>, c1: seq<Byte>, c2: seq<Byte>, id0: string, id1: string)
    requires TestLimits(cfg) && |c0| == |c1| == |c2| == 4
    requires IsQuiet(c0, cfg.threshold) && !IsQuiet(c1, cfg.threshold) && !IsQuiet(c2, cfg.threshold)
    ensures Step(cfg, Fresh(), c0, id0) == Outcome(Engine(Quiet, c0, []), [], false)
    ensures Step(cfg, Engine(Quiet, c0, []), c1, id0)
              == Outcome(Engine(Pending(id0, 2, 1), c1, c0 + c1), [], true)
    ensures Step(cfg, Engine(Pending(id0, 2, 1), c1, c0 + c1), c2, id1)
              == Outcome(Engine(Active(3, 0), c2, c0 + c1), [Start(id0), Data(c0 + c1), Data(c2)], false)
    ensures Coalesce([Start(id0), Data(c0 + c1), Data(c2)]) == [Start(id0), Data(c0 + c1 + c2)]
  {
    CoalescedPromotion(id0, c0 + c1, c2);
  }

  /** `test_simple_on_off`, calls 4 to 6: two hot chunks and a quiet one
      are passed through, the quiet one starting the quiet run. */
  lemma SimpleOnOffMiddle(cfg: Config, c2: seq<Byte>, c3: seq<Byte>, c4: seq<Byte>, c5: seq<Byte>,
                          buf: seq<Byte>, id: string)
    requires TestLimits(cfg) && |c3| == |c4| == |c5| == 4
    requires !IsQuiet(c3, cfg.threshold) && !IsQuiet(c4, cfg.threshold) && IsQuiet(c5, cfg.threshold)
    ensures Step(cfg, Engine(Active(3, 0), c2, buf), c3, id) == Outcome(Engine(Active(4, 0), c3, buf), [Data(c3)], false)
    ensures Step(cfg, Engine(Active(4, 0), c3, buf), c4, id) == Outcome(Engine(Active(5, 0), c4, buf), [Data(c4)], false)
    ensures Step(cfg, Engine(Active(5, 0), c4, buf), c5, id) == Outcome(Engine(Active(6, 1), c5, buf), [Data(c5)], false)
  {
  }

  /** `test_simple_on_off`, calls 7 to 9: the second quiet chunk is passed
      through, the third ends the segment, and the next quiet chunk is
      silent. */
  lemma SimpleOnOffClosing(cfg: Config, c5: seq<Byte>, c6: seq<Byte>, c7: seq<Byte>, c8: seq<Byte>,
                           buf: seq<Byte>, id: string)
    requires TestLimits(cfg) && |c6| == |c7| == |c8| == 4
    requires IsQuiet(c6, cfg.threshold) && IsQuiet(c7, cfg.threshold) && IsQuiet(c8, cfg.threshold)
    ensures Step(cfg, Engine(Active(6, 1), c5, buf), c6, id) == Outcome(Engine(Active(7, 2), c6, buf), [Data(c6)], false)
    ensures Step(cfg, Engine(Active(7, 2), c6, buf), c7, id) == Outcome(Engine(Quiet, c7, buf), [Data(c7), End], false)
    ensures Step(cfg, Engine(Quiet, c7, buf), c8, id) == Outcome(Engine(Quiet, c8, buf), [], false)
  {
  }

  /** `test_max_chunks`: after three quiet chunks, a hot burst is promoted on
      its second chunk with the quiet pre-roll (total 3), each further hot
      chunk is passed through, the one that brings the total to 10 ends the
      segment, and the next hot chunk only opens a new pending burst. */
  lemma MaxChunks(cfg: Config, off: seq<Byte>, on: seq<Byte>, id0: string, id1: string)
    requires TestLimits(cfg) && |off| == |on| == 4
    requires IsQuiet(off, cfg.threshold) && !IsQuiet(on, cfg.threshold)
    ensures Step(cfg, Engine(Quiet, off, []), on, id0) == Outcome(Engine(Pending(id0, 2, 1), on, off + on), [], true)
    ensures Step(cfg, Engine(Pending(id0, 2, 1), on, off + on), on, id1)
              == Outcome(Engine(Active(3, 0), on, off + on), [Start(id0), Data(off + on), Data(on)], false)
    ensures forall total :: 3 <= total < 9 ==>
              Step(cfg, Engine(Active(total, 0), on, off + on), on, id1)
                == Outcome(Engine(Active(total + 1, 0), on, off + on), [Data(on)], false)
    ensures Step(cfg, Engine(Active(9, 0), on, off + on), on, id1) == Outcome(Engine(Quiet, on, off + on), [Data(on), End], false)
    ensures Step(cfg, Engine(Quiet, on, off + on), on, id1).events == []
  {
  }

  /** `test_max_chunks_from_start`: with no chunk before the burst there is
      no pre-roll, so the pending burst counts and buffers the hot chunk
      alone. */
  lemma MaxChunksFromStartPending(cfg: Config, on: seq<Byte>, id0: string)
    requires TestLimits(cfg) && |on| == 4 && !IsQuiet(on, cfg.threshold)
    ensures Step(cfg, Fresh(), on, id0) == Outcome(Engine(Pending(id0, 1, 1), on, on), [], true)
  {
    assert Fresh().lastChunk + on == on;
  }

  /** `test_max_chunks_from_start`, continued: the promoted payload holds
      only the two hot chunks. */
  lemma MaxChunksFromStartOpening(cfg: Config, on: seq<Byte>, id0: string, id1: string)
    requires TestLimits(cfg) && |on| == 4 && !IsQuiet(on, cfg.threshold)
    ensures Step(cfg, Engine(Pending(id0, 1, 1), on, on), on, id1)
              == Outcome(Engine(Active(2, 0), on, on), [Start(id0), Data(on), Data(on)], false)
  {
  }

  /** `test_max_chunks_from_start`, continued: the cap is reached on the
      tenth hot chunk, and the next one only opens a new pending burst. */
  lemma MaxChunksFromStartClosing(cfg: Config, on: seq<Byte>, id: string)
    requires TestLimits(cfg) && |on| == 4 && !IsQuiet(on, cfg.threshold)
    ensures forall total :: 2 <= total < 9 ==>
              Step(cfg, Engine(Active(total, 0), on, on), on, id)
                == Outcome(Engine(Active(total + 1, 0), on, on), [Data(on)], false)
    ensures Step(cfg, Engine(Active(9, 0), on, on), on, id) == Outcome(Engine(Quiet, on, on), [Data(on), End], false)
    ensures Step(cfg, Engine(Quiet, on, on), on, id).events == []
  {
  }
}
