/** Whole streams: what a consumer of the events sees when the engine is fed
    a sequence of chunks from construction on.

    The consumer (`Sink`) is an independent reference for the event
    protocol: it refuses a `Start` while a segment is open and a `Data` or
    `End` while none is, and it collects the bytes of each segment. The
    theorem `ReplayDelivers` states that the consumer never refuses, that a
    segment is open exactly while the engine is active, and that every
    segment it receives is a whole burst of the input: it begins at a hot
    chunk fed to a quiet engine, it takes the chunk before it (the pre-roll)
    when that one was not empty, it runs through every later chunk up to
    and including the call that emitted its `End` while the engine did not
    return to quiet in between, and it carries the id the generator
    returned at the call that opened it. */
module SegTrace {
  import opened Wrappers
  import opened Ints
  import opened Seg

  /* ----- The consumer ----- */

  datatype Segment = Segment(id: string, bytes: seq<Byte>)

  datatype Sink = Sink(open: Option<Segment>, done: seq<Segment>)

  /** Accept one event, or `None` on a protocol violation. */
  function Deliver(s: Sink, ev: Event): (r: Option<Sink>)
    ensures r.Some? <==> (ev.Start? <==> s.open.None?)
    ensures r.Some? ==> r.value.open.Some? == !ev.End?
  {
    match ev
    case Start(id) => if s.open.Some? then None else Some(Sink(Some(Segment(id, [])), s.done))
    case Data(b) =>
      if s.open.None? then None
      else Some(Sink(Some(s.open.value.(bytes := s.open.value.bytes + b)), s.done))
    case End => if s.open.None? then None else Some(Sink(None, s.done + [s.open.value]))
  }

  function DeliverAll(s: Sink, evs: seq<Event>): Option<Sink>
    decreases |evs|
  {
    if evs == [] then Some(s)
    else
      match Deliver(s, evs[0])
      case None => None
      case Some(s') => DeliverAll(s', evs[1..])
  }

  /* ----- Streams of chunks ----- */

  predicate AllValid(cfg: Config, cs: seq<seq<Byte>>)
  {
    forall i :: 0 <= i < |cs| ==> ValidChunk(cfg, cs[i])
  }

  datatype History = History(engine: Engine, sink: Option<Sink>)

  /** Feed `cs` to a fresh engine, `ids[i]` being what the id generator
      would return during call `i`, and hand every event to a fresh sink. */
  function Replay(cfg: Config, cs: seq<seq<Byte>>, ids: seq<string>): History
    requires |ids| == |cs| && AllValid(cfg, cs)
    decreases |cs|
  {
    if cs == [] then History(Fresh(), Some(Sink(None, [])))
    else
      var n := |cs| - 1;
      var h := Replay(cfg, cs[..n], ids[..n]);
      var r := Step(cfg, h.engine, cs[n], ids[n]);
      History(r.next, if h.sink.None? then None else DeliverAll(h.sink.value, r.events))
  }

  /** The bytes of a sequence of chunks, in order. */
  function Flatten(cs: seq<seq<Byte>>): seq<Byte>
  {
    if cs == [] then [] else Flatten(cs[..|cs| - 1]) + cs[|cs| - 1]
  }

  /** The chunks of a burst that began at call `k`, up to call `m`
      (exclusive): the pre-roll chunk `cs[k - 1]` if there is a non-empty
      one, then `cs[k..m]`. */
  function Window(cs: seq<seq<Byte>>, k: nat, m: nat): seq<seq<Byte>>
    requires k <= m <= |cs|
  {
    (if k > 0 && cs[k - 1] != [] then [cs[k - 1]] else []) + cs[k..m]
  }

  /** The engine before each call and after the last: `es[j]` is the
      engine once the first `j` chunks have been fed. */
  function Engines(cfg: Config, cs: seq<seq<Byte>>, ids: seq<string>): (es: seq<Engine>)
    requires |ids| == |cs| && AllValid(cfg, cs)
    ensures |es| == |cs| + 1 && es[0] == Fresh()
    ensures es[|cs|] == Replay(cfg, cs, ids).engine
    decreases |cs|
  {
    if cs == [] then [Fresh()]
    else
      var n := |cs| - 1;
      assert AllValid(cfg, cs[..n]);
      Engines(cfg, cs[..n], ids[..n]) + [Replay(cfg, cs, ids).engine]
  }

  /** A burst began at call `k` and was still going after call `m - 1`:
      the engine was quiet before call `k` and not quiet after any of the
      calls `k` to `m - 1`. */
  ghost predicate BurstFrom(es: seq<Engine>, k: nat, m: nat)
    requires k <= m < |es|
  {
    && es[k].state.Quiet?
    && forall j :: k < j <= m ==> !es[j].state.Quiet?
  }

  /** `seg` is the whole burst that began at the hot chunk `cs[k]`, fed to
      a quiet engine, and was ended by the `End` of call `m - 1`. */
  ghost predicate SegmentAt(cfg: Config, cs: seq<seq<Byte>>, ids: seq<string>, seg: Segment, k: nat, m: nat)
    requires |ids| == |cs| && AllValid(cfg, cs)
  {
    && k < m <= |cs|
    && |cs[k]| % 2 == 0 && !IsQuiet(cs[k], cfg.threshold)
    && BurstFrom(Engines(cfg, cs, ids), k, m - 1)
    && ValidChunk(cfg, cs[m - 1])
    && End in Step(cfg, Engines(cfg, cs, ids)[m - 1], cs[m - 1], ids[m - 1]).events
    && seg == Segment(ids[k], Flatten(Window(cs, k, m)))
  }

  ghost predicate IsSegmentOf(cfg: Config, cs: seq<seq<Byte>>, ids: seq<string>, seg: Segment)
    requires |ids| == |cs| && AllValid(cfg, cs)
  {
    exists k: nat, m: nat :: SegmentAt(cfg, cs, ids, seg, k, m)
  }

  /** Every finished segment is a whole burst of `cs`. */
  ghost predicate AllSegmentsOf(cfg: Config, cs: seq<seq<Byte>>, ids: seq<string>, done: seq<Segment>)
    requires |ids| == |cs| && AllValid(cfg, cs)
  {
    forall seg :: seg in done ==> IsSegmentOf(cfg, cs, ids, seg)
  }

  /** The burst in progress, pending or active, began at call `k`, and the
      sink has a segment open exactly while it is active. */
  ghost predicate OpenBurst(cfg: Config, cs: seq<seq<Byte>>, ids: seq<string>, e: Engine, s: Sink, k: nat)
    requires |ids| == |cs| && AllValid(cfg, cs)
  {
    match e.state
    case Quiet => s.open.None?
    case Pending(id, total, hot) =>
      && s.open.None?
      && k < |cs| && |cs[k]| % 2 == 0 && !IsQuiet(cs[k], cfg.threshold) && BurstFrom(Engines(cfg, cs, ids), k, |cs|)
      && id == ids[k] && hot == |cs| - k && 1 <= hot < cfg.minHotChunks
      && total == |Window(cs, k, |cs|)| && e.pendingBuf == Flatten(Window(cs, k, |cs|))
    case Active(total, quietRun) =>
      && k < |cs| && |cs[k]| % 2 == 0 && !IsQuiet(cs[k], cfg.threshold) && BurstFrom(Engines(cfg, cs, ids), k, |cs|)
      && s.open == Some(Segment(ids[k], Flatten(Window(cs, k, |cs|))))
      && total == |Window(cs, k, |cs|)|
      && total < cfg.maxTotalChunks && quietRun < cfg.maxQuietChunks
  }

  /** What holds after `cs` has been fed, `k` being the call at which the
      current burst (if any) began. */
  ghost predicate Inv(cfg: Config, cs: seq<seq<Byte>>, ids: seq<string>, e: Engine, s: Sink, k: nat)
    requires |ids| == |cs| && AllValid(cfg, cs)
  {
    && e == Engines(cfg, cs, ids)[|cs|]
    && e.lastChunk == (if cs == [] then [] else cs[|cs| - 1])
    && AllSegmentsOf(cfg, cs, ids, s.done)
    && OpenBurst(cfg, cs, ids, e, s, k)
  }

  /** The segment's id is the one the generator was asked for at call `k`. */
  lemma SegmentIdReserved(cfg: Config, cs: seq<seq<Byte>>, ids: seq<string>, seg: Segment, k: nat, m: nat)
    requires |ids| == |cs| && AllValid(cfg, cs) && SegmentAt(cfg, cs, ids, seg, k, m)
    ensures Step(cfg, Engines(cfg, cs, ids)[k], cs[k], ids[k]).idTaken && seg.id == ids[k]
  {
  }

  /* ----- Lemmas about histories ----- */

  lemma AllValidSnoc(cfg: Config, cs: seq<seq<Byte>>, c: seq<Byte>)
    requires AllValid(cfg, cs) && ValidChunk(cfg, c)
    ensures AllValid(cfg, cs + [c])
  {
    assert forall i :: 0 <= i < |cs| ==> (cs + [c])[i] == cs[i];
  }

  /** One more call keeps the past engines and adds the step from the
      newest one. */
  lemma EnginesSnoc(cfg: Config, cs: seq<seq<Byte>>, ids: seq<string>, c: seq<Byte>, id: string)
    requires |ids| == |cs| && AllValid(cfg, cs) && ValidChunk(cfg, c) && AllValid(cfg, cs + [c])
    ensures var es := Engines(cfg, cs, ids);
              Engines(cfg, cs + [c], ids + [id]) == es + [Step(cfg, es[|cs|], c, id).next]
  {
    var cs', ids' := cs + [c], ids + [id];
    assert cs'[..|cs|] == cs && ids'[..|cs|] == ids;
    assert cs'[|cs|] == c && ids'[|cs|] == id;
    assert Replay(cfg, cs', ids').engine == Step(cfg, Replay(cfg, cs, ids).engine, c, id).next;
  }

  lemma BurstOfPrefix(cfg: Config, cs: seq<seq<Byte>>, ids: seq<string>, c: seq<Byte>, id: string, k: nat, m: nat)
    requires |ids| == |cs| && AllValid(cfg, cs) && ValidChunk(cfg, c) && AllValid(cfg, cs + [c])
    requires k <= m <= |cs| && BurstFrom(Engines(cfg, cs, ids), k, m)
    ensures BurstFrom(Engines(cfg, cs + [c], ids + [id]), k, m)
  {
    EnginesSnoc(cfg, cs, ids, c, id);
  }

  lemma BurstExtend(es: seq<Engine>, k: nat, m: nat)
    requires k <= m && m + 1 < |es| && BurstFrom(es, k, m) && !es[m + 1].state.Quiet?
    ensures BurstFrom(es, k, m + 1)
  {
  }

  /* ----- Lemmas about windows ----- */

  lemma FlattenSnoc(w: seq<seq<Byte>>, c: seq<Byte>)
    ensures Flatten(w + [c]) == Flatten(w) + c
  {
    assert (w + [c])[..|w|] == w;
  }

  /** Growing the stream does not change a window that lies in the past. */
  lemma WindowOfPrefix(cs: seq<seq<Byte>>, c: seq<Byte>, k: nat, m: nat)
    requires k <= m <= |cs|
    ensures Window(cs + [c], k, m) == Window(cs, k, m)
  {
    assert (cs + [c])[k..m] == cs[k..m];
    if k > 0 {
      assert (cs + [c])[k - 1] == cs[k - 1];
    }
  }

  /** A window that reaches the present grows by the new chunk. */
  lemma WindowSnoc(cs: seq<seq<Byte>>, c: seq<Byte>, k: nat)
    requires k <= |cs|
    ensures Window(cs + [c], k, |cs| + 1) == Window(cs, k, |cs|) + [c]
    ensures Flatten(Window(cs + [c], k, |cs| + 1)) == Flatten(Window(cs, k, |cs|)) + c
  {
    assert (cs + [c])[k..|cs| + 1] == cs[k..] + [c];
    if k > 0 {
      assert (cs + [c])[k - 1] == cs[k - 1];
    }
    FlattenSnoc(Window(cs, k, |cs|), c);
  }

  /** A burst that begins at the newest chunk: its window is the pre-roll
      (the engine's `lastChunk`, when not empty) and the chunk. */
  lemma WindowAtNewest(cs: seq<seq<Byte>>, c: seq<Byte>, last: seq<Byte>)
    requires last == (if cs == [] then [] else cs[|cs| - 1])
    ensures |Window(cs + [c], |cs|, |cs| + 1)| == (if |last| == 0 then 0 else 1) + 1
    ensures Flatten(Window(cs + [c], |cs|, |cs| + 1)) == last + c
  {
    var w := Window(cs + [c], |cs|, |cs| + 1);
    assert (cs + [c])[|cs|..|cs| + 1] == [c];
    if |cs| > 0 {
      assert (cs + [c])[|cs| - 1] == cs[|cs| - 1];
    }
    if last == [] {
      assert w == [c];
      assert w[..0] == [];
    } else {
      assert w == [last, c];
      assert w[..1] == [last];
      assert [last][..0] == [];
      assert Flatten([last]) == last;
    }
  }

  /** Finished segments stay segments of the stream when it grows. */
  lemma SegmentsOfPrefix(cfg: Config, cs: seq<seq<Byte>>, ids: seq<string>, c: seq<Byte>, id: string,
                         done: seq<Segment>)
    requires |ids| == |cs| && AllValid(cfg, cs) && ValidChunk(cfg, c) && AllValid(cfg, cs + [c])
    requires forall seg :: seg in done ==> IsSegmentOf(cfg, cs, ids, seg)
    ensures forall seg :: seg in done ==> IsSegmentOf(cfg, cs + [c], ids + [id], seg)
  {
    var cs', ids' := cs + [c], ids + [id];
    EnginesSnoc(cfg, cs, ids, c, id);
    forall seg | seg in done
      ensures IsSegmentOf(cfg, cs', ids', seg)
    {
      var k: nat, m: nat :| SegmentAt(cfg, cs, ids, seg, k, m);
      WindowOfPrefix(cs, c, k, m);
      BurstOfPrefix(cfg, cs, ids, c, id, k, m - 1);
      assert cs'[k] == cs[k] && ids'[k] == ids[k];
      assert cs'[m - 1] == cs[m - 1] && ids'[m - 1] == ids[m - 1];
      assert Engines(cfg, cs', ids')[m - 1] == Engines(cfg, cs, ids)[m - 1];
      assert SegmentAt(cfg, cs', ids', seg, k, m);
    }
  }

  /* ----- One more call ----- */

  /** The sink after the events of a promotion: the segment opened with the
      buffer and the chunk, closed if an `End` follows. */
  lemma DeliverPromotion(s: Sink, id: string, buf: seq<Byte>, c: seq<Byte>, tail: seq<Event>)
    requires s.open.None? && (tail == [] || tail == [End])
    ensures DeliverAll(s, [Start(id), Data(buf), Data(c)] + tail)
              == Some(if tail == [] then Sink(Some(Segment(id, buf + c)), s.done)
                      else Sink(None, s.done + [Segment(id, buf + c)]))
  {
    var evs := [Start(id), Data(buf), Data(c)] + tail;
    var s1 := Sink(Some(Segment(id, [])), s.done);
    var s2 := Sink(Some(Segment(id, buf)), s.done);
    var s3 := Sink(Some(Segment(id, buf + c)), s.done);
    assert evs[0] == Start(id) && evs[1..] == [Data(buf), Data(c)] + tail;
    assert [] + buf == buf;
    assert DeliverAll(s, evs) == DeliverAll(s1, evs[1..]);
    assert evs[1..][1..] == [Data(c)] + tail;
    assert DeliverAll(s1, evs[1..]) == DeliverAll(s2, [Data(c)] + tail);
    assert ([Data(c)] + tail)[1..] == tail;
    assert DeliverAll(s2, [Data(c)] + tail) == DeliverAll(s3, tail);
    if tail != [] {
      assert tail[1..] == [];
    }
  }

  /** The sink after the events of an active call. */
  lemma DeliverActive(s: Sink, seg: Segment, c: seq<Byte>, tail: seq<Event>)
    requires s.open == Some(seg) && (tail == [] || tail == [End])
    ensures DeliverAll(s, [Data(c)] + tail)
              == Some(if tail == [] then Sink(Some(seg.(bytes := seg.bytes + c)), s.done)
                      else Sink(None, s.done + [seg.(bytes := seg.bytes + c)]))
  {
    var s1 := Sink(Some(seg.(bytes := seg.bytes + c)), s.done);
    assert ([Data(c)] + tail)[0] == Data(c) && ([Data(c)] + tail)[1..] == tail;
    assert DeliverAll(s, [Data(c)] + tail) == DeliverAll(s1, tail);
    if tail != [] {
      assert tail[0] == End && tail[1..] == [];
      assert DeliverAll(s1, tail) == DeliverAll(Sink(None, s.done + [seg.(bytes := seg.bytes + c)]), []);
    }
  }

  /** Promotion at call `|cs|` of a burst that began at `k`: the sink ends
      up with the burst's window as its open or last finished segment. */
  lemma StepPromotes(cfg: Config, cs: seq<seq<Byte>>, ids: seq<string>, s: Sink, k: nat,
                     buf: seq<Byte>, total: nat, c: seq<Byte>, id: string, idTaken: bool)
    returns (s': Sink)
    requires |ids| == |cs| && k <= |cs| && ValidChunk(cfg, c) && AllValid(cfg, cs + [c]) && s.open.None?
    requires forall seg :: seg in s.done ==> IsSegmentOf(cfg, cs + [c], ids + [id], seg)
    requires |(cs + [c])[k]| % 2 == 0 && !IsQuiet((cs + [c])[k], cfg.threshold) && !IsQuiet(c, cfg.threshold)
    requires buf + c == Flatten(Window(cs + [c], k, |cs| + 1)) && total + 1 == |Window(cs + [c], k, |cs| + 1)|
    requires BurstFrom(Engines(cfg, cs + [c], ids + [id]), k, |cs|)
    requires Step(cfg, Engines(cfg, cs + [c], ids + [id])[|cs|], c, id)
               == Promote(cfg, (ids + [id])[k], buf, total, c, idTaken)
    requires Engines(cfg, cs + [c], ids + [id])[|cs| + 1] == Promote(cfg, (ids + [id])[k], buf, total, c, idTaken).next
    ensures var r := Promote(cfg, (ids + [id])[k], buf, total, c, idTaken);
            && DeliverAll(s, r.events) == Some(s')
            && Inv(cfg, cs + [c], ids + [id], r.next, s', k)
  {
    var cs', ids' := cs + [c], ids + [id];
    var pid := ids'[k];
    var r := Promote(cfg, pid, buf, total, c, idTaken);
    var tail := if EndsSegment(cfg, total + 1, 0, c) then [End] else [];
    assert r.events == [Start(pid), Data(buf), Data(c)] + tail;
    DeliverPromotion(s, pid, buf, c, tail);
    var seg := Segment(pid, buf + c);
    s' := if tail == [] then Sink(Some(seg), s.done) else Sink(None, s.done + [seg]);
    assert cs'[|cs'| - 1] == c;
    if tail == [] {
      BurstExtend(Engines(cfg, cs', ids'), k, |cs|);
    } else {
      assert SegmentAt(cfg, cs', ids', seg, k, |cs'|);
    }
  }

  /** One more call from the quiet state: a quiet chunk changes nothing, a
      hot one reserves an id for a burst beginning at this call. */
  lemma StepKeepsInvQuiet(cfg: Config, cs: seq<seq<Byte>>, ids: seq<string>, e: Engine, s: Sink, k: nat,
                          c: seq<Byte>, id: string, cs': seq<seq<Byte>>, ids': seq<string>)
    requires |ids| == |cs| && AllValid(cfg, cs) && ValidChunk(cfg, c)
    requires cs' == cs + [c] && ids' == ids + [id] && AllValid(cfg, cs')
    requires Inv(cfg, cs, ids, e, s, k) && e.state.Quiet?
    ensures var r := Step(cfg, e, c, id);
            var d := DeliverAll(s, r.events);
              d.Some? && Inv(cfg, cs', ids', r.next, d.value, |cs|)
  {
    var n := |cs|;
    SegmentsOfPrefix(cfg, cs, ids, c, id, s.done);
    EnginesSnoc(cfg, cs, ids, c, id);
    assert cs'[n] == c && ids'[n] == id;
    assert Engines(cfg, cs', ids')[n] == e;
    if !IsQuiet(c, cfg.threshold) {
      WindowAtNewest(cs, c, e.lastChunk);
      assert BurstFrom(Engines(cfg, cs', ids'), n, n);
      if 1 >= cfg.minHotChunks {
        var preRoll := if |e.lastChunk| == 0 then 0 else 1;
        var s' := StepPromotes(cfg, cs, ids, s, n, e.lastChunk, preRoll, c, id, true);
      } else {
        BurstExtend(Engines(cfg, cs', ids'), n, n);
      }
    }
  }

  /** A quiet chunk while a burst is pending discards the burst. */
  lemma StepKeepsInvPendingDiscards(cfg: Config, cs: seq<seq<Byte>>, ids: seq<string>, e: Engine, s: Sink, k: nat,
                                    c: seq<Byte>, id: string, cs': seq<seq<Byte>>, ids': seq<string>)
    requires |ids| == |cs| && AllValid(cfg, cs) && ValidChunk(cfg, c)
    requires cs' == cs + [c] && ids' == ids + [id] && AllValid(cfg, cs')
    requires Inv(cfg, cs, ids, e, s, k) && e.state.Pending? && IsQuiet(c, cfg.threshold)
    ensures var r := Step(cfg, e, c, id);
            var d := DeliverAll(s, r.events);
              d.Some? && Inv(cfg, cs', ids', r.next, d.value, k)
  {
    SegmentsOfPrefix(cfg, cs, ids, c, id, s.done);
    EnginesSnoc(cfg, cs, ids, c, id);
  }

  /** A hot chunk that does not yet promote a pending burst extends it. */
  lemma StepKeepsInvPendingBuffers(cfg: Config, cs: seq<seq<Byte>>, ids: seq<string>, e: Engine, s: Sink, k: nat,
                                   c: seq<Byte>, id: string, cs': seq<seq<Byte>>, ids': seq<string>)
    requires |ids| == |cs| && AllValid(cfg, cs) && ValidChunk(cfg, c)
    requires cs' == cs + [c] && ids' == ids + [id] && AllValid(cfg, cs')
    requires Inv(cfg, cs, ids, e, s, k) && e.state.Pending? && !IsQuiet(c, cfg.threshold)
    requires e.state.consecutiveHotChunks + 1 < cfg.minHotChunks
    ensures var r := Step(cfg, e, c, id);
            var d := DeliverAll(s, r.events);
              d.Some? && Inv(cfg, cs', ids', r.next, d.value, k)
  {
    SegmentsOfPrefix(cfg, cs, ids, c, id, s.done);
    EnginesSnoc(cfg, cs, ids, c, id);
    assert cs'[|cs|] == c;
    WindowSnoc(cs, c, k);
    assert cs'[k] == cs[k] && ids'[k] == ids[k];
    BurstOfPrefix(cfg, cs, ids, c, id, k, |cs|);
    BurstExtend(Engines(cfg, cs', ids'), k, |cs|);
  }

  /** The hot chunk that completes the run of hot chunks promotes a pending burst. */
  lemma StepKeepsInvPendingPromotes(cfg: Config, cs: seq<seq<Byte>>, ids: seq<string>, e: Engine, s: Sink, k: nat,
                                    c: seq<Byte>, id: string, cs': seq<seq<Byte>>, ids': seq<string>)
    requires |ids| == |cs| && AllValid(cfg, cs) && ValidChunk(cfg, c)
    requires cs' == cs + [c] && ids' == ids + [id] && AllValid(cfg, cs')
    requires Inv(cfg, cs, ids, e, s, k) && e.state.Pending? && !IsQuiet(c, cfg.threshold)
    requires e.state.consecutiveHotChunks + 1 >= cfg.minHotChunks
    ensures var r := Step(cfg, e, c, id);
            var d := DeliverAll(s, r.events);
              d.Some? && Inv(cfg, cs', ids', r.next, d.value, k)
  {
    SegmentsOfPrefix(cfg, cs, ids, c, id, s.done);
    EnginesSnoc(cfg, cs, ids, c, id);
    assert cs'[|cs|] == c;
    assert Engines(cfg, cs', ids')[|cs|] == e;
    WindowSnoc(cs, c, k);
    assert cs'[k] == cs[k] && ids'[k] == ids[k];
    BurstOfPrefix(cfg, cs, ids, c, id, k, |cs|);
    var s' := StepPromotes(cfg, cs, ids, s, k, e.pendingBuf, e.state.totalChunks, c, id, false);
  }

  /** One more call while a burst that began at `k` is pending. */
  lemma StepKeepsInvPending(cfg: Config, cs: seq<seq<Byte>>, ids: seq<string>, e: Engine, s: Sink, k: nat,
                            c: seq<Byte>, id: string, cs': seq<seq<Byte>>, ids': seq<string>)
    requires |ids| == |cs| && AllValid(cfg, cs) && ValidChunk(cfg, c)
    requires cs' == cs + [c] && ids' == ids + [id] && AllValid(cfg, cs')
    requires Inv(cfg, cs, ids, e, s, k) && e.state.Pending?
    ensures var r := Step(cfg, e, c, id);
            var d := DeliverAll(s, r.events);
              d.Some? && Inv(cfg, cs', ids', r.next, d.value, k)
  {
    if IsQuiet(c, cfg.threshold) {
      StepKeepsInvPendingDiscards(cfg, cs, ids, e, s, k, c, id, cs', ids');
    } else if e.state.consecutiveHotChunks + 1 >= cfg.minHotChunks {
      StepKeepsInvPendingPromotes(cfg, cs, ids, e, s, k, c, id, cs', ids');
    } else {
      StepKeepsInvPendingBuffers(cfg, cs, ids, e, s, k, c, id, cs', ids');
    }
  }

  /** One call of an active engine, spelled out. */
  lemma ActiveStep(cfg: Config, e: Engine, c: seq<Byte>, id: string)
    requires ValidChunk(cfg, c) && e.state.Active?
    ensures var total', quietRun' := e.state.totalChunks + 1,
                                    if IsQuiet(c, cfg.threshold) then e.state.consecutiveQuietChunks + 1 else 0;
            var ends := EndsSegment(cfg, total', quietRun', c);
              Step(cfg, e, c, id)
                == Outcome(Engine(if ends then Quiet else Active(total', quietRun'), c, e.pendingBuf),
                           [Data(c)] + (if ends then [End] else []), false)
  {
  }

  /** An active segment ended by this call becomes a finished segment. */
  lemma StepKeepsInvActiveEnds(cfg: Config, cs: seq<seq<Byte>>, ids: seq<string>, e: Engine, s: Sink, k: nat,
                               c: seq<Byte>, id: string, cs': seq<seq<Byte>>, ids': seq<string>)
    requires |ids| == |cs| && AllValid(cfg, cs) && ValidChunk(cfg, c)
    requires cs' == cs + [c] && ids' == ids + [id] && AllValid(cfg, cs')
    requires Inv(cfg, cs, ids, e, s, k) && e.state.Active?
    requires EndsSegment(cfg, e.state.totalChunks + 1,
                           if IsQuiet(c, cfg.threshold) then e.state.consecutiveQuietChunks + 1 else 0, c)
    ensures var r := Step(cfg, e, c, id);
            var d := DeliverAll(s, r.events);
              d.Some? && Inv(cfg, cs', ids', r.next, d.value, k)
  {
    SegmentsOfPrefix(cfg, cs, ids, c, id, s.done);
    EnginesSnoc(cfg, cs, ids, c, id);
    assert cs'[|cs|] == c;
    assert Engines(cfg, cs', ids')[|cs|] == e;
    WindowSnoc(cs, c, k);
    assert cs'[k] == cs[k] && ids'[k] == ids[k];
    BurstOfPrefix(cfg, cs, ids, c, id, k, |cs|);
    var seg := s.open.value;
    ActiveStep(cfg, e, c, id);
    DeliverActive(s, seg, c, [End]);
    assert SegmentAt(cfg, cs', ids', seg.(bytes := seg.bytes + c), k, |cs'|);
  }

  /** An active segment not ended by this call grows by the chunk. */
  lemma StepKeepsInvActiveGoesOn(cfg: Config, cs: seq<seq<Byte>>, ids: seq<string>, e: Engine, s: Sink, k: nat,
                                 c: seq<Byte>, id: string, cs': seq<seq<Byte>>, ids': seq<string>)
    requires |ids| == |cs| && AllValid(cfg, cs) && ValidChunk(cfg, c)
    requires cs' == cs + [c] && ids' == ids + [id] && AllValid(cfg, cs')
    requires Inv(cfg, cs, ids, e, s, k) && e.state.Active?
    requires !EndsSegment(cfg, e.state.totalChunks + 1,
                           if IsQuiet(c, cfg.threshold) then e.state.consecutiveQuietChunks + 1 else 0, c)
    ensures var r := Step(cfg, e, c, id);
            var d := DeliverAll(s, r.events);
              d.Some? && Inv(cfg, cs', ids', r.next, d.value, k)
  {
    SegmentsOfPrefix(cfg, cs, ids, c, id, s.done);
    EnginesSnoc(cfg, cs, ids, c, id);
    assert cs'[|cs|] == c;
    assert Engines(cfg, cs', ids')[|cs|] == e;
    WindowSnoc(cs, c, k);
    assert cs'[k] == cs[k] && ids'[k] == ids[k];
    BurstOfPrefix(cfg, cs, ids, c, id, k, |cs|);
    var seg := s.open.value;
    ActiveStep(cfg, e, c, id);
    DeliverActive(s, seg, c, []);
    BurstExtend(Engines(cfg, cs', ids'), k, |cs|);
  }

  /** One more call while the segment that began at `k` is active. */
  lemma StepKeepsInvActive(cfg: Config, cs: seq<seq<Byte>>, ids: seq<string>, e: Engine, s: Sink, k: nat,
                           c: seq<Byte>, id: string, cs': seq<seq<Byte>>, ids': seq<string>)
    requires |ids| == |cs| && AllValid(cfg, cs) && ValidChunk(cfg, c)
    requires cs' == cs + [c] && ids' == ids + [id] && AllValid(cfg, cs')
    requires Inv(cfg, cs, ids, e, s, k) && e.state.Active?
    ensures var r := Step(cfg, e, c, id);
            var d := DeliverAll(s, r.events);
              d.Some? && Inv(cfg, cs', ids', r.next, d.value, k)
  {
    var quietRun' := if IsQuiet(c, cfg.threshold) then e.state.consecutiveQuietChunks + 1 else 0;
    if EndsSegment(cfg, e.state.totalChunks + 1, quietRun', c) {
      StepKeepsInvActiveEnds(cfg, cs, ids, e, s, k, c, id, cs', ids');
    } else {
      StepKeepsInvActiveGoesOn(cfg, cs, ids, e, s, k, c, id, cs', ids');
    }
  }

  /** `Inv` is kept by one more call. */
  lemma StepKeepsInv(cfg: Config, cs: seq<seq<Byte>>, ids: seq<string>, e: Engine, s: Sink, k: nat,
                     c: seq<Byte>, id: string, cs': seq<seq<Byte>>, ids': seq<string>)
    returns (k': nat)
    requires |ids| == |cs| && AllValid(cfg, cs) && ValidChunk(cfg, c)
    requires cs' == cs + [c] && ids' == ids + [id] && AllValid(cfg, cs')
    requires Inv(cfg, cs, ids, e, s, k)
    ensures var r := Step(cfg, e, c, id);
            var d := DeliverAll(s, r.events);
              d.Some? && Inv(cfg, cs', ids', r.next, d.value, k')
  {
    match e.state
    case Quiet =>
      k' := |cs|;
      StepKeepsInvQuiet(cfg, cs, ids, e, s, k, c, id, cs', ids');
    case Pending(_, _, _) =>
      k' := k;
      StepKeepsInvPending(cfg, cs, ids, e, s, k, c, id, cs', ids');
    case Active(_, _) =>
      k' := k;
      StepKeepsInvActive(cfg, cs, ids, e, s, k, c, id, cs', ids');
  }

  /* ----- Whole streams ----- */

  lemma ReplayUnfold(cfg: Config, cs: seq<seq<Byte>>, ids: seq<string>)
    requires |ids| == |cs| && AllValid(cfg, cs) && cs != []
    ensures var n := |cs| - 1;
            var h := Replay(cfg, cs[..n], ids[..n]);
            var r := Step(cfg, h.engine, cs[n], ids[n]);
              h.sink.Some? ==> Replay(cfg, cs, ids) == History(r.next, DeliverAll(h.sink.value, r.events))
  {
  }

  lemma SplitLast<T>(s: seq<T>)
    requires s != []
    ensures s == s[..|s| - 1] + [s[|s| - 1]]
  {
  }

  /** The last call of a replay keeps `Inv`. */
  lemma ReplayStepKeepsInv(cfg: Config, cs: seq<seq<Byte>>, ids: seq<string>, h: History, k0: nat)
    returns (k: nat)
    requires |ids| == |cs| && AllValid(cfg, cs) && cs != [] && AllValid(cfg, cs[..|cs| - 1])
    requires h == Replay(cfg, cs[..|cs| - 1], ids[..|cs| - 1]) && h.sink.Some?
    requires Inv(cfg, cs[..|cs| - 1], ids[..|cs| - 1], h.engine, h.sink.value, k0)
    ensures var h' := Replay(cfg, cs, ids); h'.sink.Some? && Inv(cfg, cs, ids, h'.engine, h'.sink.value, k)
  {
    var n := |cs| - 1;
    SplitLast(cs);
    SplitLast(ids);
    k := StepKeepsInv(cfg, cs[..n], ids[..n], h.engine, h.sink.value, k0, cs[n], ids[n], cs, ids);
    ReplayUnfold(cfg, cs, ids);
  }

  /** `Inv` holds after every prefix of every stream. */
  lemma {:induction false} ReplayKeepsInv(cfg: Config, cs: seq<seq<Byte>>, ids: seq<string>) returns (k: nat)
    requires |ids| == |cs| && AllValid(cfg, cs)
    ensures var h := Replay(cfg, cs, ids); h.sink.Some? && Inv(cfg, cs, ids, h.engine, h.sink.value, k)
    decreases |cs|
  {
    if cs == [] {
      k := 0;
    } else {
      var n := |cs| - 1;
      assert AllValid(cfg, cs[..n]);
      var k0 := ReplayKeepsInv(cfg, cs[..n], ids[..n]);
      k := ReplayStepKeepsInv(cfg, cs, ids, Replay(cfg, cs[..n], ids[..n]), k0);
    }
  }

  /** The consumer never sees a protocol violation, a segment is open
      exactly while the engine is active, and every finished segment is a
      whole burst of the input. */
  lemma ReplayDelivers(cfg: Config, cs: seq<seq<Byte>>, ids: seq<string>)
    requires |ids| == |cs| && AllValid(cfg, cs)
    ensures var h := Replay(cfg, cs, ids);
            && h.sink.Some?
            && (h.sink.value.open.Some? <==> h.engine.state.Active?)
            && forall seg :: seg in h.sink.value.done ==> IsSegmentOf(cfg, cs, ids, seg)
  {
    var k := ReplayKeepsInv(cfg, cs, ids);
  }

  /** The end-of-stream empty chunk leaves no segment open, whatever the
      state and the threshold: an active segment ends, and a pending burst
      is either discarded or promoted and ended at once. */
  lemma EmptyChunkFlushes(cfg: Config, cs: seq<seq<Byte>>, ids: seq<string>, id: string)
    requires |ids| == |cs| && AllValid(cfg, cs)
    ensures var h := Replay(cfg, cs + [[]], ids + [id]);
              h.sink.Some? && h.sink.value.open.None? && !h.engine.state.Active?
  {
    var cs', ids' := cs + [[]], ids + [id];
    AllValidSnoc(cfg, cs, []);
    var k := ReplayKeepsInv(cfg, cs', ids');
    assert cs'[..|cs|] == cs && ids'[..|cs|] == ids;
    var h := Replay(cfg, cs, ids);
    assert Replay(cfg, cs', ids').engine == Step(cfg, h.engine, [], id).next;
  }
}
