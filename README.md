# reccon core, modelled in Dafny

reccon records a microphone and cuts the stream into voice segments. The
segmentation engine (`src/seg.rs`) receives raw 16-bit little-endian mono
PCM one chunk at a time. It classifies each chunk as quiet or hot by its
peak absolute sample and moves a `Quiet -> Pending -> Active` state machine.
It returns `Start` / `Data` / `End` events that tell the caller when to open
a segment, what bytes to write into it and when to close it. A hot burst
becomes a segment only after `min_hot_chunks` consecutive hot chunks. It is
preceded by one pre-roll chunk. It ends after `max_quiet_chunks` quiet
chunks, after `max_total_chunks` chunks, or at the empty end-of-stream
chunk. The upload helper (`src/gcs.rs`) parses `gs://bucket/prefix/` paths.
It also draws a random multipart boundary that occurs in none of the upload's
parts, and lays out the `multipart/related` body.

The project has six files:

- `ints.dfy`: the machine integer ranges `U32`, `U64`, `I16` and `Byte`.
- `wrappers.dfy`: `Option` and `Result`.
- `seg.dfy` (module `Seg`):
  - the duration conversion and the amplitude classifier;
  - the configuration, state and event types;
  - `Step`, a pure case table for one call;
  - the class `Segmentation`, whose `Accept` works in the three sequential phases of the source. `Accept` is proved to compute exactly `Step`.
- `seg_properties.dfy` (module `SegProperties`):
  - what one call does in each state;
  - the ranges the counters keep;
  - the event sequences of the three unit tests of `src/seg.rs`, where the tests' `test_events` coalescing is modelled by `Coalesce`.
- `seg_trace.dfy` (module `SegTrace`): whole streams. A reference consumer (`Sink`) accepts the event protocol, and `Replay` feeds a stream of chunks to a fresh engine and hands the events to that consumer. The main theorem says what the consumer sees:
  - it never sees a protocol violation;
  - a segment is open exactly while the engine is active;
  - every segment it receives is a whole burst of the input. The burst begins at a hot chunk fed to a quiet engine, whose id the generator returned at that call (`SegmentIdReserved`). It holds the pre-roll chunk when that one was not empty, and every later chunk up to the one whose call emitted the `End`, with the engine not quiet in between.
- `gcs.dfy` (module `Gcs`):
  - `Path::from_str`;
  - `multipart_boundary` over four given words;
  - the boundary retry loop of `put_meta`, as a method over a finite list of draws;
  - the body layout, as a function and as the method of successive appends, with layout lemmas.

Three behaviours of the code are easy to misread; the model follows the
code in each:

- `pending_buf` is not cleared when a pending burst is discarded or promoted. It is only refilled at the next `Quiet -> Pending` transition, so "non-empty iff `Pending`" does not hold. `QuietChunkWhilePending` and `HotChunkWhilePendingPromotes` state that it is kept.
- The promoting call emits `Start`, `Data(pending_buf)` and also `Data(chunk)` for the promoting chunk, and possibly `End`. So a call returns up to four events (`Step`, `HotChunkWhilePendingPromotes`).
- The second multipart delimiter is not followed by a line break: `--boundary` runs straight into `Content-Type: ` (`MultipartBodyDelimiters`).

## Model

| member | source | states |
|---|---|---|
| Seg.AsMillis | src/seg.rs:11 | `Duration::as_millis` rounds down: `ms` whole milliseconds satisfy `ms * 10^6 <= secs * 10^9 + nanos < (ms + 1) * 10^6`. |
| Seg.DurationToChunks | src/seg.rs:8-12 | The result is the floor `q` of `millis * 96 / 16384` reduced modulo 2^32, as the `as u32` cast keeps the low 32 bits. Below 2^32 chunks it is the floor itself, bracketed by `r * 16384 <= millis * 96 < (r + 1) * 16384`. |
| SegProperties.DurationToChunksMonotone | src/seg.rs:8-12 | A longer duration never gives fewer chunks while the cast does not truncate. |
| SegProperties.DurationToChunksWraps | src/seg.rs:11 | Past 2^32 chunks the cast wraps: 733007751.850 s gives 2^32 - 1 chunks, and one millisecond more gives 0. |
| Seg.Sample | src/seg.rs:178 | `i16::from_le_bytes`: the value is `lo + 256 * hi` read as two's complement (that or `lo + 256 * hi - 2^16`), and it is non-negative iff the high byte is below 0x80. |
| Seg.WrappingAbs | src/seg.rs:179 | `abs` is non-negative and equal to `z` or `-z`, except that -32768 stays -32768. |
| Seg.MaxAbs | src/seg.rs:176-180 | The maximum is at least every sample's magnitude, and some sample attains it. |
| Seg.PeakSample | src/seg.rs:176-181 | No sample magnitude exceeds the peak. An empty slice has peak 0 (`unwrap_or(0)`); otherwise some sample attains the peak. |
| Seg.IsQuiet | src/seg.rs:175-184 | A non-empty chunk is quiet iff every sample magnitude is at most the threshold. An empty one is quiet iff the threshold is not negative. |
| Seg.EndsSegment | src/seg.rs:158-160 | A segment that goes on is below both `max_total_chunks` and `max_quiet_chunks`, and the empty end-of-stream chunk always ends it. |
| Seg.ActiveCall | src/seg.rs:138-165 | An active call emits `Data(chunk)`, then `End` exactly when it returns to `Quiet`, which it does exactly when `EndsSegment` holds for the updated counters. Otherwise the total grows by one, and the quiet run grows by one on a quiet chunk or resets to 0 on a hot one. |
| Seg.Promote | src/seg.rs:121-165 | A promotion emits `Start(id)`, `Data(buffer)`, `Data(chunk)`, then `End` exactly when it goes quiet. It goes quiet iff `EndsSegment` holds for total + 1 and an empty quiet run, and otherwise becomes `Active(total + 1, 0)`. The buffer and the id flag are kept. |
| Seg.Step | src/seg.rs:84-171 | After a call `lastChunk` is the chunk. The id generator is used iff the engine was quiet and the chunk is hot. A call emits at most 4 events, `Start` only first and `End` only last, and after an `End` the state is `Quiet`. |
| Seg.Segmentation.constructor | src/seg.rs:65-72 | A new engine keeps its configuration and starts quiet with empty buffers. |
| Seg.Segmentation.Accept | src/seg.rs:74-172 | Its three phases in place produce exactly `Step`'s next state, events and id use. |
| SegProperties.QuietChunkWhileQuiet | src/seg.rs:96-97 | A quiet chunk while quiet changes nothing but `lastChunk` and emits nothing. |
| SegProperties.HotChunkWhileQuiet | src/seg.rs:96-107 | A hot chunk while quiet reserves the id and opens a pending burst holding the pre-roll (if any) and the chunk. The total is 1 or 2 and one hot chunk has been seen; nothing is emitted. |
| SegProperties.HotChunkWhileQuietActivatesAtOnce | src/seg.rs:96-165 | With `min_hot_chunks <= 1` the same call goes on to emit `Start`, the pre-roll and the chunk, and ends the segment if a cap is hit. |
| SegProperties.QuietChunkWhilePending | src/seg.rs:117-119 | A quiet chunk discards the pending burst silently and keeps the buffer. |
| SegProperties.HotChunkWhilePendingBuffers | src/seg.rs:121-133 | Below `min_hot_chunks` a hot chunk is appended to the buffer and both counters grow by one, silently. |
| SegProperties.HotChunkWhilePendingPromotes | src/seg.rs:121-165 | On reaching `min_hot_chunks` the call emits `Start(id)`, `Data(buffer)`, `Data(chunk)`, plus `End` when a termination condition holds. |
| SegProperties.ChunkWhileActive | src/seg.rs:138-165 | An active call counts the chunk and emits it. It emits `End` and goes quiet exactly when the total, the quiet run or an empty chunk requires it. |
| SegProperties.EmptyChunkEndsActive | src/seg.rs:158-165 | The empty end-of-stream chunk ends an active segment with `Data([])`, `End`. |
| SegProperties.NoRestartAfterEnd | src/seg.rs:158-165 | After any `End`, the next hot chunk is silent when `min_hot_chunks > 1`. |
| SegProperties.SilentUnlessActive | src/seg.rs:96-165 | A call emits events iff the engine ends it active or the call emits `End`. |
| SegProperties.StepKeepsBounded | src/seg.rs:44-55 | Every call keeps the counter ranges: pending has `1 <= hot < min_hot` and `total <= hot + 1`; active is below both caps. |
| SegProperties.BoundedFitsU32 | src/seg.rs:44-55 | In those ranges every counter fits the source's `u32`. |
| SegProperties.CoalescePayload | src/seg.rs:221-234 | The tests' coalescing keeps the concatenated bytes of the `Data` events. |
| SegProperties.CoalesceNonData | src/seg.rs:221-234 | It keeps every `Start` and `End` event, in order. |
| SegProperties.CoalesceNoAdjacentData | src/seg.rs:221-234 | It leaves no two `Data` events side by side. |
| SegProperties.CoalesceBarrier | src/seg.rs:221-234 | A `Start` or `End` is a barrier: coalescing `a + [ev] + b` coalesces `a` and `b` separately around `ev`, so the bytes before each such event stay before it. |
| SegProperties.CoalesceDataRun | src/seg.rs:224-226 | A non-empty run of `Data` events coalesces to a single `Data` of their concatenated bytes. |
| SegProperties.CoalescedPromotion | src/seg.rs:275-283 | The tests see a promotion as `Start` followed by a single `Data` of buffer and chunk. |
| SegProperties.SimpleOnOffThresholdChunk | src/seg.rs:260-263 | A chunk whose peak equals the threshold 0x0100 is quiet. |
| SegProperties.SimpleOnOffQuietChunks | src/seg.rs:268-271 | The test's quiet chunks are quiet. |
| SegProperties.SimpleOnOffHotChunks | src/seg.rs:264-267 | The test's hot chunks are hot, chunk4 by its first sample alone. |
| SegProperties.MaxChunksChunks | src/seg.rs:304-305 | `chunk_off` is quiet, and `chunk_on` (samples -13108) is hot. |
| SegProperties.SimpleOnOffOpening | src/seg.rs:273-283 | Calls 1 to 3: silence, a silent pending burst that takes id0, then a promotion whose coalesced payload is chunk0, chunk1 and chunk2. |
| SegProperties.SimpleOnOffMiddle | src/seg.rs:284-286 | Calls 4 to 6 each emit their chunk; the first quiet chunk starts the quiet run. |
| SegProperties.SimpleOnOffClosing | src/seg.rs:287-292 | Call 7 emits its chunk, call 8 emits its chunk and `End`, and call 9 is silent. |
| SegProperties.MaxChunks | src/seg.rs:307-332 | After the quiet lead-in, the burst is promoted with the pre-roll at total 3. Each hot chunk up to total 9 is passed through, the tenth ends the segment, and the next hot chunk is silent. |
| SegProperties.MaxChunksFromStartPending | src/seg.rs:346-348 | From a fresh engine the first hot chunk opens a pending burst with no pre-roll. |
| SegProperties.MaxChunksFromStartOpening | src/seg.rs:349-356 | The promoted payload is the two hot chunks only. |
| SegProperties.MaxChunksFromStartClosing | src/seg.rs:357-366 | Chunks are passed through up to total 9, the tenth ends the segment, and the next hot chunk is silent. |
| SegTrace.Deliver | src/seg.rs:58-62 | The consumer refuses an event iff it is `Start` while a segment is open, or `Data`/`End` while none is. After an accepted event a segment is open iff the event was not `End`. |
| SegTrace.SegmentIdReserved | src/seg.rs:96-107 | A finished segment's id is the one the generator returned at the call that opened its burst, and that call invoked the generator. |
| SegTrace.StepKeepsInvQuiet | src/seg.rs:96-107 | A call on a quiet engine keeps the stream invariant. A hot chunk opens a burst at this call, and the segment is opened at once when `min_hot_chunks <= 1`. |
| SegTrace.StepKeepsInvPendingDiscards | src/seg.rs:117-119 | A quiet chunk while pending keeps the invariant: the burst is dropped and no segment is opened. |
| SegTrace.StepKeepsInvPendingBuffers | src/seg.rs:121-133 | A hot chunk short of `min_hot_chunks` keeps the invariant: the buffer is the pre-roll and the burst's chunks so far. |
| SegTrace.StepKeepsInvPendingPromotes | src/seg.rs:121-165 | The promoting chunk opens the segment with the burst's window and passes the chunk on, or finishes the segment when it also ends it. |
| SegTrace.StepKeepsInvActiveEnds | src/seg.rs:138-165 | An active call that ends the segment adds the burst's whole window, through this chunk, to the finished segments. |
| SegTrace.StepKeepsInvActiveGoesOn | src/seg.rs:138-165 | An active call that does not end the segment appends its chunk to the open segment, which stays the burst's window. |
| SegTrace.StepKeepsInv | src/seg.rs:96-169 | One more call keeps the stream invariant. The consumer accepts the call's events, its open segment is the current burst's window, and every finished segment is a whole burst of the input. |
| SegTrace.ReplayKeepsInv | src/seg.rs:74-172 | The stream invariant holds after every prefix of every stream. |
| SegTrace.ReplayDelivers | src/seg.rs:96-169 | Over a whole stream the consumer never refuses, and a segment is open iff the engine is active. Each finished segment starts at a hot chunk fed to a quiet engine and ends at the call that emitted its `End`, with the engine not quiet in between. It carries that call's id and the bytes of the pre-roll (when not empty) and of every chunk of the burst. |
| SegTrace.EmptyChunkFlushes | src/seg.rs:158-165 | After the trailing empty chunk no segment is open and the engine is not active, whatever came before. |
| Gcs.FirstIndexOf | src/gcs.rs:25 | The first occurrence of a character, or `None` iff it does not occur. |
| Gcs.StripPrefix | src/gcs.rs:22-24 | Succeeds iff the prefix is there, and the prefix followed by the rest is the input. |
| Gcs.SplitOnce | src/gcs.rs:25 | `None` iff the character is absent; otherwise the input is before, the character, after, with no occurrence before. |
| Gcs.SplitOnceUnique | src/gcs.rs:25 | The split of `before + [c] + after` with `c` not in `before` is `(before, after)`. |
| Gcs.ParsePath | src/gcs.rs:21-24 | The error is the missing scheme iff the input does not start with `gs://`; otherwise the rest is parsed as a location. |
| Gcs.ParseLocation | src/gcs.rs:25-41 | An accepted path has a bucket without `/` and a prefix that is empty or ends in `/`. The input is rebuilt from bucket and prefix, or equals the bucket when there is no `/`. A refused prefix is non-empty, does not end in `/`, and follows a bucket without `/`. |
| Gcs.ParsePathRoundTrip | src/gcs.rs:21-41 | Parsing `gs://` + bucket + `/` + prefix of a well-formed path gives back that path. |
| Gcs.ParseBareBucket | src/gcs.rs:25-31 | `gs://` + a bucket without `/` parses with an empty prefix. |
| Gcs.ParsePathRejectsUnslashedPrefix | src/gcs.rs:34-35 | A non-empty prefix without its trailing `/` is refused, and the error names it. |
| Gcs.ParseLocationRejects | src/gcs.rs:34-35 | The same refusal, on the part after the scheme. |
| Gcs.HexDigits | src/gcs.rs:130 | `n` characters, each a lowercase hexadecimal digit. |
| Gcs.ParseHexDigits | src/gcs.rs:130 | Reading back the `n` digits of a number below 16^n gives the number. |
| Gcs.Hex8 | src/gcs.rs:130 | `{:08x}` of a `u32` is eight lowercase hexadecimal digits. |
| Gcs.Hex8RoundTrip | src/gcs.rs:130 | The eight digits read back as the word itself. |
| Gcs.Ascii | src/gcs.rs:76 | `as_bytes` of an ASCII string: one byte per character, with the same code. |
| Gcs.MultipartBoundary | src/gcs.rs:128-131 | 35 ASCII characters: the four words' `{:08x}` renderings at offsets 0, 9, 18 and 27. |
| Gcs.MultipartBoundaryLayout | src/gcs.rs:128-131 | `-` at positions 8, 17 and 26, and a lowercase hexadecimal digit everywhere else. |
| Gcs.MultipartBoundaryInjective | src/gcs.rs:124-131 | Distinct draws give distinct boundaries, so no entropy is lost. |
| Gcs.FindFrom | src/gcs.rs:74-77 | The first occurrence at or after `i`, or `None` iff there is none. |
| Gcs.Find | src/gcs.rs:74-83 | The first occurrence of the needle, or `None` iff it occurs nowhere. |
| Gcs.Acceptable | src/gcs.rs:74-84 | A boundary is acceptable iff it occurs at no position of the metadata, of the content type and of the contents, which is what the three `find` calls test. |
| Gcs.ChooseBoundary | src/gcs.rs:71-85 | The result is the first draw whose boundary occurs in none of the metadata, content type and contents. Every earlier draw was rejected, and `None` means every draw was rejected. |
| Gcs.AcceptableNotSubstring | src/gcs.rs:71-85 | An accepted boundary equals no slice of the metadata, the content type or the contents. |
| Gcs.HeaderText | src/gcs.rs:87-101 | The byte constants are the bytes of `--`, CRLF, `Content-Type: ` and `application/json; charset=UTF-8`. |
| Gcs.MultipartBody | src/gcs.rs:86-102 | The body's length is that of its three parts, plus three times the boundary's length, plus 85 bytes,, and it opens with `--b`; the layout lemmas below place every part. |
| Gcs.BuildBody | src/gcs.rs:86-102 | The successive appends build exactly the body layout. |
| Gcs.MultipartBodyFields | src/gcs.rs:86-102 | The metadata, content type and contents appear verbatim at offsets fixed by the lengths before them. |
| Gcs.MultipartBodyDelimiters | src/gcs.rs:87-95 | The body opens with `--b`, and the second `--b` is followed directly by `Content-Type: ` with no line break. |
| Gcs.MultipartBodyClosing | src/gcs.rs:99-102 | The body ends with CRLF, `--b--`, CRLF, and has exactly the length of its parts. |
| Gcs.PrepareBody | src/gcs.rs:71-102 | The result pairs the first acceptable draw's boundary, which is ASCII and accepted, with the body it delimits. `None` means no draw was acceptable. |

## Left out

- `src/main.rs` and `src/config.rs` are not part of this model. They hold the `rec` subprocess, the reader thread and channel, the terminal visualiser, and configuration loading with a floating-point threshold.
- The network side of `put_meta` is left out: the auth token, JSON serialisation of the metadata, URL encoding, the HTTP request and its `Content-Type: multipart/related; boundary=...` header (src/gcs.rs:56-69, 104-121). The metadata arrives as already serialised bytes.
- `rand::random` is left out: its four words are the fields of a `Draw`, given as inputs.
- Gcs.ChooseBoundary: the source retries for ever, and the model takes a finite list of draws, returning `None` when the list runs out. It therefore says nothing about termination of the real loop, which is almost sure.
- The id generator `gen_id` is not called: `Accept` takes the value it would return, and `idTaken` says whether it would have been invoked.
- Panics are not behaviour here. A chunk longer than `chunk_size` (the assertion at src/seg.rs:86-91) and a chunk of odd length (indexed out of bounds at src/seg.rs:178) are excluded by the `ValidChunk` precondition.
- Seg.WrappingAbs: `i16::abs(-32768)` overflows. It panics in a debug build and gives -32768 in a release build; the model fixes the release behaviour, so a chunk holding -32768 counts as quiet by that sample.
- Seg.Step: the counters are unbounded integers. `StepKeepsBounded` and `BoundedFitsU32` prove they stay within `u32` between calls. One overflow inside a call is not modelled. With `min_hot_chunks == u32::MAX` and a pre-roll, a burst promoted after 2^32 - 1 hot chunks carries a total of `u32::MAX`, and the active phase of that call adds one more.
- Rust borrowing is not modelled: `Data` events carry their bytes by value rather than borrowing the engine's buffer or the caller's chunk, and the iterator returned by `accept` is a sequence.
- Logging, the `Debug` implementation (src/seg.rs:30-41) and `Vec::with_capacity` (src/seg.rs:67-68) have no observable effect and are left out.
- The tests' id generator (`seg0000`, ...) is not modelled: the ids are arbitrary strings. The scenario lemmas take arbitrary chunks with the tests' classification and length, and the chunk lemmas prove that the tests' literal chunks have that classification.
