/**
 The growing zero-copy writers of ngx_rpc_buffer.cpp on values: which part of which chunk every
 call of Next hands out, and which parts make up the message in the end.  Module Writers ties
 the objects to these functions.
 */
module Growth {
  import opened Options
  import opened Wire

  const DEFAULT_SIZE: nat := 4096

  // A chunk of `size` bytes, of which [pos, last) belongs to the message.
  datatype Chunk = Chunk(size: nat, pos: nat, last: nat)

  // A part of chunk `index` that was handed out to be filled.
  datatype Span = Span(index: nat, off: nat, len: nat)

  datatype Writer = Writer(chunks: seq<Chunk>, totaly: int, factor: nat)

  function Fresh(ex: nat): Writer { Writer([], 0, ex) }

  ghost predicate ChunkOk(c: Chunk) { c.pos <= c.last <= c.size }

  ghost predicate ChunksOk(cs: seq<Chunk>) { forall i :: 0 <= i < |cs| ==> ChunkOk(cs[i]) }

  ghost predicate Ok(w: Writer) { ChunksOk(w.chunks) }

  function Last<T>(s: seq<T>): T
    requires s != []
  {
    s[|s| - 1]
  }

  // Both writers: the unused end of the last chunk, or a chunk one step larger than the one before.
  function Next(w: Writer): (r: (Writer, Span))
    requires Ok(w)
    ensures Ok(r.0) && r.0.chunks != []
  {
    var n := |w.chunks|;
    if n > 0 && Last(w.chunks).last < Last(w.chunks).size then
      var c := Last(w.chunks);
      var len := c.size - c.last;
      (w.(chunks := w.chunks[n - 1 := Chunk(c.size, c.last, c.size)], totaly := w.totaly + len),
       Span(n - 1, c.last, len))
    else
      var len := DEFAULT_SIZE * w.factor;
      (Writer(w.chunks + [Chunk(len, 0, len)], w.totaly + len, w.factor + 1), Span(n, 0, len))
  }

  function Shrink(c: Chunk, k: nat): Chunk
    requires k <= c.last
  {
    c.(last := c.last - k)
  }

  // NgxChainBufferWriter takes bytes back from the last chunk.
  function BackUp(w: Writer, k: nat): (r: Writer)
    requires Ok(w) && w.chunks != [] && k <= Last(w.chunks).last - Last(w.chunks).pos
    ensures Ok(r) && r.chunks != []
  {
    var n := |w.chunks|;
    Writer(w.chunks[n - 1 := Shrink(w.chunks[n - 1], k)], w.totaly - k, w.factor)
  }

  function ShrinkFirst(chunks: seq<Chunk>, k: nat): (r: seq<Chunk>)
    requires ChunksOk(chunks) && chunks != [] && k <= chunks[0].last - chunks[0].pos
    ensures ChunksOk(r) && |r| == |chunks| && forall mem :: Fits(mem, chunks) ==> Fits(mem, r)
  {
    chunks[0 := Shrink(chunks[0], k)]
  }

  // NgxShmChainBufferWriter takes them back from the first chunk.
  function ShmBackUp(w: Writer, k: nat): (r: Writer)
    requires Ok(w) && w.chunks != [] && k <= w.chunks[0].last - w.chunks[0].pos
    ensures Ok(r) && r.chunks != []
  {
    Writer(ShrinkFirst(w.chunks, k), w.totaly - k, w.factor)
  }

  // ---------------------------------------------------------------- bytes

  // What the chunks hold once they are filled.
  type Memory = seq<seq<byte>>

  ghost predicate Fits(mem: Memory, chunks: seq<Chunk>) {
    |mem| == |chunks| && forall i :: 0 <= i < |chunks| ==> |mem[i]| == chunks[i].size
  }

  // The message: the bytes of all [pos, last), chunk by chunk.
  function Content(chunks: seq<Chunk>, mem: Memory): (r: seq<byte>)
    requires Fits(mem, chunks) && ChunksOk(chunks)
  {
    if chunks == [] then []
    else
      var n := |chunks| - 1;
      Content(chunks[..n], mem[..n]) + mem[n][chunks[n].pos..chunks[n].last]
  }

  ghost predicate SpanOk(s: Span, mem: Memory) { s.index < |mem| && s.off + s.len <= |mem[s.index]| }

  ghost predicate SpansOk(spans: seq<Span>, mem: Memory) { forall i :: 0 <= i < |spans| ==> SpanOk(spans[i], mem) }

  // The bytes of the parts handed out, in order.
  function Handed(spans: seq<Span>, mem: Memory): seq<byte>
    requires SpansOk(spans, mem)
  {
    if spans == [] then []
    else
      var s := Last(spans);
      Handed(spans[..|spans| - 1], mem) + mem[s.index][s.off..s.off + s.len]
  }

  // ---------------------------------------------------------------- any run of calls

  datatype Call = CallNext | CallBackUp(k: nat)

  // A writer, the parts its caller got and did not take back, and the bytes that were pushed out
  // of the message.
  datatype Run = Run(w: Writer, spans: seq<Span>, lost: nat)

  // A BackUp returns at most what the last Next handed out, so it follows a Next.
  ghost predicate Allowed(r: Run, c: Call) {
    c.CallNext? || (r.spans != [] && c.k <= Last(r.spans).len)
  }

  // A Next moves pos over what the last chunk already holds, if that chunk has room left.
  function Loss(w: Writer): nat
    requires Ok(w)
  {
    if w.chunks != [] && Last(w.chunks).last < Last(w.chunks).size
    then Last(w.chunks).last - Last(w.chunks).pos else 0
  }

  ghost predicate SpanIn(s: Span, chunks: seq<Chunk>) {
    s.index < |chunks| && s.off + s.len <= chunks[s.index].size
  }

  // The last part handed out is what the last chunk holds.
  ghost predicate RunOk(r: Run) {
    && Ok(r.w)
    && (r.w.chunks == [] <==> r.spans == [])
    && (r.spans != [] ==>
          var s, c := Last(r.spans), Last(r.w.chunks);
          s.index == |r.w.chunks| - 1 && s.off == c.pos && s.off + s.len == c.last)
    && (forall i :: 0 <= i < |r.spans| ==> SpanIn(r.spans[i], r.w.chunks))
  }

  ghost function Step(r: Run, c: Call): (r2: Run)
    requires RunOk(r) && Allowed(r, c)
    ensures RunOk(r2)
  {
    match c
    case CallNext =>
      var (w, s) := Next(r.w);
      Run(w, r.spans + [s], r.lost + Loss(r.w))
    case CallBackUp(k) =>
      var n := |r.spans| - 1;
      var s := r.spans[n];
      Run(BackUp(r.w, k), r.spans[n := s.(len := s.len - k)], r.lost)
  }

  // The run of a sequence of calls, if each was allowed.
  ghost function RunOf(ex: nat, calls: seq<Call>): (r: Option<Run>)
    ensures r.Some? ==> RunOk(r.value)
    decreases |calls|
  {
    if calls == [] then Some(Run(Fresh(ex), [], 0))
    else
      var n := |calls| - 1;
      match RunOf(ex, calls[..n])
      case None => None
      case Some(r) => if Allowed(r, calls[n]) then Some(Step(r, calls[n])) else None
  }

  function Total(spans: seq<Span>): nat {
    if spans == [] then 0 else Total(spans[..|spans| - 1]) + Last(spans).len
  }

  function Held(chunks: seq<Chunk>): int {
    if chunks == [] then 0 else Held(chunks[..|chunks| - 1]) + Last(chunks).last - Last(chunks).pos
  }

  ghost predicate Counted(r: Run) {
    r.w.totaly == Total(r.spans) && Held(r.w.chunks) + r.lost == r.w.totaly
  }

  lemma StepCounts(r: Run, c: Call)
    requires RunOk(r) && Allowed(r, c) && Counted(r)
    ensures Counted(Step(r, c))
  {
    var r2 := Step(r, c);
    if c.CallNext? {
      assert r2.spans[..|r.spans|] == r.spans;
    } else {
      assert r2.spans[..|r.spans| - 1] == r.spans[..|r.spans| - 1];
    }
    if |r2.w.chunks| == |r.w.chunks| {
      assert r2.w.chunks[..|r.w.chunks| - 1] == r.w.chunks[..|r.w.chunks| - 1];
    } else {
      assert r2.w.chunks[..|r.w.chunks|] == r.w.chunks;
    }
  }

  // The counter is what the caller wrote and kept; the chunks hold all of it but the bytes lost.
  lemma {:induction false} CountsAgree(ex: nat, calls: seq<Call>)
    requires RunOf(ex, calls).Some?
    ensures Counted(RunOf(ex, calls).value)
    decreases |calls|
  {
    if calls != [] {
      var n := |calls| - 1;
      CountsAgree(ex, calls[..n]);
      StepCounts(RunOf(ex, calls[..n]).value, calls[n]);
    }
  }

  lemma {:induction false} ContentLength(chunks: seq<Chunk>, mem: Memory)
    requires Fits(mem, chunks) && ChunksOk(chunks)
    ensures |Content(chunks, mem)| == Held(chunks)
  {
    if chunks != [] {
      ContentLength(chunks[..|chunks| - 1], mem[..|chunks| - 1]);
    }
  }

  lemma {:induction false} HandedLength(spans: seq<Span>, mem: Memory)
    requires SpansOk(spans, mem)
    ensures |Handed(spans, mem)| == Total(spans)
  {
    if spans != [] {
      HandedLength(spans[..|spans| - 1], mem);
    }
  }

  lemma {:induction false} HandedElsewhere(spans: seq<Span>, mem: Memory, more: seq<byte>)
    requires SpansOk(spans, mem)
    ensures SpansOk(spans, mem + [more]) && Handed(spans, mem + [more]) == Handed(spans, mem)
  {
    if spans != [] {
      HandedElsewhere(spans[..|spans| - 1], mem, more);
      assert SpanOk(Last(spans), mem);
    }
  }

  lemma SpansFit(r: Run, mem: Memory)
    requires RunOk(r) && Fits(mem, r.w.chunks)
    ensures SpansOk(r.spans, mem)
  {
    assert forall i :: 0 <= i < |r.spans| ==> SpanIn(r.spans[i], r.w.chunks);
  }

  // The chunks hold what the caller wrote and kept.
  ghost predicate Faithful(r: Run, mem: Memory)
    requires RunOk(r) && Fits(mem, r.w.chunks)
  {
    SpansFit(r, mem);
    Content(r.w.chunks, mem) == Handed(r.spans, mem)
  }

  lemma NextFaithful(r: Run, mem: Memory)
    requires RunOk(r) && Fits(mem, Step(r, CallNext).w.chunks) && Loss(r.w) == 0
    requires Faithful(r, mem[..|r.w.chunks|])
    ensures Faithful(Step(r, CallNext), mem)
  {
    var n, r2 := |r.w.chunks|, Step(r, CallNext);
    SpansFit(r2, mem);
    SpansFit(r, mem[..n]);
    assert r2.spans[..|r.spans|] == r.spans;
    if |r2.w.chunks| == n {
      assert mem[..n] == mem;
      RestFaithful(r.w, mem);
    } else {
      assert r2.w.chunks[..n] == r.w.chunks && mem == mem[..n] + [mem[n]];
      HandedElsewhere(r.spans, mem[..n], mem[n]);
    }
  }

  // Handing out the rest of the last chunk, where nothing of it is held.
  lemma RestFaithful(w: Writer, mem: Memory)
    requires Ok(w) && Fits(mem, w.chunks) && Loss(w) == 0 && |Next(w).0.chunks| == |w.chunks|
    ensures var (w2, s) := Next(w);
      Fits(mem, w2.chunks) && SpanOk(s, mem)
      && Content(w2.chunks, mem) == Content(w.chunks, mem) + mem[s.index][s.off..s.off + s.len]
  {
    var n, c := |w.chunks|, Last(w.chunks);
    assert Next(w).0.chunks[..n - 1] == w.chunks[..n - 1];
    assert mem[n - 1][c.pos..c.last] == [];
    assert Content(w.chunks, mem) == Content(w.chunks[..n - 1], mem[..n - 1]);
  }

  lemma BackUpFaithful(r: Run, k: nat, mem: Memory)
    requires RunOk(r) && Allowed(r, CallBackUp(k)) && Fits(mem, r.w.chunks) && Faithful(r, mem)
    ensures Fits(mem, Step(r, CallBackUp(k)).w.chunks) && Faithful(Step(r, CallBackUp(k)), mem)
  {
    var n, m, r2 := |r.w.chunks| - 1, |r.spans| - 1, Step(r, CallBackUp(k));
    SpansFit(r, mem);
    SpansFit(r2, mem);
    assert r2.w.chunks[..n] == r.w.chunks[..n] && r2.spans[..m] == r.spans[..m];
    var c, before := r.w.chunks[n], Content(r.w.chunks[..n], mem[..n]);
    var all := mem[n][c.pos..c.last];
    assert Handed(r.spans[..m], mem) == before by {
      assert before + all == Handed(r.spans[..m], mem) + all;
      SameFront(before, Handed(r.spans[..m], mem), all);
    }
  }

  lemma SameFront(a: seq<byte>, b: seq<byte>, c: seq<byte>)
    requires a + c == b + c
    ensures a == b
  {
    assert |a| == |b|;
    assert a == (a + c)[..|a|] && b == (b + c)[..|b|];
  }

  lemma {:induction false} LosslessIsFaithful(ex: nat, calls: seq<Call>, mem: Memory)
    requires RunOf(ex, calls).Some? && Fits(mem, RunOf(ex, calls).value.w.chunks)
    requires RunOf(ex, calls).value.lost == 0
    ensures Faithful(RunOf(ex, calls).value, mem)
    decreases |calls|
  {
    if calls != [] {
      var n := |calls| - 1;
      var r := RunOf(ex, calls[..n]).value;
      var k := |r.w.chunks|;
      LosslessIsFaithful(ex, calls[..n], mem[..k]);
      match calls[n]
      case CallNext => NextFaithful(r, mem);
      case CallBackUp(count) =>
        assert mem[..k] == mem;
        BackUpFaithful(r, count, mem);
    }
  }

  // The message in the chunks is what the caller wrote and kept, whatever that was, exactly if
  // no bytes were lost.
  lemma FaithfulIffLossless(ex: nat, calls: seq<Call>, mem: Memory)
    requires RunOf(ex, calls).Some? && Fits(mem, RunOf(ex, calls).value.w.chunks)
    ensures Faithful(RunOf(ex, calls).value, mem) <==> RunOf(ex, calls).value.lost == 0
  {
    var r := RunOf(ex, calls).value;
    if r.lost == 0 {
      LosslessIsFaithful(ex, calls, mem);
    } else {
      SpansFit(r, mem);
      CountsAgree(ex, calls);
      ContentLength(r.w.chunks, mem);
      HandedLength(r.spans, mem);
    }
  }

  // The caller kept some of the last part and gave some of it back.
  ghost predicate PartlyGivenBack(r: Run)
    requires RunOk(r)
  {
    r.spans != [] && 0 < Last(r.spans).len && Last(r.w.chunks).last < Last(r.w.chunks).size
  }

  // Call i is no Next on a part that was partly given back.
  ghost predicate NextKeeps(ex: nat, calls: seq<Call>, i: nat)
    requires i < |calls|
  {
    calls[i].CallNext? && RunOf(ex, calls[..i]).Some? ==> !PartlyGivenBack(RunOf(ex, calls[..i]).value)
  }

  lemma {:induction false} LostIff(ex: nat, calls: seq<Call>)
    requires RunOf(ex, calls).Some?
    ensures RunOf(ex, calls).value.lost == 0 <==> forall i: nat | i < |calls| :: NextKeeps(ex, calls, i)
    decreases |calls|
  {
    if calls != [] {
      var n := |calls| - 1;
      var before := calls[..n];
      LostIff(ex, before);
      assert forall i: nat | i < n :: before[..i] == calls[..i];
      assert forall i: nat | i < n :: NextKeeps(ex, before, i) <==> NextKeeps(ex, calls, i);
      var r := RunOf(ex, before).value;
      assert calls[n].CallNext? ==> (Loss(r.w) == 0 <==> NextKeeps(ex, calls, n));
    }
  }

  // So exactly if every Next finds the last part kept whole or given back whole.
  lemma FaithfulIff(ex: nat, calls: seq<Call>, mem: Memory)
    requires RunOf(ex, calls).Some? && Fits(mem, RunOf(ex, calls).value.w.chunks)
    ensures Faithful(RunOf(ex, calls).value, mem) <==> forall i: nat | i < |calls| :: NextKeeps(ex, calls, i)
  {
    FaithfulIffLossless(ex, calls, mem);
    LostIff(ex, calls);
  }

  // One byte given back and another Next: the first 4095 bytes are gone, whatever they were.
  lemma SkippingCalls(mem: Memory)
    requires |mem| == 1 && |mem[0]| == 4096
    ensures var calls := [CallNext, CallBackUp(1), CallNext];
      && RunOf(1, calls).Some? && Fits(mem, RunOf(1, calls).value.w.chunks)
      && !Faithful(RunOf(1, calls).value, mem)
      && RunOf(1, calls).value.lost == 4095
  {
    var calls := [CallNext, CallBackUp(1), CallNext];
    assert calls[..2] == [CallNext, CallBackUp(1)] && calls[..2][..1] == [CallNext] && [CallNext][..0] == [];
    var none := Run(Fresh(1), [], 0);
    var one := Run(Writer([Chunk(4096, 0, 4096)], 4096, 2), [Span(0, 0, 4096)], 0);
    var two := Run(Writer([Chunk(4096, 0, 4095)], 4095, 2), [Span(0, 0, 4095)], 0);
    assert RunOf(1, []) == Some(none);
    assert Step(none, CallNext) == one by {
      assert none.w.chunks + [Chunk(4096, 0, 4096)] == one.w.chunks && none.spans + [Span(0, 0, 4096)] == one.spans;
    }
    assert RunOf(1, [CallNext]) == Some(one);
    assert Step(one, CallBackUp(1)) == two by {
      assert one.w.chunks[0 := Chunk(4096, 0, 4095)] == two.w.chunks;
      assert one.spans[0 := Span(0, 0, 4095)] == two.spans;
    }
    assert RunOf(1, calls[..2]) == Some(two);
    FaithfulIffLossless(1, calls, mem);
  }

  // ---------------------------------------------------------------- growth

  // The size of chunk i, and of the first n chunks.
  function Size(ex: nat, i: nat): nat { DEFAULT_SIZE * (ex + i) }

  function Cap(ex: nat, n: nat): nat { if n == 0 then 0 else Cap(ex, n - 1) + Size(ex, n - 1) }

  lemma {:induction false} CapIs(ex: nat, n: nat)
    ensures Cap(ex, n) == 4096 * (n * ex + n * (n - 1) / 2)
  {
    if n > 0 {
      CapIs(ex, n - 1);
      OneMore(ex, n);
    }
  }

  lemma OneMore(ex: nat, n: nat)
    requires n > 0
    ensures n * ex + n * (n - 1) / 2 == (n - 1) * ex + (n - 1) * (n - 2) / 2 + (ex + n - 1)
  {
    assert n * (n - 1) == (n - 1) * (n - 2) + 2 * (n - 1);
    assert n * ex == (n - 1) * ex + ex;
  }

  lemma {:induction false} CapGrows(ex: nat, m: nat, n: nat)
    requires ex > 0 && m <= n
    ensures Cap(ex, m) <= Cap(ex, n) && (m < n ==> Cap(ex, m) < Cap(ex, n))
    decreases n - m
  {
    if m < n {
      CapGrows(ex, m, n - 1);
    }
  }

  // With the factor the program uses, the counter stays a 32-bit int up to 1023 chunks and no more.
  lemma CounterFits(n: nat)
    ensures Cap(1, n) <= INT_MAX <==> n <= 1023
  {
    CapIs(1, 1023);
    CapIs(1, 1024);
    if n <= 1023 {
      CapGrows(1, n, 1023);
    } else {
      CapGrows(1, 1024, n);
    }
  }

  // A fresh writer hands out 4096 bytes for each step of its factor.
  lemma FirstPart(ex: nat)
    ensures Next(Fresh(ex)) == (Writer([Chunk(4096 * ex, 0, 4096 * ex)], 4096 * ex, ex + 1), Span(0, 0, 4096 * ex))
  {
    assert [] + [Chunk(4096 * ex, 0, 4096 * ex)] == [Chunk(4096 * ex, 0, 4096 * ex)];
  }

  // The least number of chunks, at least one, that hold `bytes`: a stream asks for the first
  // chunk in any case and for the next one only when it has bytes left.
  function ChunksFor(ex: nat, bytes: nat): (n: nat)
    requires ex > 0
    ensures n > 0 && bytes <= Cap(ex, n)
  {
    ChunksFrom(ex, bytes, 1)
  }

  function ChunksFrom(ex: nat, bytes: nat, n: nat): (r: nat)
    requires ex > 0
    ensures n <= r && bytes <= Cap(ex, r)
    decreases if bytes > Cap(ex, n) then bytes - Cap(ex, n) else 0
  {
    if bytes <= Cap(ex, n) then n else ChunksFrom(ex, bytes, n + 1)
  }

  lemma {:induction false} ChunksFromIsLeast(ex: nat, bytes: nat, n: nat, m: nat)
    requires ex > 0 && n <= m && bytes <= Cap(ex, m)
    ensures ChunksFrom(ex, bytes, n) <= m
    decreases m - n
  {
    if n < m && bytes > Cap(ex, n) {
      ChunksFromIsLeast(ex, bytes, n + 1, m);
    }
  }

  // n chunks are what a stream needs for `bytes` exactly if they hold them and one less do not.
  lemma ChunksNeeded(ex: nat, bytes: nat, n: nat)
    requires ex > 0 && n > 0
    ensures ChunksFor(ex, bytes) == n <==> bytes <= Cap(ex, n) && (n == 1 || Cap(ex, n - 1) < bytes)
  {
    var m := ChunksFor(ex, bytes);
    if bytes <= Cap(ex, n) {
      ChunksFromIsLeast(ex, bytes, 1, n);
    }
    if n > 1 && bytes <= Cap(ex, n - 1) {
      ChunksFromIsLeast(ex, bytes, 1, n - 1);
    }
    if n < m {
      CapGrows(ex, n, m - 1);
    } else if m < n {
      CapGrows(ex, m, n - 1);
    }
  }

  // With the factor the program uses, 4096 bytes go into one chunk and 4097 need two.
  lemma OneChunkHolds(bytes: nat)
    ensures ChunksFor(1, bytes) == 1 <==> bytes <= 4096
    ensures ChunksFor(1, bytes) == 2 <==> 4096 < bytes <= 12288
  {
    CapIs(1, 1);
    CapIs(1, 2);
    ChunksNeeded(1, bytes, 1);
    ChunksNeeded(1, bytes, 2);
  }

  // ---------------------------------------------------------------- one message

  function Nexts(n: nat): seq<Call> { seq(n, _ => CallNext) }

  function FullChunks(ex: nat, n: nat): (r: seq<Chunk>)
    ensures |r| == n && ChunksOk(r)
    ensures forall i :: 0 <= i < n ==> r[i] == Chunk(Size(ex, i), 0, Size(ex, i))
  {
    seq(n, i requires 0 <= i < n => Chunk(Size(ex, i), 0, Size(ex, i)))
  }

  function Full(ex: nat, n: nat): (w: Writer)
    ensures Ok(w)
  {
    Writer(FullChunks(ex, n), Cap(ex, n), ex + n)
  }

  function Flat(mem: Memory): seq<byte> { if mem == [] then [] else Flat(mem[..|mem| - 1]) + Last(mem) }

  lemma NextOfFull(ex: nat, n: nat)
    ensures Next(Full(ex, n)) == (Full(ex, n + 1), Span(n, 0, Size(ex, n))) && Loss(Full(ex, n)) == 0
  {
    assert FullChunks(ex, n + 1) == FullChunks(ex, n) + [Chunk(Size(ex, n), 0, Size(ex, n))];
  }

  // n calls of Next make n chunks, each as large as its turn, and hand out all of them.
  lemma {:induction false} AfterNexts(ex: nat, n: nat)
    ensures RunOf(ex, Nexts(n)).Some? && RunOf(ex, Nexts(n)).value.w == Full(ex, n)
    ensures RunOf(ex, Nexts(n)).value.lost == 0
  {
    if n > 0 {
      AfterNexts(ex, n - 1);
      assert Nexts(n)[..n - 1] == Nexts(n - 1);
      NextOfFull(ex, n - 1);
    } else {
      assert Full(ex, 0) == Fresh(ex);
    }
  }

  lemma {:induction false} FullContent(ex: nat, n: nat, mem: Memory)
    requires Fits(mem, FullChunks(ex, n))
    ensures Content(FullChunks(ex, n), mem) == Flat(mem) && |Flat(mem)| == Cap(ex, n)
  {
    if n > 0 {
      assert FullChunks(ex, n)[..n - 1] == FullChunks(ex, n - 1);
      FullContent(ex, n - 1, mem[..n - 1]);
      assert mem[n - 1][0..Size(ex, n - 1)] == mem[n - 1];
    }
  }

  lemma CutLast(chunks: seq<Chunk>, mem: Memory, k: nat)
    requires Fits(mem, chunks) && ChunksOk(chunks) && chunks != [] && k <= Last(chunks).last - Last(chunks).pos
    ensures var n := |chunks| - 1; var cut := chunks[n := Shrink(chunks[n], k)];
      && ChunksOk(cut) && Fits(mem, cut)
      && k <= |Content(chunks, mem)| && Content(cut, mem) == Content(chunks, mem)[..|Content(chunks, mem)| - k]
  {
    var n := |chunks| - 1;
    var c := chunks[n];
    var cut := chunks[n := Shrink(c, k)];
    assert cut[..n] == chunks[..n];
    assert mem[n][c.pos..c.last - k] == mem[n][c.pos..c.last][..c.last - c.pos - k];
  }

  lemma AfterBackUp(ex: nat, n: nat, k: nat)
    requires n > 0 && k <= Size(ex, n - 1)
    ensures RunOf(ex, Nexts(n) + [CallBackUp(k)]).Some?
    ensures RunOf(ex, Nexts(n) + [CallBackUp(k)]).value.w == BackUp(Full(ex, n), k)
  {
    AfterNexts(ex, n);
    assert (Nexts(n) + [CallBackUp(k)])[..n] == Nexts(n);
  }

  // A message written with n calls of Next and one BackUp of k: the chunks hold all bytes handed
  // out but the last k, and the counter is their number.
  lemma MessageContent(ex: nat, n: nat, k: nat, mem: Memory)
    requires n > 0 && k <= Size(ex, n - 1) && Fits(mem, FullChunks(ex, n))
    ensures var w := BackUp(Full(ex, n), k);
      && RunOf(ex, Nexts(n) + [CallBackUp(k)]).Some?
      && RunOf(ex, Nexts(n) + [CallBackUp(k)]).value.w == w
      && Fits(mem, w.chunks) && k <= |Flat(mem)|
      && Content(w.chunks, mem) == Flat(mem)[..|Flat(mem)| - k]
      && w.totaly == |Content(w.chunks, mem)| == Cap(ex, n) - k
  {
    AfterBackUp(ex, n, k);
    FullContent(ex, n, mem);
    CutLast(FullChunks(ex, n), mem, k);
  }

  // The shared-memory writer is right for every content of the chunks.
  ghost predicate ShmRight(ex: nat, n: nat, k: nat)
    requires n > 0 && k <= Size(ex, n - 1)
  {
    && k <= Size(ex, 0)
    && forall mem :: Fits(mem, FullChunks(ex, n)) ==> SameContent(ex, n, k, mem)
  }

  ghost predicate SameContent(ex: nat, n: nat, k: nat, mem: Memory)
    requires n > 0 && k <= Size(ex, n - 1) && k <= Size(ex, 0) && Fits(mem, FullChunks(ex, n))
  {
    Content(ShmBackUp(Full(ex, n), k).chunks, mem) == Content(BackUp(Full(ex, n), k).chunks, mem)
  }

  lemma {:induction false} ContentPrefix(chunks: seq<Chunk>, mem: Memory, m: nat)
    requires Fits(mem, chunks) && ChunksOk(chunks) && m <= |chunks|
    ensures Content(chunks[..m], mem[..m]) <= Content(chunks, mem)
    decreases |chunks|
  {
    if m == |chunks| {
      assert chunks[..m] == chunks && mem[..m] == mem;
    } else {
      var n := |chunks| - 1;
      assert chunks[..n][..m] == chunks[..m] && mem[..n][..m] == mem[..m];
      ContentPrefix(chunks[..n], mem[..n], m);
    }
  }

  // The first two chunks come first.
  lemma FirstTwo(chunks: seq<Chunk>, mem: Memory)
    requires Fits(mem, chunks) && ChunksOk(chunks) && |chunks| >= 2
    ensures mem[0][chunks[0].pos..chunks[0].last] + mem[1][chunks[1].pos..chunks[1].last] <= Content(chunks, mem)
  {
    ContentPrefix(chunks, mem, 2);
    var c, m := chunks[..2], mem[..2];
    assert Content(c[..1], m[..1]) == mem[0][c[0].pos..c[0].last] by {
      assert Content(c[..1][..0], m[..1][..0]) == [];
    }
  }

  lemma ShmWrong(ex: nat, n: nat, k: nat)
    requires n > 1 && 0 < k <= Size(ex, 0)
    ensures exists mem :: Fits(mem, FullChunks(ex, n)) && !SameContent(ex, n, k, mem)
  {
    var at := Size(ex, 0) - k;
    var mem: Memory := seq(n, i requires 0 <= i < n =>
      seq(Size(ex, i), j => if i == 0 && j == at then 1 else 0));
    var shm, pool := ShmBackUp(Full(ex, n), k).chunks, BackUp(Full(ex, n), k).chunks;
    FirstTwo(shm, mem);
    FirstTwo(pool, mem);
    assert mem[1][0] == 0 && mem[0][at] == 1;
    ghost var first := mem[0][0..at] + mem[1][shm[1].pos..shm[1].last];
    assert first[at] == 0 && first <= Content(shm, mem);
    assert Content(shm, mem)[at] == 0;
    ghost var front := mem[0][0..Size(ex, 0)] + mem[1][pool[1].pos..pool[1].last];
    assert front[at] == 1 && front <= Content(pool, mem);
    assert Content(pool, mem)[at] == 1;
    assert !SameContent(ex, n, k, mem);
  }

  // It takes the bytes back from the first chunk, so it is right exactly if that is the only one
  // or there is nothing to take back.
  lemma ShmRightIff(ex: nat, n: nat, k: nat)
    requires n > 0 && k <= Size(ex, n - 1)
    ensures ShmRight(ex, n, k) <==> n == 1 || k == 0
  {
    if n == 1 {
    } else if k == 0 {
      assert ShmBackUp(Full(ex, n), k) == Full(ex, n) == BackUp(Full(ex, n), k);
    } else if k <= Size(ex, 0) {
      ShmWrong(ex, n, k);
    }
  }

  // For messages: the shared-memory writer is right exactly for those that fit the first chunk
  // or end where a chunk ends.
  lemma ShmRightForMessages(ex: nat, bytes: nat)
    requires ex > 0
    ensures var n := ChunksFor(ex, bytes); var k := Cap(ex, n) - bytes;
      && k <= Size(ex, n - 1)
      && (ShmRight(ex, n, k) <==> bytes <= Size(ex, 0) || bytes == Cap(ex, n))
  {
    var n := ChunksFor(ex, bytes);
    ChunksNeeded(ex, bytes, n);
    ChunksNeeded(ex, bytes, 1);
    assert Cap(ex, 1) == Size(ex, 0);
    ShmRightIff(ex, n, Cap(ex, n) - bytes);
  }

  // Its counter is right in any case.
  lemma ShmLength(ex: nat, n: nat, k: nat, mem: Memory)
    requires n > 0 && k <= Size(ex, 0) && Fits(mem, FullChunks(ex, n))
    ensures var w := ShmBackUp(Full(ex, n), k);
      Fits(mem, w.chunks) && w.totaly == |Content(w.chunks, mem)| == Cap(ex, n) - k
  {
    var w := ShmBackUp(Full(ex, n), k);
    ContentLength(w.chunks, mem);
    HeldShrinks(FullChunks(ex, n), k);
    FullContent(ex, n, mem);
    ContentLength(FullChunks(ex, n), mem);
  }

  // The bytes between `from` and `to` are missing in cut.
  ghost predicate CutOut(all: seq<byte>, cut: seq<byte>, from: int, to: int) {
    0 <= from <= to <= |all| && cut == all[..from] + all[to..]
  }

  lemma CutAppend(all: seq<byte>, cut: seq<byte>, last: seq<byte>, from: int, to: int)
    requires CutOut(all, cut, from, to)
    ensures CutOut(all + last, cut + last, from, to)
  {
    assert (all + last)[..from] + (all + last)[to..] == all[..from] + all[to..] + last;
  }

  lemma CutOnly(chunks: seq<Chunk>, mem: Memory, k: nat)
    requires Fits(mem, chunks) && ChunksOk(chunks) && |chunks| == 1 && k <= chunks[0].last - chunks[0].pos
    ensures var p := chunks[0].last - chunks[0].pos;
      CutOut(Content(chunks, mem), Content(ShrinkFirst(chunks, k), mem), p - k, p)
  {
    ContentOfOne(chunks, mem);
    ContentOfOne(ShrinkFirst(chunks, k), mem);
  }

  lemma ContentOfOne(chunks: seq<Chunk>, mem: Memory)
    requires Fits(mem, chunks) && ChunksOk(chunks) && |chunks| == 1
    ensures Content(chunks, mem) == mem[0][chunks[0].pos..chunks[0].last]
  {
    assert Content(chunks[..0], mem[..0]) == [];
  }

  // The bytes of the last chunk.
  function LastBytes(chunks: seq<Chunk>, mem: Memory): seq<byte>
    requires Fits(mem, chunks) && ChunksOk(chunks) && chunks != []
  {
    Last(mem)[Last(chunks).pos..Last(chunks).last]
  }

  lemma CutMore(chunks: seq<Chunk>, mem: Memory, n: nat, k: nat)
    requires Fits(mem, chunks) && ChunksOk(chunks) && |chunks| == n + 1 > 1 && k <= chunks[0].last - chunks[0].pos
    ensures Content(chunks, mem) == Content(chunks[..n], mem[..n]) + LastBytes(chunks, mem)
    ensures Content(ShrinkFirst(chunks, k), mem)
         == Content(ShrinkFirst(chunks[..n], k), mem[..n]) + LastBytes(chunks, mem)
  {
    assert ShrinkFirst(chunks, k)[..n] == ShrinkFirst(chunks[..n], k);
  }

  // Bytes taken back from the first chunk are missing in the middle of the content.
  lemma {:induction false} CutFirst(chunks: seq<Chunk>, mem: Memory, k: nat)
    requires Fits(mem, chunks) && ChunksOk(chunks) && chunks != [] && k <= chunks[0].last - chunks[0].pos
    ensures var p := chunks[0].last - chunks[0].pos;
      CutOut(Content(chunks, mem), Content(ShrinkFirst(chunks, k), mem), p - k, p)
  {
    var n, p := |chunks| - 1, chunks[0].last - chunks[0].pos;
    if n == 0 {
      CutOnly(chunks, mem, k);
    } else {
      var before, held := chunks[..n], mem[..n];
      assert before[0] == chunks[0];
      CutFirst(before, held, k);
      CutAppend(Content(before, held), Content(ShrinkFirst(before, k), held), LastBytes(chunks, mem), p - k, p);
      CutMore(chunks, mem, n, k);
    }
  }

  lemma {:induction false} HeldShrinks(chunks: seq<Chunk>, k: nat)
    requires ChunksOk(chunks) && chunks != [] && k <= chunks[0].last - chunks[0].pos
    ensures Held(ShrinkFirst(chunks, k)) == Held(chunks) - k
  {
    var n := |chunks| - 1;
    if n > 0 {
      assert ShrinkFirst(chunks, k)[..n] == ShrinkFirst(chunks[..n], k);
      HeldShrinks(chunks[..n], k);
    }
  }
}
