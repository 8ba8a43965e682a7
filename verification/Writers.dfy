/**
 NgxChainBufferWriter and NgxShmChainBufferWriter (ngx_rpc_buffer.cpp) as objects over buffer
 chains, proved against the functions of module Growth.
 */
module Writers {
  import opened Chains
  import opened Growth
  import opened Wire

  ghost function ChunkOf(l: Link): Chunk
    reads l.buf
  {
    Chunk(l.data.Length, l.buf.pos, l.buf.last)
  }

  ghost function ChunksOf(ls: seq<Link>): (r: seq<Chunk>)
    reads Bufs(ls)
    ensures |r| == |ls| && forall i :: 0 <= i < |ls| ==> r[i] == ChunkOf(ls[i])
  {
    seq(|ls|, i requires 0 <= i < |ls| reads Bufs(ls) => ChunkOf(ls[i]))
  }

  // A chain whose buffers end where their data ends.
  ghost predicate Chained(head: Chain, ls: seq<Link>)
    reads head, Nodes(ls), Bufs(ls)
  {
    Holds(head, ls) && forall i :: 0 <= i < |ls| ==> ls[i].buf.end == ls[i].data.Length
  }

  // The node at the end of the chain.
  ghost function Tail(head: Chain, ls: seq<Link>): Chain { if ls == [] then head else Last(ls).node }

  // ls with one more node behind it.
  ghost function Extended(ls: seq<Link>, l: Link): seq<Link> {
    if ls == [] then [l] else ls[..|ls| - 1] + [Last(ls).(next := l.node), l]
  }

  // "if skiped has called": the unused end of the last chunk.
  method FillUp(tail: Chain, ghost head: Chain, ghost ls: seq<Link>) returns (data: array<byte>, off: nat, size: nat)
    requires Chained(head, ls) && ls != [] && tail == Last(ls).node && tail.buf.last < tail.buf.end
    modifies tail.buf
    ensures Chained(head, ls) && data == Last(ls).data
    ensures var c := old(ChunkOf(Last(ls))); off == c.last && size == c.size - c.last
    ensures ChunksOf(ls) == old(ChunksOf(ls))[|ls| - 1 := Chunk(data.Length, off, data.Length)]
  {
    assert Last(ls).Sound();
    size := tail.buf.end - tail.buf.last;
    data, off := tail.buf.start, tail.buf.last;
    tail.buf.pos := tail.buf.last;
    tail.buf.last := tail.buf.end;
  }

  lemma ExtendedInOrder(ls: seq<Link>, l: Link)
    requires Apart(ls) && (forall i :: 0 <= i < |ls| ==> InOrder(ls, i, null)) && l.next == null
    requires forall i :: 0 <= i < |ls| ==> ls[i].Apart(l)
    ensures var e := Extended(ls, l); Apart(e) && forall i :: 0 <= i < |e| ==> InOrder(e, i, null)
  {
    var e := Extended(ls, l);
    assert forall i :: 0 <= i < |ls| - 1 ==> e[i] == ls[i];
    forall i | 0 <= i < |e| ensures InOrder(e, i, null) {
      if i < |ls| {
        assert InOrder(ls, i, null);
      }
    }
  }

  // The node for a new chunk: the head while it is empty, else one linked behind the tail.
  method NewNode(pool: Slab, tail: Chain) returns (node: Chain)
    modifies pool, tail`next
    ensures tail.buf == null ==> node == tail && tail.next == old(tail.next)
    ensures tail.buf != null ==> fresh(node) && tail.next == node && node.buf == null && node.next == null
  {
    node := tail;
    if tail.buf != null {
      node := pool.AllocChain();
      tail.next := node;
      node.next, node.buf := null, null;
    }
  }

  // A chunk of its own for a node.
  method NewBuf(pool: Slab, node: Chain, size: nat) returns (ghost l: Link)
    requires node.buf == null && node.next == null
    modifies pool, node`buf
    ensures l.node == node && l.next == null && l.Sound() && fresh(l.buf) && fresh(l.data)
    ensures ChunkOf(l) == Chunk(size, 0, size) && l.buf.end == size
  {
    var b := pool.AllocBuf();
    var data := pool.AllocData(size);
    b.start, b.pos, b.last, b.end := data, 0, size, size;
    node.buf := b;
    l := Link(node, b, data, null);
  }

  method AddChunk(pool: Slab, tail: Chain, size: nat, ghost head: Chain, ghost ls: seq<Link>)
    returns (node: Chain, ghost l: Link)
    requires Chained(head, ls) && tail == Tail(head, ls)
    modifies pool, tail
    ensures Chained(head, Extended(ls, l)) && unchanged(Bufs(ls))
    ensures l.node == node && ChunkOf(l) == Chunk(size, 0, size) && fresh(l.buf) && fresh(l.data)
    ensures if ls == [] then node == head else fresh(node)
  {
    assert ls != [] ==> Last(ls).Sound();
    node := NewNode(pool, tail);
    l := NewBuf(pool, node, size);
    var e := Extended(ls, l);
    ExtendedInOrder(ls, l);
    forall i | 0 <= i < |e| ensures e[i].Sound() && e[i].buf.end == e[i].data.Length {
      if i < |ls| - 1 {
        assert e[i] == ls[i] && ls[i].Apart(Last(ls));
      }
    }
  }

  lemma ExtendedChunks(ls: seq<Link>, l: Link)
    ensures ChunksOf(Extended(ls, l)) == ChunksOf(ls) + [ChunkOf(l)]
  {
  }

  // All storage of the chain but its head is of `made`.
  ghost predicate Covers(made: set<object>, head: Chain, ls: seq<Link>) {
    forall l | l in ls :: (l.node == head || l.node in made) && l.buf in made && l.data in made
  }

  lemma ExtendedCovered(made: set<object>, head: Chain, ls: seq<Link>, l: Link, taken: set<object>)
    requires Covers(made, head, ls) && {l.buf, l.data} <= taken && (l.node == head || l.node in taken)
    ensures Covers(made + taken, head, Extended(ls, l))
  {
    if ls != [] {
      assert Last(ls) in ls;
    }
  }

  lemma ChainedChunks(head: Chain, ls: seq<Link>)
    requires Chained(head, ls)
    ensures ChunksOk(ChunksOf(ls))
  {
  }

  // The data blocks of a chain, in order.
  ghost function DataOf(ls: seq<Link>): (r: seq<array<byte>>)
    ensures |r| == |ls|
  {
    seq(|ls|, i requires 0 <= i < |ls| => ls[i].data)
  }

  lemma ExtendedData(ls: seq<Link>, l: Link)
    ensures DataOf(Extended(ls, l)) == DataOf(ls) + [l.data]
  {
  }

  // The chunk behind the others, handed out whole.
  method Grow(pool: Slab, tail: Chain, size: nat, ghost head: Chain, ghost ls: seq<Link>, ghost made: set<object>)
    returns (data: array<byte>, node: Chain, ghost after: seq<Link>, ghost taken: set<object>)
    requires Chained(head, ls) && tail == Tail(head, ls) && Covers(made, head, ls)
    modifies pool, tail
    ensures Chained(head, after) && after != [] && node == Last(after).node && data == Last(after).data
    ensures ChunksOf(after) == old(ChunksOf(ls)) + [Chunk(size, 0, size)]
    ensures fresh(taken) && Covers(made + taken, head, after)
    ensures fresh(data) && DataOf(after) == DataOf(ls) + [data]
  {
    ghost var l;
    node, l := AddChunk(pool, tail, size, head, ls);
    assert ChunksOf(ls) == old(ChunksOf(ls));
    taken := if ls == [] then {l.buf, l.data} else {l.buf, l.data, node};
    assert fresh(taken);
    ExtendedCovered(made, head, ls, l, taken);
    after := Extended(ls, l);
    assert Last(after) == l && l.Sound();
    ExtendedChunks(ls, l);
    ExtendedData(ls, l);
    data := node.buf.start;
  }

  // What both writers do once they know the tail; w is the writer as a value.
  method HandOut(pool: Slab, tail: Chain, factor: nat, ghost head: Chain, ghost ls: seq<Link>,
                 ghost made: set<object>, ghost w: Writer)
    returns (data: array<byte>, off: nat, size: nat, node: Chain, grown: bool,
             ghost after: seq<Link>, ghost taken: set<object>, ghost r: Writer)
    requires Chained(head, ls) && tail == Tail(head, ls) && Covers(made, head, ls)
    requires Ok(w) && w.chunks == ChunksOf(ls) && w.factor == factor
    modifies pool, tail, Bufs(ls)
    ensures Chained(head, after) && after != [] && node == Last(after).node && data == Last(after).data
    ensures fresh(taken) && Covers(made + taken, head, after)
    ensures DataOf(after) == if grown then DataOf(ls) + [data] else DataOf(ls)
    ensures grown ==> fresh(data)
    ensures r == Next(w).0 && Next(w).1 == Span(|after| - 1, off, size) && Ok(r)
    ensures r.chunks == ChunksOf(after) && r.totaly == w.totaly + size
    ensures r.factor == if grown then factor + 1 else factor
  {
    assert ls != [] ==> Last(ls).Sound();
    taken, r := {}, Next(w).0;
    if tail.buf == null || tail.buf.last == tail.buf.end {
      size, off, grown := DEFAULT_SIZE * factor, 0, true;
      data, node, after, taken := Grow(pool, tail, size, head, ls, made);
    } else {
      data, off, size := FillUp(tail, head, ls);
      node, grown, after := tail, false, ls;
    }
  }

  class PoolWriter {
    var chain: Chain
    const pool: Slab
    var totaly: int
    var factor: nat
    ghost const head: Chain
    ghost var ls: seq<Link>
    ghost var made: set<object>

    ghost predicate Valid()
      reads this, head, Nodes(ls), Bufs(ls)
    {
      Chained(head, ls) && chain == Tail(head, ls) && ChunksOk(ChunksOf(ls)) && Covers(made, head, ls)
    }

    ghost function View(): Writer
      reads this, Bufs(ls)
    {
      Writer(ChunksOf(ls), totaly, factor)
    }

    constructor (ch: Chain, p: Slab, ex: nat)
      modifies ch
      ensures Valid() && View() == Fresh(ex) && head == ch && ls == [] && made == {} && pool == p
    {
      chain, pool, totaly, factor, head, ls, made := ch, p, 0, ex, ch, [], {};
      new;
      chain.buf, chain.next := null, null;
    }

    // A part to be filled.
    method Next() returns (data: array<byte>, off: nat, size: nat)
      requires Valid()
      modifies this, pool, chain, Bufs(ls)
      ensures Valid() && View() == Growth.Next(old(View())).0
      ensures fresh(made - old(made)) && (|ls| > |old(ls)| ==> fresh(data))
      ensures DataOf(ls) == if |ls| > |old(ls)| then old(DataOf(ls)) + [data] else old(DataOf(ls))
      ensures var s := Growth.Next(old(View())).1; data == ls[s.index].data && off == s.off && size == s.len
    {
      ghost var after, taken, r;
      var node, grown;
      data, off, size, node, grown, after, taken, r := HandOut(pool, chain, factor, head, ls, made, View());
      Advance(node, size, grown, after, taken, r);
    }

    // The fields of the writer after a Next, with r as the writer's value.
    method Advance(node: Chain, size: nat, grown: bool, ghost after: seq<Link>, ghost taken: set<object>,
                   ghost r: Writer)
      requires Chained(head, after) && node == Tail(head, after) && Covers(made + taken, head, after) && Ok(r)
      requires r.chunks == ChunksOf(after) && r.totaly == totaly + size
      requires r.factor == if grown then factor + 1 else factor
      modifies this
      ensures Valid() && ls == after && View() == r && made == old(made) + taken
    {
      chain, ls, totaly, made := node, after, totaly + size, made + taken;
      if grown {
        factor := factor + 1;
      }
      assert ChunksOf(after) == r.chunks;
    }

    method BackUp(count: nat)
      requires Valid() && ls != [] && count <= Last(ls).buf.last - Last(ls).buf.pos
      modifies `totaly, Last(ls).buf
      ensures Valid() && View() == Growth.BackUp(old(View()), count)
    {
      CutBack(chain, |ls| - 1, count, head, ls);
      totaly := totaly - count;
    }
  }

  // chain->buf->last -= count
  method CutBack(node: Chain, ghost at: nat, count: nat, ghost head: Chain, ghost ls: seq<Link>)
    requires Chained(head, ls) && at < |ls| && node == ls[at].node && count <= ls[at].buf.last - ls[at].buf.pos
    modifies ls[at].buf
    ensures Chained(head, ls) && ChunksOk(ChunksOf(ls))
    ensures ChunksOf(ls) == old(ChunksOf(ls))[at := Shrink(old(ChunkOf(ls[at])), count)]
  {
    assert ls[at].Sound();
    node.buf.last := node.buf.last - count;
    ChainedChunks(head, ls);
  }

  class ShmWriter {
    const chain: Chain
    const pool: Slab
    var totaly: int
    var factor: nat
    ghost var ls: seq<Link>
    ghost var made: set<object>

    ghost predicate Valid()
      reads this, chain, Nodes(ls), Bufs(ls)
    {
      Chained(chain, ls) && ChunksOk(ChunksOf(ls)) && Covers(made, chain, ls)
    }

    ghost function View(): Writer
      reads this, Bufs(ls)
    {
      Writer(ChunksOf(ls), totaly, factor)
    }

    constructor (ch: Chain, p: Slab, ex: nat)
      modifies ch
      ensures Valid() && View() == Fresh(ex) && chain == ch && ls == [] && made == {} && pool == p
    {
      chain, pool, totaly, factor, ls, made := ch, p, 0, ex, [], {};
      new;
      chain.buf, chain.next := null, null;
    }

    // The writer keeps the head and walks to the tail.
    method FindTail() returns (ptr: Chain)
      requires Valid()
      ensures ptr == Tail(chain, ls)
    {
      ghost var i := 0;
      ptr := chain;
      while ptr.next != null
        invariant ptr == if ls == [] then chain else if i < |ls| then ls[i].node else chain
        invariant ls != [] ==> i < |ls|
        decreases |ls| - i
      {
        assert ls[i].Sound() && InOrder(ls, i, null);
        ptr, i := ptr.next, i + 1;
      }
      assert ls != [] ==> ls[i].Sound() && InOrder(ls, i, null);
    }

    method Next() returns (data: array<byte>, off: nat, size: nat)
      requires Valid()
      modifies this, pool, chain, Nodes(ls), Bufs(ls)
      ensures Valid() && View() == Growth.Next(old(View())).0
      ensures fresh(made - old(made)) && (|ls| > |old(ls)| ==> fresh(data))
      ensures DataOf(ls) == if |ls| > |old(ls)| then old(DataOf(ls)) + [data] else old(DataOf(ls))
      ensures var s := Growth.Next(old(View())).1; data == ls[s.index].data && off == s.off && size == s.len
    {
      ghost var after, taken, r;
      var grown, node;
      var ptr := FindTail();
      data, off, size, node, grown, after, taken, r := HandOut(pool, ptr, factor, chain, ls, made, View());
      Advance(size, grown, after, taken, r);
    }

    method Advance(size: nat, grown: bool, ghost after: seq<Link>, ghost taken: set<object>, ghost r: Writer)
      requires Chained(chain, after) && Covers(made + taken, chain, after) && Ok(r)
      requires r.chunks == ChunksOf(after) && r.totaly == totaly + size
      requires r.factor == if grown then factor + 1 else factor
      modifies this
      ensures Valid() && ls == after && View() == r && made == old(made) + taken
    {
      ls, totaly, made := after, totaly + size, made + taken;
      if grown {
        factor := factor + 1;
      }
      assert ChunksOf(after) == r.chunks;
    }

    method BackUp(count: nat)
      requires Valid() && ls != [] && count <= ls[0].buf.last - ls[0].buf.pos
      modifies `totaly, ls[0].buf
      ensures Valid() && View() == ShmBackUp(old(View()), count)
    {
      CutBack(chain, 0, count, chain, ls);
      totaly := totaly - count;
    }
  }

  // ---------------------------------------------------------------- one message

  ghost function Held(ds: seq<array<byte>>): (m: Memory)
    reads ds
    ensures |m| == |ds| && forall i :: 0 <= i < |m| ==> m[i] == ds[i][..]
  {
    seq(|ds|, i requires 0 <= i < |ds| reads ds => ds[i][..])
  }

  method Fill(data: array<byte>, bytes: seq<byte>)
    requires |bytes| <= data.Length
    modifies data
    ensures data[..|bytes|] == bytes
  {
    forall i | 0 <= i < |bytes| {
      data[i] := bytes[i];
    }
  }

  // Another chunk for a message: it is handed out whole.
  method NextWhole(w: ShmWriter, ghost ex: nat, ghost n: nat) returns (data: array<byte>, size: nat)
    requires w.Valid() && w.View() == Full(ex, n)
    modifies w, w.pool, w.chain, Nodes(w.ls), Bufs(w.ls)
    ensures w.Valid() && w.View() == Full(ex, n + 1) && fresh(w.made - old(w.made))
    ensures size == data.Length == Size(ex, n) && fresh(data) && DataOf(w.ls) == old(DataOf(w.ls)) + [data]
  {
    NextOfFull(ex, n);
    var off;
    assert |w.View().chunks| == n;
    data, off, size := w.Next();
    assert |w.View().chunks| == n + 1;
    assert w.View().chunks[n].size == size;
  }

  lemma FlatStep(mem: Memory, last: seq<byte>)
    ensures Flat(mem + [last]) == Flat(mem) + last
  {
    assert (mem + [last])[..|mem|] == mem;
  }

  method FillNew(data: array<byte>, bytes: seq<byte>, ghost ds: seq<array<byte>>, ghost mem: Memory)
    returns (ghost last: seq<byte>)
    requires |bytes| <= data.Length && data !in ds && Held(ds) == mem
    modifies data
    ensures |last| == data.Length && last[..|bytes|] == bytes && Held(ds + [data]) == mem + [last]
  {
    Fill(data, bytes);
    last := data[..];
    assert Held(ds) == mem;
  }

  // Filling the last chunk of a writer changes nothing of the chain.
  method FillLast(w: ShmWriter, data: array<byte>, bytes: seq<byte>, ghost ds: seq<array<byte>>, ghost mem: Memory)
    returns (ghost last: seq<byte>)
    requires w.Valid() && DataOf(w.ls) == ds + [data] && data !in ds && Held(ds) == mem && |bytes| <= data.Length
    modifies data
    ensures w.Valid() && w.View() == old(w.View())
    ensures |last| == data.Length && last[..|bytes|] == bytes && Held(DataOf(w.ls)) == mem + [last]
  {
    last := FillNew(data, bytes, ds, mem);
  }

  // The next bytes of a message go into a chunk of their own, as far as they fit.
  method WriteChunk(w: ShmWriter, rest: seq<byte>, ghost ex: nat, ghost n: nat, ghost mem: Memory)
    returns (used: nat, left: nat, ghost last: seq<byte>)
    requires w.Valid() && w.View() == Full(ex, n) && Held(DataOf(w.ls)) == mem
    modifies w, w.pool, w.chain, w.made
    ensures w.Valid() && w.View() == Full(ex, n + 1) && fresh(w.made - old(w.made))
    ensures used <= |rest| && used + left == |last| == Size(ex, n) && (used < |rest| ==> left == 0)
    ensures Held(DataOf(w.ls)) == mem + [last] && last[..used] == rest[..used]
  {
    ghost var ds := DataOf(w.ls);
    var data, size := NextWhole(w, ex, n);
    used := if |rest| < size then |rest| else size;
    left := size - used;
    assert Held(ds) == mem;
    last := FillLast(w, data, rest[..used], ds, mem);
  }

  lemma PrefixStep(flat: seq<byte>, last: seq<byte>, msg: seq<byte>, used: nat)
    requires flat <= msg && used <= |last| && used <= |msg| - |flat| && last[..used] == msg[|flat|..][..used]
    ensures (flat + last)[..|flat| + used] <= msg
  {
    assert msg[..|flat| + used] == msg[..|flat|] + msg[|flat|..][..used];
  }

  // The bytes of a message that are written, in chunks that hold `flat`.
  ghost predicate Written(msg: seq<byte>, mem: Memory, flat: seq<byte>, written: nat) {
    flat == Flat(mem) && written <= |flat| && flat[..written] <= msg
  }

  lemma WrittenStep(msg: seq<byte>, mem: Memory, flat: seq<byte>, written: nat, last: seq<byte>, used: nat)
    requires Written(msg, mem, flat, written) && written == |flat| && used <= |last| && written + used <= |msg|
    requires last[..used] == msg[written..][..used]
    ensures Written(msg, mem + [last], flat + last, written + used)
  {
    FlatStep(mem, last);
    assert flat[..written] == flat;
    PrefixStep(flat, last, msg, used);
  }

  // Where a stream is: n chunks are full but for the last `left` bytes, and it goes on exactly
  // while bytes are left.
  ghost predicate Progress(ex: nat, msg: seq<byte>, n: nat, mem: Memory, flat: seq<byte>, written: nat,
                           left: nat, more: bool) {
    && |flat| == Cap(ex, n) == written + left
    && written <= |msg| && Written(msg, mem, flat, written)
    && (if more then left == 0 && (n == 0 || written < |msg|)
        else n > 0 && written == |msg| && (n == 1 || Cap(ex, n - 1) < |msg|))
  }

  lemma ProgressStep(ex: nat, msg: seq<byte>, n: nat, mem: Memory, flat: seq<byte>, written: nat,
                     rest: seq<byte>, last: seq<byte>, used: nat, now: nat, left: nat)
    returns (mem2: Memory, flat2: seq<byte>)
    requires ex > 0 && Progress(ex, msg, n, mem, flat, written, 0, true) && rest == msg[written..]
    requires used <= |rest| && used + left == |last| == Size(ex, n) && (used < |rest| ==> left == 0)
    requires last[..used] == rest[..used] && now == written + used
    ensures mem2 == mem + [last] && Progress(ex, msg, n + 1, mem2, flat2, now, left, now < |msg|)
    ensures now == written ==> now == |msg|
  {
    mem2, flat2 := mem + [last], flat + last;
    WrittenStep(msg, mem, flat, written, last, used);
  }

  lemma ProgressStart(ex: nat, msg: seq<byte>)
    ensures Progress(ex, msg, 0, [], [], 0, 0, true) && Full(ex, 0) == Fresh(ex)
  {
  }

  lemma ProgressEnd(ex: nat, msg: seq<byte>, n: nat, mem: Memory, flat: seq<byte>, written: nat, left: nat)
    requires ex > 0 && Progress(ex, msg, n, mem, flat, written, left, false)
    ensures n == ChunksFor(ex, |msg|) && left == Cap(ex, n) - |msg|
    ensures |flat| == Cap(ex, n) && Written(msg, mem, flat, |msg|)
  {
    ChunksNeeded(ex, |msg|, n);
  }

  method StreamTurn(w: ShmWriter, msg: seq<byte>, written: nat, ghost ex: nat, ghost n: nat,
                    ghost mem: Memory, ghost flat: seq<byte>)
    returns (now: nat, left: nat, ghost mem2: Memory, ghost flat2: seq<byte>)
    requires w.Valid() && w.View() == Full(ex, n) && Held(DataOf(w.ls)) == mem
    requires ex > 0 && Progress(ex, msg, n, mem, flat, written, 0, true)
    modifies w, w.pool, w.chain, w.made
    ensures w.Valid() && w.View() == Full(ex, n + 1) && fresh(w.made - old(w.made)) && Held(DataOf(w.ls)) == mem2
    ensures Progress(ex, msg, n + 1, mem2, flat2, now, left, now < |msg|) && (now == written ==> now == |msg|)
  {
    ghost var last;
    var used;
    var rest := msg[written..];
    used, left, last := WriteChunk(w, rest, ex, n, mem);
    now := written + used;
    mem2, flat2 := ProgressStep(ex, msg, n, mem, flat, written, rest, last, used, now, left);
  }

  // A stream over the writer: chunks are asked for while bytes are left, and the first in any case.
  method WriteAll(w: ShmWriter, msg: seq<byte>, ghost ex: nat)
    returns (left: nat, ghost n: nat, ghost mem: Memory, ghost flat: seq<byte>)
    requires w.Valid() && w.View() == Fresh(ex) && ex > 0 && w.made == {}
    modifies w, w.pool, w.chain
    ensures w.Valid() && w.View() == Full(ex, n) && Held(DataOf(w.ls)) == mem && fresh(w.made)
    ensures n == ChunksFor(ex, |msg|) && left == Cap(ex, n) - |msg|
    ensures |flat| == Cap(ex, n) && Written(msg, mem, flat, |msg|)
  {
    var written: nat, more := 0, true;
    n, mem, flat, left := 0, [], [], 0;
    ProgressStart(ex, msg);
    while more
      invariant w.Valid() && w.View() == Full(ex, n) && Held(DataOf(w.ls)) == mem && fresh(w.made)
      invariant Progress(ex, msg, n, mem, flat, written, left, more)
      decreases more, |msg| - written
    {
      var now;
      now, left, mem, flat := StreamTurn(w, msg, written, ex, n, mem, flat);
      n, more, written := n + 1, now < |msg|, now;
    }
    ProgressEnd(ex, msg, n, mem, flat, written, left);
  }

  // b is what such a chain holds of msg, with what stood behind it in the last chunk: the bytes
  // that are given back for the last chunk are missing at the end of the first.
  ghost predicate BodyWith(ex: nat, msg: seq<byte>, junk: seq<byte>, b: seq<byte>)
    requires ex > 0
  {
    && |msg + junk| == Cap(ex, ChunksFor(ex, |msg|)) && |junk| <= Size(ex, 0) <= |msg + junk|
    && b == (msg + junk)[..Size(ex, 0) - |junk|] + (msg + junk)[Size(ex, 0)..]
  }

  ghost predicate IsBody(ex: nat, msg: seq<byte>, b: seq<byte>)
    requires ex > 0
  {
    exists junk :: BodyWith(ex, msg, junk, b)
  }

  // The body has the length of the message, and is the message if that fits the first chunk or
  // fills the last.
  lemma BodyIsMessage(ex: nat, msg: seq<byte>, b: seq<byte>)
    requires ex > 0 && IsBody(ex, msg, b)
    ensures |b| == |msg|
    ensures |msg| <= Size(ex, 0) || |msg| == Cap(ex, ChunksFor(ex, |msg|)) ==> b == msg
  {
    var junk :| BodyWith(ex, msg, junk, b);
    if |msg| <= Size(ex, 0) {
      ChunksNeeded(ex, |msg|, 1);
      assert Cap(ex, 1) == Size(ex, 0);
      assert (msg + junk)[..|msg|] == msg;
    } else if junk == [] {
      assert msg[..Size(ex, 0)] + msg[Size(ex, 0)..] == msg;
    }
  }

  // The body once the rest of the last chunk was given back.
  lemma BodyOf(ex: nat, msg: seq<byte>, n: nat, left: nat, mem: Memory, flat: seq<byte>)
    requires ex > 0 && n == ChunksFor(ex, |msg|) && |flat| == Cap(ex, n) == |msg| + left && left <= Size(ex, 0)
    requires Fits(mem, FullChunks(ex, n)) && Written(msg, mem, flat, |msg|)
    ensures var w := ShmBackUp(Full(ex, n), left);
      Fits(mem, w.chunks) && w.totaly == |msg| == |Content(w.chunks, mem)| && IsBody(ex, msg, Content(w.chunks, mem))
  {
    ShmLength(ex, n, left, mem);
    FullContent(ex, n, mem);
    CutFirst(FullChunks(ex, n), mem, left);
    BodyIs(ex, msg, n, left, flat, Content(ShmBackUp(Full(ex, n), left).chunks, mem));
  }

  lemma BodyIs(ex: nat, msg: seq<byte>, n: nat, left: nat, flat: seq<byte>, b: seq<byte>)
    requires ex > 0 && n == ChunksFor(ex, |msg|) && |flat| == Cap(ex, n) == |msg| + left && left <= Size(ex, 0)
    requires flat[..|msg|] == msg && CutOut(flat, b, Size(ex, 0) - left, Size(ex, 0))
    ensures IsBody(ex, msg, b)
  {
    var junk := flat[|msg|..];
    assert flat == msg + junk;
    assert BodyWith(ex, msg, junk, b);
  }

  // BackUp with its assert, which ends the process.
  method GiveBack(w: ShmWriter, left: nat, ghost ex: nat, ghost n: nat) returns (aborted: bool)
    requires w.Valid() && w.View() == Full(ex, n) && n > 0
    modifies w`totaly, Bufs(w.ls)
    ensures w.Valid()
    ensures aborted <==> left > Size(ex, 0)
    ensures w.View() == if aborted then Full(ex, n) else ShmBackUp(Full(ex, n), left)
    ensures Held(DataOf(w.ls)) == old(Held(DataOf(w.ls)))
  {
    assert |w.ls| == n && w.ls[0].Sound();
    assert ChunkOf(w.ls[0]) == w.View().chunks[0];
    if left > w.chain.buf.last - w.chain.buf.pos {
      return true;
    }
    w.BackUp(left);
    aborted := false;
  }

  // Message::SerializeToZeroCopyStream on a fresh shared-memory writer.  It aborts in BackUp if
  // it has more to give back than the first chunk holds; otherwise the counter, which becomes
  // the Content-Length, is the length of the message and of the body.
  method Serialize(w: ShmWriter, msg: seq<byte>, ghost ex: nat) returns (aborted: bool, ghost mem: Memory)
    requires w.Valid() && w.View() == Fresh(ex) && ex > 0 && w.made == {}
    modifies w, w.pool, w.chain
    ensures w.Valid() && Held(DataOf(w.ls)) == mem && Fits(mem, w.View().chunks)
    ensures aborted <==> Cap(ex, ChunksFor(ex, |msg|)) - |msg| > Size(ex, 0)
    ensures !aborted ==> w.totaly == |msg| == |Content(w.View().chunks, mem)|
    ensures !aborted ==> IsBody(ex, msg, Content(w.View().chunks, mem))
    ensures |msg| <= Size(ex, 0) ==> !aborted
  {
    ghost var n, flat;
    var left;
    left, n, mem, flat := WriteAll(w, msg, ex);
    AllFits(ex, n, DataOf(w.ls), w, mem);
    aborted := GiveBack(w, left, ex, n);
    if |msg| <= Size(ex, 0) {
      FirstFits(ex, |msg|);
    }
    if !aborted {
      BodyOf(ex, msg, n, left, mem, flat);
    }
  }

  lemma AllFits(ex: nat, n: nat, ds: seq<array<byte>>, w: ShmWriter, mem: Memory)
    requires w.View() == Full(ex, n) && ds == DataOf(w.ls) && Held(ds) == mem
    ensures Fits(mem, FullChunks(ex, n))
  {
    forall i | 0 <= i < n ensures |mem[i]| == Size(ex, i) {
      assert w.View().chunks[i] == ChunkOf(w.ls[i]);
    }
  }

  lemma FirstFits(ex: nat, bytes: nat)
    requires ex > 0 && bytes <= Size(ex, 0)
    ensures Cap(ex, ChunksFor(ex, bytes)) - bytes <= Size(ex, 0)
  {
    ChunksNeeded(ex, bytes, 1);
    assert Cap(ex, 1) == Size(ex, 0);
  }
}
