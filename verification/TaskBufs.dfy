/**
 ngx_http_rpc_task_set_bufs (ngx_rpc_task.c): free the buffer chain of a task and replace it
 by a deep copy of another chain, in memory of the shared slab.  The model saves `next` before
 a node is freed.  The code frees the block at pos, which is another block or none once pos has
 moved.
 */
module TaskBufs {
  import opened Chains
  import opened Wire

  // A chain to copy from: nothing, or a head without a buffer, or a list of full nodes.
  ghost predicate Source(src: Chain?, ls: seq<Link>)
    reads Optional(src), Nodes(ls), Bufs(ls)
  {
    if ls == [] then src == null || src.buf == null
    else ls[0].node == src && Linked(ls, null)
  }

  // ---------------------------------------------------------------- counting blocks

  lemma BlocksSnoc(ls: seq<Link>, l: Link)
    ensures Blocks(ls + [l]) == Blocks(ls) + l.Parts()
  {
    assert (ls + [l])[..|ls|] == ls;
  }

  lemma {:induction false} PartsInBlocks(ls: seq<Link>, i: nat)
    requires i < |ls|
    ensures ls[i].Parts() <= Blocks(ls)
  {
    if i < |ls| - 1 {
      PartsInBlocks(ls[..|ls| - 1], i);
    }
  }

  lemma {:induction false} OtherBlocks(ls: seq<Link>, l: Link)
    requires forall i :: 0 <= i < |ls| ==> ls[i].Apart(l)
    ensures Blocks(ls) !! l.Parts()
  {
    if ls != [] {
      var before := ls[..|ls| - 1];
      assert forall i :: 0 <= i < |before| ==> before[i] == ls[i];
      OtherBlocks(before, l);
      assert ls[|ls| - 1].Apart(l);
    }
  }

  lemma {:induction false} ThreePerNode(ls: seq<Link>)
    requires Apart(ls)
    ensures |Blocks(ls)| == 3 * |ls|
  {
    if ls != [] {
      var k := |ls| - 1;
      var before, l := ls[..k], ls[k];
      assert ls == before + [l];
      BlocksSnoc(before, l);
      ThreePerNode(before);
      OtherBlocks(before, l);
      assert |l.Parts()| == 3 by {
        assert l.Parts() == {l.node} + {l.buf} + {l.data};
      }
    }
  }

  // A chain of n >= 1 nodes keeps 3n - 1 slab blocks: its head is not one.
  lemma BlocksOfChain(head: Chain, ls: seq<Link>)
    requires Apart(ls) && ls != [] && ls[0].node == head
    ensures |Blocks(ls) - {head}| == 3 * |ls| - 1
  {
    ThreePerNode(ls);
    PartsInBlocks(ls, 0);
    assert Blocks(ls) == (Blocks(ls) - {head}) + {head};
  }

  // ---------------------------------------------------------------- freeing the old chain

  // How far pos has moved in each buffer.
  ghost function Offsets(ls: seq<Link>): (r: seq<nat>)
    reads Bufs(ls)
    ensures |r| == |ls| && forall i :: 0 <= i < |ls| ==> r[i] == ls[i].buf.pos
  {
    seq(|ls|, i requires 0 <= i < |ls| reads Bufs(ls) => ls[i].buf.pos)
  }

  ghost predicate Placed(st: Store, ls: seq<Link>) { forall l | l in ls :: l.data in st.place }

  // The three frees of a node whose pos is at off; the head itself is not freed.
  ghost function FreeLink(st: Store, head: Chain, l: Link, off: nat): (r: Store)
    requires l.data in st.place
    ensures r.place == st.place
  {
    var bare := st.FreeAt(st.place[l.data].from + off).Free(l.buf);
    if l.node == head then bare else bare.Free(l.node)
  }

  ghost function FreeLinks(st: Store, head: Chain, ls: seq<Link>, offs: seq<nat>): (r: Store)
    requires Placed(st, ls) && |offs| == |ls|
    ensures r.place == st.place
  {
    if ls == [] then st
    else
      var n := |ls| - 1;
      FreeLink(FreeLinks(st, head, ls[..n], offs[..n]), head, ls[n], offs[n])
  }

  // Block b is a node or a buffer of the chain, or starts where some pos points.
  ghost predicate Dropped(st: Store, ls: seq<Link>, offs: seq<nat>, b: object)
    requires |offs| == |ls| && Placed(st, ls) && b in st.place
  {
    exists i :: 0 <= i < |ls| && DroppedAt(st, ls[i], offs[i], b)
  }

  ghost predicate DroppedAt(st: Store, l: Link, off: nat, b: object)
    requires l.data in st.place && b in st.place
  {
    b == l.node || b == l.buf || st.place[b].from == st.place[l.data].from + off
  }

  lemma DroppedSnoc(st: Store, ls: seq<Link>, offs: seq<nat>, n: nat, b: object)
    requires |offs| == |ls| == n + 1 && Placed(st, ls) && b in st.place
    ensures Dropped(st, ls, offs, b) <==> Dropped(st, ls[..n], offs[..n], b) || DroppedAt(st, ls[n], offs[n], b)
  {
    if i :| 0 <= i < n && DroppedAt(st, ls[i], offs[i], b) {
      assert DroppedAt(st, ls[..n][i], offs[..n][i], b);
    }
  }

  lemma LinkDrops(st: Store, head: Chain, l: Link, off: nat, b: object)
    requires l.data in st.place && head !in st.live && b in st.place
    ensures b in FreeLink(st, head, l, off).live <==> b in st.live && !DroppedAt(st, l, off, b)
  {
  }

  // These and no others are gone when a chain was freed.
  lemma {:induction false} StaysLiveIff(st: Store, head: Chain, ls: seq<Link>, offs: seq<nat>, b: object)
    requires Placed(st, ls) && |offs| == |ls| && head !in st.live && b in st.place
    ensures b in FreeLinks(st, head, ls, offs).live <==> b in st.live && !Dropped(st, ls, offs, b)
  {
    if ls != [] {
      var n := |ls| - 1;
      StaysLiveIff(st, head, ls[..n], offs[..n], b);
      NothingNew(st, head, ls[..n], offs[..n]);
      LinkDrops(FreeLinks(st, head, ls[..n], offs[..n]), head, ls[n], offs[n], b);
      DroppedSnoc(st, ls, offs, n, b);
    }
  }

  lemma {:induction false} NothingNew(st: Store, head: Chain, ls: seq<Link>, offs: seq<nat>)
    requires Placed(st, ls) && |offs| == |ls|
    ensures FreeLinks(st, head, ls, offs).live <= st.live
  {
    if ls != [] {
      NothingNew(st, head, ls[..|ls| - 1], offs[..|ls| - 1]);
    }
  }

  lemma LinkFreedWhole(st: Store, head: Chain, l: Link)
    requires st.Valid() && l.Parts() - {head} <= st.live && head !in st.live
    ensures l.data in st.place && FreeLink(st, head, l, 0) == st.(live := st.live - l.Parts())
  {
    st.Hits(l.data, 0);
  }

  // What becomes of block b when a chain of one buffer is freed whose pos has moved by off: the
  // data is left behind unless off is zero, and the block directly behind it is freed in its stead
  // if off is all the room that the data has.
  ghost predicate Survives(st: Store, l: Link, off: nat, b: object)
    requires l.data in st.place && b in st.place
  {
    var r := st.place[l.data];
    b != l.buf && (if b == l.data then off > 0 else !(off == r.to - r.from && st.place[b].from == r.to))
  }

  lemma OneBufferFreed(st: Store, l: Link, off: nat, b: object)
    requires st.Valid() && {l.buf, l.data} <= st.live && l.node !in st.live && b in st.live
    requires off <= st.place[l.data].to - st.place[l.data].from
    ensures b in FreeLinks(st, l.node, [l], [off]).live <==> Survives(st, l, off, b)
  {
    StaysLiveIff(st, l.node, [l], [off], b);
    assert Dropped(st, [l], [off], b) <==> DroppedAt(st, l, off, b);
    st.Hits(l.data, off);
    assert b in st.At(st.place[l.data].from + off) <==> st.place[b].from == st.place[l.data].from + off;
  }

  lemma OneBufferReplaced(st: Store, l: Link, offs: seq<nat>, off: nat, made: set<object>, live: set<object>)
    requires st.Valid() && {l.buf, l.data} <= st.live && l.node !in st.live && made !! st.live
    requires offs == [off] && off <= st.place[l.data].to - st.place[l.data].from
    requires live == FreeLinks(st, l.node, [l], offs).live + made
    ensures forall b | b in st.live :: b in live <==> Survives(st, l, off, b)
  {
    forall b | b in st.live ensures b in live <==> Survives(st, l, off, b) {
      OneBufferFreed(st, l, off, b);
    }
  }

  // No pos has moved, and all blocks of the chain but its head are live.
  ghost predicate Whole(st: Store, head: Chain, ls: seq<Link>, offs: seq<nat>) {
    && st.Valid() && Apart(ls) && (ls != [] ==> ls[0].node == head) && Placed(st, ls) && |offs| == |ls|
    && Blocks(ls) - {head} <= st.live && head !in st.live
    && forall i :: 0 <= i < |ls| ==> offs[i] == 0
  }

  lemma WholeBefore(st: Store, head: Chain, ls: seq<Link>, offs: seq<nat>, n: nat)
    requires Whole(st, head, ls, offs) && |ls| == n + 1
    ensures Whole(st, head, ls[..n], offs[..n])
    ensures ls[n].Parts() - {head} <= st.live - Blocks(ls[..n])
    ensures Blocks(ls) == Blocks(ls[..n]) + ls[n].Parts()
  {
    OtherBlocks(ls[..n], ls[n]);
  }

  // The frees of one more node, where the blocks `gone` are freed already.
  lemma WholeStep(st: Store, head: Chain, gone: set<object>, l: Link) returns (r: Store)
    requires st.Valid() && head !in st.live && l.Parts() - {head} <= st.live - gone
    ensures l.data in st.place
    ensures FreeLink(st.(live := st.live - (gone - {head})), head, l, 0) == r
    ensures r == st.(live := st.live - (gone + l.Parts() - {head}))
  {
    r := st.(live := st.live - (gone - {head}));
    LinkFreedWhole(r, head, l);
    r := r.(live := r.live - l.Parts());
    assert r.live == st.live - (gone + l.Parts() - {head});
  }

  // Where no pos has moved, all blocks of the chain but its head are freed, each by a call of its
  // own, and nothing else is.
  lemma {:induction false} FreedWhole(st: Store, head: Chain, ls: seq<Link>, offs: seq<nat>) returns (r: Store)
    requires Whole(st, head, ls, offs)
    ensures r == FreeLinks(st, head, ls, offs) == st.(live := st.live - (Blocks(ls) - {head}))
  {
    if ls == [] {
      r := st;
      assert st.live - ({} - {head}) == st.live;
    } else {
      var n := |ls| - 1;
      WholeBefore(st, head, ls, offs, n);
      r := FreedWhole(st, head, ls[..n], offs[..n]);
      r := WholeStep(st, head, Blocks(ls[..n]), ls[n]);
    }
  }

  // From node i on the chain is as it was.
  ghost predicate Left(head: Chain, was: seq<Link>, offs: seq<nat>, i: nat, cur: Chain?)
    reads Nodes(was), Bufs(was)
  {
    && Apart(was) && (forall j :: 0 <= j < |was| ==> InOrder(was, j, null))
    && (was != [] ==> was[0].node == head && i > 0)
    && offs == Offsets(was)
    && i <= |was| && cur == NodeAt(was, i, null)
    && (forall j :: i <= j < |was| ==> was[j].Sound())
  }

  lemma NoneLeft(head: Chain, was: seq<Link>, offs: seq<nat>, i: nat)
    requires Left(head, was, offs, i, null)
    ensures i == |was|
  {
  }

  // The nodes before i are freed.
  ghost predicate FreedTo(now: Store, st: Store, head: Chain, was: seq<Link>, offs: seq<nat>, i: nat) {
    && i <= |was| == |offs| && Placed(st, was)
    && now == FreeLinks(st, head, was[..i], offs[..i])
  }

  lemma FreedNone(st: Store, head: Chain, was: seq<Link>, offs: seq<nat>)
    requires Placed(st, was) && |offs| == |was|
    ensures FreedTo(st, st, head, was, offs, 0)
  {
  }

  lemma FreedOne(now: Store, st: Store, head: Chain, was: seq<Link>, offs: seq<nat>, i: nat)
    requires FreedTo(now, st, head, was, offs, i) && i < |was|
    ensures now.place == st.place && was[i].data in st.place
    ensures FreedTo(FreeLink(now, head, was[i], offs[i]), st, head, was, offs, i + 1)
  {
    assert was[..i + 1][..i] == was[..i] && offs[..i + 1][..i] == offs[..i];
  }

  lemma FreedAll(now: Store, st: Store, head: Chain, was: seq<Link>, offs: seq<nat>, i: nat)
    requires FreedTo(now, st, head, was, offs, i) && i == |was|
    ensures now == FreeLinks(st, head, was, offs)
  {
    assert was[..i] == was && offs[..i] == offs;
  }

  // The data and the buffer of a node.
  method FreeBuf(pool: Slab, node: Chain, ghost l: Link)
    requires l.node == node && l.Sound() && l.data in pool.place
    modifies pool`live, pool`misses, node`buf
    ensures node.buf == null
    ensures pool.View() == old(pool.View().FreeAt(pool.place[l.data].from + l.buf.pos).Free(l.buf))
  {
    pool.FreeData(node.buf);
    pool.Free(node.buf);
    node.buf := null;
  }

  method FreeNode(pool: Slab, node: Chain, ghost head: Chain, ghost l: Link)
    requires l.node == node != head && l.Sound() && l.data in pool.place
    modifies pool`live, pool`misses, node`buf
    ensures pool.View() == old(FreeLink(pool.View(), head, l, l.buf.pos))
  {
    FreeBuf(pool, node, l);
    pool.Free(node);
  }

  // One turn of the loop over the nodes behind the head.
  method FreeNext(pool: Slab, cur: Chain, ghost st: Store, ghost head: Chain, ghost was: seq<Link>,
                  ghost offs: seq<nat>, ghost i: nat)
    returns (next: Chain?)
    requires Left(head, was, offs, i, cur) && FreedTo(pool.View(), st, head, was, offs, i)
    modifies pool`live, pool`misses, cur`buf
    ensures i < |was| && cur != head
    ensures Left(head, was, offs, i + 1, next) && FreedTo(pool.View(), st, head, was, offs, i + 1)
  {
    assert InOrder(was, i, null) && was[0].Apart(was[i]);
    next := cur.next;
    FreedOne(pool.View(), st, head, was, offs, i);
    FreeNode(pool, cur, head, was[i]);
  }

  // The loop over the nodes behind the head.
  method FreeRest(pool: Slab, head: Chain, ghost st: Store, ghost was: seq<Link>, ghost offs: seq<nat>,
                  ghost from: nat)
    returns (ghost i: nat)
    requires Left(head, was, offs, from, head.next) && FreedTo(pool.View(), st, head, was, offs, from)
    modifies pool`live, pool`misses, Nodes(was)
    ensures head.buf == old(head.buf) && FreedTo(pool.View(), st, head, was, offs, i) && i == |was|
  {
    i := from;
    var cur := head.next;
    while cur != null
      invariant Left(head, was, offs, i, cur) && FreedTo(pool.View(), st, head, was, offs, i)
      invariant head.buf == old(head.buf)
      decreases |was| - i
    {
      cur := FreeNext(pool, cur, st, head, was, offs, i);
      i := i + 1;
    }
    NoneLeft(head, was, offs, i);
  }

  // The head keeps its node.
  method FreeHead(pool: Slab, head: Chain, ghost st: Store, ghost was: seq<Link>, ghost offs: seq<nat>)
    returns (ghost i: nat)
    requires Holds(head, was) && Placed(st, was) && st == pool.View() && offs == Offsets(was)
    modifies pool`live, pool`misses, head`buf
    ensures head.buf == null
    ensures Left(head, was, offs, i, head.next) && FreedTo(pool.View(), st, head, was, offs, i)
  {
    i := 0;
    FreedNone(st, head, was, offs);
    if head.buf != null {
      assert InOrder(was, 0, null);
      FreedOne(st, st, head, was, offs, 0);
      FreeBuf(pool, head, was[0]);
      i := 1;
    }
  }

  // For each node of the chain the block that starts at its pos, its buffer, and the node itself
  // but for the head.
  method FreeChain(pool: Slab, head: Chain, ghost was: seq<Link>)
    requires Holds(head, was) && Placed(pool.View(), was)
    modifies pool`live, pool`misses, head, Nodes(was)
    ensures head.buf == null && head.next == null
    ensures pool.View() == old(FreeLinks(pool.View(), head, was, Offsets(was)))
  {
    ghost var st, offs := pool.View(), Offsets(was);
    ghost var i := FreeHead(pool, head, st, was, offs);
    i := FreeRest(pool, head, st, was, offs, i);
    FreedAll(pool.View(), st, head, was, offs, i);
    head.next := null;
  }

  // ---------------------------------------------------------------- copying the new chain

  // l carries the segment g in storage that fits exactly.
  ghost predicate Carries(l: Link, g: Segment)
    reads l.node, l.buf, l.data
  {
    l.Holding(g) && l.Tight()
  }

  // A fresh block with the bytes between pos and last.
  method CopyData(pool: Slab, from: Buf) returns (d: array<byte>)
    requires from.start != null && from.pos <= from.last <= from.start.Length
    modifies pool
    ensures fresh(d) && pool.Since(old(pool.View()), {d}) && d[..] == from.start[from.pos..from.last]
  {
    var size := from.last - from.pos;
    d := pool.AllocData(size);
    forall i | 0 <= i < size {
      d[i] := from.start[from.pos + i];
    }
    assert forall i :: 0 <= i < size ==> d[i] == from.start[from.pos + i];
  }

  // A fresh buffer for node `to`, with a fresh copy of the bytes between pos and last.
  method CopyBuf(pool: Slab, to: Chain, from: Buf) returns (ghost data: array<byte>)
    requires from.start != null && from.pos <= from.last <= from.start.Length
    modifies pool, to`buf
    ensures to.buf != null && fresh(to.buf) && fresh(data) && pool.Since(old(pool.View()), {to.buf, data})
    ensures Carries(Link(to, to.buf, data, to.next), Segment(from.start[from.pos..from.last], from.rest))
  {
    var size := from.last - from.pos;
    var b := pool.AllocBuf();
    to.buf := b;
    b.start, b.pos, b.last, b.end, b.rest := from.start, from.pos, from.last, from.end, from.rest;
    var d := CopyData(pool, from);
    b.start, b.pos := d, 0;
    b.last, b.end := size, size;
    data := d;
    assert d[..] == d[0..size];
  }

  // One turn of the loop: node `to` is filled from the source node s, and the node that comes
  // next is made unless the source ends there.
  method CopyNode(pool: Slab, to: Chain, from: Chain, ghost s: Link, ghost g: Segment)
    returns (next: Chain?, ghost l: Link)
    requires s.Holding(g) && s.node == from && to != s.node
    modifies pool, to
    ensures l.node == to && l.next == next && fresh({l.buf, l.data})
    ensures next == null <==> s.next == null
    ensures next != null ==> fresh(next)
    ensures pool.Since(old(pool.View()), {l.buf, l.data} + Optional(next))
    ensures Carries(l, g)
  {
    ghost var data := CopyBuf(pool, to, from.buf);
    if from.next == null {
      next := null;
    } else {
      next := pool.AllocChain();
    }
    to.next := next;
    l := Link(to, to.buf, data, next);
  }

  lemma NodesStep(now: seq<Link>, l: Link)
    requires (forall i :: 0 <= i < |now| ==> InOrder(now, i, l.node)) && Apart(now)
    requires forall i :: 0 <= i < |now| ==> now[i].Apart(l)
    ensures Apart(now + [l]) && forall i :: 0 <= i < |now + [l]| ==> InOrder(now + [l], i, l.next)
    ensures Blocks(now + [l]) == Blocks(now) + l.Parts()
  {
    BlocksSnoc(now, l);
    var all := now + [l];
    forall i | 0 <= i < |all| ensures InOrder(all, i, l.next) {
      if i < |now| {
        assert InOrder(now, i, l.node);
      }
    }
  }

  lemma MadeStep(head: Chain, blocks: set<object>, l: Link)
    requires l.next != null ==> l.next != head
    ensures ((blocks + Optional(l.node)) - {head}) + {l.buf, l.data} + Optional(l.next)
         == (blocks + l.Parts()) + Optional(l.next) - {head}
  {
  }

  // `now` carries the first segments of `want`, ss still holds all of them, and no node of
  // either is `to`, the node to be filled next.
  ghost predicate Copied(ss: seq<Link>, want: seq<Segment>, now: seq<Link>)
    reads Nodes(ss), Bufs(ss), Datas(ss), Nodes(now), Bufs(now), Datas(now)
  {
    && |now| <= |ss| == |want|
    && (forall i :: 0 <= i < |ss| ==> ss[i].Holding(want[i]))
    && (forall i :: 0 <= i < |now| ==> Carries(now[i], want[i]))
  }

  ghost predicate Unused(to: Chain?, ls: seq<Link>) {
    forall l | l in ls :: l.node != to
  }

  method CopyStep(pool: Slab, to: Chain, from: Chain, ghost ss: seq<Link>, ghost want: seq<Segment>,
                  ghost now: seq<Link>)
    returns (next: Chain?, ghost l: Link, ghost taken: set<object>)
    requires Copied(ss, want, now) && |now| < |ss| && from == ss[|now|].node && Unused(to, ss) && Unused(to, now)
    modifies pool, to
    ensures l.node == to && l.next == next && taken == {l.buf, l.data} + Optional(next) && fresh(taken)
    ensures next == null <==> ss[|now|].next == null
    ensures pool.Since(old(pool.View()), taken)
    ensures Copied(ss, want, now + [l]) && forall i :: 0 <= i < |now| ==> now[i].Apart(l)
    ensures next != null ==> Unused(next, ss) && Unused(next, now + [l])
  {
    next, l := CopyNode(pool, to, from, ss[|now|], want[|now|]);
    taken := {l.buf, l.data} + Optional(next);
    assert forall i :: 0 <= i < |now| ==> Carries(now[i], want[i]);
  }

  // The nodes of `now`, from head on, with `to` behind them; `made` are the slab blocks of both.
  ghost predicate Row(head: Chain, now: seq<Link>, to: Chain?, made: set<object>) {
    && Apart(now)
    && (forall i :: 0 <= i < |now| ==> InOrder(now, i, to))
    && NodeAt(now, 0, to) == head
    && made == (Blocks(now) + Optional(to)) - {head}
  }

  lemma RowStep(head: Chain, now: seq<Link>, l: Link, made: set<object>, taken: set<object>)
    requires taken == {l.buf, l.data} + Optional(l.next)
    requires Row(head, now, l.node, made) && (forall i :: 0 <= i < |now| ==> now[i].Apart(l)) && l.next != head
    ensures Row(head, now + [l], l.next, made + taken)
  {
    NodesStep(now, l);
    MadeStep(head, Blocks(now), l);
  }

  // The state of the copying loop: the nodes filled so far, the node to fill next, and the
  // source node to fill it from.
  ghost predicate Filling(head: Chain, ss: seq<Link>, want: seq<Segment>, now: seq<Link>, made: set<object>,
                          to: Chain?, from: Chain)
    reads Nodes(ss), Bufs(ss), Datas(ss), Nodes(now), Bufs(now), Datas(now)
  {
    && Copied(ss, want, now)
    && Row(head, now, to, made)
    && (if to == null then |now| == |ss|
        else |now| < |ss| && from == ss[|now|].node && Unused(to, ss) && Unused(to, now))
  }

  lemma Filled(head: Chain, ss: seq<Link>, want: seq<Segment>, now: seq<Link>, made: set<object>, from: Chain)
    requires Filling(head, ss, want, now, made, null, from)
    ensures |now| == |ss| && Row(head, now, null, made) && Copied(ss, want, now)
  {
  }

  method Turn(pool: Slab, to: Chain, from: Chain, ghost head: Chain, ghost ss: seq<Link>, ghost want: seq<Segment>,
              ghost now: seq<Link>, ghost made: set<object>)
    returns (next: Chain?, source: Chain, ghost l: Link, ghost taken: set<object>)
    requires Filling(head, ss, want, now, made, to, from) && forall i :: 0 <= i < |ss| ==> InOrder(ss, i, null)
    modifies pool, to
    ensures Filling(head, ss, want, now + [l], made + taken, next, source)
    ensures fresh(taken) && (next != null ==> fresh(next)) && pool.Since(old(pool.View()), taken)
  {
    assert InOrder(ss, |now|, null);
    source := if from.next == null then from else from.next;
    next, l, taken := CopyStep(pool, to, from, ss, want, now);
    RowStep(head, now, l, made, taken);
  }

  // The same with what the loop has by then.
  method TurnNow(pool: Slab, to: Chain, from: Chain, ghost head: Chain, ghost ss: seq<Link>,
                 ghost want: seq<Segment>, ghost now: seq<Link>, ghost made: set<object>, ghost st: Store)
    returns (next: Chain?, source: Chain, ghost now2: seq<Link>, ghost made2: set<object>, ghost more: set<object>)
    requires Filling(head, ss, want, now, made, to, from) && pool.Since(st, made)
    requires forall i :: 0 <= i < |ss| ==> InOrder(ss, i, null)
    modifies pool, to
    ensures Filling(head, ss, want, now2, made2, next, source) && |now| < |now2| <= |ss|
    ensures made2 == made + more && fresh(more) && (next != null ==> fresh(next))
    ensures pool.Since(st, made2)
  {
    ghost var l;
    next, source, l, more := Turn(pool, to, from, head, ss, want, now, made);
    now2, made2 := now + [l], made + more;
  }

  // The copying loop over a source of at least one node.  It leaves behind the last source node,
  // where no next node is made (`to` is null); `want` is what the source holds, and
  // `made` are the blocks taken from the slab.
  method CopyNodes(pool: Slab, head: Chain, src: Chain, ghost ss: seq<Link>, ghost want: seq<Segment>)
    returns (ghost now: seq<Link>, ghost made: set<object>)
    requires Filling(head, ss, want, [], {}, head, src) && forall i :: 0 <= i < |ss| ==> InOrder(ss, i, null)
    modifies pool, head
    ensures |now| == |ss| && Row(head, now, null, made) && Copied(ss, want, now)
    ensures fresh(made) && pool.Since(old(pool.View()), made)
  {
    now, made := [], {};
    ghost var st := pool.View();
    var to: Chain?, from: Chain := head, src;
    while to != null
      invariant Filling(head, ss, want, now, made, to, from)
      invariant to == null || to == head || fresh(to)
      invariant fresh(made) && pool.Since(st, made)
      decreases |ss| - |now|
    {
      ghost var more;
      to, from, now, made, more := TurnNow(pool, to, from, head, ss, want, now, made, st);
    }
    Filled(head, ss, want, now, made, from);
  }

  // ---------------------------------------------------------------- the whole operation

  // What the buffers of a source carry.
  ghost predicate HoldAll(ss: seq<Link>, want: seq<Segment>)
    reads Nodes(ss), Bufs(ss), Datas(ss)
  {
    |want| == |ss| && forall i :: 0 <= i < |ss| ==> ss[i].Holding(want[i])
  }

  method CopyChain(pool: Slab, head: Chain, src: Chain?, ghost ss: seq<Link>, ghost want: seq<Segment>)
    returns (ghost now: seq<Link>, ghost made: set<object>)
    requires head.buf == null && head.next == null
    requires Source(src, ss) && HoldAll(ss, want) && head !in Nodes(ss)
    modifies pool, head
    ensures Holds(head, now) && Copied(ss, want, now) && |now| == |ss| && made == Blocks(now) - {head}
    ensures fresh(made) && pool.Since(old(pool.View()), made)
  {
    now, made := [], {};
    if src != null && src.buf != null {
      now, made := CopyNodes(pool, head, src, ss, want);
    }
  }

  // The slab blocks of a chain of n nodes: a buffer and data for each, and all nodes but the head.
  function BlockCount(n: nat): nat { if n == 0 then 0 else 3 * n - 1 }

  lemma CountOfChain(head: Chain, ls: seq<Link>)
    requires Apart(ls) && (ls != [] ==> ls[0].node == head)
    ensures |Blocks(ls) - {head}| == BlockCount(|ls|)
  {
    if ls != [] {
      BlocksOfChain(head, ls);
    }
  }

  lemma Balance(live: set<object>, freed: set<object>, made: set<object>)
    requires freed <= live && made !! live
    ensures |live - freed + made| == |live| - |freed| + |made|
  {
    assert live == (live - freed) + freed;
  }

  // Replacing a whole chain changes the number of live blocks by the difference of the two.
  lemma ReplacedWhole(st: Store, head: Chain, was: seq<Link>, offs: seq<nat>, now: seq<Link>, made: set<object>,
                      live: set<object>)
    requires Whole(st, head, was, offs) && made !! st.live && made == Blocks(now) - {head}
    requires Apart(now) && (now != [] ==> now[0].node == head)
    requires live == FreeLinks(st, head, was, offs).live + made
    ensures live == st.live - (Blocks(was) - {head}) + made
    ensures FreeLinks(st, head, was, offs).misses == st.misses
    ensures |live| == |st.live| - BlockCount(|was|) + BlockCount(|now|)
  {
    var _ := FreedWhole(st, head, was, offs);
    CountOfChain(head, was);
    CountOfChain(head, now);
    Balance(st.live, Blocks(was) - {head}, made);
  }

  method Replace(pool: Slab, head: Chain, src: Chain?, ghost st: Store, ghost was: seq<Link>, ghost offs: seq<nat>,
                 ghost ss: seq<Link>, ghost want: seq<Segment>)
    returns (ghost now: seq<Link>, ghost made: set<object>)
    requires Holds(head, was) && Placed(st, was) && st == pool.View() && offs == Offsets(was)
    requires Source(src, ss) && HoldAll(ss, want)
    requires Nodes(ss) !! Nodes(was) + {head} && Bufs(ss) !! Bufs(was) && Datas(ss) !! Datas(was)
    modifies pool, head, Nodes(was)
    ensures Holds(head, now) && Copied(ss, want, now) && |now| == |ss|
    ensures fresh(made) && made == Blocks(now) - {head}
    ensures pool.Since(FreeLinks(st, head, was, offs), made)
  {
    FreeChain(pool, head, was);
    assert Source(src, ss) && HoldAll(ss, want);
    now, made := CopyChain(pool, head, src, ss, want);
  }

  // The chain at `head` becomes a copy of the one at `src`, segment by segment, in fresh storage
  // that fits exactly; the source keeps what it holds; the old chain is freed by the pos of its
  // buffers, and the blocks of the new one are all that was taken.
  method SetBufs(pool: Slab, head: Chain, src: Chain?, ghost was: seq<Link>, ghost ss: seq<Link>,
                 ghost want: seq<Segment>)
    returns (ghost now: seq<Link>, ghost made: set<object>)
    requires Holds(head, was) && Placed(pool.View(), was)
    requires Source(src, ss) && HoldAll(ss, want)
    requires Nodes(ss) !! Nodes(was) + {head} && Bufs(ss) !! Bufs(was) && Datas(ss) !! Datas(was)
    modifies pool, head, Nodes(was)
    ensures Holds(head, now) && |now| == |ss| && forall i :: 0 <= i < |ss| ==> Carries(now[i], want[i])
    ensures HoldAll(ss, want)
    ensures fresh(made) && made == Blocks(now) - {head}
    ensures var st := old(FreeLinks(pool.View(), head, was, Offsets(was)));
      pool.live == st.live + made && pool.misses == st.misses
    ensures old(Whole(pool.View(), head, was, Offsets(was))) ==> (
      && pool.live == old(pool.live) - (Blocks(was) - {head}) + made && pool.misses == old(pool.misses)
      && |pool.live| == |old(pool.live)| - BlockCount(|was|) + BlockCount(|now|))
  {
    ghost var st, offs := pool.View(), Offsets(was);
    now, made := Replace(pool, head, src, st, was, offs, ss, want);
    if Whole(st, head, was, offs) {
      ReplacedWhole(st, head, was, offs, now, made, pool.live);
    }
  }

  // Replacing a chain of one buffer whose pos has moved, as the result of a sub-request replaces a
  // request that was parsed (`Readers.ReadAndGiveBack` says where pos is then).
  method ReplaceRead(pool: Slab, l: Link, src: Chain?, ghost st: Store, ghost ss: seq<Link>,
                     ghost want: seq<Segment>)
    returns (ghost now: seq<Link>, ghost made: set<object>)
    requires l.Sound() && l.next == null && st == pool.View()
    requires st.Valid() && {l.buf, l.data} <= st.live && l.node !in st.live
    requires l.buf.pos <= st.place[l.data].to - st.place[l.data].from
    requires Source(src, ss) && HoldAll(ss, want) && l.node !in Nodes(ss) && l.buf !in Bufs(ss) && l.data !in Datas(ss)
    modifies pool, l.node
    ensures Holds(l.node, now) && Copied(ss, want, now) && |now| == |ss|
    ensures fresh(made) && made == Blocks(now) - {l.node}
    ensures forall b | b in st.live :: b in pool.live <==> Survives(st, l, old(l.buf.pos), b)
  {
    ghost var offs, off := Offsets([l]), l.buf.pos;
    now, made := Replace(pool, l.node, src, st, [l], offs, ss, want);
    OneBufferReplaced(st, l, offs, off, made, pool.live);
  }
}
