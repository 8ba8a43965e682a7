/**
 Buffer chains in memory: the structs ngx_chain_t and ngx_buf_t, the slab they are taken from,
 and what it means for nodes to be linked in order.
 */
module Chains {
  import opened Wire

  class Chain {
    var buf: Buf?
    var next: Chain?
  }

  // Offsets into `start`; `rest` stands for the flags and the other fields of ngx_buf_t.
  class Buf {
    var start: array?<byte>
    var pos: nat
    var last: nat
    var end: nat
    var rest: int
  }

  // The addresses that a block takes.
  datatype Range = Range(from: nat, to: nat)

  // What matters of ngx_slab_pool_t: the live blocks, where blocks lie, and how many calls of
  // ngx_slab_free found no live block at their address.
  datatype Store = Store(live: set<object>, place: map<object, Range>, misses: nat) {
    // Live blocks take up some room each, and no two overlap.
    ghost predicate Valid() {
      && live <= place.Keys
      && (forall b | b in live :: place[b].from < place[b].to)
      && (forall a, b | a in live && b in live && a != b :: Beside(a, b))
    }

    ghost predicate Beside(a: object, b: object)
      requires a in place && b in place
    {
      place[a].to <= place[b].from || place[b].to <= place[a].from
    }

    // The live block, if any, that starts at address p.
    ghost function At(p: nat): set<object> { set b | b in live && b in place && place[b].from == p }

    // ngx_slab_free(pool, p) frees the block that starts at p, whichever that is, and nothing
    // otherwise.
    ghost function FreeAt(p: nat): Store {
      this.(live := live - At(p), misses := misses + if At(p) == {} then 1 else 0)
    }

    ghost function Free(b: object): Store {
      this.(live := live - {b}, misses := misses + if b in live then 0 else 1)
    }

    // A pointer to the start of a live block hits that block alone, a pointer into it none, and a
    // pointer to its end none but the block that lies directly behind.
    lemma Hits(b: object, off: nat)
      requires Valid() && b in live && off <= place[b].to - place[b].from
      ensures off == 0 ==> At(place[b].from + off) == {b}
      ensures 0 < off < place[b].to - place[b].from ==> At(place[b].from + off) == {}
      ensures off == place[b].to - place[b].from ==>
        forall c :: c in At(place[b].from + off) <==> c in live && place[c].from == place[b].to
      ensures off > 0 ==> b !in At(place[b].from + off)
    {
      forall c | c in live && c != b ensures Beside(b, c) {}
    }
  }

  // ngx_slab_pool_t
  class Slab {
    ghost var live: set<object>
    ghost var place: map<object, Range>
    ghost var misses: nat
    ghost var top: nat   // no block reaches beyond

    ghost function View(): Store
      reads this
    {
      Store(live, place, misses)
    }

    ghost predicate Valid()
      reads this
    {
      View().Valid() && forall b | b in live :: place[b].to <= top
    }

    // Since st blocks were taken, and nothing was freed.
    ghost predicate Since(st: Store, blocks: set<object>)
      reads this
    {
      live == st.live + blocks && misses == st.misses
    }

    ghost method Enter(block: object, size: nat)
      requires block !in place
      modifies this
      ensures Since(old(View()), {block}) && (old(Valid()) ==> Valid())
      ensures block in place && place[block].from + size <= place[block].to
    {
      var room := if size == 0 then 1 else size;
      live, place, top := live + {block}, place[block := Range(top, top + room)], top + room;
    }

    method AllocChain() returns (c: Chain)
      modifies this
      ensures fresh(c) && Since(old(View()), {c}) && (old(Valid()) ==> Valid())
    {
      c := new Chain;
      Enter(c, 0);
    }

    method AllocBuf() returns (b: Buf)
      modifies this
      ensures fresh(b) && Since(old(View()), {b}) && (old(Valid()) ==> Valid())
    {
      b := new Buf;
      Enter(b, 0);
    }

    method AllocData(size: nat) returns (d: array<byte>)
      modifies this
      ensures fresh(d) && d.Length == size && Since(old(View()), {d}) && (old(Valid()) ==> Valid())
      ensures d in place && place[d].from + size <= place[d].to
    {
      d := new byte[size];
      Enter(d, size);
    }

    method Free(block: object)
      modifies `live, `misses
      ensures View() == old(View()).Free(block)
    {
      live, misses := live - {block}, misses + if block in live then 0 else 1;
    }

    // ngx_slab_free(pool, buf->pos)
    method FreeData(b: Buf)
      requires b.start != null && b.start in place
      modifies `live, `misses
      ensures View() == old(View()).FreeAt(place[b.start].from + b.pos)
    {
      ghost var hit := View().At(place[b.start].from + b.pos);
      live, misses := live - hit, misses + if hit == {} then 1 else 0;
    }
  }

  // What a buffer carries: its bytes and its flags.
  datatype Segment = Segment(bytes: seq<byte>, rest: int)

  // One node of a chain, the blocks it leads to, and the node behind it.
  datatype Link = Link(node: Chain, buf: Buf, data: array<byte>, next: Chain?) {
    ghost function Parts(): set<object> { {node, buf, data} }

    ghost predicate Apart(that: Link) {
      node != that.node && buf != that.buf && data != that.data
    }

    ghost predicate Sound()
      reads node, buf
    {
      && node.buf == buf && node.next == next
      && buf.start == data
      && buf.pos <= buf.last <= data.Length
    }

    ghost function Content(): Segment
      requires Sound()
      reads node, buf, data
    {
      Segment(data[buf.pos..buf.last], buf.rest)
    }

    ghost predicate Holding(g: Segment)
      reads node, buf, data
    {
      Sound() && Content() == g
    }

    ghost predicate Tight()
      reads buf
    {
      buf.pos == 0 && buf.last == buf.end == data.Length
    }
  }

  // No node, buffer or data block occurs twice.
  ghost predicate Apart(ls: seq<Link>) {
    forall i, j :: 0 <= i < j < |ls| ==> ls[i].Apart(ls[j])
  }

  ghost function Nodes(ls: seq<Link>): set<Chain> { set l | l in ls :: l.node }
  ghost function Bufs(ls: seq<Link>): set<Buf> { set l | l in ls :: l.buf }
  ghost function Datas(ls: seq<Link>): set<array<byte>> { set l | l in ls :: l.data }

  ghost function Blocks(ls: seq<Link>): set<object> {
    if ls == [] then {} else Blocks(ls[..|ls| - 1]) + ls[|ls| - 1].Parts()
  }

  ghost function NodeAt(ls: seq<Link>, i: nat, after: Chain?): Chain? {
    if i < |ls| then ls[i].node else after
  }

  ghost predicate InOrder(ls: seq<Link>, i: nat, after: Chain?)
    requires i < |ls|
  {
    ls[i].next == NodeAt(ls, i + 1, after)
  }

  // The nodes of ls, linked in order and followed by `after`.
  ghost predicate Linked(ls: seq<Link>, after: Chain?)
    reads Nodes(ls), Bufs(ls)
  {
    && Apart(ls)
    && (forall i :: 0 <= i < |ls| ==> ls[i].Sound())
    && (forall i :: 0 <= i < |ls| ==> InOrder(ls, i, after))
  }

  ghost function Optional(c: Chain?): set<object> { if c == null then {} else {c} }

  // The chain that starts at the head node; without a buffer it is empty.
  ghost predicate Holds(head: Chain, ls: seq<Link>)
    reads head, Nodes(ls), Bufs(ls)
  {
    if ls == [] then head.buf == null && head.next == null
    else ls[0].node == head && Linked(ls, null)
  }
}
