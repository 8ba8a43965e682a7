/**
 NgxChainBufferReader (ngx_rpc_buffer.cpp): the input stream over the buffers of a task.
 */
module Readers {
  import opened Chains
  import opened Options
  import opened TaskBufs
  import opened Wire

  ghost predicate Readable(b: Buf?)
    reads if b == null then {} else {b}
  {
    b != null ==> b.start != null && b.pos <= b.last <= b.start.Length
  }

  predicate Used(b: Buf)
    reads b
  {
    b.pos == b.last
  }

  // NgxChainBufferReader.  `chain` stays at the first node.
  class Reader {
    var chain: Chain
    var totaly: nat

    constructor (ch: Chain)
      ensures chain == ch && totaly == 0
    {
      chain, totaly := ch, 0;
    }

    // The nodes and buffers that the reader can see.
    ghost function Footprint(): set<object>
      reads this, chain, chain.next
    {
      {this, chain} + Optional(chain.next) + (if chain.buf == null then {} else {chain.buf})
      + (if chain.next == null || chain.next.buf == null then {} else {chain.next.buf})
    }

    ghost predicate Valid()
      reads Footprint()
    {
      Readable(chain.buf) && (chain.next != null ==> Readable(chain.next.buf))
    }

    // The first two buffers are used up.
    predicate Spins()
      reads this, chain, chain.next, chain.buf, if chain.next == null then {} else {chain.next.buf}
    {
      && chain.buf != null && Used(chain.buf)
      && chain.next != null && chain.next.buf != null && Used(chain.next.buf)
    }

    // The buffer that the loop of Next looks at after k turns that end in `continue`.
    ghost function Looks(k: nat): (r: Option<Buf?>)
      reads Footprint()
      ensures r.Some? && r.value != null ==> r.value in Footprint()
    {
      if k == 0 then Some(chain.buf)
      else
        var b := Looks(k - 1);
        if b.Some? && b.value != null && Used(b.value) && chain.next != null then Some(chain.next.buf) else None
    }

    ghost predicate GoesOn(k: nat)
      reads Footprint()
    {
      var b := Looks(k);
      b.Some? && b.value != null && Used(b.value)
    }

    lemma {:induction false} SpinsOn(k: nat)
      requires Spins()
      ensures GoesOn(k) && Looks(k) == Some(if k == 0 then chain.buf else chain.next.buf)
    {
      if k > 0 {
        SpinsOn(k - 1);
      }
    }

    // Next never returns exactly if the first two buffers are used up.
    lemma SpinsForever()
      ensures Spins() <==> forall k: nat :: GoesOn(k)
    {
      if Spins() {
        forall k: nat ensures GoesOn(k) {
          SpinsOn(k);
        }
      } else {
        assert !(GoesOn(0) && GoesOn(1));
      }
    }

    // The buffer that is given out.
    ghost function Target(): Buf?
      reads Footprint()
    {
      if chain.buf == null || !Used(chain.buf) then chain.buf
      else if chain.next == null || chain.next.buf == null || Used(chain.next.buf) then null
      else chain.next.buf
    }

    // The bytes left in the first buffer, or else those of the second, once.
    method Next() returns (data: Option<seq<byte>>)
      requires Valid() && !Spins()
      modifies `totaly, chain.buf, if chain.next == null then null else chain.next.buf
      ensures Valid() && chain.buf == old(chain.buf) && chain.next == old(chain.next)
      ensures old(Target()) == null ==> data == None && unchanged(Footprint())
      ensures var b := old(Target()); b != null ==>
        && b.start == old(b.start) && b.last == old(b.last) && Used(b) && b.rest == old(b.rest)
        && data == Some(b.start[old(b.pos)..b.last]) && totaly == old(totaly) + b.last - old(b.pos)
        && unchanged(Footprint() - {this, b})
    {
      var cur := chain.buf;
      while cur != null
        invariant cur == chain.buf || (chain.next != null && cur == chain.next.buf && Used(chain.buf))
        decreases if cur == null then 0 else if Used(cur) then 2 else 1
      {
        if cur.pos == cur.last {
          if chain.next == null {
            return None;
          }
          cur := chain.next.buf;
        } else {
          data := Some(cur.start[cur.pos..cur.last]);
          totaly := totaly + cur.last - cur.pos;
          cur.pos := cur.last;
          return;
        }
      }
      data := None;
    }

    // Bytes are given back to the first buffer.
    method BackUp(count: nat)
      requires chain.buf != null && count <= chain.buf.pos
      modifies chain.buf
      ensures chain.buf.pos == old(chain.buf.pos) - count
      ensures unchanged(chain.buf`start, chain.buf`last, chain.buf`end, chain.buf`rest)
    {
      chain.buf.pos := chain.buf.pos - count;
    }
  }

  // The first two nodes of a chain at `head`.
  ghost predicate Starts(head: Chain, ls: seq<Link>)
    reads head, Nodes(ls), Bufs(ls)
  {
    if ls == [] then head.buf == null && head.next == null
    else
      && ls[0].node == head && ls[0].Sound()
      && (if |ls| == 1 then head.next == null
          else head.next == ls[1].node && ls[1].Sound() && ls[0].Apart(ls[1]))
  }

  // What is left in the first two buffers.
  ghost function LeftIn(head: Chain, ls: seq<Link>, i: nat): seq<byte>
    requires Starts(head, ls) && i < 2
    reads head, Nodes(ls), Bufs(ls), Datas(ls)
  {
    if i < |ls| then ls[i].Content().bytes else []
  }

  ghost function Front(head: Chain, ls: seq<Link>): seq<byte>
    requires Starts(head, ls)
    reads head, Nodes(ls), Bufs(ls), Datas(ls)
  {
    LeftIn(head, ls, 0) + LeftIn(head, ls, 1)
  }

  lemma ReaderSees(r: Reader, head: Chain, ls: seq<Link>)
    requires Starts(head, ls) && r.chain == head
    ensures r.Valid()
    ensures r.Spins() <==> |ls| > 1 && Front(head, ls) == []
    ensures r.Target() == if LeftIn(head, ls, 0) != [] then ls[0].buf
                          else if LeftIn(head, ls, 1) != [] then ls[1].buf else null
  {
  }

  method NextInFront(r: Reader, head: Chain, ghost ls: seq<Link>) returns (data: Option<seq<byte>>)
    requires Starts(head, ls) && r.chain == head && !r.Spins()
    modifies r`totaly, Bufs(ls)
    ensures Starts(head, ls)
    ensures data.None? ==> |ls| < 2 && old(Front(head, ls)) == [] == Front(head, ls)
    ensures data.Some? ==> data.value != [] && old(Front(head, ls)) == data.value + Front(head, ls)
  {
    ReaderSees(r, head, ls);
    ghost var a, b := LeftIn(head, ls, 0), LeftIn(head, ls, 1);
    data := r.Next();
    if a != [] {
      assert LeftIn(head, ls, 0) == [] && LeftIn(head, ls, 1) == b && data == Some(a);
      NothingInFront(b);
    } else if b != [] {
      assert LeftIn(head, ls, 0) == [] && LeftIn(head, ls, 1) == [] && data == Some(b);
      NothingInFront(b);
    }
  }

  lemma NothingInFront(b: seq<byte>)
    ensures [] + b == b && b + ([] + []) == b
  {
  }

  // Of `whole`, all was given out and the rest is left.
  ghost predicate Gave(head: Chain, ls: seq<Link>, all: seq<byte>, whole: seq<byte>)
    reads head, Nodes(ls), Bufs(ls), Datas(ls)
  {
    Starts(head, ls) && all + Front(head, ls) == whole
  }

  // One more call, which ends the reading unless it gives something.
  method ReadMore(r: Reader, head: Chain, ghost ls: seq<Link>, all: seq<byte>, ghost whole: seq<byte>)
    returns (now: seq<byte>, more: bool, hangs: bool)
    requires Gave(head, ls, all, whole) && r.chain == head
    modifies r`totaly, Bufs(ls)
    ensures Gave(head, ls, now, whole)
    ensures if more then |all| < |now| <= |whole| else now == whole && (hangs <==> |ls| > 1)
  {
    ReaderSees(r, head, ls);
    Rejoined(all, [], []);
    if r.Spins() {
      return all, false, true;
    }
    var data := NextInFront(r, head, ls);
    if data.None? {
      return all, false, false;
    }
    now, more, hangs := all + data.value, true, false;
    Rejoined(all, data.value, Front(head, ls));
  }

  lemma Rejoined(a: seq<byte>, b: seq<byte>, c: seq<byte>)
    ensures a + (b + c) == (a + b) + c && (b + c == [] ==> a + (b + c) == a)
  {
  }

  // Next is called until it returns false or, if `hangs`, would never return: exactly if there
  // is a second buffer.  By then the first two buffers have been given out.
  method ReadOut(head: Chain, ghost ls: seq<Link>) returns (all: seq<byte>, hangs: bool)
    requires Starts(head, ls)
    modifies Bufs(ls)
    ensures hangs <==> |ls| > 1
    ensures Starts(head, ls) && all == old(Front(head, ls)) && Front(head, ls) == []
  {
    var reader := new Reader(head);
    var more := true;
    ghost var whole := Front(head, ls);
    all, hangs := [], false;
    while more
      invariant reader.chain == head && Gave(head, ls, all, whole)
      invariant !more ==> all == whole && (hangs <==> |ls| > 1)
      decreases more, |whole| - |all|
    {
      all, more, hangs := ReadMore(reader, head, ls, all, whole);
    }
  }

  // The parser of a request that was copied into a task gets its bytes and gives back the last
  // `unused` of them, which another reader would get.  Its pos is then at the start exactly if
  // all was given back.
  method ReadAndGiveBack(l: Link, g: Segment, unused: nat) returns (data: Option<seq<byte>>)
    requires Carries(l, g) && l.next == null && unused <= |g.bytes|
    modifies l.buf
    ensures data == if g.bytes == [] then None else Some(g.bytes)
    ensures l.Holding(g.(bytes := g.bytes[|g.bytes| - unused..]))
    ensures l.buf.pos == |g.bytes| - unused
  {
    var reader := new Reader(l.node);
    data := reader.Next();
    if unused > 0 {
      reader.BackUp(unused);
    }
  }
}
