/**
 The mailbox, the eventfd and the idle ring as objects in the heap.  `world` is the shared
 memory: a set of links that no pointer leaves.  Every method is tied to the pure pointer
 writes of `Links` on the whole of that memory, whether it is well formed or not.
 */
module Notify {
  import opened Eventfd
  import opened Options
  import opened Links

  // ngx_queue_t
  class Link {
    var next: Link
    var prev: Link

    // ngx_queue_init
    constructor ()
      ensures next == this && prev == this
    {
      next, prev := this, this;
    }

    // this->next = other
    method SetNext(ghost world: set<Link>, other: Link)
      requires World(world) && this in world && other in world
      modifies this`next
      ensures World(world)
      ensures Memory(world) == WriteNext(old(Memory(world)), this, other)
    {
      next := other;
    }

    // this->prev = other
    method SetPrev(ghost world: set<Link>, other: Link)
      requires World(world) && this in world && other in world
      modifies this`prev
      ensures World(world)
      ensures Memory(world) == WritePrev(old(Memory(world)), this, other)
    {
      prev := other;
    }
  }

  ghost predicate World(world: set<Link>)
    reads world
  {
    && (forall l {:trigger l.next} | l in world :: l.next in world)
    && (forall l {:trigger l.prev} | l in world :: l.prev in world)
  }

  ghost function Memory(world: set<Link>): Shape<Link>
    reads world
  {
    Shape(map l | l in world :: l.next, map l | l in world :: l.prev)
  }

  ghost function WriteNext(s: Shape<Link>, a: Link, b: Link): Shape<Link> {
    Shape(s.next[a := b], s.prev)
  }

  ghost function WritePrev(s: Shape<Link>, a: Link, b: Link): Shape<Link> {
    Shape(s.next, s.prev[a := b])
  }

  // The memory after a drain of the ring at `h` that takes `n` nodes.
  ghost function Drained<N>(s: Shape<N>, h: N, n: nat): (r: Shape<N>)
    ensures s.next.Keys <= r.next.Keys && s.prev.Keys <= r.prev.Keys
    decreases n
  {
    if n == 0 || !Poppable(s, h) then s else Drained(RemoveFirst(s, h).0, h, n - 1)
  }

  lemma {:induction false} DrainedRing<N>(s: Shape<N>, h: N, xs: seq<N>)
    requires Ring(s, h, xs)
    ensures Ring(Drained(s, h, |xs|), h, [])
    decreases |xs|
  {
    if xs != [] {
      RemoveFirstRing(s, h, xs);
      DrainedRing(RemoveFirst(s, h).0, h, xs[1..]);
    }
  }

  lemma {:induction false} DrainedElsewhere<N>(s: Shape<N>, h: N, xs: seq<N>, g: N, ys: seq<N>)
    requires Ring(s, h, xs) && Ring(s, g, ys) && Apart(h, xs, g, ys)
    ensures Ring(Drained(s, h, |xs|), g, ys)
    decreases |xs|
  {
    if xs != [] {
      RemoveFirstRing(s, h, xs);
      RemoveFirstElsewhere(s, h, xs, g, ys);
      DrainedElsewhere(RemoveFirst(s, h).0, h, xs[1..], g, ys);
    }
  }

  // ngx_rpc_notify_t
  class Notification {
    const queueHead: Link
    const idles: Link
    var eventFd: nat

    constructor ()
      ensures fresh(queueHead) && fresh(idles) && queueHead != idles
      ensures queueHead.next == queueHead && queueHead.prev == queueHead
      ensures idles.next == idles && idles.prev == idles
      ensures eventFd == 0
    {
      queueHead := new Link();
      idles := new Link();
      eventFd := 0;
    }

    // eventfd_write(fd, 1)
    method EventWrite()
      modifies this
      ensures eventFd == Bump(old(eventFd))
    {
      eventFd := Bump(eventFd);
    }

    // read(fd) returns the number of bytes read and zeroes the counter, or fails at zero.
    method EventRead() returns (ret: int)
      modifies this
      ensures eventFd == 0
      ensures ret > 0 <==> old(eventFd) > 0
    {
      if eventFd > 0 {
        eventFd := 0;
        ret := 8;
      } else {
        ret := -1;
      }
    }

    // The locked region of ngx_rpc_notify_push_task.
    method LinkTask(ghost world: set<Link>, node: Link)
      requires World(world) && queueHead in world && node in world
      modifies world
      ensures World(world)
      ensures Memory(world) == Append(old(Memory(world)), queueHead, node)
    {
      node.SetPrev(world, queueHead.prev);
      queueHead.SetPrev(world, node);
      node.prev.SetNext(world, node);
      node.SetNext(world, queueHead);
    }

    // ngx_rpc_notify_push_task: the eventfd is written after the lock is released.
    method PushTask(ghost world: set<Link>, node: Link)
      requires World(world) && queueHead in world && node in world
      modifies this, world
      ensures World(world)
      ensures Memory(world) == Append(old(Memory(world)), queueHead, node)
      ensures eventFd == Bump(old(eventFd))
    {
      LinkTask(world, node);
      EventWrite();
    }

    // ngx_rpc_notify_pop_task
    method PopTask(ghost world: set<Link>) returns (node: Option<Link>)
      requires World(world) && queueHead in world
      modifies world
      ensures World(world)
      ensures Poppable(old(Memory(world)), queueHead)
      ensures (Memory(world), node) == RemoveFirst(old(Memory(world)), queueHead)
    {
      if queueHead.prev == queueHead {
        node := None;
      } else {
        node := Some(queueHead.next);
        queueHead.SetNext(world, queueHead.next.next);
        queueHead.next.SetPrev(world, queueHead);
      }
    }
  }

  // ngx_rpc_queue_t
  class Queue {
    const idles: Link

    constructor ()
      ensures fresh(idles) && idles.next == idles && idles.prev == idles
    {
      idles := new Link();
    }

    // The locked region of ngx_rpc_queue_push_and_notify.
    method TakeIdle(ghost world: set<Link>) returns (node: Option<Link>)
      requires World(world) && idles in world
      modifies world
      ensures World(world)
      ensures Poppable(old(Memory(world)), idles)
      ensures (Memory(world), node) == RemoveFirst(old(Memory(world)), idles)
    {
      node := None;
      if idles.prev != idles {
        var first := idles.next;
        node := Some(first);
        idles.SetNext(world, first.next);
        first.next.SetPrev(world, idles);
      }
    }

    // The locked region of ngx_proc_rpc_process_one_cycle.
    method Park(ghost world: set<Link>, worker: Link)
      requires World(world) && idles in world && worker in world
      modifies world
      ensures World(world)
      ensures Memory(world) == InsertFirst(old(Memory(world)), idles, worker)
    {
      worker.SetNext(world, idles.next);
      worker.next.SetPrev(world, worker);
      worker.SetPrev(world, idles);
      idles.SetNext(world, worker);
    }
  }

  // The loop of ngx_proc_rpc_process_one_cycle and of ngx_http_rpc_process_notify_task:
  // without interference every waiting task is handled once, oldest first.
  method Drain(notify: Notification, ghost world: set<Link>, ghost mail: seq<Link>) returns (ran: seq<Link>)
    requires World(world) && notify.queueHead in world
    requires Ring(Memory(world), notify.queueHead, mail)
    modifies world
    ensures World(world)
    ensures ran == mail
    ensures Memory(world) == Drained(old(Memory(world)), notify.queueHead, |mail|)
  {
    var h := notify.queueHead;
    ghost var goal := Drained(Memory(world), h, |mail|);
    ghost var rest := mail;
    ran := [];
    RemoveFirstRing(Memory(world), h, rest);
    var node := notify.PopTask(world);
    while node.Some?
      invariant World(world)
      invariant mail == ran + rest
      invariant node.None? ==> rest == [] && Memory(world) == goal
      invariant node.Some? ==> rest != [] && node.value == rest[0] && Ring(Memory(world), h, rest[1..])
      invariant node.Some? ==> Drained(Memory(world), h, |rest| - 1) == goal
      decreases |rest|
    {
      ran, rest := ran + [node.value], rest[1..];
      RemoveFirstRing(Memory(world), h, rest);
      node := notify.PopTask(world);
    }
  }

  // ngx_proc_rpc_process_one_cycle: drain, then park.
  method OneCycle(notify: Notification, queue: Queue, ghost world: set<Link>, ghost mail: seq<Link>)
    returns (ran: seq<Link>)
    requires World(world) && {notify.queueHead, notify.idles, queue.idles} <= world
    requires Ring(Memory(world), notify.queueHead, mail)
    modifies world
    ensures World(world)
    ensures ran == mail
    ensures queue.idles in Drained(old(Memory(world)), notify.queueHead, |mail|).next
    ensures Memory(world)
         == InsertFirst(Drained(old(Memory(world)), notify.queueHead, |mail|), queue.idles, notify.idles)
  {
    ran := Drain(notify, world, mail);
    queue.Park(world, notify.idles);
  }

  // What one cycle does to the two rings when the worker may already be parked.
  lemma CycleRings<N>(s: Shape<N>, h: N, mail: seq<N>, g: N, idle: seq<N>, w: N)
    requires Ring(s, h, mail) && Ring(s, g, idle) && Apart(h, mail, g, idle)
    requires w != g && w != h && w !in mail
    ensures var d := Drained(s, h, |mail|);
      && g in d.next
      && Ring(InsertFirst(d, g, w), h, [])
      && (w !in idle ==> Ring(InsertFirst(d, g, w), g, [w] + idle))
      && (idle != [] && w == idle[0] ==> LassoInto(InsertFirst(d, g, w), g, {w}))
  {
    var d := Drained(s, h, |mail|);
    DrainedRing(s, h, mail);
    DrainedElsewhere(s, h, mail, g, idle);
    EmptyTests(d, g, idle);
    SameNodes(d, InsertFirst(d, g, w), g, [w] + idle, h, []);
    if w !in idle {
      InsertFirstRing(d, g, idle, w);
    } else if w == idle[0] {
      ParkTwice(d, g, idle, 0);
      assert (set i | 0 <= i <= 0 :: idle[i]) == {w};
    }
  }

  // The mailbox ring and the idle ring of one RPC process.
  ghost predicate Rings(notify: Notification, queue: Queue, world: set<Link>, mail: seq<Link>, idle: seq<Link>)
    reads world
  {
    && World(world) && {notify.queueHead, notify.idles, queue.idles} <= world
    && Ring(Memory(world), notify.queueHead, mail) && Ring(Memory(world), queue.idles, idle)
    && Apart(notify.queueHead, mail, queue.idles, idle)
    && notify.idles != queue.idles && notify.idles != notify.queueHead && notify.idles !in mail
  }

  // One turn of the loop of ngx_rpc_notify_read_handler: the result of the read is only
  // looked at after the handler has run.
  method ReadOnce(notify: Notification, queue: Queue, ghost world: set<Link>, ghost mail: seq<Link>,
                  ghost idle: seq<Link>)
    returns (ret: int, ran: seq<Link>)
    requires Rings(notify, queue, world, mail, idle)
    modifies notify, world
    ensures ret > 0 <==> old(notify.eventFd) > 0
    ensures notify.eventFd == 0 && ran == mail
    ensures notify.idles !in idle ==> Rings(notify, queue, world, [], [notify.idles] + idle)
    ensures idle != [] && notify.idles == idle[0] ==> LassoInto(Memory(world), queue.idles, {notify.idles})
  {
    CycleRings(Memory(world), notify.queueHead, mail, queue.idles, idle, notify.idles);
    ret := notify.EventRead();
    ran := OneCycle(notify, queue, world, mail);
  }

  // ngx_rpc_notify_read_handler of an RPC process, run without interference.  A wake-up
  // that finds a pending signal runs the handler twice, so the worker, not parked before,
  // ends up parked twice and the idle ring loses its head.
  method ReadHandler(notify: Notification, queue: Queue, ghost world: set<Link>, ghost mail: seq<Link>,
                     ghost idle: seq<Link>)
    returns (ran: seq<Link>)
    requires Rings(notify, queue, world, mail, idle) && notify.idles !in idle
    modifies notify, world
    ensures ran == mail && notify.eventFd == 0
    ensures old(notify.eventFd) == 0 ==> Rings(notify, queue, world, [], [notify.idles] + idle)
    ensures old(notify.eventFd) > 0 ==> LassoInto(Memory(world), queue.idles, {notify.idles})
  {
    var signalled := notify.eventFd > 0;
    var ret;
    ret, ran := ReadOnce(notify, queue, world, mail, idle);
    while ret > 0
      invariant ran == mail && notify.eventFd == 0
      invariant ret > 0 ==> signalled
      invariant ret > 0 || !signalled ==> Rings(notify, queue, world, [], [notify.idles] + idle)
      invariant ret <= 0 && signalled ==> LassoInto(Memory(world), queue.idles, {notify.idles})
      decreases ret > 0
    {
      var more;
      ret, more := ReadOnce(notify, queue, world, [], [notify.idles] + idle);
      ran := ran + more;
    }
  }
}
