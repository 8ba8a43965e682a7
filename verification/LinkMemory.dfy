/**
 The protocol on the real pointers.  `Protocol` keeps mailboxes and the idle ring as
 sequences; here the same runs drive the `next` and `prev` fields of one shared memory by
 the program's own writes, and the memory is shown to hold those sequences throughout.
 */
module LinkMemory {
  import opened Options
  import opened Links
  import opened Protocol
  import opened ProtocolInv
  import opened ProtocolSteps
  import ProtocolTheorems
  import IdleTokens

  // ---------------------------------------------------------------- mailboxes

  // notify->queue_head of each process, and task->node of each task.
  datatype Node = Head(p: Proc) | TaskNode(t: Task)

  function Nodes(xs: seq<Task>): (ns: seq<Node>)
    ensures |ns| == |xs|
  {
    seq(|xs|, i requires 0 <= i < |xs| => TaskNode(xs[i]))
  }

  // ngx_rpc_notify_create: every mailbox starts as an empty ring.
  function MailInit(cfg: Config): Shape<Node> {
    var heads := set p | p in cfg.http + cfg.rpc :: Head(p);
    Shape(map n | n in heads :: n, map n | n in heads :: n)
  }

  // What a step of the protocol does to the links.
  function MailStep(s: State, a: Action, m: Shape<Node>): Shape<Node> {
    match a
    case Submit(p, t, r) => InitNode(m, TaskNode(t))
    case LinkNode(p) =>
      if p in s.procs && s.procs[p].push.Link? && Head(s.procs[p].push.dest) in m.prev
      then Append(m, Head(s.procs[p].push.dest), TaskNode(s.procs[p].push.t)) else m
    case Pop(p, c) => if Poppable(m, Head(p)) then RemoveFirst(m, Head(p)).0 else m
    case PopNone(p) => if Poppable(m, Head(p)) then RemoveFirst(m, Head(p)).0 else m
    case _ => m
  }

  // Memory m holds the mailboxes of s.
  ghost predicate Holds(m: Shape<Node>, s: State) {
    forall p | p in s.procs :: Ring(m, Head(p), Nodes(s.procs[p].mail))
  }

  ghost predicate Follows(cfg: Config, ss: seq<State>, aa: seq<Action>, ms: seq<Shape<Node>>) {
    && IsRun(cfg, ss, aa) && |ms| == |ss|
    && ms[0] == MailInit(cfg)
    && (forall i: nat | i < |aa| :: FollowsAt(ss, aa, ms, i))
  }

  ghost predicate FollowsAt(ss: seq<State>, aa: seq<Action>, ms: seq<Shape<Node>>, i: nat)
    requires i < |aa| && |ss| == |aa| + 1 && |ms| == |ss|
  {
    ms[i + 1] == MailStep(ss[i], aa[i], ms[i])
  }

  lemma NodesDistinct(xs: seq<Task>, p: Proc)
    requires Distinct(xs)
    ensures Distinct(Nodes(xs)) && Head(p) !in Nodes(xs)
    ensures forall t :: TaskNode(t) in Nodes(xs) <==> t in xs
  {
    forall t | t in xs ensures TaskNode(t) in Nodes(xs) {
      var i :| 0 <= i < |xs| && xs[i] == t;
      assert Nodes(xs)[i] == TaskNode(t);
    }
  }

  // No task is on two mailboxes.
  ghost predicate MailApart(s: State) {
    && (forall p | p in s.procs :: Distinct(s.procs[p].mail))
    && (forall p, q, t | p in s.procs && q in s.procs && t in s.procs[p].mail && t in s.procs[q].mail :: p == q)
    && (forall p, t | p in s.procs && t in s.procs[p].mail :: t in s.tasks)
  }

  lemma InvApart(s: State, loc: map<Task, Loc>)
    requires PlacesOk(s, loc)
    ensures MailApart(s)
  {
    forall p, q, t | p in s.procs && q in s.procs && t in s.procs[p].mail && t in s.procs[q].mail
      ensures p == q
    {
      assert At(s, t, AtMail(p)) && At(s, t, AtMail(q));
    }
    forall p, t | p in s.procs && t in s.procs[p].mail ensures t in s.tasks {
      assert At(s, t, AtMail(p));
    }
  }

  lemma RingsApart(s: State, p: Proc, q: Proc)
    requires MailApart(s) && p in s.procs && q in s.procs && p != q
    ensures Apart(Head(p), Nodes(s.procs[p].mail), Head(q), Nodes(s.procs[q].mail))
  {
    NodesDistinct(s.procs[p].mail, q);
    NodesDistinct(s.procs[q].mail, p);
  }

  lemma HoldsInit(cfg: Config)
    ensures Holds(MailInit(cfg), Init(cfg))
  {
    forall p | p in Init(cfg).procs ensures Ring(MailInit(cfg), Head(p), Nodes([])) {
      assert Cycle(Head(p), Nodes([])) == [Head(p), Head(p)];
      assert LinkedAt(MailInit(cfg), Cycle(Head(p), Nodes([])), 0);
    }
  }

  lemma LinkHolds(s: State, s': State, m: Shape<Node>, d: Proc, t: Task)
    requires Holds(m, s) && MailApart(s) && d in s.procs && Head(d) in m.prev && s'.procs.Keys == s.procs.Keys
    requires !OnSomeMailbox(s, t)
    requires forall p | p in s.procs :: s'.procs[p].mail == if p == d then s.procs[p].mail + [t] else s.procs[p].mail
    ensures Holds(Append(m, Head(d), TaskNode(t)), s')
  {
    forall p | p in s'.procs ensures Ring(Append(m, Head(d), TaskNode(t)), Head(p), Nodes(s'.procs[p].mail)) {
      NodesDistinct(s.procs[p].mail, p);
      NodesDistinct(s.procs[d].mail, d);
      if p == d {
        AppendRing(m, Head(d), Nodes(s.procs[d].mail), TaskNode(t));
        assert Nodes(s.procs[d].mail + [t]) == Nodes(s.procs[d].mail) + [TaskNode(t)];
      } else {
        RingsApart(s, d, p);
        AppendElsewhere(m, Head(d), Nodes(s.procs[d].mail), TaskNode(t), Head(p), Nodes(s.procs[p].mail));
      }
    }
  }

  lemma PopHolds(s: State, s': State, m: Shape<Node>, d: Proc)
    requires Holds(m, s) && MailApart(s) && d in s.procs && s'.procs.Keys == s.procs.Keys && s.procs[d].mail != []
    requires forall p | p in s.procs :: s'.procs[p].mail == if p == d then s.procs[p].mail[1..] else s.procs[p].mail
    ensures Poppable(m, Head(d)) && RemoveFirst(m, Head(d)).1 == Some(TaskNode(s.procs[d].mail[0]))
    ensures Holds(RemoveFirst(m, Head(d)).0, s')
  {
    var xs := Nodes(s.procs[d].mail);
    RemoveFirstRing(m, Head(d), xs);
    forall p | p in s'.procs ensures Ring(RemoveFirst(m, Head(d)).0, Head(p), Nodes(s'.procs[p].mail)) {
      if p == d {
        assert Nodes(s.procs[d].mail[1..]) == xs[1..];
      } else {
        RingsApart(s, d, p);
        RemoveFirstElsewhere(m, Head(d), xs, Head(p), Nodes(s.procs[p].mail));
      }
    }
  }

  lemma SubmitHolds(s: State, s': State, m: Shape<Node>, t: Task)
    requires Holds(m, s) && MailApart(s) && t !in s.tasks && s'.procs.Keys == s.procs.Keys
    requires forall p | p in s.procs :: s'.procs[p].mail == s.procs[p].mail
    ensures Holds(InitNode(m, TaskNode(t)), s')
  {
    forall p | p in s'.procs ensures Ring(InitNode(m, TaskNode(t)), Head(p), Nodes(s'.procs[p].mail)) {
      NodesDistinct(s.procs[p].mail, p);
      SameNodes(m, InitNode(m, TaskNode(t)), TaskNode(t), [], Head(p), Nodes(s.procs[p].mail));
    }
  }

  // One step.
  lemma StepHolds(cfg: Config, ss: seq<State>, aa: seq<Action>, i: nat, m: Shape<Node>)
    requires IsRun(cfg, ss, aa) && i < |aa| && Holds(m, ss[i])
    ensures Holds(MailStep(ss[i], aa[i], m), ss[i + 1])
    ensures aa[i].Pop? ==>
      (&& aa[i].p in ss[i].procs && ss[i].procs[aa[i].p].mail != [] && Poppable(m, Head(aa[i].p))
       && RemoveFirst(m, Head(aa[i].p)).1 == Some(TaskNode(ss[i].procs[aa[i].p].mail[0])))
    ensures aa[i].PopNone? ==> Poppable(m, Head(aa[i].p)) && RemoveFirst(m, Head(aa[i].p)) == (m, None)
  {
    StepMails(cfg, ss, aa, i);
    var s, s', a := ss[i], ss[i + 1], aa[i];
    match a
    case Submit(p, t, r) => SubmitHolds(s, s', m, t);
    case LinkNode(p) =>
      EmptyTests(m, Head(s.procs[p].push.dest), Nodes(s.procs[s.procs[p].push.dest].mail));
      LinkHolds(s, s', m, s.procs[p].push.dest, s.procs[p].push.t);
    case Pop(p, c) => PopHolds(s, s', m, p);
    case PopNone(p) => RemoveFirstRing(m, Head(p), Nodes(s.procs[p].mail));
    case _ =>
  }

  // What the invariant says about a step's effect on the mailboxes.
  lemma StepMails(cfg: Config, ss: seq<State>, aa: seq<Action>, i: nat)
    requires IsRun(cfg, ss, aa) && i < |aa|
    ensures Enabled(cfg, ss[i], aa[i]) && MailApart(ss[i]) && ss[i + 1].procs.Keys == ss[i].procs.Keys
    ensures aa[i].LinkNode? ==> (
      var push := ss[i].procs[aa[i].p].push; push.dest in ss[i].procs && !OnSomeMailbox(ss[i], push.t))
    ensures forall p | p in ss[i].procs :: ss[i + 1].procs[p].mail == ProtocolTheorems.MailAfter(ss[i], aa[i], p)
  {
    var loc := RunInv(cfg, ss, aa, i);
    var _ := RunInv(cfg, ss, aa, i + 1);
    assert StepAt(cfg, ss, aa, i);
    InvApart(ss[i], loc);
    if aa[i].LinkNode? {
      LinkTarget(cfg, ss[i], loc, aa[i].p);
      LinkableOnce(ss[i], loc, aa[i].p);
    }
    forall p | p in ss[i].procs ensures ss[i + 1].procs[p].mail == ProtocolTheorems.MailAfter(ss[i], aa[i], p) {
      ProtocolTheorems.MailOfStep(cfg, ss, aa, i, p);
    }
  }

  // In every run, shipped or guarded, the link memory holds every mailbox as a well-formed
  // ring with the protocol's contents.
  lemma {:induction false} MemoryHoldsMail(cfg: Config, ss: seq<State>, aa: seq<Action>, ms: seq<Shape<Node>>, n: nat)
    requires Follows(cfg, ss, aa, ms) && n < |ss|
    ensures Holds(ms[n], ss[n])
  {
    if n == 0 {
      HoldsInit(cfg);
    } else {
      MemoryHoldsMail(cfg, ss, aa, ms, n - 1);
      StepHolds(cfg, ss, aa, n - 1, ms[n - 1]);
      assert FollowsAt(ss, aa, ms, n - 1);
    }
  }

  // The emptiness test and the pop on the pointers agree with the protocol: a drain ends
  // exactly when the mailbox is empty, and otherwise takes its oldest task.
  lemma PopsAgree(cfg: Config, ss: seq<State>, aa: seq<Action>, ms: seq<Shape<Node>>, i: nat)
    requires Follows(cfg, ss, aa, ms) && i < |aa| && (aa[i].Pop? || aa[i].PopNone?)
    ensures aa[i].p in ss[i].procs && Poppable(ms[i], Head(aa[i].p))
    ensures RemoveFirst(ms[i], Head(aa[i].p)).1 ==
      if ss[i].procs[aa[i].p].mail == [] then None else Some(TaskNode(ss[i].procs[aa[i].p].mail[0]))
  {
    MemoryHoldsMail(cfg, ss, aa, ms, i);
    StepHolds(cfg, ss, aa, i, ms[i]);
    assert StepAt(cfg, ss, aa, i);
  }

  // The node of a new task is a ring of its own.
  lemma SubmittedNode(cfg: Config, ss: seq<State>, aa: seq<Action>, ms: seq<Shape<Node>>, i: nat)
    requires Follows(cfg, ss, aa, ms) && i < |aa| && aa[i].Submit?
    ensures Ring(ms[i + 1], TaskNode(aa[i].t), [])
  {
    assert FollowsAt(ss, aa, ms, i);
    var n := TaskNode(aa[i].t);
    assert Cycle(n, []) == [n, n];
    assert LinkedAt(ms[i + 1], Cycle(n, []), 0);
  }

  // ---------------------------------------------------------------- the idle ring

  // queue->idles and notify->idles of each RPC process.
  datatype IdleNode = IdleHead | Worker(w: Proc)

  function Workers(ws: seq<Proc>): (ns: seq<IdleNode>)
    ensures |ns| == |ws|
  {
    seq(|ws|, i requires 0 <= i < |ws| => Worker(ws[i]))
  }

  lemma WorkersIn(ws: seq<Proc>)
    ensures forall w :: Worker(w) in Workers(ws) <==> w in ws
    ensures IdleHead !in Workers(ws)
  {
    forall w | w in ws ensures Worker(w) in Workers(ws) {
      var i :| 0 <= i < |ws| && ws[i] == w;
      assert Workers(ws)[i] == Worker(w);
    }
  }

  const IDLE_INIT: Shape<IdleNode> := Shape(map[IdleHead := IdleHead], map[IdleHead := IdleHead])

  datatype IdleOp = ParkOp(w: Proc) | TakeOp

  // One locked region on the idle ring, with what it takes.
  function IdleApply(m: Shape<IdleNode>, op: IdleOp): (Shape<IdleNode>, Option<IdleNode>)
    requires IdleHead in m.next && Poppable(m, IdleHead)
  {
    match op
    case ParkOp(w) => (InsertFirst(m, IdleHead, Worker(w)), None)
    case TakeOp => RemoveFirst(m, IdleHead)
  }

  // The content of the idle ring after some operations, or None once a worker has parked
  // while it was already on the ring.
  function IdleContent(ops: seq<IdleOp>): Option<seq<Proc>> {
    if ops == [] then Some([])
    else
      var before := IdleContent(ops[..|ops| - 1]);
      if before.None? then None
      else match ops[|ops| - 1]
        case ParkOp(w) => if w in before.value then None else Some([w] + before.value)
        case TakeOp => if before.value == [] then before else Some(before.value[1..])
  }

  function EverParked(ops: seq<IdleOp>): set<Proc> { set i | 0 <= i < |ops| && ops[i].ParkOp? :: ops[i].w }

  // The pointers after some operations: a ring with that content, or, for good, a circle of
  // workers that misses the head.
  ghost predicate IdleMemoryOk(m: Shape<IdleNode>, ops: seq<IdleOp>) {
    match IdleContent(ops)
    case Some(ws) => Ring(m, IdleHead, Workers(ws)) && (forall w | w in ws :: w in EverParked(ops))
    case None => exists trap | trap <= m.next.Keys :: LassoInto(m, IdleHead, trap) && OnlyWorkers(trap, EverParked(ops))
  }

  ghost predicate OnlyWorkers(trap: set<IdleNode>, ws: set<Proc>) {
    forall n | n in trap :: n.Worker? && n.w in ws
  }

  // ms are the memories that the operations go through.
  ghost predicate IdleTrace(ops: seq<IdleOp>, ms: seq<Shape<IdleNode>>) {
    && |ms| == |ops| + 1 && ms[0] == IDLE_INIT
    && forall i: nat | i < |ops| :: IdleTraceAt(ops, ms, i)
  }

  ghost predicate IdleTraceAt(ops: seq<IdleOp>, ms: seq<Shape<IdleNode>>, i: nat)
    requires i < |ops| && |ms| == |ops| + 1
  {
    IdleHead in ms[i].next && Poppable(ms[i], IdleHead) ==> ms[i + 1] == IdleApply(ms[i], ops[i]).0
  }

  lemma EverParkedGrows(ops: seq<IdleOp>, i: nat)
    requires i < |ops|
    ensures EverParked(ops[..i + 1]) == EverParked(ops[..i]) + if ops[i].ParkOp? then {ops[i].w} else {}
  {
    var a, b := ops[..i], ops[..i + 1];
    forall w | w in EverParked(a) ensures w in EverParked(b) {
      var j :| 0 <= j < |a| && a[j].ParkOp? && a[j].w == w;
      assert b[j] == a[j];
    }
    forall w | w in EverParked(b) ensures w in EverParked(a) || (ops[i].ParkOp? && ops[i].w == w) {
      var j :| 0 <= j < |b| && b[j].ParkOp? && b[j].w == w;
      if j < i {
        assert a[j] == b[j];
      }
    }
    if ops[i].ParkOp? {
      assert b[i] == ops[i];
    }
  }

  // The workers up to position k.
  ghost function Front(ws: seq<Proc>, k: nat): set<IdleNode>
    requires k < |ws|
  {
    set i | 0 <= i <= k :: Workers(ws)[i]
  }

  lemma RingStep(m: Shape<IdleNode>, ws: seq<Proc>, op: IdleOp)
    requires Ring(m, IdleHead, Workers(ws))
    ensures IdleHead in m.next && Poppable(m, IdleHead)
    ensures match op
      case ParkOp(w) =>
        if w in ws then exists k: nat | k < |ws| :: LassoInto(IdleApply(m, op).0, IdleHead, Front(ws, k))
        else Ring(IdleApply(m, op).0, IdleHead, Workers([w] + ws))
      case TakeOp =>
        if ws == [] then IdleApply(m, op) == (m, None)
        else IdleApply(m, op).1 == Some(Worker(ws[0])) && Ring(IdleApply(m, op).0, IdleHead, Workers(ws[1..]))
  {
    EmptyTests(m, IdleHead, Workers(ws));
    RemoveFirstRing(m, IdleHead, Workers(ws));
    WorkersIn(ws);
    match op
    case ParkOp(w) =>
      if w in ws {
        var k :| 0 <= k < |ws| && ws[k] == w;
        ParkTwice(m, IdleHead, Workers(ws), k);
        assert LassoInto(IdleApply(m, op).0, IdleHead, Front(ws, k));
      } else {
        InsertFirstRing(m, IdleHead, Workers(ws), Worker(w));
        assert Workers([w] + ws) == [Worker(w)] + Workers(ws);
      }
    case TakeOp =>
      if ws != [] {
        assert Workers(ws[1..]) == Workers(ws)[1..];
      }
  }

  lemma TrapIsMemory(m: Shape<IdleNode>, trap: set<IdleNode>)
    requires LassoInto(m, IdleHead, trap)
    ensures trap <= m.next.Keys && Poppable(m, IdleHead)
  {
    assert LeadsInto(m, m.next[IdleHead], trap);
    forall n | n in trap ensures n in m.next {
      assert LeadsInto(m, n, trap);
    }
  }

  // A broken ring stays broken, whatever is done to it, and always yields some worker.
  lemma LassoStep(m: Shape<IdleNode>, trap: set<IdleNode>, ws: set<Proc>, op: IdleOp) returns (trap': set<IdleNode>)
    requires LassoInto(m, IdleHead, trap) && OnlyWorkers(trap, ws)
    ensures IdleHead in m.next && Poppable(m, IdleHead)
    ensures LassoInto(IdleApply(m, op).0, IdleHead, trap')
    ensures OnlyWorkers(trap', ws + if op.ParkOp? then {op.w} else {})
    ensures op.TakeOp? ==> IdleApply(m, op).1.Some? && IdleApply(m, op).1.value in trap
  {
    assert LeadsInto(m, m.next[IdleHead], trap);
    if op.ParkOp? {
      LassoPark(m, trap, op.w);
      trap' := trap + {Worker(op.w)};
    } else {
      trap' := trap;
      forall n | n in trap ensures LeadsInto(IdleApply(m, op).0, n, trap) {
        assert LeadsInto(m, n, trap);
      }
    }
  }

  lemma LassoPark(m: Shape<IdleNode>, trap: set<IdleNode>, w: Proc)
    requires LassoInto(m, IdleHead, trap)
    ensures LassoInto(InsertFirst(m, IdleHead, Worker(w)), IdleHead, trap + {Worker(w)})
  {
    var r, trap' := InsertFirst(m, IdleHead, Worker(w)), trap + {Worker(w)};
    forall n | n in trap' ensures LeadsInto(r, n, trap') {
      if n in trap {
        assert LeadsInto(m, n, trap);
      }
    }
  }

  lemma {:induction false} IdleMemory(ops: seq<IdleOp>, ms: seq<Shape<IdleNode>>, n: nat)
    requires IdleTrace(ops, ms) && n <= |ops|
    ensures IdleMemoryOk(ms[n], ops[..n])
    ensures IdleHead in ms[n].next && Poppable(ms[n], IdleHead)
  {
    if n == 0 {
      assert Cycle(IdleHead, Workers([])) == [IdleHead, IdleHead];
      assert LinkedAt(ms[0], Cycle(IdleHead, Workers([])), 0);
    } else {
      IdleMemory(ops, ms, n - 1);
      assert IdleTraceAt(ops, ms, n - 1);
      IdleMemoryStep(ops, ms[n - 1], n - 1);
    }
  }

  lemma IdleMemoryStep(ops: seq<IdleOp>, m: Shape<IdleNode>, i: nat)
    requires i < |ops| && IdleMemoryOk(m, ops[..i]) && IdleHead in m.next && Poppable(m, IdleHead)
    ensures var m' := IdleApply(m, ops[i]).0;
      IdleMemoryOk(m', ops[..i + 1]) && IdleHead in m'.next && Poppable(m', IdleHead)
  {
    var op, before := ops[i], IdleContent(ops[..i]);
    var m' := IdleApply(m, op).0;
    assert ops[..i + 1][..i] == ops[..i] && ops[..i + 1][i] == op;
    EverParkedGrows(ops, i);
    if before.Some? {
      RingStep(m, before.value, op);
      if op.ParkOp? && op.w in before.value {
        var k: nat :| k < |before.value| && LassoInto(m', IdleHead, Front(before.value, k));
        var trap := Front(before.value, k);
        assert OnlyWorkers(trap, EverParked(ops[..i + 1]));
        TrapIsMemory(m', trap);
      } else {
        EmptyTests(m', IdleHead, Workers(IdleContent(ops[..i + 1]).value));
      }
    } else {
      var trap :| trap <= m.next.Keys && LassoInto(m, IdleHead, trap) && OnlyWorkers(trap, EverParked(ops[..i]));
      var trap' := LassoStep(m, trap, EverParked(ops[..i]), op);
      TrapIsMemory(m', trap');
    }
  }

  // The shipped idle ring, under any sequence of parks and takes: a take yields a worker
  // that has parked, or none; so choosing any registered worker, or none, over-approximates
  // it.  The ring behaves as a list until some worker parks while parked; from then on a
  // take never finds it empty again, and no request is ever refused.
  lemma IdleTakes(ops: seq<IdleOp>, ms: seq<Shape<IdleNode>>, n: nat)
    requires IdleTrace(ops, ms) && n < |ops| && ops[n].TakeOp?
    ensures IdleHead in ms[n].next && Poppable(ms[n], IdleHead)
    ensures var got := IdleApply(ms[n], TakeOp).1;
      && (got.Some? ==> got.value.Worker? && got.value.w in EverParked(ops[..n]))
      && (IdleContent(ops[..n]) == Some([]) <==> got.None?)
      && (var content := IdleContent(ops[..n]);
          content.Some? && content.value != [] ==> got == Some(Worker(content.value[0])))
  {
    IdleMemory(ops, ms, n);
    var before := IdleContent(ops[..n]);
    if before.Some? {
      RingStep(ms[n], before.value, TakeOp);
    } else {
      var trap :|
        trap <= ms[n].next.Keys && LassoInto(ms[n], IdleHead, trap) && OnlyWorkers(trap, EverParked(ops[..n]));
      var _ := LassoStep(ms[n], trap, EverParked(ops[..n]), TakeOp);
    }
  }

  // The memory is a ring of the head, of some nodes, exactly while no worker has parked that
  // was on it.
  lemma IdleRingIff(ops: seq<IdleOp>, ms: seq<Shape<IdleNode>>, n: nat)
    requires IdleTrace(ops, ms) && n <= |ops|
    ensures (exists ns :: Ring(ms[n], IdleHead, ns)) <==> IdleContent(ops[..n]).Some?
  {
    IdleMemory(ops, ms, n);
    if IdleContent(ops[..n]).None? {
      var trap :| trap <= ms[n].next.Keys && LassoInto(ms[n], IdleHead, trap);
      forall ns ensures !Ring(ms[n], IdleHead, ns) {
        LassoIsNoRing(ms[n], IdleHead, trap, ns);
      }
    }
  }

  // A memory that is no ring of the head any more never becomes one again, whatever is parked
  // and taken.
  lemma NoRingForGood(ops: seq<IdleOp>, ms: seq<Shape<IdleNode>>, i: nat, j: nat)
    requires IdleTrace(ops, ms) && i <= j <= |ops| && forall ns :: !Ring(ms[i], IdleHead, ns)
    ensures forall ns :: !Ring(ms[j], IdleHead, ns)
  {
    IdleRingIff(ops, ms, i);
    BrokenForGood(ops, i, j);
    IdleRingIff(ops, ms, j);
  }

  // Once a worker has parked twice the content stays lost.
  lemma {:induction false} BrokenForGood(ops: seq<IdleOp>, i: nat, j: nat)
    requires i <= j <= |ops| && IdleContent(ops[..i]).None?
    ensures IdleContent(ops[..j]).None?
  {
    if i < j {
      BrokenForGood(ops, i, j - 1);
      assert ops[..j][..j - 1] == ops[..j - 1];
    }
  }

  // ---------------------------------------------------------------- the guarded protocol's idle ring

  // What a step of the guarded protocol does to the idle ring.
  function StepOps(a: Action): seq<IdleOp> {
    if a.ParkSelf? then [ParkOp(a.p)] else if a.Take? || a.TakeNone? then [TakeOp] else []
  }

  function IdleOps(aa: seq<Action>): seq<IdleOp> {
    if aa == [] then [] else IdleOps(aa[..|aa| - 1]) + StepOps(aa[|aa| - 1])
  }

  // In every guarded run the pointers, through all its parks and takes, hold the workers that
  // the protocol has parked as a ring, in order.
  lemma GuardedIdleMemory(cfg: Config, ss: seq<State>, aa: seq<Action>, ms: seq<Shape<IdleNode>>, n: nat)
    requires IsRun(cfg, ss, aa) && cfg.guarded && n < |ss| && IdleTrace(IdleOps(aa[..n]), ms)
    ensures Ring(ms[|IdleOps(aa[..n])|], IdleHead, Workers(ss[n].idle))
  {
    var ops := IdleOps(aa[..n]);
    GuardedIdleRing(cfg, ss, aa, n);
    assert ops[..|ops|] == ops;
    IdleMemory(ops, ms, |ops|);
  }

  lemma ContentAfter(ops: seq<IdleOp>, op: IdleOp)
    ensures IdleContent(ops + [op]) ==
      match IdleContent(ops)
      case None => None
      case Some(ws) =>
        match op
        case ParkOp(w) => if w in ws then None else Some([w] + ws)
        case TakeOp => if ws == [] then Some([]) else Some(ws[1..])
  {
    assert (ops + [op])[..|ops|] == ops;
  }

  // No worker parks twice in a guarded run, and the content is the idle list of the protocol.
  lemma {:induction false} GuardedIdleRing(cfg: Config, ss: seq<State>, aa: seq<Action>, n: nat)
    requires IsRun(cfg, ss, aa) && cfg.guarded && n < |ss|
    ensures IdleContent(IdleOps(aa[..n])) == Some(ss[n].idle)
  {
    if n == 0 {
      assert aa[..0] == [];
    } else {
      var i: nat, ops := n - 1, IdleOps(aa[..n - 1]);
      GuardedIdleRing(cfg, ss, aa, i);
      IdleFacts(cfg, ss, aa, i);
      OpsSnoc(aa, i);
      GuardedIdleStep(ops, ss[i].idle, aa[i], ss[n].idle);
    }
  }

  lemma OpsSnoc(aa: seq<Action>, i: nat)
    requires i < |aa|
    ensures IdleOps(aa[..i + 1]) == IdleOps(aa[..i]) + StepOps(aa[i])
  {
    assert aa[..i + 1][..i] == aa[..i];
  }

  lemma GuardedIdleStep(ops: seq<IdleOp>, before: seq<Proc>, a: Action, after: seq<Proc>)
    requires IdleContent(ops) == Some(before)
    requires a.ParkSelf? ==> a.p !in before && after == [a.p] + before
    requires a.Take? ==> before != [] && after == before[1..]
    requires a.TakeNone? ==> before == []
    requires !a.ParkSelf? && !a.Take? ==> after == before
    ensures IdleContent(ops + StepOps(a)) == Some(after)
  {
    if a.ParkSelf? {
      ContentAfter(ops, ParkOp(a.p));
    } else if a.Take? || a.TakeNone? {
      ContentAfter(ops, TakeOp);
    } else {
      assert ops + [] == ops;
    }
  }

  lemma IdleFacts(cfg: Config, ss: seq<State>, aa: seq<Action>, i: nat)
    requires IsRun(cfg, ss, aa) && cfg.guarded && i < |aa|
    ensures aa[i].ParkSelf? ==> aa[i].p !in ss[i].idle && ss[i + 1].idle == [aa[i].p] + ss[i].idle
    ensures aa[i].Take? ==> ss[i].idle != [] && ss[i + 1].idle == ss[i].idle[1..]
    ensures aa[i].TakeNone? ==> ss[i].idle == []
    ensures !aa[i].ParkSelf? && !aa[i].Take? ==> ss[i + 1].idle == ss[i].idle
  {
    var tok := IdleTokens.RunTokens(cfg, ss, aa, i);
    var loc := RunInv(cfg, ss, aa, i);
    assert StepAt(cfg, ss, aa, i);
    IdleTokens.IdleAfter(cfg, ss[i], aa[i]);
    var a := aa[i];
    if a.Take? {
      PickTarget(cfg, ss[i], loc, a.p);
    } else if a.ParkSelf? {
      NotParkedYet(cfg, ss[i], loc, tok, a.p);
    }
  }

  lemma NotParkedYet(cfg: Config, s: State, loc: map<Task, Loc>, tok: map<Proc, IdleTokens.Token>, p: Proc)
    requires Shell(cfg, s) && IdleTokens.TokensOk(cfg, s, tok) && p in s.procs && s.procs[p].base.Park?
    ensures p !in s.idle
  {
    assert IdleTokens.HasToken(s, p, IdleTokens.Busy);
    assert !IdleTokens.HasToken(s, p, IdleTokens.Parked);
  }
}
