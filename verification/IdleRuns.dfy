/**
 The idle ring of whole runs of the shipped protocol: where every take yields what the pointers
 yield, the parks and takes of a run say at which step the ring breaks.
 */
module IdleRuns {
  import opened LinkMemory
  import opened Links
  import opened LivesHappen
  import opened Options
  import opened Protocol
  import ProtocolInv

  // The memory of the idle ring before step i; ms are the memories that the run's parks and takes
  // go through.
  ghost function MemoryAt(aa: seq<Action>, ms: seq<Shape<IdleNode>>, i: nat): Shape<IdleNode>
    requires i <= |aa| && IdleTrace(IdleOps(aa), ms)
  {
    OpsPrefix(aa, i);
    ms[|IdleOps(aa[..i])|]
  }

  // What the take of step i gets is what the pointers yield.
  ghost predicate TakesAt(aa: seq<Action>, ms: seq<Shape<IdleNode>>, i: nat)
    requires i < |aa| && IdleTrace(IdleOps(aa), ms)
  {
    var m := MemoryAt(aa, ms, i);
    aa[i].Take? || aa[i].TakeNone? ==>
      && IdleHead in m.next && Poppable(m, IdleHead)
      && IdleApply(m, TakeOp).1 == if aa[i].Take? then Some(Worker(aa[i].w)) else None
  }

  ghost predicate PointersDecide(aa: seq<Action>, ms: seq<Shape<IdleNode>>) {
    IdleTrace(IdleOps(aa), ms) && forall i: nat | i < |aa| :: TakesAt(aa, ms, i)
  }

  lemma {:induction false} OpsPrefix(aa: seq<Action>, i: nat)
    requires i <= |aa|
    ensures IdleOps(aa[..i]) <= IdleOps(aa)
    decreases |aa| - i
  {
    if i == |aa| {
      assert aa[..i] == aa;
    } else {
      OpsPrefix(aa, i + 1);
      OpsSnoc(aa, i);
    }
  }

  // ---------------------------------------------------------------- who is on the ring

  // w parked in step i and was not taken before step n.
  ghost predicate ParkedSince(aa: seq<Action>, i: nat, n: nat, w: Proc)
    requires n <= |aa|
  {
    i < n && aa[i] == ParkSelf(w) && forall k | i < k < n :: !(aa[k].Take? && aa[k].w == w)
  }

  ghost predicate OnRing(aa: seq<Action>, n: nat, w: Proc)
    requires n <= |aa|
  {
    exists i :: ParkedSince(aa, i, n, w)
  }

  // Step j parks a worker that is parked already.
  ghost predicate ParksAgain(aa: seq<Action>, j: nat)
    requires j < |aa|
  {
    aa[j].ParkSelf? && OnRing(aa, j, aa[j].p)
  }

  ghost predicate NeverAgain(aa: seq<Action>, n: nat)
    requires n <= |aa|
  {
    forall j: nat | j < n :: !ParksAgain(aa, j)
  }

  // One more step.
  lemma OnRingStep(aa: seq<Action>, n: nat, w: Proc)
    requires n < |aa|
    ensures OnRing(aa, n + 1, w) <==>
      aa[n] == ParkSelf(w) || (OnRing(aa, n, w) && !(aa[n].Take? && aa[n].w == w))
  {
    var m := n + 1;
    if aa[n] == ParkSelf(w) {
      assert ParkedSince(aa, n, m, w);
    } else if OnRing(aa, n, w) && !(aa[n].Take? && aa[n].w == w) {
      var i :| ParkedSince(aa, i, n, w);
      assert ParkedSince(aa, i, m, w);
    } else if OnRing(aa, m, w) {
      var i :| ParkedSince(aa, i, m, w);
      assert ParkedSince(aa, i, n, w);
    }
  }

  // The content of the ring, while it has one, is the workers that are parked.
  ghost predicate ContentOk(aa: seq<Action>, n: nat)
    requires n <= |aa|
  {
    match IdleContent(IdleOps(aa[..n]))
    case Some(ws) => Holds(aa, n, ws)
    case None => !NeverAgain(aa, n)
  }

  ghost predicate Holds(aa: seq<Action>, n: nat, ws: seq<Proc>)
    requires n <= |aa|
  {
    Distinct(ws) && (forall w :: w in ws <==> OnRing(aa, n, w)) && NeverAgain(aa, n)
  }

  lemma {:induction false} Content(aa: seq<Action>, ms: seq<Shape<IdleNode>>, n: nat)
    requires PointersDecide(aa, ms) && n <= |aa|
    ensures ContentOk(aa, n)
  {
    if n == 0 {
      assert aa[..0] == [];
    } else {
      var i := n - 1;
      Content(aa, ms, i);
      OpsSnoc(aa, i);
      ContentStep(aa, ms, i);
    }
  }

  lemma ContentStep(aa: seq<Action>, ms: seq<Shape<IdleNode>>, i: nat)
    requires PointersDecide(aa, ms) && i < |aa| && ContentOk(aa, i)
    requires IdleOps(aa[..i + 1]) == IdleOps(aa[..i]) + StepOps(aa[i])
    ensures ContentOk(aa, i + 1)
  {
    var before, a := IdleContent(IdleOps(aa[..i])), aa[i];
    if a.ParkSelf? {
      ContentAfter(IdleOps(aa[..i]), ParkOp(a.p));
    } else if a.Take? || a.TakeNone? {
      ContentAfter(IdleOps(aa[..i]), TakeOp);
      TakeYields(aa, ms, i);
    } else {
      assert IdleOps(aa[..i]) + [] == IdleOps(aa[..i]);
    }
    if before.None? {
      var j: nat :| j < i && ParksAgain(aa, j);
      assert !NeverAgain(aa, i + 1);
    } else if a.ParkSelf? {
      ParkHolds(aa, i, before.value);
    } else {
      OtherHolds(aa, i, before.value);
    }
  }

  lemma TakeYields(aa: seq<Action>, ms: seq<Shape<IdleNode>>, i: nat)
    requires PointersDecide(aa, ms) && i < |aa| && (aa[i].Take? || aa[i].TakeNone?)
    ensures var c := IdleContent(IdleOps(aa[..i]));
      c.Some? ==> if aa[i].Take? then c.value != [] && c.value[0] == aa[i].w else c.value == []
  {
    var k := |IdleOps(aa[..i])|;
    OpsPrefix(aa, i);
    OpsPrefix(aa, i + 1);
    OpsSnoc(aa, i);
    assert IdleOps(aa)[k] == IdleOps(aa[..i + 1])[k] == TakeOp;
    assert IdleOps(aa)[..k] == IdleOps(aa[..i]);
    IdleTakes(IdleOps(aa), ms, k);
    assert TakesAt(aa, ms, i);
  }

  lemma ParkHolds(aa: seq<Action>, i: nat, ws: seq<Proc>)
    requires i < |aa| && Holds(aa, i, ws) && aa[i].ParkSelf?
    ensures aa[i].p in ws <==> ParksAgain(aa, i)
    ensures aa[i].p !in ws ==> Holds(aa, i + 1, [aa[i].p] + ws)
  {
    var now := [aa[i].p] + ws;
    forall w ensures w in now <==> OnRing(aa, i + 1, w) {
      OnRingStep(aa, i, w);
    }
  }

  lemma OtherHolds(aa: seq<Action>, i: nat, ws: seq<Proc>)
    requires i < |aa| && Holds(aa, i, ws) && !aa[i].ParkSelf? && (aa[i].Take? ==> ws != [] && ws[0] == aa[i].w)
    ensures Holds(aa, i + 1, if aa[i].Take? then ws[1..] else ws)
  {
    var now := if aa[i].Take? then ws[1..] else ws;
    if aa[i].Take? {
      ProtocolInv.Members(ws);
    }
    forall w ensures w in now <==> OnRing(aa, i + 1, w) {
      OnRingStep(aa, i, w);
    }
  }

  // ---------------------------------------------------------------- where the ring breaks

  ghost predicate IsRing(m: Shape<IdleNode>) { exists ns :: Ring(m, IdleHead, ns) }

  // In such a run the pointers are a ring of the head exactly until a worker parks that has parked
  // before and was not taken since.
  lemma RingUntilParkedAgain(aa: seq<Action>, ms: seq<Shape<IdleNode>>, n: nat)
    requires PointersDecide(aa, ms) && n <= |aa|
    ensures IsRing(MemoryAt(aa, ms, n)) <==> NeverAgain(aa, n)
  {
    var k := |IdleOps(aa[..n])|;
    OpsPrefix(aa, n);
    assert IdleOps(aa)[..k] == IdleOps(aa[..n]);
    IdleRingIff(IdleOps(aa), ms, k);
    Content(aa, ms, n);
  }

  // So a step breaks the ring exactly if it is the first of that kind.
  lemma BreaksIff(aa: seq<Action>, ms: seq<Shape<IdleNode>>, i: nat)
    requires PointersDecide(aa, ms) && i < |aa| && IsRing(MemoryAt(aa, ms, i))
    ensures !IsRing(MemoryAt(aa, ms, i + 1)) <==> ParksAgain(aa, i)
  {
    RingUntilParkedAgain(aa, ms, i);
    RingUntilParkedAgain(aa, ms, i + 1);
  }

  // ---------------------------------------------------------------- one request is enough

  // The RPC process parks, is taken for a request, handles the signal, and parks twice.
  function OneRequest(x: Cast): seq<Action> {
    [PopNone(x.w), ParkSelf(x.w),
     Submit(x.h, x.t, x.r), Take(x.h, x.w), LinkNode(x.h), WriteEvent(x.h),
     Wake(x.w), ReadEvent(x.w), Pop(x.w, x.c), PopNone(x.w), ParkSelf(x.w),
     ReadEvent(x.w), PopNone(x.w), ParkSelf(x.w)]
  }

  // The first n of the steps aa lead to state s.
  ghost predicate Leads(x: Cast, aa: seq<Action>, n: nat, s: State)
    requires n <= |aa|
  {
    exists ss :: EndsIn(x.Config(), ss, aa[..n], s)
  }

  lemma LeadsOn(x: Cast, all: seq<Action>, n: nat, s: State, s': State)
    requires n < |all| && Leads(x, all, n, s)
    requires Enabled(x.Config(), s, all[n]) && s' == Apply(x.Config(), s, all[n])
    ensures Leads(x, all, n + 1, s')
  {
    var cfg, aa, m := x.Config(), all[..n + 1], n + 1;
    var ss :| EndsIn(cfg, ss, all[..n], s);
    assert aa[..n] == all[..n];
    forall i: nat | i < |aa| ensures StepAt(cfg, ss + [s'], aa, i) {
      if i < n {
        assert StepAt(cfg, ss, all[..n], i);
      }
    }
    assert EndsIn(cfg, ss + [s'], all[..m], s');
  }

  // The HTTP worker in its first drain with a push under way, the RPC process, and the task.
  function With(x: Cast, push: Push, base: Base, mail: seq<Task>, efd: nat, tasks: map<Task, TaskRec>,
                svc: set<(Proc, Task, Chan)>, chans: map<Chan, ChanRec>, reqs: map<Req, ReqRec>): State {
    State(x.Both(Busy(push, {}, [], 0), ProcState(base, NoPush, {}, mail, efd)), [], tasks, svc, {}, chans, reqs, false)
  }

  function Sent(x: Cast, proc: Option<Proc>): TaskRec {
    TaskRec(x.r, proc, x.h, Method(x.r), NoFinish, 0, [Submitted(x.h)])
  }

  lemma FirstPark(x: Cast)
    requires x.Valid()
    ensures Leads(x, OneRequest(x), 2, With(x, NoPush, Sleep, [], 0, map[], {}, map[], map[]))
  {
    var s0 := With(x, NoPush, Drain(false), [], 0, map[], {}, map[], map[]);
    assert s0.procs == Init(x.Config()).procs;
    assert EndsIn(x.Config(), [s0], OneRequest(x)[..0], s0);
    var s1 := With(x, NoPush, Park(false), [], 0, map[], {}, map[], map[]);
    assert DoPopNone(x.Config(), s0, x.w).procs == s1.procs;
    LeadsOn(x, OneRequest(x), 0, s0, s1);
    var s2 := With(x, NoPush, Sleep, [], 0, map[], {}, map[], map[]);
    assert DoPark(x.Config(), s1, x.w).procs == s2.procs;
    LeadsOn(x, OneRequest(x), 1, s1, s2);
  }

  function Tasks(x: Cast): map<Task, TaskRec> { map[x.t := Sent(x, Some(x.w))] }

  lemma Submission(x: Cast)
    requires x.Valid()
    ensures Leads(x, OneRequest(x), 3, With(x, Pick(x.t, x.r), Sleep, [], 0, map[x.t := Sent(x, None)], {}, map[],
                                            x.Asked([])))
  {
    FirstPark(x);
    var s2 := With(x, NoPush, Sleep, [], 0, map[], {}, map[], map[]);
    var s3 := With(x, Pick(x.t, x.r), Sleep, [], 0, map[x.t := Sent(x, None)], {}, map[], x.Asked([]));
    assert DoSubmit(s2, x.h, x.t, x.r).procs == s3.procs;
    LeadsOn(x, OneRequest(x), 2, s2, s3);
  }

  lemma Taken(x: Cast)
    requires x.Valid()
    ensures Leads(x, OneRequest(x), 4, With(x, Link(x.t, x.w), Sleep, [], 0, Tasks(x), {}, map[], x.Asked([])))
  {
    Submission(x);
    var s3 := With(x, Pick(x.t, x.r), Sleep, [], 0, map[x.t := Sent(x, None)], {}, map[], x.Asked([]));
    var s4 := With(x, Link(x.t, x.w), Sleep, [], 0, Tasks(x), {}, map[], x.Asked([]));
    assert DoTake(x.Config(), s3, x.h, x.w).procs == s4.procs && DoTake(x.Config(), s3, x.h, x.w).tasks == Tasks(x);
    LeadsOn(x, OneRequest(x), 3, s3, s4);
  }

  lemma Linked(x: Cast)
    requires x.Valid()
    ensures Leads(x, OneRequest(x), 5, With(x, Signal(x.w), Sleep, [x.t], 0, Tasks(x), {}, map[], x.Asked([])))
  {
    Taken(x);
    var s4 := With(x, Link(x.t, x.w), Sleep, [], 0, Tasks(x), {}, map[], x.Asked([]));
    var s5 := With(x, Signal(x.w), Sleep, [x.t], 0, Tasks(x), {}, map[], x.Asked([]));
    assert !OnSomeMailbox(s4, x.t) && [] + [x.t] == [x.t];
    assert DoLink(s4, x.h).procs == s5.procs;
    LeadsOn(x, OneRequest(x), 4, s4, s5);
  }

  lemma Signalled(x: Cast)
    requires x.Valid()
    ensures Leads(x, OneRequest(x), 6, With(x, NoPush, Sleep, [x.t], 1, Tasks(x), {}, map[], x.Asked([])))
  {
    Linked(x);
    var s5 := With(x, Signal(x.w), Sleep, [x.t], 0, Tasks(x), {}, map[], x.Asked([]));
    var s6 := With(x, NoPush, Sleep, [x.t], 1, Tasks(x), {}, map[], x.Asked([]));
    assert DoWrite(s5, x.h).procs == s6.procs;
    LeadsOn(x, OneRequest(x), 5, s5, s6);
  }

  lemma Woken(x: Cast)
    requires x.Valid()
    ensures Leads(x, OneRequest(x), 8, With(x, NoPush, Drain(true), [x.t], 0, Tasks(x), {}, map[], x.Asked([])))
  {
    Signalled(x);
    var s6 := With(x, NoPush, Sleep, [x.t], 1, Tasks(x), {}, map[], x.Asked([]));
    var s7 := With(x, NoPush, Read, [x.t], 1, Tasks(x), {}, map[], x.Asked([]));
    assert Apply(x.Config(), s6, Wake(x.w)).procs == s7.procs;
    LeadsOn(x, OneRequest(x), 6, s6, s7);
    var s8 := With(x, NoPush, Drain(true), [x.t], 0, Tasks(x), {}, map[], x.Asked([]));
    assert DoRead(x.Config(), s7, x.w).procs == s8.procs;
    LeadsOn(x, OneRequest(x), 7, s7, s8);
  }

  function Ran(x: Cast): map<Task, TaskRec> { map[x.t := Noted(Sent(x, Some(x.w)), Event.Ran(x.w))] }

  lemma Handled(x: Cast)
    requires x.Valid()
    ensures Leads(x, OneRequest(x), 9, With(x, NoPush, Drain(true), [], 0, Ran(x), {(x.w, x.t, x.c)}, x.Own(),
                                            x.Asked([])))
  {
    Woken(x);
    var s8 := With(x, NoPush, Drain(true), [x.t], 0, Tasks(x), {}, map[], x.Asked([]));
    var s9 := With(x, NoPush, Drain(true), [], 0, Ran(x), {(x.w, x.t, x.c)}, x.Own(), x.Asked([]));
    assert [x.t][1..] == [];
    var r := DoPop(x.Config(), s8, x.w, x.c);
    assert r.procs == s9.procs && r.tasks == s9.tasks && r.svc == s9.svc && r.chans == s9.chans;
    LeadsOn(x, OneRequest(x), 8, s8, s9);
  }

  lemma ParkedTwice(x: Cast)
    requires x.Valid()
    ensures Leads(x, OneRequest(x), 14, With(x, NoPush, Sleep, [], 0, Ran(x), {(x.w, x.t, x.c)}, x.Own(), x.Asked([])))
  {
    Handled(x);
    var s9 := With(x, NoPush, Drain(true), [], 0, Ran(x), {(x.w, x.t, x.c)}, x.Own(), x.Asked([]));
    var s10 := With(x, NoPush, Park(true), [], 0, Ran(x), {(x.w, x.t, x.c)}, x.Own(), x.Asked([]));
    assert DoPopNone(x.Config(), s9, x.w).procs == s10.procs;
    LeadsOn(x, OneRequest(x), 9, s9, s10);
    var s11 := With(x, NoPush, Read, [], 0, Ran(x), {(x.w, x.t, x.c)}, x.Own(), x.Asked([]));
    assert DoPark(x.Config(), s10, x.w).procs == s11.procs;
    LeadsOn(x, OneRequest(x), 10, s10, s11);
    var s12 := With(x, NoPush, Drain(false), [], 0, Ran(x), {(x.w, x.t, x.c)}, x.Own(), x.Asked([]));
    assert DoRead(x.Config(), s11, x.w).procs == s12.procs;
    LeadsOn(x, OneRequest(x), 11, s11, s12);
    var s13 := With(x, NoPush, Park(false), [], 0, Ran(x), {(x.w, x.t, x.c)}, x.Own(), x.Asked([]));
    assert DoPopNone(x.Config(), s12, x.w).procs == s13.procs;
    LeadsOn(x, OneRequest(x), 12, s12, s13);
    var s14 := With(x, NoPush, Sleep, [], 0, Ran(x), {(x.w, x.t, x.c)}, x.Own(), x.Asked([]));
    assert DoPark(x.Config(), s13, x.w).procs == s14.procs;
    LeadsOn(x, OneRequest(x), 13, s13, s14);
  }

  // The memories that some parks and takes go through.
  function Memories(ops: seq<IdleOp>): (ms: seq<Shape<IdleNode>>)
    ensures |ms| == |ops| + 1
  {
    if ops == [] then [IDLE_INIT]
    else
      var before, n := Memories(ops[..|ops| - 1]), |ops| - 1;
      var m := before[n];
      before + [if IdleHead in m.next && Poppable(m, IdleHead) then IdleApply(m, ops[n]).0 else m]
  }

  lemma {:induction false} MemoriesTrace(ops: seq<IdleOp>)
    ensures IdleTrace(ops, Memories(ops))
  {
    if ops != [] {
      var n := |ops| - 1;
      MemoriesTrace(ops[..n]);
      forall i: nat | i < |ops| ensures IdleTraceAt(ops, Memories(ops), i) {
        if i < n {
          assert IdleTraceAt(ops[..n], Memories(ops[..n]), i);
        }
      }
    }
  }

  lemma FirstOps(x: Cast)
    ensures IdleOps(OneRequest(x)[..3]) == [ParkOp(x.w)] && IdleOps(OneRequest(x)[..4]) == [ParkOp(x.w), TakeOp]
  {
    var aa := OneRequest(x);
    assert aa[..0] == [];
    OpsSnoc(aa, 0);
    OpsSnoc(aa, 1);
    OpsSnoc(aa, 2);
    OpsSnoc(aa, 3);
  }

  lemma FirstContent(ops: seq<IdleOp>, w: Proc)
    requires |ops| > 0 && ops[0] == ParkOp(w)
    ensures IdleContent(ops[..1]) == Some([w])
  {
    assert ops[..1] == [] + [ParkOp(w)];
    ContentAfter([], ParkOp(w));
    assert [w] + [] == [w];
  }

  // The one take of the run gets the process that has parked.
  lemma TakesParked(x: Cast, aa: seq<Action>, ops: seq<IdleOp>, ms: seq<Shape<IdleNode>>)
    requires aa == OneRequest(x) && ops == IdleOps(aa) && ms == Memories(ops)
    ensures PointersDecide(aa, ms)
  {
    MemoriesTrace(ops);
    FirstOps(x);
    OpsPrefix(aa, 3);
    OpsPrefix(aa, 4);
    assert ops[0] == ParkOp(x.w) && ops[1] == IdleOps(aa[..4])[1];
    FirstContent(ops, x.w);
    IdleTakes(ops, ms, 1);
    forall i: nat | i < |aa| ensures TakesAt(aa, ms, i) {
      assert aa[i].Take? || aa[i].TakeNone? ==> i == 3;
    }
  }

  // In this run the ring is whole until the last step breaks it.
  lemma BrokenAtTheEnd(x: Cast)
    requires x.Valid()
    ensures var aa := OneRequest(x); NeverAgain(aa, 13) && ParksAgain(aa, 13)
  {
    var aa := OneRequest(x);
    assert ParkedSince(aa, 10, 13, x.w);
    forall j: nat | j < 13 ensures !ParksAgain(aa, j) {
      forall i: nat ensures !(aa[j].ParkSelf? && ParkedSince(aa, i, j, aa[j].p)) {
        assert aa[3].Take? && aa[3].w == x.w;
      }
    }
  }

  ghost predicate BreaksRing(x: Cast, ss: seq<State>, aa: seq<Action>, ms: seq<Shape<IdleNode>>) {
    && IsRun(x.Config(), ss, aa) && aa == OneRequest(x) && PointersDecide(aa, ms)
    && IsRing(MemoryAt(aa, ms, 13)) && !IsRing(MemoryAt(aa, ms, 14))
  }

  // So there is a run of the shipped protocol, with one request and every take as the pointers
  // yield it, in which the ring is broken before the request is answered.
  lemma OneRequestBreaks(x: Cast)
    requires x.Valid()
    ensures exists ss, aa, ms :: BreaksRing(x, ss, aa, ms)
  {
    ParkedTwice(x);
    var aa, ms := OneRequest(x), Memories(IdleOps(OneRequest(x)));
    assert aa[..14] == aa;
    var s := With(x, NoPush, Sleep, [], 0, Ran(x), {(x.w, x.t, x.c)}, x.Own(), x.Asked([]));
    var ss :| EndsIn(x.Config(), ss, aa[..14], s);
    TakesParked(x, aa, IdleOps(aa), ms);
    BrokenAtTheEnd(x);
    RingUntilParkedAgain(aa, ms, 13);
    RingUntilParkedAgain(aa, ms, 14);
    assert BreaksRing(x, ss, aa, ms);
  }

  // ---------------------------------------------------------------- and no request is needed

  // A parked process that is woken without a signal parks again.
  function NoRequest(x: Cast): seq<Action> {
    [PopNone(x.w), ParkSelf(x.w), Wake(x.w), ReadEvent(x.w), PopNone(x.w), ParkSelf(x.w)]
  }

  function Alone(x: Cast, base: Base): State { With(x, NoPush, base, [], 0, map[], {}, map[], map[]) }

  lemma WokenForNothing(x: Cast)
    requires x.Valid()
    ensures Leads(x, NoRequest(x), 6, Alone(x, Sleep))
  {
    var aa, cfg := NoRequest(x), x.Config();
    var s0, s1, s2, s3 := Alone(x, Drain(false)), Alone(x, Park(false)), Alone(x, Sleep), Alone(x, Read);
    assert s0.procs == Init(cfg).procs;
    assert EndsIn(cfg, [s0], aa[..0], s0);
    assert DoPopNone(cfg, s0, x.w).procs == s1.procs;
    LeadsOn(x, aa, 0, s0, s1);
    assert DoPark(cfg, s1, x.w).procs == s2.procs;
    LeadsOn(x, aa, 1, s1, s2);
    assert Apply(cfg, s2, Wake(x.w)).procs == s3.procs;
    LeadsOn(x, aa, 2, s2, s3);
    assert DoRead(cfg, s3, x.w).procs == s0.procs;
    LeadsOn(x, aa, 3, s3, s0);
    ParksForNothing(x, aa, s0, s1, s2);
  }

  lemma ParksForNothing(x: Cast, aa: seq<Action>, s0: State, s1: State, s2: State)
    requires x.Valid() && aa == NoRequest(x) && Leads(x, aa, 4, s0)
    requires s0 == Alone(x, Drain(false)) && s1 == Alone(x, Park(false)) && s2 == Alone(x, Sleep)
    ensures Leads(x, aa, 6, s2)
  {
    assert DoPopNone(x.Config(), s0, x.w).procs == s1.procs;
    LeadsOn(x, aa, 4, s0, s1);
    assert DoPark(x.Config(), s1, x.w).procs == s2.procs;
    LeadsOn(x, aa, 5, s1, s2);
  }

  ghost predicate BreaksAlone(x: Cast, ss: seq<State>, aa: seq<Action>, ms: seq<Shape<IdleNode>>) {
    && IsRun(x.Config(), ss, aa) && aa == NoRequest(x) && PointersDecide(aa, ms) && !IsRing(MemoryAt(aa, ms, 6))
  }

  lemma SpuriousWakeBreaks(x: Cast)
    requires x.Valid()
    ensures exists ss, aa, ms :: BreaksAlone(x, ss, aa, ms)
  {
    WokenForNothing(x);
    var aa, ms := NoRequest(x), Memories(IdleOps(NoRequest(x)));
    assert aa[..6] == aa;
    var ss :| EndsIn(x.Config(), ss, aa[..6], Alone(x, Sleep));
    MemoriesTrace(IdleOps(aa));
    assert ParkedSince(aa, 1, 5, x.w) && ParksAgain(aa, 5);
    RingUntilParkedAgain(aa, ms, 6);
    assert BreaksAlone(x, ss, aa, ms);
  }
}
