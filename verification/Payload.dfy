/**
 The bytes that travel with a task: req_bufs, res_bufs and res_length of the shared record,
 which the protocol steps write and read.  Module `Protocol` says when the steps happen; here
 each step comes with the bytes of its caller, and the theorems say whose bytes are sent.
 */
module Payload {
  import Codec
  import Growth
  import Writers
  import opened Options
  import opened Protocol
  import opened ProtocolInv
  import opened ProtocolSteps
  import opened ProtocolTheorems
  import opened Wire

  type Bytes = seq<byte>

  const HTTP_OK: Status := 200

  datatype Bufs = Bufs(req: Bytes, res: Bytes, resLength: nat)

  // ---------------------------------------------------------------- what the steps write

  // finish_request and forward_request serialize into res_bufs of the channel's task.
  function Serialized(s: State, c: Chan, b: Bytes, m: map<Task, Bufs>): map<Task, Bufs> {
    if c in s.chans && s.chans[c].task.Some? && s.chans[c].task.value in m then
      var u := s.chans[c].task.value;
      m[u := m[u].(res := b, resLength := |b|)]
    else m
  }

  // b is the request body, the message that is serialized, the result of the sub-request, or what
  // the reader of a closure leaves of req_bufs: it moves pos over all that it hands out.
  function WriteBufs(cfg: Config, s: State, a: Action, b: Bytes, m: map<Task, Bufs>): map<Task, Bufs>
    requires Enabled(cfg, s, a)
  {
    match a
    case Submit(p, t, r) => m[t := Bufs(b, [], 0)]
    case TakeNone(p) =>
      var t := s.procs[p].push.t;
      if t in m then m[t := m[t].(resLength := 0)] else m
    case Pop(p, c) =>
      var t := s.procs[p].mail[0];
      if p in cfg.rpc && t in m then m[t := m[t].(req := b)] else m
    case Finish(p, t, c, st) => Serialized(s, c, b, m)
    case Forward(p, t, c, f) => Serialized(s, c, b, m)
    case CompleteSub(p, t, st) => if st == HTTP_OK && t in m then m[t := m[t].(req := b)] else m
    case _ => m
  }

  // The buffers after n steps of a run whose steps come with the bytes bs.
  ghost function BufsAt(cfg: Config, ss: seq<State>, aa: seq<Action>, bs: seq<Bytes>, n: nat): map<Task, Bufs>
    requires IsRun(cfg, ss, aa) && |bs| == |aa| && n <= |aa|
    decreases n
  {
    if n == 0 then map[]
    else
      assert StepAt(cfg, ss, aa, n - 1);
      WriteBufs(cfg, ss[n - 1], aa[n - 1], bs[n - 1], BufsAt(cfg, ss, aa, bs, n - 1))
  }

  // ngx_http_rpc_request_finish: the Content-Length and the body of a response.
  function Response(x: Bufs): (nat, Bytes) { (x.resLength, if x.resLength > 0 then x.res else []) }

  // ngx_http_rpc_request_foward: the Content-Length and the body of a sub-request.
  function SubRequest(x: Bufs): (nat, Bytes) { (x.resLength, x.req) }

  // ---------------------------------------------------------------- histories with bytes

  // What one event of a task does to its buffers.
  function AfterEvent(x: Bufs, e: Event, b: Bytes): Bufs {
    match e
    case Submitted(_) => Bufs(b, [], 0)
    case Rejected(_) => x.(resLength := 0)
    case Ran(_) => x.(req := b)
    case Resumed(_, _) => x.(req := b)
    case Finished(_, _) => x.(res := b, resLength := |b|)
    case Forwarded(_) => x.(res := b, resLength := |b|)
    case SubDone(_, st) => if st == HTTP_OK then x.(req := b) else x
    case _ => x
  }

  function AfterEvents(tr: seq<Event>, ds: seq<Bytes>): Bufs
    requires |tr| == |ds|
  {
    if tr == [] then Bufs([], [], 0)
    else AfterEvent(AfterEvents(tr[..|tr| - 1], ds[..|tr| - 1]), tr[|tr| - 1], ds[|tr| - 1])
  }

  // The event that a step notes in the history of t.
  function EventFor(cfg: Config, s: State, a: Action, t: Task): Option<Event>
    requires Enabled(cfg, s, a) && t in s.tasks
  {
    match a
    case TakeNone(p) => if s.procs[p].push.t == t then Some(Rejected(p)) else None
    case Pop(p, c) => if s.procs[p].mail[0] == t then Some(PopEvent(cfg, s.tasks[t], p)) else None
    case Finish(p, u, c, st) => if c in s.chans && s.chans[c].task == Some(t) then Some(Event.Finished(p, st)) else None
    case Forward(p, u, c, f) => if c in s.chans && s.chans[c].task == Some(t) then Some(Event.Forwarded(p)) else None
    case CompleteSub(p, u, st) => if u == t then Some(SubDone(p, st)) else None
    case _ => None
  }

  function With(tr: seq<Event>, e: Option<Event>): seq<Event> { if e.Some? then tr + [e.value] else tr }

  lemma TraceOfStep(cfg: Config, s: State, a: Action, t: Task)
    requires Enabled(cfg, s, a) && t in s.tasks && !Apply(cfg, s, a).fault
    ensures t in Apply(cfg, s, a).tasks
    ensures Apply(cfg, s, a).tasks[t].trace == With(s.tasks[t].trace, EventFor(cfg, s, a, t))
  {
    match a
    case Pop(p, c) => PopNotes(cfg, s, p, c);
    case Finish(p, u, c, st) => FinishTrace(s, p, u, c, st, t);
    case Forward(p, u, c, f) => ForwardTrace(s, p, u, c, f, t);
    case Submit(_, _, _) =>
    case Take(_, _) =>
    case TakeNone(p) => RefusalTrace(s, p, t);
    case CompleteSub(p, u, st) => CompleteTrace(s, p, u, st, t);
    case DeleteChannel(_, _) =>
    case _ => MechanicalStep(cfg, s, a);
  }

  lemma RefusalTrace(s: State, p: Proc, t: Task)
    requires p in s.procs && s.procs[p].push.Pick? && t in s.tasks && !DoTakeNone(s, p).fault
    ensures t in DoTakeNone(s, p).tasks
    ensures DoTakeNone(s, p).tasks[t].trace == s.tasks[t].trace + if s.procs[p].push.t == t then [Rejected(p)] else []
  {
  }

  lemma CompleteTrace(s: State, p: Proc, u: Task, st: Status, t: Task)
    requires p in s.procs && t in s.tasks && !DoCompleteSub(s, p, u, st).fault
    ensures t in DoCompleteSub(s, p, u, st).tasks
    ensures DoCompleteSub(s, p, u, st).tasks[t].trace == s.tasks[t].trace + if u == t then [SubDone(p, st)] else []
  {
  }

  lemma FinishTrace(s: State, p: Proc, u: Task, c: Chan, st: Status, t: Task)
    requires p in s.procs && t in s.tasks && !DoFinish(s, p, u, c, st).fault
    ensures t in DoFinish(s, p, u, c, st).tasks && c in s.chans
    ensures DoFinish(s, p, u, c, st).tasks[t].trace ==
      s.tasks[t].trace + if s.chans[c].task == Some(t) then [Event.Finished(p, st)] else []
  {
  }

  lemma ForwardTrace(s: State, p: Proc, u: Task, c: Chan, f: Chan, t: Task)
    requires p in s.procs && t in s.tasks && !DoForward(s, p, u, c, f).fault
    ensures t in DoForward(s, p, u, c, f).tasks && c in s.chans
    ensures DoForward(s, p, u, c, f).tasks[t].trace ==
      s.tasks[t].trace + if s.chans[c].task == Some(t) then [Event.Forwarded(p)] else []
  {
  }

  lemma BufsOfStep(cfg: Config, s: State, a: Action, b: Bytes, m: map<Task, Bufs>, t: Task)
    requires Enabled(cfg, s, a) && t in s.tasks && t in m
    ensures t in WriteBufs(cfg, s, a, b, m)
    ensures WriteBufs(cfg, s, a, b, m)[t] ==
      match EventFor(cfg, s, a, t) case None => m[t] case Some(e) => AfterEvent(m[t], e, b)
  {
  }

  // ---------------------------------------------------------------- runs

  function TraceOf(s: State, t: Task): seq<Event> { if t in s.tasks then s.tasks[t].trace else [] }

  // Step i adds event e to the history of t.
  ghost predicate Notes(ss: seq<State>, i: nat, t: Task, e: Event) {
    i + 1 < |ss| && t in ss[i + 1].tasks && TraceOf(ss[i + 1], t) == TraceOf(ss[i], t) + [e]
  }

  // The bytes that came with the events of t.
  ghost function DataAt(ss: seq<State>, bs: seq<Bytes>, n: nat, t: Task): seq<Bytes>
    requires n < |ss| == |bs| + 1
    decreases n
  {
    if n == 0 then []
    else
      DataAt(ss, bs, n - 1, t) + if |TraceOf(ss[n], t)| > |TraceOf(ss[n - 1], t)| then [bs[n - 1]] else []
  }

  lemma AfterEventsSnoc(tr: seq<Event>, ds: seq<Bytes>, e: Event, b: Bytes)
    requires |tr| == |ds|
    ensures AfterEvents(tr + [e], ds + [b]) == AfterEvent(AfterEvents(tr, ds), e, b)
  {
    assert (tr + [e])[..|tr|] == tr && (ds + [b])[..|tr|] == ds;
  }

  lemma NewTask(cfg: Config, s: State, a: Action, t: Task)
    requires Enabled(cfg, s, a) && t !in s.tasks && t in Apply(cfg, s, a).tasks && !Apply(cfg, s, a).fault
    ensures a.Submit? && a.t == t && Apply(cfg, s, a).tasks[t].trace == [Submitted(a.p)]
  {
    match a
    case Pop(p, c) => PopNotes(cfg, s, p, c);
    case Submit(_, _, _) =>
    case Take(_, _) => NoNewTask(cfg, s, a);
    case TakeNone(_) => NoNewTask(cfg, s, a);
    case Finish(_, _, _, _) => NoNewTask(cfg, s, a);
    case Forward(_, _, _, _) => NoNewTask(cfg, s, a);
    case CompleteSub(_, _, _) => NoNewTask(cfg, s, a);
    case DeleteChannel(_, _) =>
    case _ => MechanicalStep(cfg, s, a);
  }

  lemma NoNewTask(cfg: Config, s: State, a: Action)
    requires Enabled(cfg, s, a) && !Apply(cfg, s, a).fault
    requires a.Take? || a.TakeNone? || a.Finish? || a.Forward? || a.CompleteSub?
    ensures Apply(cfg, s, a).tasks.Keys == s.tasks.Keys
  {
  }

  // A step notes nothing for t, or one event, and writes the buffers as that event says.
  lemma OneStep(cfg: Config, ss: seq<State>, aa: seq<Action>, bs: seq<Bytes>, i: nat, t: Task)
    returns (e: Option<Event>)
    requires IsRun(cfg, ss, aa) && |bs| == |aa| && i < |aa| && t in ss[i + 1].tasks
    requires t in ss[i].tasks ==> t in BufsAt(cfg, ss, aa, bs, i)
    ensures TraceOf(ss[i + 1], t) == With(TraceOf(ss[i], t), e)
    ensures var m, m' := BufsAt(cfg, ss, aa, bs, i), BufsAt(cfg, ss, aa, bs, i + 1);
      && t in m'
      && (t in ss[i].tasks ==> m'[t] == if e.None? then m[t] else AfterEvent(m[t], e.value, bs[i]))
      && (t !in ss[i].tasks ==> e.Some? && e.value.Submitted? && m'[t] == Bufs(bs[i], [], 0))
  {
    assert StepAt(cfg, ss, aa, i);
    NoFault(cfg, ss, aa, i + 1);
    if t in ss[i].tasks {
      e := EventFor(cfg, ss[i], aa[i], t);
      TraceOfStep(cfg, ss[i], aa[i], t);
      BufsOfStep(cfg, ss[i], aa[i], bs[i], BufsAt(cfg, ss, aa, bs, i), t);
    } else {
      NewTask(cfg, ss[i], aa[i], t);
      e := Some(Submitted(aa[i].p));
    }
  }

  lemma {:induction false} NoDataYet(cfg: Config, ss: seq<State>, aa: seq<Action>, bs: seq<Bytes>, n: nat, t: Task)
    requires IsRun(cfg, ss, aa) && |bs| == |aa| && n < |ss| && t !in ss[n].tasks
    ensures DataAt(ss, bs, n, t) == []
  {
    if n > 0 {
      if t in ss[n - 1].tasks {
        TargetsOfStep(cfg, ss, aa, n - 1, t);
      } else {
        NoDataYet(cfg, ss, aa, bs, n - 1, t);
      }
    }
  }

  // The buffers are what the events of the task, with their bytes, make of them: no step for
  // another task, and no step that leaves no event, touches them.
  lemma {:induction false} BufsAreEvents(cfg: Config, ss: seq<State>, aa: seq<Action>, bs: seq<Bytes>, n: nat, t: Task)
    requires IsRun(cfg, ss, aa) && |bs| == |aa| && n < |ss| && t in ss[n].tasks
    ensures t in BufsAt(cfg, ss, aa, bs, n) && |DataAt(ss, bs, n, t)| == |TraceOf(ss[n], t)|
    ensures BufsAt(cfg, ss, aa, bs, n)[t] == AfterEvents(TraceOf(ss[n], t), DataAt(ss, bs, n, t))
  {
    if n > 0 {
      var i: nat := n - 1;
      var tr, ds := TraceOf(ss[i], t), DataAt(ss, bs, i, t);
      if t in ss[i].tasks {
        BufsAreEvents(cfg, ss, aa, bs, i, t);
      } else {
        NoDataYet(cfg, ss, aa, bs, i, t);
      }
      var e := OneStep(cfg, ss, aa, bs, i, t);
      if e.Some? {
        AfterEventsSnoc(tr, ds, e.value, bs[i]);
      } else {
        assert ds + [] == ds;
      }
    }
  }

  // A history and its bytes grow together, by one event at most.
  lemma DataGrows(cfg: Config, ss: seq<State>, aa: seq<Action>, bs: seq<Bytes>, i: nat, t: Task)
    requires IsRun(cfg, ss, aa) && |bs| == |aa| && i < |aa| && t in ss[i + 1].tasks
    ensures |DataAt(ss, bs, i, t)| == |TraceOf(ss[i], t)| && |DataAt(ss, bs, i + 1, t)| == |TraceOf(ss[i + 1], t)|
    ensures TraceOf(ss[i], t) <= TraceOf(ss[i + 1], t) && |TraceOf(ss[i + 1], t)| <= |TraceOf(ss[i], t)| + 1
  {
    if t in ss[i].tasks {
      BufsAreEvents(cfg, ss, aa, bs, i, t);
    } else {
      NoDataYet(cfg, ss, aa, bs, i, t);
    }
    var e := OneStep(cfg, ss, aa, bs, i, t);
  }

  // Every event of a history was noted by a step, with that step's bytes.
  lemma {:induction false} StepOf(cfg: Config, ss: seq<State>, aa: seq<Action>, bs: seq<Bytes>, n: nat, t: Task, k: nat)
    returns (i: nat)
    requires IsRun(cfg, ss, aa) && |bs| == |aa| && n < |ss| && t in ss[n].tasks && k < |TraceOf(ss[n], t)|
    ensures i < n && Notes(ss, i, t, TraceOf(ss[n], t)[k])
    ensures k < |DataAt(ss, bs, n, t)| && DataAt(ss, bs, n, t)[k] == bs[i]
    ensures TraceOf(ss[i], t) == TraceOf(ss[n], t)[..k] && DataAt(ss, bs, i, t) == DataAt(ss, bs, n, t)[..k]
  {
    i := n - 1;
    DataGrows(cfg, ss, aa, bs, n - 1, t);
    if k < |TraceOf(ss[n - 1], t)| {
      i := StepOf(cfg, ss, aa, bs, n - 1, t, k);
    }
  }

  // ---------------------------------------------------------------- whose bytes are sent

  // Which event comes directly before e.
  predicate Precedes(last: Event, e: Event) {
    match e
    case Submitted(_) => false
    case Rejected(_) => last.Submitted?
    case Ran(_) => last.Submitted?
    case Forwarded(_) => last.Ran? || last.Resumed?
    case SubStarted(_) => last.Forwarded?
    case SubDone(_, _) => last.SubStarted?
    case Resumed(_, st) => last.SubDone? && last.st == st
    case Finished(_, _) => last.Ran? || last.Resumed?
    case Responded(_, st) => last.Finished? && last.st == st
  }

  // What a phase says about the history.
  lemma PhaseEvents(tr: seq<Event>, h: Proc, w: Proc)
    ensures var ph := PhaseOf(tr, h, w);
      && (tr == [] ==> ph.Start?)
      && (tr != [] && !ph.Bad? ==>
           && !ph.Start? && tr[0].Submitted?
           && (ph.Sent? ==> tr[|tr| - 1].Submitted?)
           && (ph.Held? ==> tr[|tr| - 1].Ran? || tr[|tr| - 1].Resumed?)
           && (ph.Forwarding? ==> tr[|tr| - 1].Forwarded?)
           && (ph.InSub? ==> tr[|tr| - 1].SubStarted?)
           && (ph.Returned? ==> tr[|tr| - 1].SubDone? && tr[|tr| - 1].st == ph.st)
           && (ph.Closing? ==> tr[|tr| - 1].Finished? && tr[|tr| - 1].st == ph.st))
    decreases |tr|
  {
    if tr != [] {
      PhaseEvents(tr[..|tr| - 1], h, w);
    }
  }

  lemma Succession(tr: seq<Event>, h: Proc, w: Proc, e: Event)
    requires !PhaseOf(tr + [e], h, w).Bad? && !e.Submitted?
    ensures tr != [] && Precedes(tr[|tr| - 1], e)
  {
    PhaseSnoc(tr, e, h, w);
    PhaseEvents(tr, h, w);
  }

  lemma HistoryNotBad(cfg: Config, ss: seq<State>, aa: seq<Action>, n: nat, t: Task)
    requires IsRun(cfg, ss, aa) && n < |ss| && t in ss[n].tasks
    ensures TraceOf(ss[n], t) != [] && TraceOf(ss[n], t)[0].Submitted?
    ensures !PhaseOf(TraceOf(ss[n], t), ss[n].tasks[t].done, WorkerOf(ss[n].tasks[t])).Bad?
  {
    var loc := RunInv(cfg, ss, aa, n);
    var k := ss[n].tasks[t];
    NeverBad(cfg, t, k, loc[t], ss[n].chans, ss[n].reqs);
    NeverStart(cfg, t, k, loc[t], ss[n].chans, ss[n].reqs);
    PhaseEvents(k.trace, k.done, WorkerOf(k));
  }

  lemma NeverStart(cfg: Config, t: Task, k: TaskRec, l: Loc, chans: map<Chan, ChanRec>, reqs: map<Req, ReqRec>)
    requires TaskOk(cfg, t, k, l, chans, reqs)
    ensures !TaskPhase(k).Start?
  {
    FreshPhase(k.done, WorkerOf(k));
  }

  function LastEvent(s: State, t: Task): Event
    requires TraceOf(s, t) != []
  {
    TraceOf(s, t)[|TraceOf(s, t)| - 1]
  }

  // Before an event of t comes the step that noted the event before.
  lemma StepBefore(cfg: Config, ss: seq<State>, aa: seq<Action>, bs: seq<Bytes>, i: nat, t: Task, e: Event)
    returns (j: nat)
    requires IsRun(cfg, ss, aa) && |bs| == |aa| && i < |aa| && Notes(ss, i, t, e) && !e.Submitted?
    ensures t in ss[i].tasks && TraceOf(ss[i], t) != [] && Precedes(LastEvent(ss[i], t), e)
    ensures j < i && Notes(ss, j, t, LastEvent(ss[i], t))
    ensures t in BufsAt(cfg, ss, aa, bs, i)
    ensures LastEvent(ss[i], t).Submitted? ==> BufsAt(cfg, ss, aa, bs, i)[t] == Bufs(bs[j], [], 0)
    ensures !LastEvent(ss[i], t).Submitted? ==> (
      && t in BufsAt(cfg, ss, aa, bs, j)
      && BufsAt(cfg, ss, aa, bs, i)[t] == AfterEvent(BufsAt(cfg, ss, aa, bs, j)[t], LastEvent(ss[i], t), bs[j]))
  {
    var tr, ds := TraceOf(ss[i], t), DataAt(ss, bs, i, t);
    HistoryNotBad(cfg, ss, aa, i + 1, t);
    Succession(tr, ss[i + 1].tasks[t].done, WorkerOf(ss[i + 1].tasks[t]), e);
    BufsAreEvents(cfg, ss, aa, bs, i, t);
    j := StepOf(cfg, ss, aa, bs, i, t, |tr| - 1);
    if !LastEvent(ss[i], t).Submitted? {
      HistoryNotBad(cfg, ss, aa, i, t);
      assert |tr| > 1;
      BufsAreEvents(cfg, ss, aa, bs, j, t);
    }
  }

  // A response carries exactly the bytes that the service serialized when it finished, with
  // their number as Content-Length.
  lemma ResponseIsWhatWasFinished(cfg: Config, ss: seq<State>, aa: seq<Action>, bs: seq<Bytes>,
                                  i: nat, t: Task, p: Proc, st: Status) returns (j: nat)
    requires IsRun(cfg, ss, aa) && |bs| == |aa| && i < |aa| && Notes(ss, i, t, Responded(p, st))
    ensures TraceOf(ss[i], t) != [] && LastEvent(ss[i], t).Finished? && LastEvent(ss[i], t).st == st
    ensures j < i && Notes(ss, j, t, LastEvent(ss[i], t)) && t in BufsAt(cfg, ss, aa, bs, i)
    ensures Response(BufsAt(cfg, ss, aa, bs, i)[t]) == (|bs[j]|, bs[j])
  {
    j := StepBefore(cfg, ss, aa, bs, i, t, Responded(p, st));
  }

  // A service that finishes with message ms[j] in step j brings the body that the shared-memory
  // writer makes of it.
  ghost predicate Serializing(ss: seq<State>, bs: seq<Bytes>, ms: seq<Codec.Msg>)
    requires |bs| == |ms|
  {
    forall j: nat, t, p, st | j < |ms| && Notes(ss, j, t, Event.Finished(p, st)) ::
      Codec.MsgOk(ms[j]) && Writers.IsBody(1, Codec.Serialize(ms[j]), bs[j])
  }

  // Then a response goes out with the length of its service's message, and parses to it if that
  // fits the first chunk or fills the last.
  lemma ResponseParses(cfg: Config, ss: seq<State>, aa: seq<Action>, bs: seq<Bytes>, ms: seq<Codec.Msg>,
                       i: nat, t: Task, p: Proc, st: Status) returns (j: nat)
    requires IsRun(cfg, ss, aa) && |bs| == |aa| == |ms| && i < |aa| && Notes(ss, i, t, Responded(p, st))
    requires Serializing(ss, bs, ms)
    ensures TraceOf(ss[i], t) != [] && LastEvent(ss[i], t).Finished? && LastEvent(ss[i], t).st == st
    ensures j < i && Notes(ss, j, t, LastEvent(ss[i], t)) && t in BufsAt(cfg, ss, aa, bs, i)
    ensures var msg, r := Codec.Serialize(ms[j]), Response(BufsAt(cfg, ss, aa, bs, i)[t]);
      && r.0 == |msg| == |r.1|
      && (|msg| <= Growth.Size(1, 0) || |msg| == Growth.Cap(1, Growth.ChunksFor(1, |msg|)) ==>
            Codec.Parse(r.1) == Codec.Ended(ms[j]))
  {
    j := ResponseIsWhatWasFinished(cfg, ss, aa, bs, i, t, p, st);
    assert Notes(ss, j, t, Event.Finished(LastEvent(ss[i], t).p, st));
    Writers.BodyIsMessage(1, Codec.Serialize(ms[j]), bs[j]);
    Codec.RoundTrip(ms[j]);
  }

  // A refused request is answered without a body.
  lemma RefusalIsEmpty(cfg: Config, ss: seq<State>, aa: seq<Action>, bs: seq<Bytes>, i: nat, t: Task, p: Proc)
    requires IsRun(cfg, ss, aa) && |bs| == |aa| && i < |aa| && Notes(ss, i, t, Rejected(p))
    ensures t in BufsAt(cfg, ss, aa, bs, i + 1) && Response(BufsAt(cfg, ss, aa, bs, i + 1)[t]) == (0, [])
  {
    var j := StepBefore(cfg, ss, aa, bs, i, t, Rejected(p));
    var e := OneStep(cfg, ss, aa, bs, i, t);
    assert TraceOf(ss[i + 1], t)[|TraceOf(ss[i], t)|] == Rejected(p);
  }

  // The events that fill res_bufs.
  predicate SetsResult(e: Event) { e.Finished? || e.Forwarded? }

  // A history that has gone on from its submission does not end with one.
  lemma OnlyFirstSubmits(tr: seq<Event>, h: Proc, w: Proc)
    requires |tr| > 1 && !PhaseOf(tr, h, w).Bad?
    ensures !tr[|tr| - 1].Submitted?
  {
    var n := |tr| - 1;
    assert tr == tr[..n] + [tr[n]];
    PhaseSnoc(tr[..n], tr[n], h, w);
    PhaseEvents(tr[..n], h, w);
  }

  // res_bufs and res_length are what the last finish or forward has serialized.
  lemma {:induction false} ResultBytes(cfg: Config, ss: seq<State>, aa: seq<Action>, bs: seq<Bytes>, q: nat, i: nat,
                                       t: Task, e: Event)
    requires IsRun(cfg, ss, aa) && |bs| == |aa| && q < i < |ss| && Notes(ss, q, t, e) && SetsResult(e)
    requires forall l: nat, e' | q < l < i && Notes(ss, l, t, e') :: !SetsResult(e')
    ensures t in ss[i].tasks && |TraceOf(ss[i], t)| > 1 && t in BufsAt(cfg, ss, aa, bs, i)
    ensures BufsAt(cfg, ss, aa, bs, i)[t].res == bs[q] && BufsAt(cfg, ss, aa, bs, i)[t].resLength == |bs[q]|
  {
    if i == q + 1 {
      ResultSet(cfg, ss, aa, bs, q, t, e);
    } else {
      ResultBytes(cfg, ss, aa, bs, q, i - 1, t, e);
      ResultKept(cfg, ss, aa, bs, i - 1, t);
    }
  }

  lemma ResultSet(cfg: Config, ss: seq<State>, aa: seq<Action>, bs: seq<Bytes>, q: nat, t: Task, e: Event)
    requires IsRun(cfg, ss, aa) && |bs| == |aa| && q < |aa| && Notes(ss, q, t, e) && SetsResult(e)
    ensures t in ss[q + 1].tasks && |TraceOf(ss[q + 1], t)| > 1 && t in BufsAt(cfg, ss, aa, bs, q + 1)
    ensures var x := BufsAt(cfg, ss, aa, bs, q + 1)[t]; x.res == bs[q] && x.resLength == |bs[q]|
  {
    var j := StepBefore(cfg, ss, aa, bs, q, t, e);
    var o := OneStep(cfg, ss, aa, bs, q, t);
    assert With(TraceOf(ss[q], t), o)[|TraceOf(ss[q], t)|] == e;
  }

  // An event that is neither leaves them alone.
  lemma ResultKept(cfg: Config, ss: seq<State>, aa: seq<Action>, bs: seq<Bytes>, i: nat, t: Task)
    requires IsRun(cfg, ss, aa) && |bs| == |aa| && i < |aa| && t in ss[i].tasks && |TraceOf(ss[i], t)| > 1
    requires t in BufsAt(cfg, ss, aa, bs, i) && forall e | Notes(ss, i, t, e) :: !SetsResult(e)
    ensures t in ss[i + 1].tasks && |TraceOf(ss[i + 1], t)| > 1 && t in BufsAt(cfg, ss, aa, bs, i + 1)
    ensures var x, y := BufsAt(cfg, ss, aa, bs, i)[t], BufsAt(cfg, ss, aa, bs, i + 1)[t];
      y.res == x.res && y.resLength == x.resLength
  {
    TargetsOfStep(cfg, ss, aa, i, t);
    var o := OneStep(cfg, ss, aa, bs, i, t);
    if o.Some? {
      assert Notes(ss, i, t, o.value);
      NoRefusal(cfg, ss, aa, i, t, o.value);
    }
  }

  // A task whose history has gone on from its submission is not submitted or refused any more.
  lemma NoRefusal(cfg: Config, ss: seq<State>, aa: seq<Action>, i: nat, t: Task, e: Event)
    requires IsRun(cfg, ss, aa) && i < |aa| && t in ss[i].tasks && |TraceOf(ss[i], t)| > 1 && Notes(ss, i, t, e)
    ensures !e.Submitted? && !e.Rejected?
  {
    HistoryNotBad(cfg, ss, aa, i, t);
    HistoryNotBad(cfg, ss, aa, i + 1, t);
    var k, k' := ss[i].tasks[t], ss[i + 1].tasks[t];
    OnlyFirstSubmits(TraceOf(ss[i], t), k.done, WorkerOf(k));
    OnlyFirstSubmits(TraceOf(ss[i + 1], t), k'.done, WorkerOf(k'));
    if !e.Submitted? {
      Succession(TraceOf(ss[i], t), k'.done, WorkerOf(k'), e);
    }
  }

  // The events that change what req_bufs hold: a copy is put in, or a closure reads.
  predicate SetsRequest(e: Event) { e.Submitted? || Reads(e) || (e.SubDone? && e.st == HTTP_OK) }

  predicate Reads(e: Event) { e.Ran? || e.Resumed? }

  function LastSet(tr: seq<Event>): (k: nat)
    requires tr != [] && tr[0].Submitted?
    ensures k < |tr| && SetsRequest(tr[k]) && forall l :: k < l < |tr| ==> !SetsRequest(tr[l])
  {
    if SetsRequest(tr[|tr| - 1]) then |tr| - 1 else LastSet(tr[..|tr| - 1])
  }

  lemma {:induction false} RequestIsLastSet(tr: seq<Event>, ds: seq<Bytes>)
    requires |tr| == |ds| && tr != [] && tr[0].Submitted?
    ensures AfterEvents(tr, ds).req == ds[LastSet(tr)]
  {
    if !SetsRequest(tr[|tr| - 1]) {
      RequestIsLastSet(tr[..|tr| - 1], ds[..|ds| - 1]);
    }
  }

  // Step q is the last before step i that set what req_bufs of t hold.
  ghost predicate SetBy(ss: seq<State>, i: nat, t: Task, q: nat) {
    && q < i && (exists e :: SetsRequest(e) && Notes(ss, q, t, e))
    && forall l: nat, e | q < l < i && Notes(ss, l, t, e) :: !SetsRequest(e)
  }

  lemma {:induction false} TraceGrows(cfg: Config, ss: seq<State>, aa: seq<Action>, i: nat, j: nat, t: Task)
    requires IsRun(cfg, ss, aa) && i <= j < |ss|
    ensures TraceOf(ss[i], t) <= TraceOf(ss[j], t)
  {
    if t in ss[i].tasks {
      TargetsNeverChange(cfg, ss, aa, i, j, t);
    }
  }

  // An event noted after step q stands behind those of that time in every later history.
  lemma NotedLater(cfg: Config, ss: seq<State>, aa: seq<Action>, q: nat, l: nat, i: nat, t: Task, e: Event)
    requires IsRun(cfg, ss, aa) && q < l < i < |ss| && Notes(ss, l, t, e)
    ensures |TraceOf(ss[q + 1], t)| <= |TraceOf(ss[l], t)| < |TraceOf(ss[i], t)|
    ensures TraceOf(ss[i], t)[|TraceOf(ss[l], t)|] == e
  {
    TraceGrows(cfg, ss, aa, q + 1, l, t);
    TraceGrows(cfg, ss, aa, l + 1, i, t);
  }

  lemma LastSetter(cfg: Config, ss: seq<State>, aa: seq<Action>, i: nat, t: Task, q: nat)
    requires IsRun(cfg, ss, aa) && q < i < |ss| && TraceOf(ss[i], t) != [] && TraceOf(ss[i], t)[0].Submitted?
    requires var k := LastSet(TraceOf(ss[i], t));
      Notes(ss, q, t, TraceOf(ss[i], t)[k]) && |TraceOf(ss[q + 1], t)| == k + 1
    ensures SetBy(ss, i, t, q)
  {
    forall l: nat, e | q < l < i && Notes(ss, l, t, e) ensures !SetsRequest(e) {
      NotedLater(cfg, ss, aa, q, l, i, t, e);
    }
  }

  // What is left to read in req_bufs is what the last step that set them has put there or left
  // there: the request's body, the result of a sub-request that ended with 200, or what a
  // closure left when it read.
  lemma RequestBytes(cfg: Config, ss: seq<State>, aa: seq<Action>, bs: seq<Bytes>, i: nat, t: Task) returns (q: nat)
    requires IsRun(cfg, ss, aa) && |bs| == |aa| && i < |ss| && t in ss[i].tasks
    ensures SetBy(ss, i, t, q) && t in BufsAt(cfg, ss, aa, bs, i) && BufsAt(cfg, ss, aa, bs, i)[t].req == bs[q]
  {
    HistoryNotBad(cfg, ss, aa, i, t);
    BufsAreEvents(cfg, ss, aa, bs, i, t);
    RequestIsLastSet(TraceOf(ss[i], t), DataAt(ss, bs, i, t));
    q := StepOf(cfg, ss, aa, bs, i, t, LastSet(TraceOf(ss[i], t)));
    LastSetter(cfg, ss, aa, i, t, q);
  }

  // A service first reads the body of the request.
  lemma ServiceReads(cfg: Config, ss: seq<State>, aa: seq<Action>, bs: seq<Bytes>, i: nat, t: Task, p: Proc)
    returns (j: nat)
    requires IsRun(cfg, ss, aa) && |bs| == |aa| && i < |aa| && Notes(ss, i, t, Ran(p))
    ensures TraceOf(ss[i], t) != [] && LastEvent(ss[i], t).Submitted?
    ensures j < i && Notes(ss, j, t, LastEvent(ss[i], t))
    ensures t in BufsAt(cfg, ss, aa, bs, i) && BufsAt(cfg, ss, aa, bs, i)[t].req == bs[j]
  {
    j := StepBefore(cfg, ss, aa, bs, i, t, Ran(p));
  }
}
