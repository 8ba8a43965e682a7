/**
 The dispatch protocol between HTTP workers and RPC processes as a transition system over
 any number of processes, tasks, requests and channels.

 Every locked region is one step, and so is every eventfd read or write; between two steps
 of one process any other process may move.  The shared task record, the channels and the
 requests carry the fields that the program writes, and a step that the program could only
 take through a bad pointer (a deleted channel, another process's private object, an unset
 handler, a task that is already linked) sets `fault` instead.
 */
module Protocol {
  import opened Eventfd
  import opened Options

  type Proc = nat
  type Task = nat
  type Chan = nat
  type Req = nat
  type Status = int

  const INTERNAL_SERVER_ERROR: Status := 500

  // `guarded` is the protocol as it was meant: the read handler runs the handler only after
  // a successful read, the idle ring is the one that workers park on, and no service
  // forwards.  Otherwise the protocol is the shipped one, with forwarding, and the idle
  // ring may yield any registered worker or none (see `LinkMemory.IdleTakes` for why).
  datatype Config = Config(http: set<Proc>, rpc: set<Proc>, guarded: bool)

  // History of one task; never read by a step.
  datatype Event =
    | Submitted(p: Proc)
    | Rejected(p: Proc)
    | Ran(p: Proc)
    | Forwarded(p: Proc)
    | SubStarted(p: Proc)
    | SubDone(p: Proc, st: Status)
    | Resumed(p: Proc, st: Status)
    | Finished(p: Proc, st: Status)
    | Responded(p: Proc, st: Status)

  // task->closure: the generated method handler with its context, or RpcChannel::foward_done.
  datatype Closure = Method(r: Req) | ForwardDone(c: Chan)

  // task->finish: unset, ngx_http_rpc_request_finish or ngx_http_rpc_request_foward.
  datatype Finisher = NoFinish | RequestFinish(r: Req) | RequestForward(r: Req)

  // ngx_rpc_task_t.  `req` is the request of the context the task belongs to.
  datatype TaskRec = TaskRec(
    req: Req,
    proc: Option<Proc>,   // proc_notify
    done: Proc,           // done_notify
    closure: Closure,
    finish: Finisher,
    status: Status,       // response_states
    trace: seq<Event>)

  // RpcChannel, in the private memory of `owner`.  forward_request leaves `task` of the new
  // channel unset.  `serves` is the task it was made for; no step reads it.
  datatype ChanRec = ChanRec(owner: Proc, task: Option<Task>, r: Req, pre: Option<Chan>, serves: Task)

  // ngx_http_request_t, in the private memory of `owner`, with the responses sent so far.
  datatype ReqRec = ReqRec(owner: Proc, responses: seq<Status>, serves: Task)

  // Where the event loop of a process stands.  `again` is the result of the last read.
  datatype Base = Sleep | Read | Drain(again: bool) | Park(again: bool)

  // The rest of a submission or of a push that the process is in the middle of.
  datatype Push = NoPush | Pick(t: Task, r: Req) | Link(t: Task, dest: Proc) | Signal(dest: Proc)

  // A process with its mailbox and its eventfd counter; `del` are the channels it is about
  // to delete before it goes on.
  datatype ProcState = ProcState(base: Base, push: Push, del: set<Chan>, mail: seq<Task>, efd: nat)

  datatype State = State(
    procs: map<Proc, ProcState>,
    idle: seq<Proc>,
    tasks: map<Task, TaskRec>,
    svc: set<(Proc, Task, Chan)>,   // tasks in the hands of a service, with their channel
    sub: set<(Proc, Task)>,         // sub-requests under way
    chans: map<Chan, ChanRec>,      // channels not deleted yet
    reqs: map<Req, ReqRec>,
    fault: bool)

  // Once registered, every process sees one write event, whose handler drains (and parks)
  // without a read.
  function Init(cfg: Config): State {
    State(map p | p in cfg.http + cfg.rpc :: ProcState(Drain(false), NoPush, {}, [], 0),
          [], map[], {}, {}, map[], map[], false)
  }

  // ---------------------------------------------------------------- field writes

  function WithProc(s: State, p: Proc, ps: ProcState): State { s.(procs := s.procs[p := ps]) }

  function WithTask(s: State, t: Task, k: TaskRec): State { s.(tasks := s.tasks[t := k]) }

  function Fault(s: State): State { s.(fault := true) }

  function Noted(k: TaskRec, e: Event): TaskRec { k.(trace := k.trace + [e]) }

  // ngx_http_rpc_request_finish by process p on request r.
  function Respond(s: State, p: Proc, r: Req, st: Status): State {
    if r in s.reqs && s.reqs[r].owner == p && s.reqs[r].responses == []
    then s.(reqs := s.reqs[r := s.reqs[r].(responses := [st])])
    else Fault(s)
  }

  // ---------------------------------------------------------------- steps

  datatype Action =
    | Submit(p: Proc, t: Task, r: Req)
    | Take(p: Proc, w: Proc)
    | TakeNone(p: Proc)
    | LinkNode(p: Proc)
    | WriteEvent(p: Proc)
    | Wake(p: Proc)
    | ReadEvent(p: Proc)
    | Pop(p: Proc, c: Chan)
    | PopNone(p: Proc)
    | ParkSelf(p: Proc)
    | Finish(p: Proc, t: Task, c: Chan, st: Status)
    | Forward(p: Proc, t: Task, c: Chan, f: Chan)
    | DeleteChannel(p: Proc, c: Chan)
    | CompleteSub(p: Proc, t: Task, st: Status)

  predicate Settled(ps: ProcState) { ps.push.NoPush? && ps.del == {} }

  // Between two handlers, or inside one that has nothing left to do with a task of its own.
  predicate InLoop(ps: ProcState) { ps.push.NoPush? && (ps.base.Sleep? || ps.base.Drain?) }

  predicate Enabled(cfg: Config, s: State, a: Action) {
    && a.p in s.procs
    && var ps := s.procs[a.p];
       match a
       case Submit(p, t, r) => p in cfg.http && InLoop(ps) && t !in s.tasks && r !in s.reqs
       case Take(p, w) => ps.push.Pick? && (if cfg.guarded then s.idle != [] && w == s.idle[0] else w in cfg.rpc)
       case TakeNone(p) => ps.push.Pick? && (cfg.guarded ==> s.idle == [])
       case LinkNode(p) => ps.push.Link?
       case WriteEvent(p) => ps.push.Signal?
       case Wake(p) => ps.base.Sleep? && Settled(ps)
       case ReadEvent(p) => ps.base.Read? && Settled(ps)
       case Pop(p, c) => ps.base.Drain? && Settled(ps) && ps.mail != [] && c !in s.chans
       case PopNone(p) => ps.base.Drain? && Settled(ps) && ps.mail == []
       case ParkSelf(p) => ps.base.Park? && Settled(ps)
       case Finish(p, t, c, st) => InLoop(ps) && (p, t, c) in s.svc
       case Forward(p, t, c, f) => !cfg.guarded && InLoop(ps) && (p, t, c) in s.svc && f !in s.chans
       case DeleteChannel(p, c) => ps.push.NoPush? && c in ps.del
       case CompleteSub(p, t, st) => InLoop(ps) && (p, t) in s.sub
  }

  // ngx_http_rpc_post_async_handler up to the push: lines 203-217.
  function DoSubmit(s: State, p: Proc, t: Task, r: Req): State
    requires p in s.procs
  {
    var k := TaskRec(r, None, p, Method(r), NoFinish, 0, [Submitted(p)]);
    var s1 := WithTask(s.(reqs := s.reqs[r := ReqRec(p, [], t)]), t, k);
    WithProc(s1, p, s.procs[p].(push := Pick(t, r)))
  }

  // ngx_rpc_queue_push_and_notify with a worker: lines 70-89.
  function DoTake(cfg: Config, s: State, p: Proc, w: Proc): State
    requires p in s.procs && s.procs[p].push.Pick? && (cfg.guarded ==> s.idle != [])
  {
    var t := s.procs[p].push.t;
    if t !in s.tasks then Fault(s)
    else
      var s1 := WithTask(s, t, s.tasks[t].(proc := Some(w)));
      var s2 := WithProc(s1, p, s.procs[p].(push := Link(t, w)));
      if cfg.guarded then s2.(idle := s.idle[1..]) else s2
  }

  // No idle worker: ngx_http_rpc.c lines 222-228.
  function DoTakeNone(s: State, p: Proc): State
    requires p in s.procs && s.procs[p].push.Pick?
  {
    var Pick(t, r) := s.procs[p].push;
    if t !in s.tasks then Fault(s)
    else
      var s1 := WithTask(s, t, Noted(s.tasks[t].(status := INTERNAL_SERVER_ERROR), Rejected(p)));
      Respond(WithProc(s1, p, s.procs[p].(push := NoPush)), p, r, INTERNAL_SERVER_ERROR)
  }

  predicate OnSomeMailbox(s: State, t: Task) { exists q | q in s.procs :: t in s.procs[q].mail }

  // The locked region of ngx_rpc_notify_push_task.  A node that is already on a ring would
  // break that ring (`Links.PushKeepsRingIff`).
  function DoLink(s: State, p: Proc): State
    requires p in s.procs && s.procs[p].push.Link?
  {
    var Link(t, d) := s.procs[p].push;
    if d !in s.procs || OnSomeMailbox(s, t) then Fault(s)
    else
      var s1 := WithProc(s, p, s.procs[p].(push := Signal(d)));
      WithProc(s1, d, s1.procs[d].(mail := s1.procs[d].mail + [t]))
  }

  // eventfd_write: a full counter stays as it is.
  function DoWrite(s: State, p: Proc): State
    requires p in s.procs && s.procs[p].push.Signal?
  {
    var d := s.procs[p].push.dest;
    if d !in s.procs then Fault(s)
    else
      var s1 := WithProc(s, p, s.procs[p].(push := NoPush));
      WithProc(s1, d, s1.procs[d].(efd := Bump(s1.procs[d].efd)))
  }

  // One read of ngx_rpc_notify_read_handler.
  function DoRead(cfg: Config, s: State, p: Proc): State
    requires p in s.procs
  {
    var ps := s.procs[p];
    var next := if ps.efd > 0 then Drain(true) else if cfg.guarded then Sleep else Drain(false);
    WithProc(s, p, ps.(efd := 0, base := next))
  }

  // ngx_rpc_notify_pop_task followed by closure.handler in an RPC process.
  function RunClosure(s: State, p: Proc, t: Task, c: Chan): State
    requires p in s.procs && t in s.tasks
  {
    var k := s.tasks[t];
    match k.closure
    case Method(r) =>
      WithTask(s, t, Noted(k, Ran(p))).(
        chans := s.chans[c := ChanRec(p, Some(t), r, None, t)],
        svc := s.svc + {(p, t, c)})
    case ForwardDone(n) =>
      if n !in s.chans || s.chans[n].owner != p || s.chans[n].pre.None? then Fault(s)
      else
        var s1 := WithTask(s, t, Noted(k, Resumed(p, k.status)));
        var s2 := s1.(svc := s.svc + {(p, t, s.chans[n].pre.value)});
        WithProc(s2, p, s.procs[p].(del := s.procs[p].del + {n}))
  }

  // ngx_rpc_notify_pop_task followed by finish.handler in an HTTP worker.
  function RunFinish(s: State, p: Proc, t: Task): State
    requires p in s.procs && t in s.tasks
  {
    var k := s.tasks[t];
    match k.finish
    case NoFinish => Fault(s)
    case RequestFinish(r) => Respond(WithTask(s, t, Noted(k, Responded(p, k.status))), p, r, k.status)
    case RequestForward(r) =>
      if r !in s.reqs || s.reqs[r].owner != p || s.reqs[r].responses != [] || (p, t) in s.sub then Fault(s)
      else WithTask(s, t, Noted(k, SubStarted(p))).(sub := s.sub + {(p, t)})
  }

  // The task is off the mailbox, and its handler is still to run.
  function Popped(s: State, p: Proc): State
    requires p in s.procs && s.procs[p].mail != []
  {
    WithProc(s, p, s.procs[p].(mail := s.procs[p].mail[1..]))
  }

  function DoPop(cfg: Config, s: State, p: Proc, c: Chan): State
    requires p in s.procs && s.procs[p].mail != []
  {
    var t := s.procs[p].mail[0];
    if t !in s.tasks then Fault(s)
    else if p in cfg.rpc then RunClosure(Popped(s, p), p, t, c)
    else RunFinish(Popped(s, p), p, t)
  }

  // The end of a drain: an RPC process goes on to park, an HTTP worker returns to the loop
  // of the read handler.
  function DoPopNone(cfg: Config, s: State, p: Proc): State
    requires p in s.procs && s.procs[p].base.Drain?
  {
    var again := s.procs[p].base.again;
    WithProc(s, p, s.procs[p].(base := if p in cfg.rpc then Park(again) else if again then Read else Sleep))
  }

  function DoPark(cfg: Config, s: State, p: Proc): State
    requires p in s.procs && s.procs[p].base.Park?
  {
    var s1 := WithProc(s, p, s.procs[p].(base := if s.procs[p].base.again then Read else Sleep));
    if cfg.guarded then s1.(idle := [p] + s.idle) else s1
  }

  // The service calls `done`: RpcChannel::finish_request.  The channel goes after the push.
  function DoFinish(s: State, p: Proc, t: Task, c: Chan, st: Status): State
    requires p in s.procs
  {
    if c !in s.chans || s.chans[c].owner != p || s.chans[c].task.None? || s.chans[c].task.value !in s.tasks
    then Fault(s)
    else
      var u := s.chans[c].task.value;
      var k := s.tasks[u].(status := st, finish := RequestFinish(s.chans[c].r));
      var s1 := WithTask(s, u, Noted(k, Finished(p, st))).(svc := s.svc - {(p, t, c)});
      WithProc(s1, p, s.procs[p].(push := Link(u, k.done), del := s.procs[p].del + {c}))
  }

  // The service forwards: RpcChannel::forward_request.
  function DoForward(s: State, p: Proc, t: Task, c: Chan, f: Chan): State
    requires p in s.procs
  {
    if c !in s.chans || s.chans[c].owner != p || s.chans[c].task.None? || s.chans[c].task.value !in s.tasks
    then Fault(s)
    else
      var u := s.chans[c].task.value;
      var r := s.chans[c].r;
      var k := s.tasks[u].(finish := RequestForward(r), closure := ForwardDone(f));
      var s1 := WithTask(s, u, Noted(k, Forwarded(p))).(
        svc := s.svc - {(p, t, c)},
        chans := s.chans[f := ChanRec(p, None, r, Some(c), t)]);
      WithProc(s1, p, s.procs[p].(push := Link(u, k.done)))
  }

  function DoDelete(s: State, p: Proc, c: Chan): State
    requires p in s.procs
  {
    if c !in s.chans || s.chans[c].owner != p then Fault(s)
    else WithProc(s.(chans := s.chans - {c}), p, s.procs[p].(del := s.procs[p].del - {c}))
  }

  // ngx_http_rpc_subrequest_done_handler with a final result.
  function DoCompleteSub(s: State, p: Proc, t: Task, st: Status): State
    requires p in s.procs
  {
    if t !in s.tasks || s.tasks[t].proc.None? then Fault(s)
    else
      var k := s.tasks[t].(status := st);
      var s1 := WithTask(s, t, Noted(k, SubDone(p, st))).(sub := s.sub - {(p, t)});
      WithProc(s1, p, s.procs[p].(push := Link(t, k.proc.value)))
  }

  function Apply(cfg: Config, s: State, a: Action): State
    requires Enabled(cfg, s, a)
  {
    match a
    case Submit(p, t, r) => DoSubmit(s, p, t, r)
    case Take(p, w) => DoTake(cfg, s, p, w)
    case TakeNone(p) => DoTakeNone(s, p)
    case LinkNode(p) => DoLink(s, p)
    case WriteEvent(p) => DoWrite(s, p)
    case Wake(p) => WithProc(s, p, s.procs[p].(base := Read))
    case ReadEvent(p) => DoRead(cfg, s, p)
    case Pop(p, c) => DoPop(cfg, s, p, c)
    case PopNone(p) => DoPopNone(cfg, s, p)
    case ParkSelf(p) => DoPark(cfg, s, p)
    case Finish(p, t, c, st) => DoFinish(s, p, t, c, st)
    case Forward(p, t, c, f) => DoForward(s, p, t, c, f)
    case DeleteChannel(p, c) => DoDelete(s, p, c)
    case CompleteSub(p, t, st) => DoCompleteSub(s, p, t, st)
  }

  // ---------------------------------------------------------------- runs

  ghost predicate ValidConfig(cfg: Config) { cfg.http !! cfg.rpc }

  // aa[i] takes ss[i] to ss[i + 1].
  ghost predicate StepAt(cfg: Config, ss: seq<State>, aa: seq<Action>, i: nat)
    requires |ss| == |aa| + 1 && i < |aa|
  {
    Enabled(cfg, ss[i], aa[i]) && ss[i + 1] == Apply(cfg, ss[i], aa[i])
  }

  ghost predicate IsRun(cfg: Config, ss: seq<State>, aa: seq<Action>) {
    && ValidConfig(cfg)
    && |ss| == |aa| + 1
    && ss[0] == Init(cfg)
    && (forall i: nat | i < |aa| :: StepAt(cfg, ss, aa, i))
  }
}
