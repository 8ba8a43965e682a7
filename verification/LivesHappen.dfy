/**
 Every legal life of a task happens: for any number of forwards with any results there is a
 run of the shipped protocol in which some task lives exactly that life.  Together with
 `ProtocolTheorems.HistoriesAreLegal` this says what the lives of tasks are.
 */
module LivesHappen {
  import opened Eventfd
  import opened Options
  import opened Protocol
  import opened ProtocolTheorems

  // ---------------------------------------------------------------- reachable states

  ghost predicate EndsIn(cfg: Config, ss: seq<State>, aa: seq<Action>, s: State) {
    IsRun(cfg, ss, aa) && ss[|aa|] == s
  }

  ghost predicate Reaches(cfg: Config, s: State) { exists ss, aa :: EndsIn(cfg, ss, aa, s) }

  lemma ReachesInit(cfg: Config)
    requires ValidConfig(cfg)
    ensures Reaches(cfg, Init(cfg))
  {
    assert EndsIn(cfg, [Init(cfg)], [], Init(cfg));
  }

  lemma ReachesStep(cfg: Config, s: State, a: Action)
    requires Reaches(cfg, s) && Enabled(cfg, s, a)
    ensures Reaches(cfg, Apply(cfg, s, a))
  {
    var ss, aa :| EndsIn(cfg, ss, aa, s);
    var ss', aa' := ss + [Apply(cfg, s, a)], aa + [a];
    forall i: nat | i < |aa'| ensures StepAt(cfg, ss', aa', i) {
      if i < |aa| {
        assert StepAt(cfg, ss, aa, i);
      }
    }
    assert EndsIn(cfg, ss', aa', Apply(cfg, s, a));
  }

  // ---------------------------------------------------------------- one worker of each kind

  // HTTP worker h, RPC process w, a task t of request r, its channel c and a relay f.
  datatype Cast = Cast(h: Proc, w: Proc, t: Task, r: Req, c: Chan, f: Chan) {
    ghost predicate Valid() { h != w && c != f }

    function Config(): Config { Protocol.Config({h}, {w}, false) }

    // Both processes in a drain; ph and pw are what they are pushing and hold.
    function Both(ph: ProcState, pw: ProcState): map<Proc, ProcState> { map[h := ph, w := pw] }

    function Own(): map<Chan, ChanRec> { map[c := ChanRec(w, Some(t), r, None, t)] }

    function Relay(): map<Chan, ChanRec> { Own()[f := ChanRec(w, None, r, Some(c), t)] }

    function Asked(sent: seq<Status>): map<Req, ReqRec> { map[r := ReqRec(h, sent, t)] }
  }

  function Busy(push: Push, del: set<Chan>, mail: seq<Task>, efd: nat): ProcState {
    ProcState(Drain(false), push, del, mail, efd)
  }

  // The service holds the task, and nothing else is going on.
  function HeldState(x: Cast, k: TaskRec, eh: nat, ew: nat): State {
    State(x.Both(Busy(NoPush, {}, [], eh), Busy(NoPush, {}, [], ew)), [], map[x.t := k],
          {(x.w, x.t, x.c)}, {}, x.Own(), x.Asked([]), false)
  }

  // ---------------------------------------------------------------- pushing a task across

  // The task is about to be linked into the mailbox of the other process, by h or by w.
  function PushingState(x: Cast, k: TaskRec, byH: bool, eh: nat, ew: nat, del: set<Chan>, chans: map<Chan,
                        ChanRec>): State {
    State(if byH then x.Both(Busy(Link(x.t, x.w), {}, [], eh), Busy(NoPush, del, [], ew))
          else x.Both(Busy(NoPush, {}, [], eh), Busy(Link(x.t, x.h), del, [], ew)),
          [], map[x.t := k], {}, {}, chans, x.Asked([]), false)
  }

  function MailedState(x: Cast, k: TaskRec, byH: bool, eh: nat, ew: nat, del: set<Chan>, chans: map<Chan,
                       ChanRec>): State {
    State(if byH then x.Both(Busy(NoPush, {}, [], eh), Busy(NoPush, del, [x.t], ew))
          else x.Both(Busy(NoPush, {}, [x.t], eh), Busy(NoPush, del, [], ew)),
          [], map[x.t := k], {}, {}, chans, x.Asked([]), false)
  }

  lemma PushByH(x: Cast, k: TaskRec, eh: nat, ew: nat, chans: map<Chan, ChanRec>)
    requires x.Valid() && Reaches(x.Config(), PushingState(x, k, true, eh, ew, {}, chans))
    ensures Reaches(x.Config(), MailedState(x, k, true, eh, Bump(ew), {}, chans))
  {
    var s := PushingState(x, k, true, eh, ew, {}, chans);
    ReachesStep(x.Config(), s, LinkNode(x.h));
    var s1 := DoLink(s, x.h);
    assert !OnSomeMailbox(s, x.t) && [] + [x.t] == [x.t];
    assert s1.procs == x.Both(Busy(Signal(x.w), {}, [], eh), Busy(NoPush, {}, [x.t], ew));
    ReachesStep(x.Config(), s1, WriteEvent(x.h));
    assert DoWrite(s1, x.h).procs == x.Both(Busy(NoPush, {}, [], eh), Busy(NoPush, {}, [x.t], Bump(ew)));
  }

  lemma PushByW(x: Cast, k: TaskRec, eh: nat, ew: nat, del: set<Chan>, chans: map<Chan, ChanRec>)
    requires x.Valid() && Reaches(x.Config(), PushingState(x, k, false, eh, ew, del, chans))
    ensures Reaches(x.Config(), MailedState(x, k, false, Bump(eh), ew, del, chans))
  {
    LinkByW(x, k, eh, ew, del, chans);
    ReachesStep(x.Config(), PushingState(x, k, false, eh, ew, del, chans), LinkNode(x.w));
    WriteByW(x, k, eh, ew, del, chans);
    ReachesStep(x.Config(), SignallingState(x, k, eh, ew, del, chans), WriteEvent(x.w));
  }

  // Linked by w, with the eventfd still to be written.
  function SignallingState(x: Cast, k: TaskRec, eh: nat, ew: nat, del: set<Chan>, chans: map<Chan, ChanRec>): State {
    State(x.Both(Busy(NoPush, {}, [x.t], eh), Busy(Signal(x.h), del, [], ew)),
          [], map[x.t := k], {}, {}, chans, x.Asked([]), false)
  }

  lemma LinkByW(x: Cast, k: TaskRec, eh: nat, ew: nat, del: set<Chan>, chans: map<Chan, ChanRec>)
    requires x.Valid()
    ensures DoLink(PushingState(x, k, false, eh, ew, del, chans), x.w) == SignallingState(x, k, eh, ew, del, chans)
  {
    var s := PushingState(x, k, false, eh, ew, del, chans);
    assert !OnSomeMailbox(s, x.t) && [] + [x.t] == [x.t];
    assert DoLink(s, x.w).procs == SignallingState(x, k, eh, ew, del, chans).procs;
  }

  lemma WriteByW(x: Cast, k: TaskRec, eh: nat, ew: nat, del: set<Chan>, chans: map<Chan, ChanRec>)
    requires x.Valid()
    ensures DoWrite(SignallingState(x, k, eh, ew, del, chans), x.w)
         == MailedState(x, k, false, Bump(eh), ew, del, chans)
  {
    var s := SignallingState(x, k, eh, ew, del, chans);
    assert DoWrite(s, x.w).procs == MailedState(x, k, false, Bump(eh), ew, del, chans).procs;
  }

  // ---------------------------------------------------------------- one forward

  function ForwardedTask(x: Cast, k: TaskRec): TaskRec {
    Noted(k.(finish := RequestForward(x.r), closure := ForwardDone(x.f)), Protocol.Forwarded(x.w))
  }

  function ReturnedTask(x: Cast, k: TaskRec, st: Status): TaskRec {
    Noted(StartedTask(x, k).(status := st), SubDone(x.h, st))
  }

  // The service forwards, and the task arrives at the HTTP worker.
  lemma ForwardOut(x: Cast, k: TaskRec, eh: nat, ew: nat)
    requires x.Valid() && k.done == x.h && Reaches(x.Config(), HeldState(x, k, eh, ew))
    ensures Reaches(x.Config(), MailedState(x, ForwardedTask(x, k), false, Bump(eh), ew, {}, x.Relay()))
  {
    var s := HeldState(x, k, eh, ew);
    ReachesStep(x.Config(), s, Forward(x.w, x.t, x.c, x.f));
    var s1 := DoForward(s, x.w, x.t, x.c, x.f);
    var p := PushingState(x, ForwardedTask(x, k), false, eh, ew, {}, x.Relay());
    assert s1.procs == p.procs && s1.tasks == p.tasks && s1.svc == p.svc && s1.chans == p.chans;
    PushByW(x, ForwardedTask(x, k), eh, ew, {}, x.Relay());
  }

  function StartedTask(x: Cast, k: TaskRec): TaskRec { Noted(ForwardedTask(x, k), SubStarted(x.h)) }

  // The sub-request is under way.
  function SubState(x: Cast, k: TaskRec, eh: nat, ew: nat): State {
    State(x.Both(Busy(NoPush, {}, [], eh), Busy(NoPush, {}, [], ew)), [], map[x.t := StartedTask(x, k)],
          {}, {(x.h, x.t)}, x.Relay(), x.Asked([]), false)
  }

  lemma SubStarts(x: Cast, k: TaskRec, eh: nat, ew: nat)
    requires x.Valid() && Reaches(x.Config(), MailedState(x, ForwardedTask(x, k), false, eh, ew, {}, x.Relay()))
    ensures Reaches(x.Config(), SubState(x, k, eh, ew))
  {
    var s := MailedState(x, ForwardedTask(x, k), false, eh, ew, {}, x.Relay());
    var c := x.c + x.f + 1;
    ReachesStep(x.Config(), s, Pop(x.h, c));
    var s1, e := DoPop(x.Config(), s, x.h, c), SubState(x, k, eh, ew);
    assert [x.t][1..] == [];
    assert s1.procs == e.procs && s1.tasks == e.tasks && s1.sub == e.sub;
  }

  // It completes, and the HTTP worker sends the task back.
  lemma SubCompletes(x: Cast, k: TaskRec, eh: nat, ew: nat, st: Status)
    requires x.Valid() && k.done == x.h && k.proc == Some(x.w) && Reaches(x.Config(), SubState(x, k, eh, ew))
    ensures Reaches(x.Config(), MailedState(x, ReturnedTask(x, k, st), true, eh, Bump(ew), {}, x.Relay()))
  {
    var s := SubState(x, k, eh, ew);
    ReachesStep(x.Config(), s, CompleteSub(x.h, x.t, st));
    var s1 := DoCompleteSub(s, x.h, x.t, st);
    var p := PushingState(x, ReturnedTask(x, k, st), true, eh, ew, {}, x.Relay());
    assert s1.procs == p.procs && s1.tasks == p.tasks && s1.sub == p.sub;
    PushByH(x, ReturnedTask(x, k, st), eh, ew, x.Relay());
  }

  // The relay has run the service's continuation and is still to be deleted.
  function ResumedState(x: Cast, k: TaskRec, eh: nat, ew: nat): State {
    State(x.Both(Busy(NoPush, {}, [], eh), Busy(NoPush, {x.f}, [], ew)), [], map[x.t := k],
          {(x.w, x.t, x.c)}, {}, x.Relay(), x.Asked([]), false)
  }

  lemma RelayRuns(x: Cast, k: TaskRec, eh: nat, ew: nat)
    requires x.Valid() && k.closure == ForwardDone(x.f)
    requires Reaches(x.Config(), MailedState(x, k, true, eh, ew, {}, x.Relay()))
    ensures Reaches(x.Config(), ResumedState(x, Noted(k, Resumed(x.w, k.status)), eh, ew))
  {
    var s, c := MailedState(x, k, true, eh, ew, {}, x.Relay()), x.c + x.f + 1;
    ReachesStep(x.Config(), s, Pop(x.w, c));
    var s1, e := DoPop(x.Config(), s, x.w, c), ResumedState(x, Noted(k, Resumed(x.w, k.status)), eh, ew);
    assert [x.t][1..] == [] && {} + {x.f} == {x.f};
    assert s1.procs == e.procs && s1.tasks == e.tasks && s1.svc == e.svc;
  }

  lemma Resumption(x: Cast, k: TaskRec, eh: nat, ew: nat)
    requires x.Valid() && k.closure == ForwardDone(x.f)
    requires Reaches(x.Config(), MailedState(x, k, true, eh, ew, {}, x.Relay()))
    ensures Reaches(x.Config(), HeldState(x, Noted(k, Resumed(x.w, k.status)), eh, ew))
  {
    var k1 := Noted(k, Resumed(x.w, k.status));
    RelayRuns(x, k, eh, ew);
    ReachesStep(x.Config(), ResumedState(x, k1, eh, ew), DeleteChannel(x.w, x.f));
    var s2 := DoDelete(ResumedState(x, k1, eh, ew), x.w, x.f);
    assert s2.chans == x.Own();
    assert {x.f} - {x.f} == {};
    assert s2.procs == HeldState(x, k1, eh, ew).procs;
  }

  // So a held task can be forwarded once more, with any result, and be held again.
  lemma OneRound(x: Cast, k: TaskRec, eh: nat, ew: nat, st: Status) returns (k2: TaskRec, eh2: nat, ew2: nat)
    requires x.Valid() && k.done == x.h && k.proc == Some(x.w) && Reaches(x.Config(), HeldState(x, k, eh, ew))
    ensures Reaches(x.Config(), HeldState(x, k2, eh2, ew2))
    ensures k2.done == k.done && k2.proc == k.proc && k2.trace == k.trace + Round(x.h, x.w, st)
  {
    ForwardOut(x, k, eh, ew);
    SubStarts(x, k, Bump(eh), ew);
    SubCompletes(x, k, Bump(eh), ew, st);
    Resumption(x, ReturnedTask(x, k, st), Bump(eh), Bump(ew));
    k2 := Noted(ReturnedTask(x, k, st), Resumed(x.w, st));
    eh2, ew2 := Bump(eh), Bump(ew);
    assert k2.trace == k.trace + Round(x.h, x.w, st);
  }

  // ---------------------------------------------------------------- begin and end

  lemma Begin(x: Cast) returns (k: TaskRec)
    requires x.Valid()
    ensures Reaches(x.Config(), HeldState(x, k, 0, 1))
    ensures k.done == x.h && k.proc == Some(x.w) && k.trace == [Submitted(x.h), Ran(x.w)]
  {
    var cfg, s := x.Config(), Init(x.Config());
    ReachesInit(cfg);
    assert s.procs == x.Both(Busy(NoPush, {}, [], 0), Busy(NoPush, {}, [], 0));
    ReachesStep(cfg, s, Submit(x.h, x.t, x.r));
    var s1 := DoSubmit(s, x.h, x.t, x.r);
    assert s1.procs == x.Both(Busy(Pick(x.t, x.r), {}, [], 0), Busy(NoPush, {}, [], 0));
    ReachesStep(cfg, s1, Take(x.h, x.w));
    var s2 := DoTake(cfg, s1, x.h, x.w);
    var k0 := TaskRec(x.r, Some(x.w), x.h, Method(x.r), NoFinish, 0, [Submitted(x.h)]);
    var p := PushingState(x, k0, true, 0, 0, {}, map[]);
    assert s2.procs == p.procs && s2.tasks == p.tasks && s2.reqs == p.reqs;
    PushByH(x, k0, 0, 0, map[]);
    k := Noted(k0, Ran(x.w));
    MethodRuns(x, k0, 0, 1);
  }

  // The task is at the RPC process, and its service gets it.
  lemma MethodRuns(x: Cast, k: TaskRec, eh: nat, ew: nat)
    requires x.Valid() && k.closure == Method(x.r)
    requires Reaches(x.Config(), MailedState(x, k, true, eh, ew, {}, map[]))
    ensures Reaches(x.Config(), HeldState(x, Noted(k, Ran(x.w)), eh, ew))
  {
    var s := MailedState(x, k, true, eh, ew, {}, map[]);
    ReachesStep(x.Config(), s, Pop(x.w, x.c));
    var s1, e := DoPop(x.Config(), s, x.w, x.c), HeldState(x, Noted(k, Ran(x.w)), eh, ew);
    assert [x.t][1..] == [];
    assert s1.procs == e.procs && s1.tasks == e.tasks && s1.svc == e.svc && s1.chans == e.chans;
  }

  lemma {:induction false} Rounds(x: Cast, sts: seq<Status>) returns (k: TaskRec, eh: nat, ew: nat)
    requires x.Valid()
    ensures Reaches(x.Config(), HeldState(x, k, eh, ew))
    ensures k.done == x.h && k.proc == Some(x.w)
    ensures k.trace == [Submitted(x.h), Ran(x.w)] + ProtocolTheorems.Rounds(x.h, x.w, sts)
  {
    if sts == [] {
      k := Begin(x);
      eh, ew := 0, 1;
      assert k.trace == k.trace + ProtocolTheorems.Rounds(x.h, x.w, sts);
    } else {
      var n := |sts| - 1;
      k, eh, ew := Rounds(x, sts[..n]);
      k, eh, ew := OneRound(x, k, eh, ew, sts[n]);
    }
  }

  // The service finishes and the HTTP worker answers.
  lemma End(x: Cast, k: TaskRec, eh: nat, ew: nat, st: Status) returns (s: State)
    requires x.Valid() && k.done == x.h && Reaches(x.Config(), HeldState(x, k, eh, ew))
    ensures Reaches(x.Config(), s) && x.t in s.tasks
    ensures s.tasks[x.t].trace == k.trace + [Finished(x.w, st), Responded(x.h, st)]
    ensures s.reqs == x.Asked([st])
  {
    var cfg, s0 := x.Config(), HeldState(x, k, eh, ew);
    ReachesStep(cfg, s0, Finish(x.w, x.t, x.c, st));
    var s1 := DoFinish(s0, x.w, x.t, x.c, st);
    var k1 := Noted(k.(status := st, finish := RequestFinish(x.r)), Finished(x.w, st));
    var p := PushingState(x, k1, false, eh, ew, {x.c}, x.Own());
    assert {} + {x.c} == {x.c};
    assert s1.procs == p.procs && s1.tasks == p.tasks && s1.svc == p.svc;
    PushByW(x, k1, eh, ew, {x.c}, x.Own());
    var m := MailedState(x, k1, false, Bump(eh), ew, {x.c}, x.Own());
    ReachesStep(cfg, m, Pop(x.h, x.c + 1));
    s := DoPop(cfg, m, x.h, x.c + 1);
    assert s.tasks[x.t].trace == k.trace + [Finished(x.w, st)] + [Responded(x.h, st)];
  }

  // A run in which x.t lives a whole life with these results, and its request is answered with
  // the last one.
  ghost predicate Lives(x: Cast, ss: seq<State>, aa: seq<Action>, sts: seq<Status>, st: Status) {
    && IsRun(x.Config(), ss, aa)
    && var s := ss[|aa|];
       x.t in s.tasks && s.tasks[x.t].trace == Life(x.h, x.w, sts, st) && s.reqs == x.Asked([st])
  }

  // There is one for any number of forwards and any statuses.
  lemma EveryLifeHappens(x: Cast, sts: seq<Status>, st: Status)
    requires x.Valid()
    ensures exists ss, aa :: Lives(x, ss, aa, sts, st)
  {
    var k, eh, ew := Rounds(x, sts);
    var s := End(x, k, eh, ew, st);
    var ss, aa :| EndsIn(x.Config(), ss, aa, s);
    assert Lives(x, ss, aa, sts, st);
  }

  // A run in which the request of x.t is refused, with 500.
  ghost predicate Refuses(x: Cast, guarded: bool, ss: seq<State>, aa: seq<Action>) {
    && IsRun(Protocol.Config({x.h}, {x.w}, guarded), ss, aa)
    && var s := ss[|aa|];
       x.t in s.tasks && s.tasks[x.t].trace == [Submitted(x.h), Rejected(x.h)] && s.reqs == x.Asked([500])
  }

  // There is one in both protocols.
  lemma RefusalHappens(x: Cast, guarded: bool)
    requires x.Valid()
    ensures exists ss, aa :: Refuses(x, guarded, ss, aa)
  {
    var cfg := Protocol.Config({x.h}, {x.w}, guarded);
    var s := Init(cfg);
    ReachesInit(cfg);
    ReachesStep(cfg, s, Submit(x.h, x.t, x.r));
    var s1 := DoSubmit(s, x.h, x.t, x.r);
    ReachesStep(cfg, s1, TakeNone(x.h));
    var s2 := DoTakeNone(s1, x.h);
    var ss, aa :| EndsIn(cfg, ss, aa, s2);
    assert s2.tasks[x.t].trace == [Submitted(x.h), Rejected(x.h)];
    assert Refuses(x, guarded, ss, aa);
  }
}
