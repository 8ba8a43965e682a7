/**
 The guarded protocol is no empty promise: there is a guarded run in which a request is
 dispatched, answered with any status, and its worker is parked and asleep again.
 */
module GuardedLives {
  import opened LivesHappen
  import opened Options
  import opened Protocol
  import opened ProtocolTheorems

  function Guarded(x: Cast): Config { Config({x.h}, {x.w}, true) }

  // The HTTP worker in its first drain, the RPC process, and everything else.
  function With(x: Cast, ph: ProcState, pw: ProcState, idle: seq<Proc>, tasks: map<Task, TaskRec>,
                svc: set<(Proc, Task, Chan)>, chans: map<Chan, ChanRec>, reqs: map<Req, ReqRec>): State {
    State(x.Both(ph, pw), idle, tasks, svc, {}, chans, reqs, false)
  }

  function Calm(mail: seq<Task>, efd: nat): ProcState { Busy(NoPush, {}, mail, efd) }

  function At(base: Base, mail: seq<Task>, efd: nat): ProcState { ProcState(base, NoPush, {}, mail, efd) }

  // What the RPC process does with push and deletions while it drains after its signal.
  function Draining(push: Push, del: set<Chan>): ProcState { ProcState(Drain(true), push, del, [], 0) }

  lemma Goes(x: Cast, s: State, a: Action, s': State)
    requires Reaches(Guarded(x), s) && Enabled(Guarded(x), s, a)
    requires var r := Apply(Guarded(x), s, a);
      && r.procs == s'.procs && r.tasks == s'.tasks && r.svc == s'.svc && r.chans == s'.chans && r.reqs == s'.reqs
      && r.idle == s'.idle && r.sub == s'.sub && r.fault == s'.fault
    ensures Reaches(Guarded(x), s')
  {
    ReachesStep(Guarded(x), s, a);
    assert Apply(Guarded(x), s, a) == s';
  }

  lemma Parks(x: Cast)
    requires x.Valid()
    ensures Reaches(Guarded(x), With(x, Calm([], 0), At(Sleep, [], 0), [x.w], map[], {}, map[], map[]))
  {
    var s0 := With(x, Calm([], 0), At(Drain(false), [], 0), [], map[], {}, map[], map[]);
    ReachesInit(Guarded(x));
    assert s0.procs == Init(Guarded(x)).procs;
    var s1 := With(x, Calm([], 0), At(Park(false), [], 0), [], map[], {}, map[], map[]);
    Goes(x, s0, PopNone(x.w), s1);
    assert [x.w] + [] == [x.w];
    Goes(x, s1, ParkSelf(x.w), With(x, Calm([], 0), At(Sleep, [], 0), [x.w], map[], {}, map[], map[]));
  }

  function Sent(x: Cast, proc: Option<Proc>): TaskRec {
    TaskRec(x.r, proc, x.h, Method(x.r), NoFinish, 0, [Submitted(x.h)])
  }

  function Sending(x: Cast): map<Task, TaskRec> { map[x.t := Sent(x, Some(x.w))] }

  lemma Submits(x: Cast)
    requires x.Valid()
    ensures Reaches(Guarded(x), With(x, Busy(Pick(x.t, x.r), {}, [], 0), At(Sleep, [], 0), [x.w],
                                     map[x.t := Sent(x, None)], {}, map[], x.Asked([])))
  {
    Parks(x);
    Goes(x, With(x, Calm([], 0), At(Sleep, [], 0), [x.w], map[], {}, map[], map[]), Submit(x.h, x.t, x.r),
         With(x, Busy(Pick(x.t, x.r), {}, [], 0), At(Sleep, [], 0), [x.w], map[x.t := Sent(x, None)], {}, map[],
              x.Asked([])));
  }

  lemma Takes(x: Cast)
    requires x.Valid()
    ensures Reaches(Guarded(x), With(x, Busy(Link(x.t, x.w), {}, [], 0), At(Sleep, [], 0), [], Sending(x), {}, map[],
                                     x.Asked([])))
  {
    Submits(x);
    assert [x.w][1..] == [];
    Goes(x, With(x, Busy(Pick(x.t, x.r), {}, [], 0), At(Sleep, [], 0), [x.w], map[x.t := Sent(x, None)], {}, map[],
                 x.Asked([])),
         Take(x.h, x.w),
         With(x, Busy(Link(x.t, x.w), {}, [], 0), At(Sleep, [], 0), [], Sending(x), {}, map[], x.Asked([])));
  }

  lemma Links(x: Cast)
    requires x.Valid()
    ensures Reaches(Guarded(x), With(x, Calm([], 0), At(Sleep, [x.t], 1), [], Sending(x), {}, map[], x.Asked([])))
  {
    Takes(x);
    var s4 := With(x, Busy(Link(x.t, x.w), {}, [], 0), At(Sleep, [], 0), [], Sending(x), {}, map[], x.Asked([]));
    var s5 := With(x, Busy(Signal(x.w), {}, [], 0), At(Sleep, [x.t], 0), [], Sending(x), {}, map[], x.Asked([]));
    assert !OnSomeMailbox(s4, x.t) && [] + [x.t] == [x.t];
    Goes(x, s4, LinkNode(x.h), s5);
    Goes(x, s5, WriteEvent(x.h), With(x, Calm([], 0), At(Sleep, [x.t], 1), [], Sending(x), {}, map[], x.Asked([])));
  }

  function Running(x: Cast): map<Task, TaskRec> { map[x.t := Noted(Sent(x, Some(x.w)), Ran(x.w))] }

  lemma Runs(x: Cast)
    requires x.Valid()
    ensures Reaches(Guarded(x), With(x, Calm([], 0), Draining(NoPush, {}), [], Running(x), {(x.w, x.t, x.c)}, x.Own(),
                                     x.Asked([])))
  {
    Links(x);
    var s6 := With(x, Calm([], 0), At(Sleep, [x.t], 1), [], Sending(x), {}, map[], x.Asked([]));
    var s7 := With(x, Calm([], 0), At(Read, [x.t], 1), [], Sending(x), {}, map[], x.Asked([]));
    Goes(x, s6, Wake(x.w), s7);
    var s8 := With(x, Calm([], 0), At(Drain(true), [x.t], 0), [], Sending(x), {}, map[], x.Asked([]));
    Goes(x, s7, ReadEvent(x.w), s8);
    RunsOn(x, s8);
  }

  lemma RunsOn(x: Cast, s8: State)
    requires x.Valid() && Reaches(Guarded(x), s8)
    requires s8 == With(x, Calm([], 0), At(Drain(true), [x.t], 0), [], Sending(x), {}, map[], x.Asked([]))
    ensures Reaches(Guarded(x), With(x, Calm([], 0), Draining(NoPush, {}), [], Running(x), {(x.w, x.t, x.c)}, x.Own(),
                                     x.Asked([])))
  {
    assert [x.t][1..] == [];
    Goes(x, s8, Pop(x.w, x.c),
         With(x, Calm([], 0), Draining(NoPush, {}), [], Running(x), {(x.w, x.t, x.c)}, x.Own(), x.Asked([])));
  }

  function Closing(x: Cast, st: Status): map<Task, TaskRec> {
    var k := Running(x)[x.t].(status := st, finish := RequestFinish(x.r));
    map[x.t := Noted(k, Finished(x.w, st))]
  }

  lemma Finishes(x: Cast, st: Status)
    requires x.Valid()
    ensures Reaches(Guarded(x), With(x, Calm([], 0), Draining(Link(x.t, x.h), {x.c}), [], Closing(x, st), {}, x.Own(),
                                     x.Asked([])))
  {
    Runs(x);
    assert {} + {x.c} == {x.c} && {(x.w, x.t, x.c)} - {(x.w, x.t, x.c)} == {};
    Goes(x, With(x, Calm([], 0), Draining(NoPush, {}), [], Running(x), {(x.w, x.t, x.c)}, x.Own(), x.Asked([])),
         Finish(x.w, x.t, x.c, st),
         With(x, Calm([], 0), Draining(Link(x.t, x.h), {x.c}), [], Closing(x, st), {}, x.Own(), x.Asked([])));
  }

  lemma LinksBack(x: Cast, st: Status)
    requires x.Valid()
    ensures Reaches(Guarded(x), With(x, Calm([x.t], 0), Draining(Signal(x.h), {x.c}), [], Closing(x, st), {}, x.Own(),
                                     x.Asked([])))
  {
    Finishes(x, st);
    var s10 := With(x, Calm([], 0), Draining(Link(x.t, x.h), {x.c}), [], Closing(x, st), {}, x.Own(), x.Asked([]));
    var s11 := With(x, Calm([x.t], 0), Draining(Signal(x.h), {x.c}), [], Closing(x, st), {}, x.Own(), x.Asked([]));
    assert !OnSomeMailbox(s10, x.t) && [] + [x.t] == [x.t];
    Goes(x, s10, LinkNode(x.w), s11);
  }

  lemma SendsBack(x: Cast, st: Status)
    requires x.Valid()
    ensures Reaches(Guarded(x), With(x, Calm([x.t], 1), Draining(NoPush, {}), [], Closing(x, st), {}, map[],
                                     x.Asked([])))
  {
    LinksBack(x, st);
    var s11 := With(x, Calm([x.t], 0), Draining(Signal(x.h), {x.c}), [], Closing(x, st), {}, x.Own(), x.Asked([]));
    var s12 := With(x, Calm([x.t], 1), Draining(NoPush, {x.c}), [], Closing(x, st), {}, x.Own(), x.Asked([]));
    Goes(x, s11, WriteEvent(x.w), s12);
    assert {x.c} - {x.c} == {} && x.Own() - {x.c} == map[];
    Goes(x, s12, DeleteChannel(x.w, x.c),
         With(x, Calm([x.t], 1), Draining(NoPush, {}), [], Closing(x, st), {}, map[], x.Asked([])));
  }

  function Answered(x: Cast, st: Status): map<Task, TaskRec> {
    map[x.t := Noted(Closing(x, st)[x.t], Responded(x.h, st))]
  }

  lemma Answers(x: Cast, st: Status)
    requires x.Valid()
    ensures Reaches(Guarded(x), With(x, Calm([], 1), Draining(NoPush, {}), [], Answered(x, st), {}, map[],
                                     x.Asked([st])))
  {
    SendsBack(x, st);
    assert [x.t][1..] == [];
    Goes(x, With(x, Calm([x.t], 1), Draining(NoPush, {}), [], Closing(x, st), {}, map[], x.Asked([])), Pop(x.h, x.c),
         With(x, Calm([], 1), Draining(NoPush, {}), [], Answered(x, st), {}, map[], x.Asked([st])));
  }

  lemma ParksAgain(x: Cast, st: Status)
    requires x.Valid()
    ensures Reaches(Guarded(x), With(x, Calm([], 1), At(Sleep, [], 0), [x.w], Answered(x, st), {}, map[],
                                     x.Asked([st])))
  {
    Answers(x, st);
    var s14 := With(x, Calm([], 1), Draining(NoPush, {}), [], Answered(x, st), {}, map[], x.Asked([st]));
    var s15 := With(x, Calm([], 1), At(Park(true), [], 0), [], Answered(x, st), {}, map[], x.Asked([st]));
    Goes(x, s14, PopNone(x.w), s15);
    var s16 := With(x, Calm([], 1), At(Read, [], 0), [x.w], Answered(x, st), {}, map[], x.Asked([st]));
    assert [x.w] + [] == [x.w];
    Goes(x, s15, ParkSelf(x.w), s16);
    Goes(x, s16, ReadEvent(x.w),
         With(x, Calm([], 1), At(Sleep, [], 0), [x.w], Answered(x, st), {}, map[], x.Asked([st])));
  }

  ghost predicate Served(x: Cast, ss: seq<State>, aa: seq<Action>, st: Status) {
    && IsRun(Guarded(x), ss, aa)
    && var s := ss[|aa|];
       && x.t in s.tasks && s.tasks[x.t].trace == Life(x.h, x.w, [], st) && s.reqs == x.Asked([st])
       && s.idle == [x.w] && x.w in s.procs && s.procs[x.w] == At(Sleep, [], 0)
  }

  // For any status there is such a run.
  lemma GuardedLifeHappens(x: Cast, st: Status)
    requires x.Valid()
    ensures exists ss, aa :: Served(x, ss, aa, st)
  {
    ParksAgain(x, st);
    var s := With(x, Calm([], 1), At(Sleep, [], 0), [x.w], Answered(x, st), {}, map[], x.Asked([st]));
    var ss, aa :| EndsIn(Guarded(x), ss, aa, s);
    assert s.tasks[x.t].trace == Life(x.h, x.w, [], st);
    assert Served(x, ss, aa, st);
  }
}
