/**
 What the protocol guarantees in every reachable state and over whole runs, for any number
 of HTTP workers, RPC processes, tasks and forwards.
 */
module ProtocolTheorems {
  import opened Options
  import opened Links
  import opened Protocol
  import opened ProtocolInv
  import opened ProtocolSteps

  // ---------------------------------------------------------------- no bad pointer

  // No step of any run goes through a deleted channel, another process's channel or
  // request, an unset handler or field, or links a task that is already linked; and no
  // request is answered twice.
  lemma NoFault(cfg: Config, ss: seq<State>, aa: seq<Action>, n: nat)
    requires IsRun(cfg, ss, aa) && n < |ss|
    ensures !ss[n].fault
  {
    var _ := RunInv(cfg, ss, aa, n);
  }

  // ---------------------------------------------------------------- exactly one place

  // Every submitted task is in exactly one place, and on at most one mailbox once.
  lemma ExactlyOnePlace(cfg: Config, ss: seq<State>, aa: seq<Action>, n: nat, t: Task)
    requires IsRun(cfg, ss, aa) && n < |ss|
    ensures t in ss[n].tasks ==> exists l :: At(ss[n], t, l) && forall m :: At(ss[n], t, m) ==> m == l
    ensures t !in ss[n].tasks ==> forall m :: !At(ss[n], t, m)
    ensures forall p | p in ss[n].procs :: Distinct(ss[n].procs[p].mail)
  {
    var loc := RunInv(cfg, ss, aa, n);
    if t in ss[n].tasks {
      var l := loc[t];
      GoneWhenEnded(cfg, ss[n], loc, t);
      assert At(ss[n], t, l);
      forall m | At(ss[n], t, m) ensures m == l {}
    }
  }

  lemma GoneWhenEnded(cfg: Config, s: State, loc: map<Task, Loc>, t: Task)
    requires Inv(cfg, s, loc) && t in s.tasks
    ensures At(s, t, Gone) <==> loc[t] == Gone
  {
    assert TaskOk(cfg, t, s.tasks[t], loc[t], s.chans, s.reqs);
    GoneIffEnded(cfg, t, s.tasks[t], loc[t], s.chans, s.reqs);
  }

  lemma GoneIffEnded(cfg: Config, t: Task, k: TaskRec, l: Loc, chans: map<Chan, ChanRec>, reqs: map<Req, ReqRec>)
    requires TaskOk(cfg, t, k, l, chans, reqs)
    ensures Ended(k.trace) <==> l.Gone?
  {
  }

  // ---------------------------------------------------------------- the history of a task

  // One forward: the sub-request's status is the one the service is resumed with.
  function Round(h: Proc, w: Proc, st: Status): seq<Event> {
    [Forwarded(w), SubStarted(h), SubDone(h, st), Resumed(w, st)]
  }

  function Rounds(h: Proc, w: Proc, sts: seq<Status>): seq<Event> {
    if sts == [] then [] else Rounds(h, w, sts[..|sts| - 1]) + Round(h, w, sts[|sts| - 1])
  }

  // A whole life with |sts| forwards, finished and answered with `st`.
  function Life(h: Proc, w: Proc, sts: seq<Status>, st: Status): seq<Event> {
    [Submitted(h), Ran(w)] + Rounds(h, w, sts) + [Finished(w, st), Responded(h, st)]
  }

  function Refused(h: Proc): seq<Event> { [Submitted(h), Rejected(h)] }

  ghost predicate LegalHistory(tr: seq<Event>, h: Proc, w: Proc) {
    || tr <= Refused(h)
    || exists sts: seq<Status>, st: Status :: tr <= Life(h, w, sts, st)
  }

  // The history that reaches phase ph after the forwards sts.
  function Skeleton(ph: Phase, h: Proc, w: Proc, sts: seq<Status>): seq<Event> {
    var held := [Submitted(h), Ran(w)] + Rounds(h, w, sts);
    match ph
    case Start => []
    case Sent => [Submitted(h)]
    case Held => held
    case Forwarding => held + [Forwarded(w)]
    case InSub => held + [Forwarded(w), SubStarted(h)]
    case Returned(st) => held + [Forwarded(w), SubStarted(h), SubDone(h, st)]
    case Closing(st) => held + [Finished(w, st)]
    case _ => []
  }

  // One more event on a skeleton.
  lemma SkeletonStep(ph: Phase, e: Event, h: Proc, w: Proc, sts: seq<Status>) returns (sts': seq<Status>, st: Status)
    requires !ph.Over? && !ph.Bad?
    ensures var next := Advance(ph, e, h, w);
      && (next.Over? ==> Skeleton(ph, h, w, sts) + [e] == (if ph.Sent? then Refused(h) else Life(h, w, sts', st)))
      && (!next.Over? && !next.Bad? ==> Skeleton(ph, h, w, sts) + [e] == Skeleton(next, h, w, sts'))
  {
    sts', st := sts, 0;
    if ph.Sent? {
      sts' := [];
    } else if ph.Returned? {
      sts' := sts + [ph.st];
      assert sts'[..|sts'| - 1] == sts;
    } else if ph.Closing? {
      st := ph.st;
    }
  }

  lemma {:induction false} PhaseSkeleton(tr: seq<Event>, h: Proc, w: Proc) returns (sts: seq<Status>, st: Status)
    ensures var ph := PhaseOf(tr, h, w);
      && (ph.Over? ==> tr == Refused(h) || tr == Life(h, w, sts, st))
      && (!ph.Over? && !ph.Bad? ==> tr == Skeleton(ph, h, w, sts))
  {
    sts, st := [], 0;
    if tr != [] {
      var pre, e := tr[..|tr| - 1], tr[|tr| - 1];
      assert tr == pre + [e];
      var ph := PhaseOf(pre, h, w);
      sts, st := PhaseSkeleton(pre, h, w);
      if !ph.Over? && !ph.Bad? {
        sts, st := SkeletonStep(ph, e, h, w, sts);
      }
    }
  }

  // Conversely every whole life is a run of the automaton, so every prefix is legal.
  lemma RoundHeld(a: seq<Event>, h: Proc, w: Proc, st: Status)
    requires PhaseOf(a, h, w) == Held
    ensures PhaseOf(a + Round(h, w, st), h, w) == Held
  {
    var b := a + [Forwarded(w)];
    var c := b + [SubStarted(h)];
    var d := c + [SubDone(h, st)];
    PhaseSnoc(a, Forwarded(w), h, w);
    PhaseSnoc(b, SubStarted(h), h, w);
    PhaseSnoc(c, SubDone(h, st), h, w);
    PhaseSnoc(d, Resumed(w, st), h, w);
    assert a + Round(h, w, st) == d + [Resumed(w, st)];
  }

  lemma {:induction false} HeldAfterRounds(h: Proc, w: Proc, sts: seq<Status>)
    ensures PhaseOf([Submitted(h), Ran(w)] + Rounds(h, w, sts), h, w) == Held
  {
    var start := [Submitted(h), Ran(w)];
    if sts == [] {
      FreshPhase(h, w);
      PhaseSnoc([Submitted(h)], Ran(w), h, w);
      assert [Submitted(h)] + [Ran(w)] == start == start + Rounds(h, w, sts);
    } else {
      var last, rest := sts[|sts| - 1], sts[..|sts| - 1];
      HeldAfterRounds(h, w, rest);
      RoundHeld(start + Rounds(h, w, rest), h, w, last);
      assert start + Rounds(h, w, sts) == start + Rounds(h, w, rest) + Round(h, w, last);
    }
  }

  lemma {:induction false} BadStays(tr: seq<Event>, n: nat, h: Proc, w: Proc)
    requires n <= |tr| && !PhaseOf(tr, h, w).Bad?
    ensures !PhaseOf(tr[..n], h, w).Bad?
    decreases |tr|
  {
    if n < |tr| {
      BadStays(tr[..|tr| - 1], n, h, w);
      assert tr[..|tr| - 1][..n] == tr[..n];
    } else {
      assert tr[..n] == tr;
    }
  }

  // A task that is still held, or in a round, can be completed by that round.
  lemma SkeletonIsPrefix(ph: Phase, h: Proc, w: Proc, sts: seq<Status>)
    requires ph.Held? || ph.Forwarding? || ph.InSub? || ph.Returned?
    ensures Skeleton(ph, h, w, sts) <= Life(h, w, sts + [if ph.Returned? then ph.st else 0], 0)
  {
    var last := if ph.Returned? then ph.st else 0;
    var more := sts + [last];
    assert more[..|more| - 1] == sts;
    var held := [Submitted(h), Ran(w)] + Rounds(h, w, sts);
    assert Life(h, w, more, 0) == held + Round(h, w, last) + [Finished(w, 0), Responded(h, 0)];
  }

  lemma NotBadIsLegal(tr: seq<Event>, h: Proc, w: Proc)
    requires !PhaseOf(tr, h, w).Bad?
    ensures LegalHistory(tr, h, w)
  {
    var sts, st := PhaseSkeleton(tr, h, w);
    var ph := PhaseOf(tr, h, w);
    match ph
    case Start =>
    case Sent => assert tr <= Refused(h);
    case Closing(x) => assert tr <= Life(h, w, sts, x);
    case Over => assert tr <= Refused(h) || tr <= Life(h, w, sts, st);
    case _ => SkeletonIsPrefix(ph, h, w, sts);
  }

  lemma RefusedIsOver(h: Proc, w: Proc)
    ensures PhaseOf(Refused(h), h, w) == Over
  {
    FreshPhase(h, w);
    PhaseSnoc([Submitted(h)], Rejected(h), h, w);
    assert [Submitted(h)] + [Rejected(h)] == Refused(h);
  }

  lemma LifeIsOver(h: Proc, w: Proc, sts: seq<Status>, st: Status)
    ensures PhaseOf(Life(h, w, sts, st), h, w) == Over
  {
    HeldAfterRounds(h, w, sts);
    var a := [Submitted(h), Ran(w)] + Rounds(h, w, sts);
    PhaseSnoc(a, Finished(w, st), h, w);
    PhaseSnoc(a + [Finished(w, st)], Responded(h, st), h, w);
    assert a + [Finished(w, st)] + [Responded(h, st)] == Life(h, w, sts, st);
  }

  lemma PrefixIsNotBad(tr: seq<Event>, whole: seq<Event>, h: Proc, w: Proc)
    requires tr <= whole && PhaseOf(whole, h, w) == Over
    ensures !PhaseOf(tr, h, w).Bad?
  {
    assert whole[..|tr|] == tr;
    BadStays(whole, |tr|, h, w);
  }

  // The automaton accepts exactly the prefixes of Submit (Reject | Run (Forward SubRequest
  // SubDone Resume)^k Finish Respond), where each resumption carries the status of its
  // sub-request and the response the status of its finish.
  lemma LegalIffNotBad(tr: seq<Event>, h: Proc, w: Proc)
    ensures !PhaseOf(tr, h, w).Bad? <==> LegalHistory(tr, h, w)
  {
    if !PhaseOf(tr, h, w).Bad? {
      NotBadIsLegal(tr, h, w);
    } else if tr <= Refused(h) {
      RefusedIsOver(h, w);
      PrefixIsNotBad(tr, Refused(h), h, w);
    } else {
      forall sts: seq<Status>, st: Status ensures !(tr <= Life(h, w, sts, st)) {
        LifeIsOver(h, w, sts, st);
        if tr <= Life(h, w, sts, st) {
          PrefixIsNotBad(tr, Life(h, w, sts, st), h, w);
        }
      }
    }
  }

  // In every reachable state the history of every task is a prefix of a legal life.
  lemma HistoriesAreLegal(cfg: Config, ss: seq<State>, aa: seq<Action>, n: nat, t: Task)
    requires IsRun(cfg, ss, aa) && n < |ss| && t in ss[n].tasks
    ensures LegalHistory(ss[n].tasks[t].trace, ss[n].tasks[t].done, WorkerOf(ss[n].tasks[t]))
  {
    var loc := RunInv(cfg, ss, aa, n);
    var k := ss[n].tasks[t];
    assert TaskOk(cfg, t, k, loc[t], ss[n].chans, ss[n].reqs);
    NeverBad(cfg, t, k, loc[t], ss[n].chans, ss[n].reqs);
    LegalIffNotBad(k.trace, k.done, WorkerOf(k));
  }

  lemma NeverBad(cfg: Config, t: Task, k: TaskRec, l: Loc, chans: map<Chan, ChanRec>, reqs: map<Req, ReqRec>)
    requires TaskOk(cfg, t, k, l, chans, reqs)
    ensures !TaskPhase(k).Bad?
  {
    FreshPhase(k.done, WorkerOf(k));
  }

  // Each request gets at most one response.  A task that was run is answered with the
  // status that its service finished with, a refused one with 500.
  lemma OneResponse(cfg: Config, ss: seq<State>, aa: seq<Action>, n: nat, t: Task)
    returns (sts: seq<Status>)
    requires IsRun(cfg, ss, aa) && n < |ss| && t in ss[n].tasks
    ensures var k := ss[n].tasks[t];
      && k.req in ss[n].reqs && ss[n].reqs[k.req].owner == k.done
      && ss[n].reqs[k.req].responses == (if Ended(k.trace) then [k.status] else [])
      && (Ended(k.trace) && k.proc.Some? ==> k.trace == Life(k.done, k.proc.value, sts, k.status))
      && (Ended(k.trace) && k.proc.None? ==> k.trace == Refused(k.done) && k.status == INTERNAL_SERVER_ERROR)
  {
    var loc := RunInv(cfg, ss, aa, n);
    var k, l := ss[n].tasks[t], loc[t];
    assert TaskOk(cfg, t, k, l, ss[n].chans, ss[n].reqs);
    sts := EndedHistory(cfg, t, k, l, ss[n].chans, ss[n].reqs);
  }

  lemma EndedHistory(cfg: Config, t: Task, k: TaskRec, l: Loc, chans: map<Chan, ChanRec>, reqs: map<Req, ReqRec>)
    returns (sts: seq<Status>)
    requires TaskOk(cfg, t, k, l, chans, reqs)
    ensures Ended(k.trace) && k.proc.Some? ==> k.trace == Life(k.done, k.proc.value, sts, k.status)
    ensures Ended(k.trace) && k.proc.None? ==> k.trace == Refused(k.done) && k.status == INTERNAL_SERVER_ERROR
  {
    FreshPhase(k.done, WorkerOf(k));
    var st;
    sts, st := PhaseSkeleton(k.trace, k.done, WorkerOf(k));
  }

  // ---------------------------------------------------------------- wake-ups

  // A non-empty mailbox is announced: its eventfd is positive, or a pusher is between its
  // unlock and its eventfd write, or its owner is in a drain that has not seen it empty.
  lemma NoLostWakeup(cfg: Config, ss: seq<State>, aa: seq<Action>, n: nat, p: Proc)
    requires IsRun(cfg, ss, aa) && n < |ss| && p in ss[n].procs
    ensures ss[n].procs[p].mail != [] ==> Announced(ss[n], p)
  {
    var _ := RunInv(cfg, ss, aa, n);
  }

  // So a process that sleeps at a zero eventfd, with no pusher on its way to write it, has no mail.
  lemma AsleepMeansServed(cfg: Config, ss: seq<State>, aa: seq<Action>, n: nat, p: Proc)
    requires IsRun(cfg, ss, aa) && n < |ss| && p in ss[n].procs
    requires ss[n].procs[p].base.Sleep? && ss[n].procs[p].efd == 0
    requires forall q | q in ss[n].procs :: ss[n].procs[q].push != Signal(p)
    ensures ss[n].procs[p].mail == []
  {
    NoLostWakeup(cfg, ss, aa, n, p);
  }

  // Nothing is going on inside the processes.
  ghost predicate Quiescent(s: State) {
    forall p | p in s.procs :: s.procs[p].base.Sleep? && s.procs[p].push.NoPush? && s.procs[p].efd == 0
  }

  // In a quiescent state no task is stuck inside the protocol: each one is with its
  // service, in a sub-request, or answered.
  lemma QuiescentMeansServed(cfg: Config, ss: seq<State>, aa: seq<Action>, n: nat, t: Task)
    requires IsRun(cfg, ss, aa) && n < |ss| && t in ss[n].tasks && Quiescent(ss[n])
    ensures exists l :: At(ss[n], t, l) && (l.AtService? || l.AtSub? || l.Gone?)
  {
    var loc := RunInv(cfg, ss, aa, n);
    GoneWhenEnded(cfg, ss[n], loc, t);
    var l := loc[t];
    assert At(ss[n], t, l);
  }

  // ---------------------------------------------------------------- affinity

  // One step changes neither proc_notify, once set, nor done_notify of a task, and only
  // adds to its history.
  ghost predicate SameTargets(k: TaskRec, k': TaskRec) {
    && k'.done == k.done && k'.req == k.req
    && (k.proc.Some? ==> k'.proc == k.proc)
    && k.trace <= k'.trace
  }

  // The steps of the event loop and of a push leave tasks and channels alone.
  predicate Mechanical(a: Action) {
    a.LinkNode? || a.WriteEvent? || a.Wake? || a.ReadEvent? || a.PopNone? || a.ParkSelf?
  }

  lemma MechanicalStep(cfg: Config, s: State, a: Action)
    requires Enabled(cfg, s, a) && Mechanical(a)
    ensures Apply(cfg, s, a).tasks == s.tasks && Apply(cfg, s, a).chans == s.chans
  {
  }

  lemma StepTargets(cfg: Config, s: State, a: Action, t: Task)
    requires Enabled(cfg, s, a) && t in s.tasks && !Apply(cfg, s, a).fault
    requires a.Take? ==> s.tasks[s.procs[a.p].push.t].proc.None?
    ensures t in Apply(cfg, s, a).tasks && SameTargets(s.tasks[t], Apply(cfg, s, a).tasks[t])
  {
    match a
    case Pop(p, c) => PopNotes(cfg, s, p, c);
    case Finish(p, u, c, st) => FinishTargets(s, p, u, c, st, t);
    case Forward(p, u, c, f) => ForwardTargets(s, p, u, c, f, t);
    case CompleteSub(p, u, st) => CompleteTargets(s, p, u, st, t);
    case Submit(_, _, _) =>
    case Take(_, _) =>
    case TakeNone(p) => RefusalTargets(s, p, t);
    case DeleteChannel(_, _) =>
    case _ => MechanicalStep(cfg, s, a);
  }

  lemma CompleteTargets(s: State, p: Proc, u: Task, st: Status, t: Task)
    requires p in s.procs && t in s.tasks
    ensures t in DoCompleteSub(s, p, u, st).tasks && SameTargets(s.tasks[t], DoCompleteSub(s, p, u, st).tasks[t])
  {
  }

  lemma RefusalTargets(s: State, p: Proc, t: Task)
    requires p in s.procs && s.procs[p].push.Pick? && t in s.tasks
    ensures t in DoTakeNone(s, p).tasks && SameTargets(s.tasks[t], DoTakeNone(s, p).tasks[t])
  {
  }

  lemma FinishTargets(s: State, p: Proc, u: Task, c: Chan, st: Status, t: Task)
    requires p in s.procs && t in s.tasks
    ensures t in DoFinish(s, p, u, c, st).tasks && SameTargets(s.tasks[t], DoFinish(s, p, u, c, st).tasks[t])
  {
  }

  lemma ForwardTargets(s: State, p: Proc, u: Task, c: Chan, f: Chan, t: Task)
    requires p in s.procs && t in s.tasks
    ensures t in DoForward(s, p, u, c, f).tasks && SameTargets(s.tasks[t], DoForward(s, p, u, c, f).tasks[t])
  {
  }

  // The event that popping a task notes in its history.
  function PopEvent(cfg: Config, k: TaskRec, p: Proc): Event {
    if p in cfg.rpc then (if k.closure.Method? then Ran(p) else Resumed(p, k.status))
    else if k.finish.RequestForward? then SubStarted(p) else Responded(p, k.status)
  }

  // A pop notes that event, and creates a channel with Ran.
  lemma PopNotes(cfg: Config, s: State, p: Proc, c: Chan)
    requires Enabled(cfg, s, Pop(p, c)) && !DoPop(cfg, s, p, c).fault
    ensures var u, s' := s.procs[p].mail[0], DoPop(cfg, s, p, c);
      && u in s.tasks
      && s'.tasks == s.tasks[u := Noted(s.tasks[u], PopEvent(cfg, s.tasks[u], p))]
      && s'.chans == if p in cfg.rpc && s.tasks[u].closure.Method?
                     then s.chans[c := ChanRec(p, Some(u), s.tasks[u].closure.r, None, u)] else s.chans
  {
    var u := s.procs[p].mail[0];
    if p in cfg.rpc {
      ClosureNotes(cfg, Popped(s, p), p, u, c);
    } else {
      FinishNotes(cfg, Popped(s, p), p, u);
    }
  }

  lemma ClosureNotes(cfg: Config, s: State, p: Proc, u: Task, c: Chan)
    requires p in s.procs && p in cfg.rpc && u in s.tasks && !RunClosure(s, p, u, c).fault
    ensures RunClosure(s, p, u, c).tasks == s.tasks[u := Noted(s.tasks[u], PopEvent(cfg, s.tasks[u], p))]
    ensures RunClosure(s, p, u, c).chans ==
      if s.tasks[u].closure.Method? then s.chans[c := ChanRec(p, Some(u), s.tasks[u].closure.r, None, u)] else s.chans
  {
  }

  lemma FinishNotes(cfg: Config, s: State, p: Proc, u: Task)
    requires p in s.procs && p !in cfg.rpc && u in s.tasks && !RunFinish(s, p, u).fault
    ensures RunFinish(s, p, u).tasks == s.tasks[u := Noted(s.tasks[u], PopEvent(cfg, s.tasks[u], p))]
    ensures RunFinish(s, p, u).chans == s.chans
  {
  }

  // A worker is chosen for a task that has none yet.
  lemma TakeTarget(cfg: Config, s: State, loc: map<Task, Loc>, a: Action)
    requires Inv(cfg, s, loc) && Enabled(cfg, s, a) && a.Take?
    ensures s.procs[a.p].push.t in s.tasks && s.tasks[s.procs[a.p].push.t].proc.None?
  {
    Placed(cfg, s, loc, s.procs[a.p].push.t, AtPick(a.p, s.procs[a.p].push.r));
  }

  lemma TargetsOfStep(cfg: Config, ss: seq<State>, aa: seq<Action>, i: nat, t: Task)
    requires IsRun(cfg, ss, aa) && i < |aa| && t in ss[i].tasks
    ensures t in ss[i + 1].tasks && SameTargets(ss[i].tasks[t], ss[i + 1].tasks[t])
  {
    var loc := RunInv(cfg, ss, aa, i);
    NoFault(cfg, ss, aa, i + 1);
    assert StepAt(cfg, ss, aa, i);
    if aa[i].Take? {
      TakeTarget(cfg, ss[i], loc, aa[i]);
    }
    StepTargets(cfg, ss[i], aa[i], t);
  }

  // Over a whole run a task keeps the two processes it was given.
  lemma {:induction false} TargetsNeverChange(cfg: Config, ss: seq<State>, aa: seq<Action>, i: nat, j: nat, t: Task)
    requires IsRun(cfg, ss, aa) && i <= j < |ss| && t in ss[i].tasks
    ensures t in ss[j].tasks && SameTargets(ss[i].tasks[t], ss[j].tasks[t])
  {
    if i < j {
      TargetsNeverChange(cfg, ss, aa, i, j - 1, t);
      TargetsOfStep(cfg, ss, aa, j - 1, t);
    }
  }

  // The process an event may happen in.
  predicate InProcess(e: Event, h: Proc, w: Proc) {
    e.p == if e.Submitted? || e.Rejected? || e.SubStarted? || e.SubDone? || e.Responded? then h else w
  }

  lemma {:induction false} EventsInProcess(tr: seq<Event>, h: Proc, w: Proc, i: nat)
    requires !PhaseOf(tr, h, w).Bad? && i < |tr|
    ensures InProcess(tr[i], h, w)
    decreases |tr|
  {
    if i < |tr| - 1 {
      BadStays(tr, |tr| - 1, h, w);
      EventsInProcess(tr[..|tr| - 1], h, w, i);
    }
  }

  // Every closure of a task runs, and every decision of its service is made, in one RPC
  // process; every submission, sub-request and response step in the submitting HTTP worker.
  lemma ProcessAffinity(cfg: Config, ss: seq<State>, aa: seq<Action>, n: nat, t: Task, i: nat)
    requires IsRun(cfg, ss, aa) && n < |ss| && t in ss[n].tasks && i < |ss[n].tasks[t].trace|
    ensures var k := ss[n].tasks[t];
      && k.done in cfg.http && InProcess(k.trace[i], k.done, WorkerOf(k))
      && (!k.trace[i].Submitted? && !k.trace[i].Rejected? ==> k.proc.Some? && k.proc.value in cfg.rpc)
  {
    var loc := RunInv(cfg, ss, aa, n);
    var k := ss[n].tasks[t];
    assert TaskOk(cfg, t, k, loc[t], ss[n].chans, ss[n].reqs);
    NeverBad(cfg, t, k, loc[t], ss[n].chans, ss[n].reqs);
    EventsInProcess(k.trace, k.done, WorkerOf(k), i);
    if k.proc.None? && loc[t].Gone? {
      var _ := EndedHistory(cfg, t, k, loc[t], ss[n].chans, ss[n].reqs);
    }
  }

  // ---------------------------------------------------------------- channels

  ghost function LiveFor(s: State, t: Task): set<Chan> {
    set c | c in s.chans && s.chans[c].serves == t
  }

  // How often a channel of t was deleted in the first n steps.
  ghost function Deletions(ss: seq<State>, aa: seq<Action>, n: nat, t: Task): nat
    requires n <= |aa| && n <= |ss|
  {
    if n == 0 then 0
    else
      var a, s := aa[n - 1], ss[n - 1];
      Deletions(ss, aa, n - 1, t)
      + if a.DeleteChannel? && a.c in s.chans && s.chans[a.c].serves == t then 1 else 0
  }

  // How many channels a history creates: one when the task is run, one per forward.
  function Creations(tr: seq<Event>): nat {
    if tr == [] then 0
    else Creations(tr[..|tr| - 1]) + if tr[|tr| - 1].Ran? || tr[|tr| - 1].Forwarded? then 1 else 0
  }

  lemma CreationsSnoc(tr: seq<Event>, e: Event)
    ensures Creations(tr + [e]) == Creations(tr) + if e.Ran? || e.Forwarded? then 1 else 0
  {
    assert (tr + [e])[..|tr|] == tr;
  }

  // Channels made so far for t, by its history.
  function MadeFor(s: State, t: Task): nat {
    if t in s.tasks then Creations(s.tasks[t].trace) else 0
  }

  // Channels are neither lost nor deleted twice: at any time the channels made for a task,
  // one when it is run and one per forward, are those deleted and those alive.
  lemma {:induction false} ChannelConservation(cfg: Config, ss: seq<State>, aa: seq<Action>, n: nat, t: Task)
    requires IsRun(cfg, ss, aa) && n < |ss|
    ensures MadeFor(ss[n], t) == Deletions(ss, aa, n, t) + |LiveFor(ss[n], t)|
  {
    if n == 0 {
      assert LiveFor(ss[0], t) == {};
    } else {
      ChannelConservation(cfg, ss, aa, n - 1, t);
      BalanceOfStep(cfg, ss, aa, n - 1, t);
    }
  }

  lemma BalanceOfStep(cfg: Config, ss: seq<State>, aa: seq<Action>, i: nat, t: Task)
    requires IsRun(cfg, ss, aa) && i < |aa|
    ensures MadeFor(ss[i + 1], t) + |LiveFor(ss[i], t)|
         == MadeFor(ss[i], t) + DeletedFor(ss[i], aa[i], t) + |LiveFor(ss[i + 1], t)|
  {
    var loc := RunInv(cfg, ss, aa, i);
    NoFault(cfg, ss, aa, i + 1);
    assert StepAt(cfg, ss, aa, i);
    var a := aa[i];
    if a.Forward? {
      ServiceTarget(cfg, ss[i], loc, a.p, a.t, a.c);
    }
    StepChannels(cfg, ss[i], a, t);
  }

  function DeletedFor(s: State, a: Action, t: Task): nat {
    if a.DeleteChannel? && a.c in s.chans && s.chans[a.c].serves == t then 1 else 0
  }

  // The balance of one step.
  lemma StepChannels(cfg: Config, s: State, a: Action, t: Task)
    requires Enabled(cfg, s, a) && !Apply(cfg, s, a).fault
    requires a.Forward? ==> ServiceUsable(s, a.p, a.t, a.c)
    ensures MadeFor(Apply(cfg, s, a), t) + |LiveFor(s, t)|
         == MadeFor(s, t) + DeletedFor(s, a, t) + |LiveFor(Apply(cfg, s, a), t)|
  {
    match a
    case Pop(p, c) => PopBalance(cfg, s, p, c, t);
    case Forward(p, u, c, f) => ForwardBalance(s, p, u, c, f, t);
    case DeleteChannel(p, c) => DeleteBalance(s, p, c, t);
    case _ => OtherBalance(cfg, s, a, t);
  }

  // A step that notes an event in the history of u, or starts it.
  lemma NotedBalance(s: State, s': State, u: Task, e: Event, t: Task)
    requires u in s'.tasks && s'.tasks == s.tasks[u := s'.tasks[u]]
    requires s'.tasks[u].trace == (if u in s.tasks then s.tasks[u].trace else []) + [e]
    ensures MadeFor(s', t) == MadeFor(s, t) + if t == u && (e.Ran? || e.Forwarded?) then 1 else 0
  {
    CreationsSnoc(if u in s.tasks then s.tasks[u].trace else [], e);
  }

  lemma OtherBalance(cfg: Config, s: State, a: Action, t: Task)
    requires Enabled(cfg, s, a) && !a.Pop? && !a.Forward? && !a.DeleteChannel? && !Apply(cfg, s, a).fault
    ensures Apply(cfg, s, a).chans == s.chans && MadeFor(Apply(cfg, s, a), t) == MadeFor(s, t)
  {
    var s' := Apply(cfg, s, a);
    match a
    case Submit(p, u, r) => NotedBalance(s, s', u, Submitted(p), t);
    case TakeNone(p) => NotedBalance(s, s', s.procs[p].push.t, Rejected(p), t);
    case Finish(p, u, c, st) => FinishBalance(s, p, u, c, st, t);
    case CompleteSub(p, u, st) => NotedBalance(s, s', u, SubDone(p, st), t);
    case Take(p, w) => TakeBalance(cfg, s, p, w, t);
    case _ => MechanicalStep(cfg, s, a);
  }

  lemma TakeBalance(cfg: Config, s: State, p: Proc, w: Proc, t: Task)
    requires Enabled(cfg, s, Take(p, w))
    ensures DoTake(cfg, s, p, w).chans == s.chans && MadeFor(DoTake(cfg, s, p, w), t) == MadeFor(s, t)
  {
  }

  lemma FinishBalance(s: State, p: Proc, u: Task, c: Chan, st: Status, t: Task)
    requires p in s.procs && !DoFinish(s, p, u, c, st).fault
    ensures DoFinish(s, p, u, c, st).chans == s.chans && MadeFor(DoFinish(s, p, u, c, st), t) == MadeFor(s, t)
  {
    NotedBalance(s, DoFinish(s, p, u, c, st), s.chans[c].task.value, Finished(p, st), t);
  }

  lemma PopBalance(cfg: Config, s: State, p: Proc, c: Chan, t: Task)
    requires Enabled(cfg, s, Pop(p, c)) && !DoPop(cfg, s, p, c).fault
    ensures MadeFor(DoPop(cfg, s, p, c), t) + |LiveFor(s, t)| == MadeFor(s, t) + |LiveFor(DoPop(cfg, s, p, c), t)|
  {
    PopNotes(cfg, s, p, c);
    var u, s' := s.procs[p].mail[0], DoPop(cfg, s, p, c);
    PopLive(s, s', u, p, s.tasks[u].closure, c, p in cfg.rpc && s.tasks[u].closure.Method?, t);
    NotedBalance(s, s', u, PopEvent(cfg, s.tasks[u], p), t);
  }

  lemma PopLive(s: State, s': State, u: Task, p: Proc, k: Closure, c: Chan, runs: bool, t: Task)
    requires c !in s.chans && (runs ==> k.Method?)
    requires s'.chans == if runs then s.chans[c := ChanRec(p, Some(u), k.r, None, u)] else s.chans
    ensures |LiveFor(s', t)| == |LiveFor(s, t)| + if runs && t == u then 1 else 0
  {
    if runs && t == u {
      assert LiveFor(s', t) == LiveFor(s, t) + {c};
    } else {
      assert LiveFor(s', t) == LiveFor(s, t);
    }
  }

  lemma ForwardBalance(s: State, p: Proc, u: Task, c: Chan, f: Chan, t: Task)
    requires p in s.procs && ServiceUsable(s, p, u, c) && f !in s.chans
    ensures MadeFor(DoForward(s, p, u, c, f), t) + |LiveFor(s, t)|
         == MadeFor(s, t) + |LiveFor(DoForward(s, p, u, c, f), t)|
  {
    CreationsSnoc(s.tasks[u].trace, Forwarded(p));
    if t == u {
      assert LiveFor(DoForward(s, p, u, c, f), t) == LiveFor(s, t) + {f};
    } else {
      assert LiveFor(DoForward(s, p, u, c, f), t) == LiveFor(s, t);
    }
  }

  lemma DeleteBalance(s: State, p: Proc, c: Chan, t: Task)
    requires p in s.procs && c in s.chans && s.chans[c].owner == p
    ensures |LiveFor(s, t)| == DeletedFor(s, DeleteChannel(p, c), t) + |LiveFor(DoDelete(s, p, c), t)|
    ensures DoDelete(s, p, c).tasks == s.tasks
  {
    if s.chans[c].serves == t {
      assert LiveFor(s, t) == LiveFor(DoDelete(s, p, c), t) + {c};
    } else {
      assert LiveFor(s, t) == LiveFor(DoDelete(s, p, c), t);
    }
  }

  // Once a task is answered and its RPC process has caught up, every channel made for it,
  // one plus the number of its forwards, has been deleted.
  lemma ChannelsAllDeleted(cfg: Config, ss: seq<State>, aa: seq<Action>, n: nat, t: Task)
    requires IsRun(cfg, ss, aa) && n < |ss| && t in ss[n].tasks && Ended(ss[n].tasks[t].trace)
    requires forall p | p in ss[n].procs :: ss[n].procs[p].del == {}
    ensures LiveFor(ss[n], t) == {}
    ensures Deletions(ss, aa, n, t) == Creations(ss[n].tasks[t].trace)
  {
    ChannelConservation(cfg, ss, aa, n, t);
    var loc := RunInv(cfg, ss, aa, n);
    assert TaskOk(cfg, t, ss[n].tasks[t], loc[t], ss[n].chans, ss[n].reqs);
    NoneAlive(ss[n], loc, t);
  }

  lemma NoneAlive(s: State, loc: map<Task, Loc>, t: Task)
    requires ChannelsOk(s, loc) && t in s.tasks && t in loc && loc[t].Gone? && TaskPhase(s.tasks[t]).Over?
    requires forall p | p in s.procs :: s.procs[p].del == {}
    ensures LiveFor(s, t) == {}
  {
    forall c | c in s.chans ensures s.chans[c].serves != t {
      assert ChannelOk(s, loc, c);
    }
  }

  lemma {:induction false} RoundsCreations(h: Proc, w: Proc, sts: seq<Status>)
    ensures Creations([Submitted(h), Ran(w)] + Rounds(h, w, sts)) == 1 + |sts|
  {
    var start := [Submitted(h), Ran(w)];
    if sts == [] {
      CreationsSnoc([], Submitted(h));
      CreationsSnoc([Submitted(h)], Ran(w));
      assert [] + [Submitted(h)] == [Submitted(h)];
      assert [Submitted(h)] + [Ran(w)] == start == start + Rounds(h, w, sts);
    } else {
      var last, rest := sts[|sts| - 1], sts[..|sts| - 1];
      RoundsCreations(h, w, rest);
      var a := start + Rounds(h, w, rest);
      CreationsSnoc(a, Forwarded(w));
      CreationsSnoc(a + [Forwarded(w)], SubStarted(h));
      CreationsSnoc(a + [Forwarded(w)] + [SubStarted(h)], SubDone(h, last));
      CreationsSnoc(a + [Forwarded(w)] + [SubStarted(h)] + [SubDone(h, last)], Resumed(w, last));
      assert start + Rounds(h, w, sts)
          == a + [Forwarded(w)] + [SubStarted(h)] + [SubDone(h, last)] + [Resumed(w, last)];
    }
  }

  // A life with k forwards makes k + 1 channels.
  lemma LifeCreations(h: Proc, w: Proc, sts: seq<Status>, st: Status)
    ensures Creations(Life(h, w, sts, st)) == 1 + |sts|
  {
    RoundsCreations(h, w, sts);
    var a := [Submitted(h), Ran(w)] + Rounds(h, w, sts);
    CreationsSnoc(a, Finished(w, st));
    CreationsSnoc(a + [Finished(w, st)], Responded(h, st));
    assert a + [Finished(w, st)] + [Responded(h, st)] == Life(h, w, sts, st);
  }

  // ---------------------------------------------------------------- FIFO mailboxes

  // The tasks linked into the mailbox of p, and those taken out of it, in order.
  ghost function LinkedInto(ss: seq<State>, aa: seq<Action>, n: nat, p: Proc): seq<Task>
    requires n <= |aa| && n <= |ss|
  {
    if n == 0 then []
    else
      var a, s := aa[n - 1], ss[n - 1];
      LinkedInto(ss, aa, n - 1, p)
      + if a.LinkNode? && a.p in s.procs && s.procs[a.p].push.Link? && s.procs[a.p].push.dest == p
        then [s.procs[a.p].push.t] else []
  }

  ghost function PoppedFrom(ss: seq<State>, aa: seq<Action>, n: nat, p: Proc): seq<Task>
    requires n <= |aa| && n <= |ss|
  {
    if n == 0 then []
    else
      var a, s := aa[n - 1], ss[n - 1];
      PoppedFrom(ss, aa, n - 1, p)
      + if a.Pop? && a.p == p && p in s.procs && s.procs[p].mail != [] then [s.procs[p].mail[0]] else []
  }

  // Over any run the tasks taken out of a mailbox are a prefix of those put in, in order,
  // and the rest is what is waiting.
  lemma {:induction false} MailboxIsFifo(cfg: Config, ss: seq<State>, aa: seq<Action>, n: nat, p: Proc)
    requires IsRun(cfg, ss, aa) && n < |ss| && p in ss[n].procs
    ensures LinkedInto(ss, aa, n, p) == PoppedFrom(ss, aa, n, p) + ss[n].procs[p].mail
  {
    if n > 0 {
      MailOfStep(cfg, ss, aa, n - 1, p);
      MailboxIsFifo(cfg, ss, aa, n - 1, p);
      var s, a := ss[n - 1], aa[n - 1];
      if a.Pop? && a.p == p {
        assert s.procs[p].mail == [s.procs[p].mail[0]] + s.procs[p].mail[1..];
      }
    }
  }

  lemma MailOfStep(cfg: Config, ss: seq<State>, aa: seq<Action>, i: nat, p: Proc)
    requires IsRun(cfg, ss, aa) && i < |aa| && p in ss[i + 1].procs
    ensures p in ss[i].procs && Enabled(cfg, ss[i], aa[i])
    ensures ss[i + 1].procs[p].mail == MailAfter(ss[i], aa[i], p)
  {
    var loc := RunInv(cfg, ss, aa, i);
    var _ := RunInv(cfg, ss, aa, i + 1);
    assert StepAt(cfg, ss, aa, i);
    if aa[i].LinkNode? {
      LinkTarget(cfg, ss[i], loc, aa[i].p);
      LinkableOnce(ss[i], loc, aa[i].p);
    }
    MailStep(cfg, ss[i], aa[i], p);
  }

  // The mailbox of p after a step.
  ghost function MailAfter(s: State, a: Action, p: Proc): seq<Task>
    requires p in s.procs
  {
    if a.LinkNode? && a.p in s.procs && s.procs[a.p].push.Link? && s.procs[a.p].push.dest == p
    then s.procs[p].mail + [s.procs[a.p].push.t]
    else if a.Pop? && a.p == p && s.procs[p].mail != [] then s.procs[p].mail[1..]
    else s.procs[p].mail
  }

  lemma MailStep(cfg: Config, s: State, a: Action, p: Proc)
    requires Enabled(cfg, s, a) && p in s.procs && !Apply(cfg, s, a).fault
    requires a.LinkNode? ==> s.procs[a.p].push.dest in s.procs && !OnSomeMailbox(s, s.procs[a.p].push.t)
    ensures p in Apply(cfg, s, a).procs
    ensures Apply(cfg, s, a).procs[p].mail == MailAfter(s, a, p)
  {
    match a
    case Pop(q, c) => PopProcs(cfg, s, q, c);
    case LinkNode(q) => LinkMail(s, q, p);
    case WriteEvent(q) => WriteMail(s, q, p);
    case _ => OtherMail(cfg, s, a, p);
  }

  lemma LinkMail(s: State, q: Proc, p: Proc)
    requires q in s.procs && s.procs[q].push.Link? && p in s.procs
    requires s.procs[q].push.dest in s.procs && !OnSomeMailbox(s, s.procs[q].push.t)
    ensures p in DoLink(s, q).procs && DoLink(s, q).procs[p].mail == MailAfter(s, LinkNode(q), p)
  {
  }

  lemma WriteMail(s: State, q: Proc, p: Proc)
    requires q in s.procs && s.procs[q].push.Signal? && p in s.procs
    ensures p in DoWrite(s, q).procs && DoWrite(s, q).procs[p].mail == s.procs[p].mail
  {
  }

  lemma OtherMail(cfg: Config, s: State, a: Action, p: Proc)
    requires Enabled(cfg, s, a) && p in s.procs && !a.LinkNode? && !a.WriteEvent? && !a.Pop?
    ensures p in Apply(cfg, s, a).procs && Apply(cfg, s, a).procs[p].mail == s.procs[p].mail
  {
    match a
    case Submit(_, _, _) =>
    case Take(_, _) =>
    case TakeNone(_) =>
    case Finish(_, _, _, _) => OwnStepMail(cfg, s, a, p);
    case Forward(_, _, _, _) => OwnStepMail(cfg, s, a, p);
    case CompleteSub(_, _, _) => OwnStepMail(cfg, s, a, p);
    case _ =>
  }

  lemma OwnStepMail(cfg: Config, s: State, a: Action, p: Proc)
    requires Enabled(cfg, s, a) && p in s.procs && (a.Finish? || a.Forward? || a.CompleteSub?)
    ensures p in Apply(cfg, s, a).procs && Apply(cfg, s, a).procs[p].mail == s.procs[p].mail
  {
  }
}
