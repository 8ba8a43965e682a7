/**
 Progress: the module's own steps, of which a wake-up counts only when its eventfd is
 positive, come to an end after a bounded number, and where they end all mail is delivered.
 */
module Progress {
  import opened Protocol
  import opened ProtocolInv
  import opened ProtocolSteps
  import opened ProtocolTheorems

  // Steps that the processes take by themselves: everything but new requests, decisions of
  // services and results of sub-requests.
  predicate Internal(a: Action) { !(a.Submit? || a.Finish? || a.Forward? || a.CompleteSub?) }

  // Of these the steps that nothing spurious brings about: the event loop reports an eventfd
  // that is positive.
  predicate Prompt(s: State, a: Action) {
    Internal(a) && (a.Wake? ==> a.p in s.procs && s.procs[a.p].efd > 0)
  }

  ghost predicate CanMove(cfg: Config, s: State) { exists a :: Prompt(s, a) && Enabled(cfg, s, a) }

  // ---------------------------------------------------------------- some step is possible

  lemma FreshChannel(chans: map<Chan, ChanRec>) returns (c: Chan)
    ensures c !in chans
  {
    c := 0;
    var seen: set<Chan> := {};
    while c in chans
      invariant seen <= chans.Keys
      invariant forall x | x in seen :: x < c
      decreases |chans.Keys - seen|
    {
      assert c in chans.Keys - seen;
      seen := seen + {c};
      c := c + 1;
    }
  }

  // Asleep at a zero eventfd with nothing left to do.
  predicate Idle(ps: ProcState) { ps.base.Sleep? && Settled(ps) && ps.efd == 0 }

  // A process that is not idle can take a step of its own.
  lemma OwnStep(cfg: Config, s: State, p: Proc)
    requires Shell(cfg, s) && p in s.procs && !Idle(s.procs[p])
    ensures CanMove(cfg, s)
  {
    var ps := s.procs[p];
    if !ps.push.NoPush? {
      match ps.push
      case Pick(t, r) =>
        var a := if cfg.guarded && s.idle != [] then Take(p, s.idle[0]) else TakeNone(p);
        assert Prompt(s, a) && Enabled(cfg, s, a);
      case Link(t, d) => assert Prompt(s, LinkNode(p)) && Enabled(cfg, s, LinkNode(p));
      case Signal(d) => assert Prompt(s, WriteEvent(p)) && Enabled(cfg, s, WriteEvent(p));
    } else if ps.del != {} {
      var c :| c in ps.del;
      assert Prompt(s, DeleteChannel(p, c)) && Enabled(cfg, s, DeleteChannel(p, c));
    } else {
      LoopStep(cfg, s, p);
    }
  }

  lemma LoopStep(cfg: Config, s: State, p: Proc)
    requires p in s.procs && Settled(s.procs[p]) && !Idle(s.procs[p])
    ensures CanMove(cfg, s)
  {
    match s.procs[p].base
    case Sleep => assert Prompt(s, Wake(p)) && Enabled(cfg, s, Wake(p));
    case Read => assert Prompt(s, ReadEvent(p)) && Enabled(cfg, s, ReadEvent(p));
    case Park(_) => assert Prompt(s, ParkSelf(p)) && Enabled(cfg, s, ParkSelf(p));
    case Drain(_) =>
      if s.procs[p].mail == [] {
        assert Prompt(s, PopNone(p)) && Enabled(cfg, s, PopNone(p));
      } else {
        var c := FreshChannel(s.chans);
        assert Prompt(s, Pop(p, c)) && Enabled(cfg, s, Pop(p, c));
      }
  }

  // The module comes to rest exactly when every process is idle.
  lemma RestIffIdle(cfg: Config, s: State)
    requires Shell(cfg, s)
    ensures !CanMove(cfg, s) <==> forall p | p in s.procs :: Idle(s.procs[p])
  {
    forall p | p in s.procs && !Idle(s.procs[p]) ensures CanMove(cfg, s) {
      OwnStep(cfg, s, p);
    }
  }

  // While a task waits in a mailbox the module can move, without any spurious wake-up.
  lemma NeverStuck(cfg: Config, ss: seq<State>, aa: seq<Action>, n: nat, p: Proc)
    requires IsRun(cfg, ss, aa) && n < |ss| && p in ss[n].procs && ss[n].procs[p].mail != []
    ensures CanMove(cfg, ss[n])
  {
    var s := ss[n];
    var _ := RunInv(cfg, ss, aa, n);
    if Idle(s.procs[p]) {
      var q :| q in s.procs && s.procs[q].push == Signal(p);
      OwnStep(cfg, s, q);
    } else {
      OwnStep(cfg, s, p);
    }
  }

  // ---------------------------------------------------------------- every step leaves less to do

  // What the event loop still does by itself from here, more if its eventfd is positive.
  function BaseWeight(b: Base, signalled: bool): nat {
    match b
    case Sleep => if signalled then 7 else 0
    case Read => if signalled then 6 else 3
    case Drain(again) => if again then (if signalled then 8 else 5) else (if signalled then 9 else 2)
    case Park(again) => if again then (if signalled then 7 else 4) else (if signalled then 8 else 1)
  }

  function PushWeight(push: Push): nat {
    match push
    case NoPush => 0
    case Signal(_) => 8
    case Link(_, _) => 12
    case Pick(_, _) => 13
  }

  function Weight(ps: ProcState): nat {
    PushWeight(ps.push) + |ps.del| + 2 * |ps.mail| + BaseWeight(ps.base, ps.efd > 0)
  }

  ghost function Work(procs: map<Proc, ProcState>): nat
    decreases |procs|
  {
    if procs == map[] then 0
    else
      var p :| p in procs;
      Weight(procs[p]) + Work(procs - {p})
  }

  lemma {:induction false} WorkOf(procs: map<Proc, ProcState>, p: Proc)
    requires p in procs
    ensures Work(procs) == Weight(procs[p]) + Work(procs - {p})
    decreases |procs|
  {
    var q :| q in procs && Work(procs) == Weight(procs[q]) + Work(procs - {q});
    if q != p {
      WorkOf(procs - {q}, p);
      WorkOf(procs - {p}, q);
      assert procs - {q} - {p} == procs - {p} - {q};
    }
  }

  lemma WorkAfter(procs: map<Proc, ProcState>, p: Proc, ps: ProcState)
    requires p in procs
    ensures Work(procs[p := ps]) + Weight(procs[p]) == Work(procs) + Weight(ps)
  {
    WorkOf(procs, p);
    WorkOf(procs[p := ps], p);
    assert procs[p := ps] - {p} == procs - {p};
  }

  lemma LinkLess(s: State, p: Proc)
    requires p in s.procs && s.procs[p].push.Link? && !DoLink(s, p).fault
    ensures Work(DoLink(s, p).procs) < Work(s.procs)
  {
    if s.procs[p].push.dest in s.procs && !OnSomeMailbox(s, s.procs[p].push.t) {
      var Link(t, d) := s.procs[p].push;
      var one := s.procs[p := s.procs[p].(push := Signal(d))];
      WorkAfter(s.procs, p, one[p]);
      WorkAfter(one, d, one[d].(mail := one[d].mail + [t]));
    }
  }

  lemma WriteLess(s: State, p: Proc)
    requires p in s.procs && s.procs[p].push.Signal? && !DoWrite(s, p).fault
    ensures Work(DoWrite(s, p).procs) < Work(s.procs)
  {
    var d := s.procs[p].push.dest;
    if d in s.procs {
      var one := s.procs[p := s.procs[p].(push := NoPush)];
      WorkAfter(s.procs, p, one[p]);
      WorkAfter(one, d, DoWrite(s, p).procs[d]);
    }
  }

  lemma PopLess(cfg: Config, s: State, p: Proc, c: Chan)
    requires p in s.procs && s.procs[p].mail != [] && !DoPop(cfg, s, p, c).fault
    ensures var s' := DoPop(cfg, s, p, c);
      p in s'.procs && s'.procs == s.procs[p := s'.procs[p]] && Weight(s'.procs[p]) < Weight(s.procs[p])
  {
    PopProcs(cfg, s, p, c);
  }

  lemma TakeLess(cfg: Config, s: State, a: Action)
    requires Enabled(cfg, s, a) && (a.Take? || a.TakeNone?) && !Apply(cfg, s, a).fault
    ensures var s' := Apply(cfg, s, a);
      a.p in s'.procs && s'.procs == s.procs[a.p := s'.procs[a.p]] && Weight(s'.procs[a.p]) < Weight(s.procs[a.p])
  {
  }

  lemma LoopLess(cfg: Config, s: State, a: Action)
    requires Enabled(cfg, s, a) && Prompt(s, a) && !Apply(cfg, s, a).fault
    requires a.Wake? || a.ReadEvent? || a.PopNone? || a.ParkSelf? || a.DeleteChannel?
    ensures var s' := Apply(cfg, s, a);
      a.p in s'.procs && s'.procs == s.procs[a.p := s'.procs[a.p]] && Weight(s'.procs[a.p]) < Weight(s.procs[a.p])
  {
  }

  // Every prompt step leaves less work.
  lemma StepLess(cfg: Config, s: State, a: Action)
    requires Enabled(cfg, s, a) && Prompt(s, a) && !Apply(cfg, s, a).fault
    ensures Work(Apply(cfg, s, a).procs) < Work(s.procs)
  {
    if a.LinkNode? {
      LinkLess(s, a.p);
    } else if a.WriteEvent? {
      WriteLess(s, a.p);
    } else {
      if a.Pop? {
        PopLess(cfg, s, a.p, a.c);
      } else if a.Take? || a.TakeNone? {
        TakeLess(cfg, s, a);
      } else {
        LoopLess(cfg, s, a);
      }
      WorkAfter(s.procs, a.p, Apply(cfg, s, a).procs[a.p]);
    }
  }

  // ---------------------------------------------------------------- runs

  // The steps from n to m are prompt.
  ghost predicate PromptBetween(ss: seq<State>, aa: seq<Action>, n: nat, m: nat)
    requires |ss| == |aa| + 1 && m <= |aa|
  {
    forall i | n <= i < m :: Prompt(ss[i], aa[i])
  }

  // While requests, services and sub-requests do nothing, the module takes at most as many steps
  // as there was work, whatever the interleaving.
  lemma {:induction false} BoundedWork(cfg: Config, ss: seq<State>, aa: seq<Action>, n: nat, m: nat)
    requires IsRun(cfg, ss, aa) && n <= m <= |aa| && PromptBetween(ss, aa, n, m)
    ensures Work(ss[m].procs) + (m - n) <= Work(ss[n].procs)
    decreases m - n
  {
    if n < m {
      BoundedWork(cfg, ss, aa, n, m - 1);
      assert StepAt(cfg, ss, aa, m - 1);
      NoFault(cfg, ss, aa, m);
      StepLess(cfg, ss[m - 1], aa[m - 1]);
    }
  }

  // Where the module cannot move, every process is idle, every mailbox is empty, and every task
  // is with its service, in a sub-request, or answered.
  lemma RestMeansDelivered(cfg: Config, ss: seq<State>, aa: seq<Action>, n: nat)
    requires IsRun(cfg, ss, aa) && n < |ss| && !CanMove(cfg, ss[n])
    ensures forall p | p in ss[n].procs :: Idle(ss[n].procs[p]) && ss[n].procs[p].mail == []
    ensures forall t | t in ss[n].tasks :: exists l :: At(ss[n], t, l) && (l.AtService? || l.AtSub? || l.Gone?)
  {
    var _ := RunInv(cfg, ss, aa, n);
    RestIffIdle(cfg, ss[n]);
    forall p | p in ss[n].procs ensures ss[n].procs[p].mail == [] {
      AsleepMeansServed(cfg, ss, aa, n, p);
    }
    forall t | t in ss[n].tasks
      ensures exists l :: At(ss[n], t, l) && (l.AtService? || l.AtSub? || l.Gone?)
    {
      QuiescentMeansServed(cfg, ss, aa, n, t);
    }
  }

  // ss2 and aa2 continue a run by prompt steps to a state where the module is at rest.
  ghost predicate Settles(cfg: Config, ss: seq<State>, aa: seq<Action>, ss2: seq<State>, aa2: seq<Action>) {
    && IsRun(cfg, ss2, aa2) && |aa| <= |aa2| && |ss| == |aa| + 1
    && ss2[..|ss|] == ss && aa2[..|aa|] == aa
    && PromptBetween(ss2, aa2, |aa|, |aa2|)
    && !CanMove(cfg, ss2[|aa2|])
  }

  lemma OneMoreStep(cfg: Config, ss: seq<State>, aa: seq<Action>, a: Action)
    requires IsRun(cfg, ss, aa) && Enabled(cfg, ss[|aa|], a)
    ensures IsRun(cfg, ss + [Apply(cfg, ss[|aa|], a)], aa + [a])
  {
    var ss2, aa2 := ss + [Apply(cfg, ss[|aa|], a)], aa + [a];
    forall i: nat | i < |aa2| ensures StepAt(cfg, ss2, aa2, i) {
      if i < |aa| {
        assert StepAt(cfg, ss, aa, i);
      }
    }
  }

  // From every reachable state the module's own steps lead to rest, so all mail is delivered; it
  // takes no more steps than there was work.
  lemma {:induction false} EveryRunSettles(cfg: Config, ss: seq<State>, aa: seq<Action>)
    requires IsRun(cfg, ss, aa)
    ensures exists ss2, aa2 :: Settles(cfg, ss, aa, ss2, aa2) && |aa2| - |aa| <= Work(ss[|aa|].procs)
    decreases Work(ss[|aa|].procs)
  {
    if CanMove(cfg, ss[|aa|]) {
      var a :| Prompt(ss[|aa|], a) && Enabled(cfg, ss[|aa|], a);
      OneMoreStep(cfg, ss, aa, a);
      var ss1, aa1 := ss + [Apply(cfg, ss[|aa|], a)], aa + [a];
      NoFault(cfg, ss1, aa1, |aa1|);
      StepLess(cfg, ss[|aa|], a);
      EveryRunSettles(cfg, ss1, aa1);
      var ss2, aa2 :| Settles(cfg, ss1, aa1, ss2, aa2) && |aa2| - |aa1| <= Work(ss1[|aa1|].procs);
      assert ss2[..|ss|] == ss1[..|ss|] == ss && aa2[..|aa|] == aa1[..|aa|] == aa;
      assert ss2[|aa|] == ss1[|aa|] && aa2[|aa|] == aa1[|aa|] == a;
      assert Settles(cfg, ss, aa, ss2, aa2);
    } else {
      assert Settles(cfg, ss, aa, ss, aa);
    }
  }

  // ---------------------------------------------------------------- what is possible at rest

  // A service that has task t can finish it with any status and, in the shipped protocol, forward
  // it; a sub-request of t can end with any status.
  ghost predicate Open(cfg: Config, s: State, t: Task) {
    || (exists p, c :: (p, t, c) in s.svc && forall st ::
          Enabled(cfg, s, Finish(p, t, c, st)) && (!cfg.guarded ==> exists f :: Enabled(cfg, s, Forward(p, t, c, f))))
    || (exists p :: (p, t) in s.sub && forall st :: Enabled(cfg, s, CompleteSub(p, t, st)))
  }

  // Rest is no deadlock: every HTTP worker can take a new request, and every task that has not
  // ended is with a service or in a sub-request that can go on with it.
  lemma RestIsOpen(cfg: Config, ss: seq<State>, aa: seq<Action>, n: nat)
    requires IsRun(cfg, ss, aa) && n < |ss| && !CanMove(cfg, ss[n])
    ensures forall p, t, r | p in cfg.http && t !in ss[n].tasks && r !in ss[n].reqs ::
      Enabled(cfg, ss[n], Submit(p, t, r))
    ensures forall t | t in ss[n].tasks :: Ended(ss[n].tasks[t].trace) || Open(cfg, ss[n], t)
  {
    var s := ss[n];
    var loc := RunInv(cfg, ss, aa, n);
    RestMeansDelivered(cfg, ss, aa, n);
    forall t | t in s.tasks ensures Ended(s.tasks[t].trace) || Open(cfg, s, t) {
      var l :| At(s, t, l) && (l.AtService? || l.AtSub? || l.Gone?);
      if !l.Gone? {
        assert TaskOk(cfg, t, s.tasks[t], loc[t], s.chans, s.reqs);
        OwnerOf(cfg, t, s.tasks[t], loc[t], s.chans, s.reqs);
        TaskIsOpen(cfg, s, t, l);
      }
    }
  }

  lemma OwnerOf(cfg: Config, t: Task, k: TaskRec, l: Loc, chans: map<Chan, ChanRec>, reqs: map<Req, ReqRec>)
    requires TaskOk(cfg, t, k, l, chans, reqs)
    ensures l.AtService? ==> l.p in cfg.rpc
    ensures l.AtSub? ==> l.p in cfg.http
  {
  }

  lemma TaskIsOpen(cfg: Config, s: State, t: Task, l: Loc)
    requires At(s, t, l) && (l.AtService? || l.AtSub?) && l.p in s.procs && Idle(s.procs[l.p])
    ensures Open(cfg, s, t)
  {
    if l.AtService? {
      var f := FreshChannel(s.chans);
      assert !cfg.guarded ==> Enabled(cfg, s, Forward(l.p, t, l.c, f));
      forall st ensures Enabled(cfg, s, Finish(l.p, t, l.c, st)) {}
      assert (l.p, t, l.c) in s.svc;
    } else {
      forall st ensures Enabled(cfg, s, CompleteSub(l.p, t, st)) {}
      assert (l.p, t) in s.sub;
    }
  }
}
