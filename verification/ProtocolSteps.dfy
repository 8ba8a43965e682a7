/**
 Every step of the protocol keeps the invariant; in particular no step faults.  For each
 action one lemma per part of the invariant that the action touches, then the whole.
 */
module ProtocolSteps {
  import opened Options
  import opened Protocol
  import opened ProtocolInv

  // The place of the task a process is handling, as the state shows it.
  lemma Placed(cfg: Config, s: State, loc: map<Task, Loc>, t: Task, l: Loc)
    requires Inv(cfg, s, loc) && !l.Gone? && At(s, t, l)
    ensures t in s.tasks && t in loc && loc[t] == l
    ensures TaskOk(cfg, t, s.tasks[t], l, s.chans, s.reqs)
  {
  }

  // ---------------------------------------------------------------- Submit

  lemma StepSubmit(cfg: Config, s: State, loc: map<Task, Loc>, p: Proc, t: Task, r: Req)
    requires Inv(cfg, s, loc) && Enabled(cfg, s, Submit(p, t, r))
    ensures Inv(cfg, DoSubmit(s, p, t, r), loc[t := AtPick(p, r)])
  {
    SubmitPlaces(s, loc, p, t, r);
    SubmitTasks(cfg, s, loc, p, t, r);
    WakeMove(s, DoSubmit(s, p, t, r), p);
  }

  lemma SubmitPlaces(s: State, loc: map<Task, Loc>, p: Proc, t: Task, r: Req)
    requires PlacesOk(s, loc) && p in s.procs && s.procs[p].push.NoPush? && t !in s.tasks
    ensures PlacesOk(DoSubmit(s, p, t, r), loc[t := AtPick(p, r)])
  {
    var s', l := DoSubmit(s, p, t, r), AtPick(p, r);
    forall u, m: Loc | u != t && !m.Gone? ensures At(s', u, m) <==> At(s, u, m) {}
    forall m: Loc | !m.Gone? ensures At(s', t, m) <==> m == l {
      assert !At(s, t, m);
    }
    PlacesMove(s, s', loc, t, l);
  }

  lemma SubmitTasks(cfg: Config, s: State, loc: map<Task, Loc>, p: Proc, t: Task, r: Req)
    requires TasksOk(cfg, s, loc) && ChannelsOk(s, loc) && p in s.procs
    requires p in cfg.http && t !in s.tasks && r !in s.reqs
    ensures TasksOk(cfg, DoSubmit(s, p, t, r), loc[t := AtPick(p, r)])
    ensures ChannelsOk(DoSubmit(s, p, t, r), loc[t := AtPick(p, r)])
  {
    FreshPhase(p, 0);
    TasksMove(cfg, s, DoSubmit(s, p, t, r), loc, t, AtPick(p, r));
    ChannelsStay(s, DoSubmit(s, p, t, r), loc, t, AtPick(p, r));
  }

  // ---------------------------------------------------------------- Take

  lemma StepTake(cfg: Config, s: State, loc: map<Task, Loc>, p: Proc, w: Proc)
    requires Inv(cfg, s, loc) && Enabled(cfg, s, Take(p, w)) && w in cfg.rpc
    ensures Inv(cfg, DoTake(cfg, s, p, w), loc[s.procs[p].push.t := AtLink(p, w)])
  {
    PickTarget(cfg, s, loc, p);
    TakeShell(cfg, s, p, w);
    TakePlaces(cfg, s, loc, p, w);
    TakeTasks(cfg, s, loc, p, w);
  }

  lemma PickTarget(cfg: Config, s: State, loc: map<Task, Loc>, p: Proc)
    requires Inv(cfg, s, loc) && p in s.procs && s.procs[p].push.Pick?
    ensures var Pick(t, r) := s.procs[p].push;
      t in s.tasks && t in loc && loc[t] == AtPick(p, r)
  {
    var Pick(t, r) := s.procs[p].push;
    Placed(cfg, s, loc, t, AtPick(p, r));
  }

  lemma TakeShell(cfg: Config, s: State, p: Proc, w: Proc)
    requires Shell(cfg, s) && WakeOk(s) && p in s.procs && s.procs[p].push.Pick? && (cfg.guarded ==> s.idle != [])
    requires s.procs[p].push.t in s.tasks
    ensures Shell(cfg, DoTake(cfg, s, p, w)) && WakeOk(DoTake(cfg, s, p, w))
  {
    WakeMove(s, DoTake(cfg, s, p, w), p);
  }

  lemma TakePlaces(cfg: Config, s: State, loc: map<Task, Loc>, p: Proc, w: Proc)
    requires PlacesOk(s, loc) && p in s.procs && s.procs[p].push.Pick? && (cfg.guarded ==> s.idle != [])
    ensures PlacesOk(DoTake(cfg, s, p, w), loc[s.procs[p].push.t := AtLink(p, w)])
  {
    var Pick(t, r) := s.procs[p].push;
    assert At(s, t, AtPick(p, r));
    var s', l := DoTake(cfg, s, p, w), AtLink(p, w);
    forall u, m: Loc | u != t && !m.Gone? ensures At(s', u, m) <==> At(s, u, m) {}
    forall m: Loc | !m.Gone? ensures At(s', t, m) <==> m == l {
      assert At(s, t, m) <==> m == AtPick(p, r);
    }
    PlacesMove(s, s', loc, t, l);
  }

  lemma TakeTasks(cfg: Config, s: State, loc: map<Task, Loc>, p: Proc, w: Proc)
    requires ValidConfig(cfg) && TasksOk(cfg, s, loc) && ChannelsOk(s, loc) && p in s.procs && s.procs[p].push.Pick?
    requires cfg.guarded ==> s.idle != []
    requires var t := s.procs[p].push.t; t in s.tasks && t in loc && loc[t] == AtPick(p, s.procs[p].push.r)
    requires w in cfg.rpc
    ensures TasksOk(cfg, DoTake(cfg, s, p, w), loc[s.procs[p].push.t := AtLink(p, w)])
    ensures ChannelsOk(DoTake(cfg, s, p, w), loc[s.procs[p].push.t := AtLink(p, w)])
  {
    var t, s' := s.procs[p].push.t, DoTake(cfg, s, p, w);
    assert TaskOk(cfg, t, s.tasks[t], loc[t], s.chans, s.reqs);
    TaskTaken(cfg, t, s.tasks[t], loc[t], s.chans, s.reqs, w);
    TasksMove(cfg, s, s', loc, t, AtLink(p, w));
    TakeChannels(cfg, s, loc, p, w);
  }

  lemma TakeChannels(cfg: Config, s: State, loc: map<Task, Loc>, p: Proc, w: Proc)
    requires ChannelsOk(s, loc) && p in s.procs && s.procs[p].push.Pick? && (cfg.guarded ==> s.idle != [])
    requires s.procs[p].push.t in s.tasks && s.procs[p].push.t in loc
    requires var t := s.procs[p].push.t; var k := s.tasks[t];
      forall c :: !Needs(k.(proc := Some(w)), AtLink(p, w), s.chans, c) && !Needs(k, loc[t], s.chans, c)
    ensures ChannelsOk(DoTake(cfg, s, p, w), loc[s.procs[p].push.t := AtLink(p, w)])
  {
    ChannelsStay(s, DoTake(cfg, s, p, w), loc, s.procs[p].push.t, AtLink(p, w));
  }

  // ---------------------------------------------------------------- TakeNone

  lemma StepTakeNone(cfg: Config, s: State, loc: map<Task, Loc>, p: Proc)
    requires Inv(cfg, s, loc) && Enabled(cfg, s, TakeNone(p))
    ensures Inv(cfg, DoTakeNone(s, p), loc[s.procs[p].push.t := Gone])
  {
    PickTarget(cfg, s, loc, p);
    TakeNonePlaces(s, loc, p);
    TakeNoneTasks(cfg, s, loc, p);
    TakeNoneShell(cfg, s, p);
  }

  lemma TakeNoneShell(cfg: Config, s: State, p: Proc)
    requires Shell(cfg, s) && WakeOk(s) && Enabled(cfg, s, TakeNone(p)) && !DoTakeNone(s, p).fault
    ensures Shell(cfg, DoTakeNone(s, p)) && WakeOk(DoTakeNone(s, p))
  {
    WakeMove(s, DoTakeNone(s, p), p);
  }

  lemma TakeNonePlaces(s: State, loc: map<Task, Loc>, p: Proc)
    requires PlacesOk(s, loc) && p in s.procs && s.procs[p].push.Pick?
    ensures PlacesOk(DoTakeNone(s, p), loc[s.procs[p].push.t := Gone])
  {
    var Pick(t, r) := s.procs[p].push;
    assert At(s, t, AtPick(p, r));
    var s' := DoTakeNone(s, p);
    forall u, m: Loc | u != t && !m.Gone? ensures At(s', u, m) <==> At(s, u, m) {}
    forall m: Loc | !m.Gone? ensures At(s', t, m) <==> m == Gone {
      assert At(s, t, m) <==> m == AtPick(p, r);
    }
    PlacesMove(s, s', loc, t, Gone);
  }

  lemma TakeNoneTasks(cfg: Config, s: State, loc: map<Task, Loc>, p: Proc)
    requires ValidConfig(cfg) && TasksOk(cfg, s, loc) && ChannelsOk(s, loc) && p in s.procs && s.procs[p].push.Pick?
    requires var t := s.procs[p].push.t; t in s.tasks && t in loc && loc[t] == AtPick(p, s.procs[p].push.r)
    ensures DoTakeNone(s, p).fault == s.fault
    ensures TasksOk(cfg, DoTakeNone(s, p), loc[s.procs[p].push.t := Gone])
    ensures ChannelsOk(DoTakeNone(s, p), loc[s.procs[p].push.t := Gone])
  {
    var t, s' := s.procs[p].push.t, DoTakeNone(s, p);
    var k, l := s.tasks[t], loc[t];
    assert TaskOk(cfg, t, k, l, s.chans, s.reqs);
    TaskRejected(cfg, t, k, l, s.chans, s.reqs);
    TakeNoneIs(s, p);
    TasksMove(cfg, s, s', loc, t, Gone);
    TakeNoneChannels(s, loc, p);
  }

  lemma TakeNoneChannels(s: State, loc: map<Task, Loc>, p: Proc)
    requires ChannelsOk(s, loc) && p in s.procs && s.procs[p].push.Pick?
    requires var t := s.procs[p].push.t;
      && t in s.tasks && t in loc && loc[t].AtPick?
      && DoTakeNone(s, p).tasks == s.tasks[t := DoTakeNone(s, p).tasks[t]]
      && (forall c :: !Needs(DoTakeNone(s, p).tasks[t], Gone, s.chans, c) && !Needs(s.tasks[t], loc[t], s.chans, c))
    ensures ChannelsOk(DoTakeNone(s, p), loc[s.procs[p].push.t := Gone])
  {
    ChannelsStay(s, DoTakeNone(s, p), loc, s.procs[p].push.t, Gone);
  }

  // All that a rejection does, when the request is there to be answered.
  lemma TakeNoneIs(s: State, p: Proc)
    requires p in s.procs && s.procs[p].push.Pick? && s.procs[p].push.t in s.tasks
    requires var r := s.procs[p].push.r; r in s.reqs && s.reqs[r].owner == p && s.reqs[r].responses == []
    ensures var s', Pick(t, r) := DoTakeNone(s, p), s.procs[p].push;
      && s'.fault == s.fault && s'.chans == s.chans
      && s'.tasks == s.tasks[t := Noted(s.tasks[t].(status := INTERNAL_SERVER_ERROR), Rejected(p))]
      && s'.reqs == Answered(s.reqs, r, INTERNAL_SERVER_ERROR)
      && s'.procs == s.procs[p := s.procs[p].(push := NoPush)]
  {
  }

  // ---------------------------------------------------------------- LinkNode

  lemma StepLink(cfg: Config, s: State, loc: map<Task, Loc>, p: Proc)
    requires Inv(cfg, s, loc) && Enabled(cfg, s, LinkNode(p))
    ensures Inv(cfg, DoLink(s, p), loc[s.procs[p].push.t := AtMail(s.procs[p].push.dest)])
  {
    LinkTarget(cfg, s, loc, p);
    LinkableOnce(s, loc, p);
    LinkShell(cfg, s, p);
    LinkPlaces(s, loc, p);
    LinkTasks(cfg, s, loc, p);
    LinkWake(s, p);
  }

  lemma LinkTarget(cfg: Config, s: State, loc: map<Task, Loc>, p: Proc)
    requires Inv(cfg, s, loc) && Enabled(cfg, s, LinkNode(p))
    ensures var Link(t, d) := s.procs[p].push;
      t in s.tasks && t in loc && loc[t] == AtLink(p, d) && d in s.procs
  {
    var Link(t, d) := s.procs[p].push;
    Placed(cfg, s, loc, t, AtLink(p, d));
  }

  lemma LinkShell(cfg: Config, s: State, p: Proc)
    requires Shell(cfg, s) && p in s.procs && s.procs[p].push.Link?
    requires s.procs[p].push.dest in s.procs && !OnSomeMailbox(s, s.procs[p].push.t)
    ensures Shell(cfg, DoLink(s, p))
  {
  }

  // A task that is about to be linked is on no mailbox.
  lemma LinkableOnce(s: State, loc: map<Task, Loc>, p: Proc)
    requires PlacesOk(s, loc) && p in s.procs && s.procs[p].push.Link?
    ensures !OnSomeMailbox(s, s.procs[p].push.t)
  {
    var Link(t, d) := s.procs[p].push;
    assert At(s, t, AtLink(p, d));
    forall q | q in s.procs ensures t !in s.procs[q].mail {
      assert !At(s, t, AtMail(q));
    }
  }

  lemma LinkPlaces(s: State, loc: map<Task, Loc>, p: Proc)
    requires PlacesOk(s, loc) && p in s.procs && s.procs[p].push.Link? && s.procs[p].push.dest in s.procs
    requires !OnSomeMailbox(s, s.procs[p].push.t)
    ensures PlacesOk(DoLink(s, p), loc[s.procs[p].push.t := AtMail(s.procs[p].push.dest)])
  {
    var Link(t, d) := s.procs[p].push;
    assert At(s, t, AtLink(p, d));
    var s', l := DoLink(s, p), AtMail(d);
    forall u, m: Loc | u != t && !m.Gone? ensures At(s', u, m) <==> At(s, u, m) {}
    forall m: Loc | !m.Gone? ensures At(s', t, m) <==> m == l {
      assert At(s, t, m) <==> m == AtLink(p, d);
    }
    PlacesMove(s, s', loc, t, l);
  }

  lemma LinkTasks(cfg: Config, s: State, loc: map<Task, Loc>, p: Proc)
    requires TasksOk(cfg, s, loc) && ChannelsOk(s, loc) && p in s.procs && s.procs[p].push.Link?
    requires s.procs[p].push.dest in s.procs && !OnSomeMailbox(s, s.procs[p].push.t)
    requires var t := s.procs[p].push.t; t in s.tasks && t in loc && loc[t] == AtLink(p, s.procs[p].push.dest)
    ensures TasksOk(cfg, DoLink(s, p), loc[s.procs[p].push.t := AtMail(s.procs[p].push.dest)])
    ensures ChannelsOk(DoLink(s, p), loc[s.procs[p].push.t := AtMail(s.procs[p].push.dest)])
  {
    var t, l, s' := s.procs[p].push.t, AtMail(s.procs[p].push.dest), DoLink(s, p);
    assert TaskOk(cfg, t, s.tasks[t], loc[t], s.chans, s.reqs);
    TasksMove(cfg, s, s', loc, t, l);
    ChannelsStay(s, s', loc, t, l);
  }

  lemma LinkWake(s: State, p: Proc)
    requires WakeOk(s) && p in s.procs && s.procs[p].push.Link?
    requires s.procs[p].push.dest in s.procs && !OnSomeMailbox(s, s.procs[p].push.t)
    ensures WakeOk(DoLink(s, p))
  {
    var s', d := DoLink(s, p), s.procs[p].push.dest;
    forall q | q in s'.procs && s'.procs[q].mail != [] ensures Announced(s', q) {
      if q == d {
        assert s'.procs[p].push == Signal(d);
      } else {
        assert Announced(s, q);
        if x :| x in s.procs && s.procs[x].push == Signal(q) {
          assert s'.procs[x].push == Signal(q);
        }
      }
    }
  }

  // ---------------------------------------------------------------- WriteEvent

  lemma StepWrite(cfg: Config, s: State, loc: map<Task, Loc>, p: Proc)
    requires Inv(cfg, s, loc) && Enabled(cfg, s, WriteEvent(p))
    ensures Inv(cfg, DoWrite(s, p), loc)
  {
    WriteShell(cfg, s, p);
    WriteRest(cfg, s, loc, p);
    WriteWake(s, p);
  }

  lemma WriteShell(cfg: Config, s: State, p: Proc)
    requires Shell(cfg, s) && p in s.procs && s.procs[p].push.Signal?
    ensures s.procs[p].push.dest in s.procs && Shell(cfg, DoWrite(s, p))
  {
  }

  // All that a write does but for the eventfd.
  lemma WriteIs(s: State, p: Proc)
    requires p in s.procs && s.procs[p].push.Signal? && s.procs[p].push.dest in s.procs
    ensures var s' := DoWrite(s, p);
      && s'.procs.Keys == s.procs.Keys && s'.tasks == s.tasks && s'.chans == s.chans && s'.reqs == s.reqs
      && s'.svc == s.svc && s'.sub == s.sub
      && forall q | q in s.procs ::
           && s'.procs[q].mail == s.procs[q].mail && s'.procs[q].del == s.procs[q].del
           && s'.procs[q].push == if q == p then NoPush else s.procs[q].push
  {
  }

  lemma WriteRest(cfg: Config, s: State, loc: map<Task, Loc>, p: Proc)
    requires PlacesOk(s, loc) && TasksOk(cfg, s, loc) && ChannelsOk(s, loc)
    requires p in s.procs && s.procs[p].push.Signal? && s.procs[p].push.dest in s.procs
    ensures PlacesOk(DoWrite(s, p), loc) && TasksOk(cfg, DoWrite(s, p), loc) && ChannelsOk(DoWrite(s, p), loc)
  {
    WriteIs(s, p);
    DeletionsKept(s, DoWrite(s, p), loc);
    WritePlaces(s, loc, p);
  }

  lemma DeletionsKept(s: State, s': State, loc: map<Task, Loc>)
    requires ChannelsOk(s, loc) && s'.procs.Keys == s.procs.Keys && s'.tasks == s.tasks && s'.chans == s.chans
    requires forall q | q in s.procs :: s'.procs[q].del == s.procs[q].del
    ensures ChannelsOk(s', loc)
  {
    forall c | c in s'.chans ensures ChannelOk(s', loc, c) {
      assert ChannelOk(s, loc, c);
    }
  }

  lemma WritePlaces(s: State, loc: map<Task, Loc>, p: Proc)
    requires PlacesOk(s, loc) && p in s.procs && s.procs[p].push.Signal? && s.procs[p].push.dest in s.procs
    ensures PlacesOk(DoWrite(s, p), loc)
  {
    var s' := DoWrite(s, p);
    WriteIs(s, p);
    forall u, m: Loc | !m.Gone? ensures At(s', u, m) <==> At(s, u, m) {}
    PlacesStay(s, s', loc);
  }

  lemma WriteWake(s: State, p: Proc)
    requires WakeOk(s) && p in s.procs && s.procs[p].push.Signal? && s.procs[p].push.dest in s.procs
    ensures WakeOk(DoWrite(s, p))
  {
    var s', d := DoWrite(s, p), s.procs[p].push.dest;
    forall q | q in s'.procs && s'.procs[q].mail != [] ensures Announced(s', q) {
      assert Announced(s, q);
      if x :| x in s.procs && s.procs[x].push == Signal(q) {
        assert q == d || s'.procs[x].push == Signal(q);
      }
    }
  }

  // ---------------------------------------------------------------- steps of the event loop

  // A step of p that changes nothing but its base, its eventfd and the idle ring, and that
  // ends no drain and clears no eventfd in front of waiting mail.
  lemma Housekeeping(cfg: Config, s: State, s': State, loc: map<Task, Loc>, p: Proc)
    requires Inv(cfg, s, loc) && p in s.procs && p in s'.procs && !s.procs[p].push.Signal?
    requires s'.procs[p] == s.procs[p].(base := s'.procs[p].base, efd := s'.procs[p].efd)
    requires s' == s.(procs := s.procs[p := s'.procs[p]], idle := s'.idle)
    requires p in cfg.http ==> !s'.procs[p].base.Park?
    requires forall w | w in s'.idle :: w in cfg.rpc
    requires s.procs[p].mail != [] ==> (
      s'.procs[p].base.Drain? || (!s.procs[p].base.Drain? && s'.procs[p].efd == s.procs[p].efd))
    ensures Inv(cfg, s', loc)
  {
    LoopRest(cfg, s, s', loc, p);
    WakeMove(s, s', p);
  }

  lemma LoopRest(cfg: Config, s: State, s': State, loc: map<Task, Loc>, p: Proc)
    requires PlacesOk(s, loc) && TasksOk(cfg, s, loc) && ChannelsOk(s, loc) && p in s.procs && p in s'.procs
    requires s'.procs[p] == s.procs[p].(base := s'.procs[p].base, efd := s'.procs[p].efd)
    requires s' == s.(procs := s.procs[p := s'.procs[p]], idle := s'.idle)
    ensures PlacesOk(s', loc) && TasksOk(cfg, s', loc) && ChannelsOk(s', loc)
  {
    DeletionsKept(s, s', loc);
    LoopPlaces(s, s', loc, p);
  }

  lemma LoopPlaces(s: State, s': State, loc: map<Task, Loc>, p: Proc)
    requires PlacesOk(s, loc) && p in s.procs && p in s'.procs
    requires s'.procs[p] == s.procs[p].(base := s'.procs[p].base, efd := s'.procs[p].efd)
    requires s' == s.(procs := s.procs[p := s'.procs[p]], idle := s'.idle)
    ensures PlacesOk(s', loc)
  {
    forall u, m: Loc | !m.Gone? ensures At(s', u, m) <==> At(s, u, m) {}
    PlacesStay(s, s', loc);
  }

  lemma StepWake(cfg: Config, s: State, loc: map<Task, Loc>, p: Proc)
    requires Inv(cfg, s, loc) && Enabled(cfg, s, Wake(p))
    ensures Inv(cfg, Apply(cfg, s, Wake(p)), loc)
  {
    Housekeeping(cfg, s, Apply(cfg, s, Wake(p)), loc, p);
  }

  lemma StepRead(cfg: Config, s: State, loc: map<Task, Loc>, p: Proc)
    requires Inv(cfg, s, loc) && Enabled(cfg, s, ReadEvent(p))
    ensures Inv(cfg, DoRead(cfg, s, p), loc)
  {
    Housekeeping(cfg, s, DoRead(cfg, s, p), loc, p);
  }

  lemma StepPopNone(cfg: Config, s: State, loc: map<Task, Loc>, p: Proc)
    requires Inv(cfg, s, loc) && Enabled(cfg, s, PopNone(p))
    ensures Inv(cfg, DoPopNone(cfg, s, p), loc)
  {
    Housekeeping(cfg, s, DoPopNone(cfg, s, p), loc, p);
  }

  lemma StepPark(cfg: Config, s: State, loc: map<Task, Loc>, p: Proc)
    requires Inv(cfg, s, loc) && Enabled(cfg, s, ParkSelf(p))
    ensures Inv(cfg, DoPark(cfg, s, p), loc)
  {
    Housekeeping(cfg, s, DoPark(cfg, s, p), loc, p);
  }

  // ---------------------------------------------------------------- Pop in an RPC process

  // What is known of the first task of a mailbox.
  lemma PopTarget(cfg: Config, s: State, loc: map<Task, Loc>, p: Proc)
    requires Inv(cfg, s, loc) && p in s.procs && s.procs[p].mail != []
    ensures var t := s.procs[p].mail[0];
      t in s.tasks && t in loc && loc[t] == AtMail(p) && TaskOk(cfg, t, s.tasks[t], AtMail(p), s.chans, s.reqs)
  {
    Placed(cfg, s, loc, s.procs[p].mail[0], AtMail(p));
  }

  lemma PopShell(cfg: Config, s: State, p: Proc, c: Chan)
    requires Shell(cfg, s) && WakeOk(s) && Enabled(cfg, s, Pop(p, c)) && !DoPop(cfg, s, p, c).fault
    ensures Shell(cfg, DoPop(cfg, s, p, c)) && WakeOk(DoPop(cfg, s, p, c))
  {
    PopWake(cfg, s, p, c);
    PopProcs(cfg, s, p, c);
    PopIdle(cfg, s, p, c);
    var s' := DoPop(cfg, s, p, c);
    assert forall q | q in s'.procs && q != p :: s'.procs[q] == s.procs[q];
  }

  lemma PopIdle(cfg: Config, s: State, p: Proc, c: Chan)
    requires p in s.procs && s.procs[p].mail != []
    ensures DoPop(cfg, s, p, c).idle == s.idle
  {
    var t := s.procs[p].mail[0];
    if t in s.tasks {
      ClosureProcs(Popped(s, p), p, t, c);
      FinishProcs(Popped(s, p), p, t);
    }
  }

  // What the handlers do to the processes.
  lemma ClosureProcs(s: State, p: Proc, t: Task, c: Chan)
    requires p in s.procs && t in s.tasks
    ensures var s' := RunClosure(s, p, t, c);
      && s'.idle == s.idle && p in s'.procs && s'.procs == s.procs[p := s.procs[p].(del := s'.procs[p].del)]
      && |s'.procs[p].del| <= |s.procs[p].del| + 1
  {
  }

  lemma FinishProcs(s: State, p: Proc, t: Task)
    requires p in s.procs && t in s.tasks
    ensures RunFinish(s, p, t).idle == s.idle && RunFinish(s, p, t).procs == s.procs
  {
  }

  lemma PopWake(cfg: Config, s: State, p: Proc, c: Chan)
    requires WakeOk(s) && Enabled(cfg, s, Pop(p, c)) && !DoPop(cfg, s, p, c).fault
    ensures WakeOk(DoPop(cfg, s, p, c))
  {
    PopProcs(cfg, s, p, c);
    WakeMove(s, DoPop(cfg, s, p, c), p);
  }

  // All that a pop does to the processes.
  lemma PopProcs(cfg: Config, s: State, p: Proc, c: Chan)
    requires p in s.procs && s.procs[p].mail != [] && !DoPop(cfg, s, p, c).fault
    ensures var s' := DoPop(cfg, s, p, c);
      && p in s'.procs && s'.procs == s.procs[p := s'.procs[p]]
      && s'.procs[p] == s.procs[p].(mail := s.procs[p].mail[1..], del := s'.procs[p].del)
      && |s'.procs[p].del| <= |s.procs[p].del| + 1
      && (p !in cfg.rpc ==> s'.procs[p].del == s.procs[p].del)
  {
    var t := s.procs[p].mail[0];
    if p in cfg.rpc {
      ClosureProcs(Popped(s, p), p, t, c);
      PopOnly(s, DoPop(cfg, s, p, c), p);
    } else {
      FinishProcs(Popped(s, p), p, t);
      PopOnly(s, DoPop(cfg, s, p, c), p);
    }
  }

  lemma PopOnly(s: State, s': State, p: Proc)
    requires p in s.procs && s.procs[p].mail != [] && p in s'.procs
    requires s'.procs == Popped(s, p).procs[p := Popped(s, p).procs[p].(del := s'.procs[p].del)]
    ensures s'.procs == s.procs[p := s'.procs[p]]
    ensures s'.procs[p] == s.procs[p].(mail := s.procs[p].mail[1..], del := s'.procs[p].del)
  {
  }

  lemma StepPopRun(cfg: Config, s: State, loc: map<Task, Loc>, p: Proc, c: Chan)
    requires Inv(cfg, s, loc) && Enabled(cfg, s, Pop(p, c)) && p in cfg.rpc
    requires s.procs[p].mail[0] in s.tasks && s.tasks[s.procs[p].mail[0]].closure.Method?
    ensures Inv(cfg, DoPop(cfg, s, p, c), loc[s.procs[p].mail[0] := AtService(p, c)])
  {
    PopTarget(cfg, s, loc, p);
    PopShell(cfg, s, p, c);
    PopRunPlaces(cfg, s, loc, p, c);
    PopRunTasks(cfg, s, loc, p, c);
    PopRunChannels(cfg, s, loc, p, c);
  }

  lemma PopRunPlaces(cfg: Config, s: State, loc: map<Task, Loc>, p: Proc, c: Chan)
    requires PlacesOk(s, loc) && Enabled(cfg, s, Pop(p, c)) && p in cfg.rpc
    requires s.procs[p].mail[0] in s.tasks && s.tasks[s.procs[p].mail[0]].closure.Method?
    ensures PlacesOk(DoPop(cfg, s, p, c), loc[s.procs[p].mail[0] := AtService(p, c)])
  {
    var t, s', l := s.procs[p].mail[0], DoPop(cfg, s, p, c), AtService(p, c);
    Members(s.procs[p].mail);
    assert At(s, t, AtMail(p));
    forall u, m: Loc | u != t && !m.Gone? ensures At(s', u, m) <==> At(s, u, m) {}
    forall m: Loc | !m.Gone? ensures At(s', t, m) <==> m == l {
      assert At(s, t, m) <==> m == AtMail(p);
    }
    PlacesMove(s, s', loc, t, l);
  }

  lemma PopRunTasks(cfg: Config, s: State, loc: map<Task, Loc>, p: Proc, c: Chan)
    requires ValidConfig(cfg) && TasksOk(cfg, s, loc)
    requires ChannelsOk(s, loc) && Enabled(cfg, s, Pop(p, c)) && p in cfg.rpc
    requires var t := s.procs[p].mail[0]; t in s.tasks && t in loc && loc[t] == AtMail(p) && s.tasks[t].closure.Method?
    ensures TasksOk(cfg, DoPop(cfg, s, p, c), loc[s.procs[p].mail[0] := AtService(p, c)])
  {
    var t, s', l := s.procs[p].mail[0], DoPop(cfg, s, p, c), AtService(p, c);
    TaskRan(cfg, t, s.tasks[t], p, s.chans, s.reqs, c);
    TasksMove(cfg, s, s', loc, t, l);
  }

  lemma PopRunChannels(cfg: Config, s: State, loc: map<Task, Loc>, p: Proc, c: Chan)
    requires ValidConfig(cfg) && TasksOk(cfg, s, loc)
    requires ChannelsOk(s, loc) && Enabled(cfg, s, Pop(p, c)) && p in cfg.rpc
    requires var t := s.procs[p].mail[0]; t in s.tasks && t in loc && loc[t] == AtMail(p) && s.tasks[t].closure.Method?
    ensures ChannelsOk(DoPop(cfg, s, p, c), loc[s.procs[p].mail[0] := AtService(p, c)])
  {
    var t, s', l := s.procs[p].mail[0], DoPop(cfg, s, p, c), AtService(p, c);
    var loc' := loc[t := l];
    TaskRan(cfg, t, s.tasks[t], p, s.chans, s.reqs, c);
    forall x | x in s'.chans && s'.chans[x].serves == t ensures ChannelOk(s', loc', x) {
      if x != c {
        assert ChannelOk(s, loc, x);
      }
    }
    ChannelsMove(cfg, s, s', loc, t, l, p);
  }

  lemma StepPopResume(cfg: Config, s: State, loc: map<Task, Loc>, p: Proc, c: Chan) returns (loc': map<Task, Loc>)
    requires Inv(cfg, s, loc) && Enabled(cfg, s, Pop(p, c)) && p in cfg.rpc
    requires s.procs[p].mail[0] in s.tasks && s.tasks[s.procs[p].mail[0]].closure.ForwardDone?
    ensures Inv(cfg, DoPop(cfg, s, p, c), loc')
  {
    PopResumeTarget(cfg, s, loc, p);
    PopResumeIs(cfg, s, p, c);
    loc' := loc[s.procs[p].mail[0] := AtService(p, Origin(s, p))];
    PopShell(cfg, s, p, c);
    PopResumePlaces(cfg, s, loc, p, c);
    PopResumeTasks(cfg, s, loc, p, c);
    PopResumeChannels(cfg, s, loc, p, c);
  }

  lemma PopResumeTarget(cfg: Config, s: State, loc: map<Task, Loc>, p: Proc)
    requires Inv(cfg, s, loc) && p in s.procs && s.procs[p].mail != [] && p in cfg.rpc
    requires s.procs[p].mail[0] in s.tasks && s.tasks[s.procs[p].mail[0]].closure.ForwardDone?
    ensures RelayUsable(s, p) && s.procs[p].mail[0] in loc && loc[s.procs[p].mail[0]] == AtMail(p)
  {
    PopTarget(cfg, s, loc, p);
    var t := s.procs[p].mail[0];
    TaskResumed(cfg, t, s.tasks[t], p, s.chans, s.reqs);
  }

  // The channel of the service that waits for the first task.
  function Origin(s: State, p: Proc): Chan
    requires p in s.procs && s.procs[p].mail != [] && RelayUsable(s, p)
  {
    s.chans[s.tasks[s.procs[p].mail[0]].closure.c].pre.value
  }

  // The relay channel n of the first task is usable by p.
  predicate RelayUsable(s: State, p: Proc)
    requires p in s.procs && s.procs[p].mail != []
  {
    var t := s.procs[p].mail[0];
    && t in s.tasks && s.tasks[t].closure.ForwardDone?
    && s.tasks[t].closure.c in s.chans
    && s.chans[s.tasks[t].closure.c].owner == p && s.chans[s.tasks[t].closure.c].pre.Some?
  }

  lemma PopResumePlaces(cfg: Config, s: State, loc: map<Task, Loc>, p: Proc, c: Chan)
    requires PlacesOk(s, loc) && Enabled(cfg, s, Pop(p, c)) && p in cfg.rpc && RelayUsable(s, p)
    ensures PlacesOk(DoPop(cfg, s, p, c), loc[s.procs[p].mail[0] := AtService(p, Origin(s, p))])
  {
    var t, s' := s.procs[p].mail[0], DoPop(cfg, s, p, c);
    var l := AtService(p, Origin(s, p));
    Members(s.procs[p].mail);
    assert At(s, t, AtMail(p));
    forall u, m: Loc | u != t && !m.Gone? ensures At(s', u, m) <==> At(s, u, m) {}
    forall m: Loc | !m.Gone? ensures At(s', t, m) <==> m == l {
      assert At(s, t, m) <==> m == AtMail(p);
    }
    PlacesMove(s, s', loc, t, l);
  }

  lemma PopResumeTasks(cfg: Config, s: State, loc: map<Task, Loc>, p: Proc, c: Chan)
    requires ValidConfig(cfg) && TasksOk(cfg, s, loc)
    requires ChannelsOk(s, loc) && Enabled(cfg, s, Pop(p, c)) && p in cfg.rpc
    requires var t := s.procs[p].mail[0]; t in s.tasks && t in loc && loc[t] == AtMail(p)
    requires RelayUsable(s, p)
    ensures var l := AtService(p, Origin(s, p));
      TasksOk(cfg, DoPop(cfg, s, p, c), loc[s.procs[p].mail[0] := l])
  {
    var t, s' := s.procs[p].mail[0], DoPop(cfg, s, p, c);
    var l := AtService(p, Origin(s, p));
    TaskResumed(cfg, t, s.tasks[t], p, s.chans, s.reqs);
    TasksMove(cfg, s, s', loc, t, l);
  }

  lemma PopResumeChannels(cfg: Config, s: State, loc: map<Task, Loc>, p: Proc, c: Chan)
    requires ValidConfig(cfg) && TasksOk(cfg, s, loc)
    requires ChannelsOk(s, loc) && Enabled(cfg, s, Pop(p, c)) && p in cfg.rpc
    requires var t := s.procs[p].mail[0]; t in s.tasks && t in loc && loc[t] == AtMail(p)
    requires RelayUsable(s, p)
    ensures var l := AtService(p, Origin(s, p));
      ChannelsOk(DoPop(cfg, s, p, c), loc[s.procs[p].mail[0] := l])
  {
    var t := s.procs[p].mail[0];
    PopResumeOwn(cfg, s, loc, p, c);
    PopResumeIs(cfg, s, p, c);
    ChannelRetires(s, DoPop(cfg, s, p, c), loc, p, t, s.tasks[t].closure.c, AtService(p, Origin(s, p)));
  }

  // All that a resumption does but for the fields of the task.
  lemma PopResumeIs(cfg: Config, s: State, p: Proc, c: Chan)
    requires p in s.procs && s.procs[p].mail != [] && p in cfg.rpc && RelayUsable(s, p)
    ensures var s', t := DoPop(cfg, s, p, c), s.procs[p].mail[0];
      && s'.fault == s.fault
      && t in s'.tasks && s'.tasks == s.tasks[t := s'.tasks[t]] && s'.chans == s.chans && s'.reqs == s.reqs
      && p in s'.procs && s'.procs == s.procs[p := s'.procs[p]]
      && s'.procs[p].del == s.procs[p].del + {s.tasks[t].closure.c}
  {
  }

  lemma PopResumeOwn(cfg: Config, s: State, loc: map<Task, Loc>, p: Proc, c: Chan)
    requires ValidConfig(cfg) && TasksOk(cfg, s, loc)
    requires ChannelsOk(s, loc) && Enabled(cfg, s, Pop(p, c)) && p in cfg.rpc
    requires var t := s.procs[p].mail[0]; t in s.tasks && t in loc && loc[t] == AtMail(p)
    requires RelayUsable(s, p)
    ensures s.chans[s.tasks[s.procs[p].mail[0]].closure.c].serves == s.procs[p].mail[0]
    ensures var l := AtService(p, Origin(s, p));
      OwnChannelsOk(DoPop(cfg, s, p, c), loc[s.procs[p].mail[0] := l], s.procs[p].mail[0])
  {
    var t, s' := s.procs[p].mail[0], DoPop(cfg, s, p, c);
    var l := AtService(p, Origin(s, p));
    TaskResumed(cfg, t, s.tasks[t], p, s.chans, s.reqs);
    forall x | x in s'.chans && s'.chans[x].serves == t ensures ChannelOk(s', loc[t := l], x) {
      assert ChannelOk(s, loc, x);
    }
  }

  // ---------------------------------------------------------------- Pop in an HTTP worker

  lemma StepPopRespond(cfg: Config, s: State, loc: map<Task, Loc>, p: Proc, c: Chan)
    requires Inv(cfg, s, loc) && Enabled(cfg, s, Pop(p, c)) && p in cfg.http
    requires s.procs[p].mail[0] in s.tasks && s.tasks[s.procs[p].mail[0]].finish.RequestFinish?
    ensures Inv(cfg, DoPop(cfg, s, p, c), loc[s.procs[p].mail[0] := Gone])
  {
    PopTarget(cfg, s, loc, p);
    PopRespondTasks(cfg, s, loc, p, c);
    PopRespondPlaces(cfg, s, loc, p, c);
    PopShell(cfg, s, p, c);
  }

  lemma PopRespondPlaces(cfg: Config, s: State, loc: map<Task, Loc>, p: Proc, c: Chan)
    requires PlacesOk(s, loc) && Enabled(cfg, s, Pop(p, c)) && p !in cfg.rpc
    requires s.procs[p].mail[0] in s.tasks && s.tasks[s.procs[p].mail[0]].finish.RequestFinish?
    ensures PlacesOk(DoPop(cfg, s, p, c), loc[s.procs[p].mail[0] := Gone])
  {
    var t, s' := s.procs[p].mail[0], DoPop(cfg, s, p, c);
    Members(s.procs[p].mail);
    assert At(s, t, AtMail(p));
    forall u, m: Loc | u != t && !m.Gone? ensures At(s', u, m) <==> At(s, u, m) {}
    forall m: Loc | !m.Gone? ensures At(s', t, m) <==> m == Gone {
      assert At(s, t, m) <==> m == AtMail(p);
    }
    PlacesMove(s, s', loc, t, Gone);
  }

  lemma PopRespondTasks(cfg: Config, s: State, loc: map<Task, Loc>, p: Proc, c: Chan)
    requires ValidConfig(cfg) && TasksOk(cfg, s, loc)
    requires ChannelsOk(s, loc) && Enabled(cfg, s, Pop(p, c)) && p in cfg.http
    requires var t := s.procs[p].mail[0];
      t in s.tasks && t in loc && loc[t] == AtMail(p) && s.tasks[t].finish.RequestFinish?
    ensures DoPop(cfg, s, p, c).fault == s.fault
    ensures TasksOk(cfg, DoPop(cfg, s, p, c), loc[s.procs[p].mail[0] := Gone])
    ensures ChannelsOk(DoPop(cfg, s, p, c), loc[s.procs[p].mail[0] := Gone])
  {
    var t, s' := s.procs[p].mail[0], DoPop(cfg, s, p, c);
    assert TaskOk(cfg, t, s.tasks[t], loc[t], s.chans, s.reqs);
    TaskResponded(cfg, t, s.tasks[t], p, s.chans, s.reqs);
    PopRespondIs(cfg, s, p, c);
    TasksMove(cfg, s, s', loc, t, Gone);
    PopChannelsStay(cfg, s, loc, p, c, Gone);
  }

  // All that a response does, when the request is there to be answered.
  lemma PopRespondIs(cfg: Config, s: State, p: Proc, c: Chan)
    requires p in s.procs && s.procs[p].mail != [] && s.procs[p].mail[0] in s.tasks && p !in cfg.rpc
    requires var k := s.tasks[s.procs[p].mail[0]];
      && k.finish.RequestFinish? && k.finish.r in s.reqs
      && s.reqs[k.finish.r].owner == p && s.reqs[k.finish.r].responses == []
    ensures var s', t := DoPop(cfg, s, p, c), s.procs[p].mail[0];
      && s'.fault == s.fault && s'.chans == s.chans
      && s'.tasks == s.tasks[t := Noted(s.tasks[t], Responded(p, s.tasks[t].status))]
      && s'.reqs == Answered(s.reqs, s.tasks[t].finish.r, s.tasks[t].status)
      && s'.procs == s.procs[p := s.procs[p].(mail := s.procs[p].mail[1..])]
  {
  }

  // A pop that neither makes a channel nor changes what its task needs.
  lemma PopChannelsStay(cfg: Config, s: State, loc: map<Task, Loc>, p: Proc, c: Chan, l: Loc)
    requires ChannelsOk(s, loc) && p in s.procs && s.procs[p].mail != []
    requires var t, s' := s.procs[p].mail[0], DoPop(cfg, s, p, c);
      && t in s.tasks && t in loc && t in s'.tasks && s'.tasks == s.tasks[t := s'.tasks[t]]
      && s'.chans == s.chans && s'.procs == s.procs[p := s.procs[p].(mail := s.procs[p].mail[1..])]
      && (forall x :: Needs(s'.tasks[t], l, s.chans, x) <==> Needs(s.tasks[t], loc[t], s.chans, x))
    ensures ChannelsOk(DoPop(cfg, s, p, c), loc[s.procs[p].mail[0] := l])
  {
    ChannelsStay(s, DoPop(cfg, s, p, c), loc, s.procs[p].mail[0], l);
  }

  lemma StepPopSub(cfg: Config, s: State, loc: map<Task, Loc>, p: Proc, c: Chan)
    requires Inv(cfg, s, loc) && Enabled(cfg, s, Pop(p, c)) && p in cfg.http
    requires s.procs[p].mail[0] in s.tasks && s.tasks[s.procs[p].mail[0]].finish.RequestForward?
    ensures Inv(cfg, DoPop(cfg, s, p, c), loc[s.procs[p].mail[0] := AtSub(p)])
  {
    PopTarget(cfg, s, loc, p);
    NoSubYet(s, loc, p);
    PopSubTasks(cfg, s, loc, p, c);
    PopSubPlaces(cfg, s, loc, p, c);
    PopShell(cfg, s, p, c);
  }

  lemma NoSubYet(s: State, loc: map<Task, Loc>, p: Proc)
    requires PlacesOk(s, loc) && p in s.procs && s.procs[p].mail != []
    ensures (p, s.procs[p].mail[0]) !in s.sub
  {
    var t := s.procs[p].mail[0];
    assert At(s, t, AtMail(p));
    assert !At(s, t, AtSub(p));
  }

  lemma PopSubPlaces(cfg: Config, s: State, loc: map<Task, Loc>, p: Proc, c: Chan)
    requires PlacesOk(s, loc) && Enabled(cfg, s, Pop(p, c)) && p !in cfg.rpc
    requires s.procs[p].mail[0] in s.tasks && s.tasks[s.procs[p].mail[0]].finish.RequestForward?
    requires DoPop(cfg, s, p, c).sub == s.sub + {(p, s.procs[p].mail[0])}
    ensures PlacesOk(DoPop(cfg, s, p, c), loc[s.procs[p].mail[0] := AtSub(p)])
  {
    var t, s', l := s.procs[p].mail[0], DoPop(cfg, s, p, c), AtSub(p);
    Members(s.procs[p].mail);
    assert At(s, t, AtMail(p));
    forall u, m: Loc | u != t && !m.Gone? ensures At(s', u, m) <==> At(s, u, m) {}
    forall m: Loc | !m.Gone? ensures At(s', t, m) <==> m == l {
      assert At(s, t, m) <==> m == AtMail(p);
    }
    PlacesMove(s, s', loc, t, l);
  }

  lemma PopSubTasks(cfg: Config, s: State, loc: map<Task, Loc>, p: Proc, c: Chan)
    requires ValidConfig(cfg) && TasksOk(cfg, s, loc)
    requires ChannelsOk(s, loc) && Enabled(cfg, s, Pop(p, c)) && p in cfg.http
    requires var t := s.procs[p].mail[0];
      t in s.tasks && t in loc && loc[t] == AtMail(p) && s.tasks[t].finish.RequestForward?
    requires (p, s.procs[p].mail[0]) !in s.sub
    ensures DoPop(cfg, s, p, c).fault == s.fault
    ensures DoPop(cfg, s, p, c).sub == s.sub + {(p, s.procs[p].mail[0])}
    ensures TasksOk(cfg, DoPop(cfg, s, p, c), loc[s.procs[p].mail[0] := AtSub(p)])
    ensures ChannelsOk(DoPop(cfg, s, p, c), loc[s.procs[p].mail[0] := AtSub(p)])
  {
    var t, s', l := s.procs[p].mail[0], DoPop(cfg, s, p, c), AtSub(p);
    assert TaskOk(cfg, t, s.tasks[t], loc[t], s.chans, s.reqs);
    TaskSubStarted(cfg, t, s.tasks[t], p, s.chans, s.reqs);
    TasksMove(cfg, s, s', loc, t, l);
    PopChannelsStay(cfg, s, loc, p, c, l);
  }

  // A task in front of an HTTP worker has its finish handler set.
  lemma FinishIsSet(cfg: Config, t: Task, k: TaskRec, p: Proc, chans: map<Chan, ChanRec>, reqs: map<Req, ReqRec>)
    requires ValidConfig(cfg) && TaskOk(cfg, t, k, AtMail(p), chans, reqs) && p in cfg.http
    ensures !k.finish.NoFinish?
  {
  }

  lemma StepPop(cfg: Config, s: State, loc: map<Task, Loc>, p: Proc, c: Chan) returns (loc': map<Task, Loc>)
    requires Inv(cfg, s, loc) && Enabled(cfg, s, Pop(p, c))
    ensures Inv(cfg, DoPop(cfg, s, p, c), loc')
  {
    PopTarget(cfg, s, loc, p);
    var t := s.procs[p].mail[0];
    if p in cfg.rpc {
      if s.tasks[t].closure.Method? {
        StepPopRun(cfg, s, loc, p, c);
        loc' := loc[t := AtService(p, c)];
      } else {
        loc' := StepPopResume(cfg, s, loc, p, c);
      }
    } else {
      FinishIsSet(cfg, t, s.tasks[t], p, s.chans, s.reqs);
      if s.tasks[t].finish.RequestFinish? {
        StepPopRespond(cfg, s, loc, p, c);
        loc' := loc[t := Gone];
      } else {
        StepPopSub(cfg, s, loc, p, c);
        loc' := loc[t := AtSub(p)];
      }
    }
  }

  // ---------------------------------------------------------------- Finish

  // A channel in the hands of a service is its task's own.
  lemma ServiceTarget(cfg: Config, s: State, loc: map<Task, Loc>, p: Proc, t: Task, c: Chan)
    requires Inv(cfg, s, loc) && p in s.procs && (p, t, c) in s.svc
    ensures t in s.tasks && t in loc && loc[t] == AtService(p, c) && ServiceUsable(s, p, t, c)
    ensures p in cfg.rpc
  {
    Placed(cfg, s, loc, t, AtService(p, c));
  }

  ghost predicate ServiceUsable(s: State, p: Proc, t: Task, c: Chan) {
    t in s.tasks && c in s.chans && s.chans[c].owner == p && s.chans[c].task == Some(t)
  }

  lemma StepFinish(cfg: Config, s: State, loc: map<Task, Loc>, p: Proc, t: Task, c: Chan, st: Status)
    requires Inv(cfg, s, loc) && Enabled(cfg, s, Finish(p, t, c, st))
    ensures t in s.tasks && Inv(cfg, DoFinish(s, p, t, c, st), loc[t := AtLink(p, s.tasks[t].done)])
  {
    ServiceTarget(cfg, s, loc, p, t, c);
    FinishShell(cfg, s, p, t, c, st);
    FinishPlaces(s, loc, p, t, c, st);
    FinishTasks(cfg, s, loc, p, t, c, st);
    FinishChannels(cfg, s, loc, p, t, c, st);
  }

  lemma FinishShell(cfg: Config, s: State, p: Proc, t: Task, c: Chan, st: Status)
    requires Shell(cfg, s) && WakeOk(s) && p in s.procs
    requires InLoop(s.procs[p]) && ServiceUsable(s, p, t, c) && p in cfg.rpc
    ensures Shell(cfg, DoFinish(s, p, t, c, st)) && WakeOk(DoFinish(s, p, t, c, st))
  {
    WakeMove(s, DoFinish(s, p, t, c, st), p);
  }

  lemma FinishPlaces(s: State, loc: map<Task, Loc>, p: Proc, t: Task, c: Chan, st: Status)
    requires PlacesOk(s, loc) && p in s.procs
    requires s.procs[p].push.NoPush? && (p, t, c) in s.svc && ServiceUsable(s, p, t, c)
    ensures PlacesOk(DoFinish(s, p, t, c, st), loc[t := AtLink(p, s.tasks[t].done)])
  {
    var s', l := DoFinish(s, p, t, c, st), AtLink(p, s.tasks[t].done);
    assert At(s, t, AtService(p, c));
    forall u, m: Loc | u != t && !m.Gone? ensures At(s', u, m) <==> At(s, u, m) {}
    forall m: Loc | !m.Gone? ensures At(s', t, m) <==> m == l {
      assert At(s, t, m) <==> m == AtService(p, c);
    }
    PlacesMove(s, s', loc, t, l);
  }

  lemma FinishTasks(cfg: Config, s: State, loc: map<Task, Loc>, p: Proc, t: Task, c: Chan, st: Status)
    requires ValidConfig(cfg) && TasksOk(cfg, s, loc) && p in s.procs
    requires ServiceUsable(s, p, t, c) && t in loc && loc[t] == AtService(p, c)
    ensures TasksOk(cfg, DoFinish(s, p, t, c, st), loc[t := AtLink(p, s.tasks[t].done)])
  {
    TaskFinished(cfg, t, s.tasks[t], loc[t], s.chans, s.reqs, st);
    TasksMove(cfg, s, DoFinish(s, p, t, c, st), loc, t, AtLink(p, s.tasks[t].done));
  }

  lemma FinishChannels(cfg: Config, s: State, loc: map<Task, Loc>, p: Proc, t: Task, c: Chan, st: Status)
    requires ValidConfig(cfg) && TasksOk(cfg, s, loc) && ChannelsOk(s, loc) && p in s.procs
    requires ServiceUsable(s, p, t, c) && t in loc && loc[t] == AtService(p, c)
    ensures ChannelsOk(DoFinish(s, p, t, c, st), loc[t := AtLink(p, s.tasks[t].done)])
  {
    FinishOwn(cfg, s, loc, p, t, c, st);
    FinishIs(s, p, t, c, st);
    ChannelRetires(s, DoFinish(s, p, t, c, st), loc, p, t, c, AtLink(p, s.tasks[t].done));
  }

  // All that a finish does but for the fields of the task.
  lemma FinishIs(s: State, p: Proc, t: Task, c: Chan, st: Status)
    requires p in s.procs && ServiceUsable(s, p, t, c)
    ensures var s' := DoFinish(s, p, t, c, st);
      && t in s'.tasks && s'.tasks == s.tasks[t := s'.tasks[t]] && s'.chans == s.chans && s'.reqs == s.reqs
      && p in s'.procs && s'.procs == s.procs[p := s'.procs[p]] && s'.procs[p].del == s.procs[p].del + {c}
  {
  }

  lemma FinishOwn(cfg: Config, s: State, loc: map<Task, Loc>, p: Proc, t: Task, c: Chan, st: Status)
    requires ValidConfig(cfg) && TasksOk(cfg, s, loc) && ChannelsOk(s, loc) && p in s.procs
    requires ServiceUsable(s, p, t, c) && t in loc && loc[t] == AtService(p, c)
    ensures s.chans[c].serves == t && DoFinish(s, p, t, c, st).chans == s.chans
    ensures OwnChannelsOk(DoFinish(s, p, t, c, st), loc[t := AtLink(p, s.tasks[t].done)], t)
  {
    var s', l := DoFinish(s, p, t, c, st), AtLink(p, s.tasks[t].done);
    TaskFinished(cfg, t, s.tasks[t], loc[t], s.chans, s.reqs, st);
    forall x | x in s'.chans && s'.chans[x].serves == t ensures ChannelOk(s', loc[t := l], x) {
      assert ChannelOk(s, loc, x);
    }
  }

  // ---------------------------------------------------------------- Forward

  lemma StepForward(cfg: Config, s: State, loc: map<Task, Loc>, p: Proc, t: Task, c: Chan, f: Chan)
    requires Inv(cfg, s, loc) && Enabled(cfg, s, Forward(p, t, c, f))
    ensures t in s.tasks && Inv(cfg, DoForward(s, p, t, c, f), loc[t := AtLink(p, s.tasks[t].done)])
  {
    ServiceTarget(cfg, s, loc, p, t, c);
    ForwardShell(cfg, s, p, t, c, f);
    ForwardPlaces(s, loc, p, t, c, f);
    ForwardTasks(cfg, s, loc, p, t, c, f);
    ForwardChannels(cfg, s, loc, p, t, c, f);
  }

  lemma ForwardShell(cfg: Config, s: State, p: Proc, t: Task, c: Chan, f: Chan)
    requires Shell(cfg, s) && WakeOk(s) && p in s.procs && InLoop(s.procs[p]) && ServiceUsable(s, p, t, c)
    ensures Shell(cfg, DoForward(s, p, t, c, f)) && WakeOk(DoForward(s, p, t, c, f))
  {
    WakeMove(s, DoForward(s, p, t, c, f), p);
  }

  lemma ForwardPlaces(s: State, loc: map<Task, Loc>, p: Proc, t: Task, c: Chan, f: Chan)
    requires PlacesOk(s, loc) && p in s.procs
    requires s.procs[p].push.NoPush? && (p, t, c) in s.svc && ServiceUsable(s, p, t, c)
    ensures PlacesOk(DoForward(s, p, t, c, f), loc[t := AtLink(p, s.tasks[t].done)])
  {
    var s', l := DoForward(s, p, t, c, f), AtLink(p, s.tasks[t].done);
    assert At(s, t, AtService(p, c));
    forall u, m: Loc | u != t && !m.Gone? ensures At(s', u, m) <==> At(s, u, m) {}
    forall m: Loc | !m.Gone? ensures At(s', t, m) <==> m == l {
      assert At(s, t, m) <==> m == AtService(p, c);
    }
    PlacesMove(s, s', loc, t, l);
  }

  lemma ForwardTasks(cfg: Config, s: State, loc: map<Task, Loc>, p: Proc, t: Task, c: Chan, f: Chan)
    requires ValidConfig(cfg) && !cfg.guarded && TasksOk(cfg, s, loc) && p in s.procs && f !in s.chans
    requires ServiceUsable(s, p, t, c) && t in loc && loc[t] == AtService(p, c)
    ensures TasksOk(cfg, DoForward(s, p, t, c, f), loc[t := AtLink(p, s.tasks[t].done)])
  {
    TaskForwarded(cfg, t, s.tasks[t], loc[t], s.chans, s.reqs, f);
    TasksMove(cfg, s, DoForward(s, p, t, c, f), loc, t, AtLink(p, s.tasks[t].done));
  }

  lemma ForwardChannels(cfg: Config, s: State, loc: map<Task, Loc>, p: Proc, t: Task, c: Chan, f: Chan)
    requires ValidConfig(cfg) && !cfg.guarded && TasksOk(cfg, s, loc)
    requires ChannelsOk(s, loc) && p in s.procs && f !in s.chans
    requires ServiceUsable(s, p, t, c) && t in loc && loc[t] == AtService(p, c)
    ensures ChannelsOk(DoForward(s, p, t, c, f), loc[t := AtLink(p, s.tasks[t].done)])
  {
    ForwardOwn(cfg, s, loc, p, t, c, f);
    ChannelsMove(cfg, s, DoForward(s, p, t, c, f), loc, t, AtLink(p, s.tasks[t].done), p);
  }

  lemma ForwardOwn(cfg: Config, s: State, loc: map<Task, Loc>, p: Proc, t: Task, c: Chan, f: Chan)
    requires ValidConfig(cfg) && !cfg.guarded && TasksOk(cfg, s, loc)
    requires ChannelsOk(s, loc) && p in s.procs && f !in s.chans
    requires ServiceUsable(s, p, t, c) && t in loc && loc[t] == AtService(p, c)
    ensures OwnChannelsOk(DoForward(s, p, t, c, f), loc[t := AtLink(p, s.tasks[t].done)], t)
  {
    ForwardNeeds(cfg, s, loc, p, t, c, f);
    ForwardIs(s, p, t, c, f);
    RelayAdded(s, DoForward(s, p, t, c, f), loc, p, t, c, f, AtLink(p, s.tasks[t].done));
  }

  // A task that held its own channel c now needs the new channel f as well.
  lemma RelayAdded(s: State, s': State, loc: map<Task, Loc>, p: Proc, t: Task, c: Chan, f: Chan, l: Loc)
    requires ChannelsOk(s, loc) && p in s.procs && t in s.tasks && t in loc && f !in s.chans
    requires t in s'.tasks && f in s'.chans && s'.chans == s.chans[f := s'.chans[f]]
    requires s'.chans[f].owner == p && s'.chans[f].serves == t
    requires p in s'.procs && s'.procs == s.procs[p := s'.procs[p]] && s'.procs[p].del == s.procs[p].del
    requires forall x :: Needs(s'.tasks[t], l, s'.chans, x) <==> x == f || x == c
    requires forall x :: Needs(s.tasks[t], loc[t], s.chans, x) <==> x == c
    ensures OwnChannelsOk(s', loc[t := l], t)
  {
    forall x | x in s'.chans && s'.chans[x].serves == t ensures ChannelOk(s', loc[t := l], x) {
      if x != f {
        assert ChannelOk(s, loc, x);
      }
    }
  }

  // All that a forward does but for the fields of the task.
  lemma ForwardIs(s: State, p: Proc, t: Task, c: Chan, f: Chan)
    requires p in s.procs && ServiceUsable(s, p, t, c)
    ensures var s' := DoForward(s, p, t, c, f);
      && t in s'.tasks && s'.tasks == s.tasks[t := s'.tasks[t]]
      && s'.chans == s.chans[f := ChanRec(p, None, s.chans[c].r, Some(c), t)]
      && p in s'.procs && s'.procs == s.procs[p := s'.procs[p]] && s'.procs[p].del == s.procs[p].del
  {
  }

  // The task needs its own channel and the relay.
  lemma ForwardNeeds(cfg: Config, s: State, loc: map<Task, Loc>, p: Proc, t: Task, c: Chan, f: Chan)
    requires ValidConfig(cfg) && !cfg.guarded && TasksOk(cfg, s, loc) && p in s.procs && f !in s.chans
    requires ServiceUsable(s, p, t, c) && t in loc && loc[t] == AtService(p, c)
    ensures var s', l := DoForward(s, p, t, c, f), AtLink(p, s.tasks[t].done);
      && t in s'.tasks
      && (forall x :: Needs(s'.tasks[t], l, s'.chans, x) <==> x == f || x == c)
      && (forall x :: Needs(s.tasks[t], loc[t], s.chans, x) <==> x == c)
  {
    TaskForwarded(cfg, t, s.tasks[t], loc[t], s.chans, s.reqs, f);
  }

  // ---------------------------------------------------------------- DeleteChannel

  lemma StepDelete(cfg: Config, s: State, loc: map<Task, Loc>, p: Proc, c: Chan)
    requires Inv(cfg, s, loc) && Enabled(cfg, s, DeleteChannel(p, c))
    ensures Inv(cfg, DoDelete(s, p, c), loc)
  {
    DeleteTarget(s, loc, p, c);
    DeleteShell(cfg, s, p, c);
    DeletePlaces(s, loc, p, c);
    DeleteTasks(cfg, s, loc, p, c);
    DeleteChannels(cfg, s, loc, p, c);
  }

  lemma DeleteTarget(s: State, loc: map<Task, Loc>, p: Proc, c: Chan)
    requires ChannelsOk(s, loc) && p in s.procs && c in s.procs[p].del
    ensures c in s.chans && s.chans[c].owner == p && ChannelOk(s, loc, c)
  {
  }

  lemma DeleteShell(cfg: Config, s: State, p: Proc, c: Chan)
    requires Shell(cfg, s) && WakeOk(s) && p in s.procs
    requires !s.procs[p].push.Signal? && c in s.chans && s.chans[c].owner == p
    ensures Shell(cfg, DoDelete(s, p, c)) && WakeOk(DoDelete(s, p, c))
  {
    forall q | q in s.procs && s.procs[q].mail != [] ensures Announced(DoDelete(s, p, c), q) {
      assert Announced(s, q);
      if x :| x in s.procs && s.procs[x].push == Signal(q) {
        assert DoDelete(s, p, c).procs[x].push == Signal(q);
      }
    }
  }

  lemma DeletePlaces(s: State, loc: map<Task, Loc>, p: Proc, c: Chan)
    requires PlacesOk(s, loc) && p in s.procs && c in s.chans && s.chans[c].owner == p
    ensures PlacesOk(DoDelete(s, p, c), loc)
  {
    var s' := DoDelete(s, p, c);
    forall u, m: Loc | !m.Gone? ensures At(s', u, m) <==> At(s, u, m) {}
    PlacesStay(s, s', loc);
  }

  lemma DeleteTasks(cfg: Config, s: State, loc: map<Task, Loc>, p: Proc, c: Chan)
    requires TasksOk(cfg, s, loc) && p in s.procs && c in s.chans && s.chans[c].owner == p
    requires ChannelOk(s, loc, c) && c in s.procs[p].del
    ensures TasksOk(cfg, DoDelete(s, p, c), loc)
  {
    var s', t := DoDelete(s, p, c), s.chans[c].serves;
    TaskFrame(cfg, t, s.tasks[t], loc[t], s.chans, s'.chans, s.reqs, s.reqs);
    TasksMove(cfg, s, s', loc, t, loc[t]);
    assert loc[t := loc[t]] == loc;
  }

  lemma DeleteChannels(cfg: Config, s: State, loc: map<Task, Loc>, p: Proc, c: Chan)
    requires TasksOk(cfg, s, loc) && ChannelsOk(s, loc) && p in s.procs && c in s.chans && s.chans[c].owner == p
    requires ChannelOk(s, loc, c) && c in s.procs[p].del
    ensures ChannelsOk(DoDelete(s, p, c), loc)
  {
    var s', t := DoDelete(s, p, c), s.chans[c].serves;
    DeleteOwn(cfg, s, loc, p, c);
    forall x | x in s'.chans && s'.chans[x].serves != t ensures ChannelOk(s', loc, x) {
      DeleteOther(cfg, s, loc, p, c, x);
    }
    DeleteDeletions(s, p, c);
  }

  lemma DeleteDeletions(s: State, p: Proc, c: Chan)
    requires DeletionsOk(s) && p in s.procs && c in s.chans && s.chans[c].owner == p
    ensures DeletionsOk(DoDelete(s, p, c))
  {
  }

  // The channel of another task.
  lemma DeleteOther(cfg: Config, s: State, loc: map<Task, Loc>, p: Proc, c: Chan, x: Chan)
    requires TasksOk(cfg, s, loc) && p in s.procs && c in s.chans && s.chans[c].owner == p
    requires x in s.chans && x != c && s.chans[x].serves != s.chans[c].serves && ChannelOk(s, loc, x)
    ensures ChannelOk(DoDelete(s, p, c), loc, x)
  {
    var s', u := DoDelete(s, p, c), s.chans[x].serves;
    TaskFrame(cfg, u, s.tasks[u], loc[u], s.chans, s'.chans, s.reqs, s.reqs);
  }

  lemma DeleteOwn(cfg: Config, s: State, loc: map<Task, Loc>, p: Proc, c: Chan)
    requires TasksOk(cfg, s, loc) && ChannelsOk(s, loc) && p in s.procs && c in s.chans && s.chans[c].owner == p
    requires ChannelOk(s, loc, c) && c in s.procs[p].del
    ensures OwnChannelsOk(DoDelete(s, p, c), loc, s.chans[c].serves)
  {
    var s', t := DoDelete(s, p, c), s.chans[c].serves;
    TaskFrame(cfg, t, s.tasks[t], loc[t], s.chans, s'.chans, s.reqs, s.reqs);
    forall x | x in s'.chans && s'.chans[x].serves == t ensures ChannelOk(s', loc, x) {
      assert ChannelOk(s, loc, x);
    }
  }

  // ---------------------------------------------------------------- CompleteSub

  lemma StepSubDone(cfg: Config, s: State, loc: map<Task, Loc>, p: Proc, t: Task, st: Status)
    returns (loc': map<Task, Loc>)
    requires Inv(cfg, s, loc) && Enabled(cfg, s, CompleteSub(p, t, st))
    ensures Inv(cfg, DoCompleteSub(s, p, t, st), loc')
  {
    Placed(cfg, s, loc, t, AtSub(p));
    TaskReturned(cfg, t, s.tasks[t], p, s.chans, s.reqs, st);
    loc' := loc[t := AtLink(p, s.tasks[t].proc.value)];
    SubDoneShell(cfg, s, p, t, st);
    SubDonePlaces(s, loc, p, t, st);
    SubDoneTasks(cfg, s, loc, p, t, st);
  }

  lemma SubDoneShell(cfg: Config, s: State, p: Proc, t: Task, st: Status)
    requires Shell(cfg, s) && WakeOk(s) && p in s.procs && InLoop(s.procs[p]) && t in s.tasks && s.tasks[t].proc.Some?
    ensures Shell(cfg, DoCompleteSub(s, p, t, st)) && WakeOk(DoCompleteSub(s, p, t, st))
  {
    WakeMove(s, DoCompleteSub(s, p, t, st), p);
  }

  lemma SubDonePlaces(s: State, loc: map<Task, Loc>, p: Proc, t: Task, st: Status)
    requires PlacesOk(s, loc) && p in s.procs && s.procs[p].push.NoPush? && (p, t) in s.sub
    requires t in s.tasks && s.tasks[t].proc.Some?
    ensures PlacesOk(DoCompleteSub(s, p, t, st), loc[t := AtLink(p, s.tasks[t].proc.value)])
  {
    var s', l := DoCompleteSub(s, p, t, st), AtLink(p, s.tasks[t].proc.value);
    assert At(s, t, AtSub(p));
    forall u, m: Loc | u != t && !m.Gone? ensures At(s', u, m) <==> At(s, u, m) {}
    forall m: Loc | !m.Gone? ensures At(s', t, m) <==> m == l {
      assert At(s, t, m) <==> m == AtSub(p);
    }
    PlacesMove(s, s', loc, t, l);
  }

  lemma SubDoneTasks(cfg: Config, s: State, loc: map<Task, Loc>, p: Proc, t: Task, st: Status)
    requires ValidConfig(cfg) && TasksOk(cfg, s, loc) && ChannelsOk(s, loc) && p in s.procs
    requires t in s.tasks && s.tasks[t].proc.Some? && t in loc && loc[t] == AtSub(p)
    ensures TasksOk(cfg, DoCompleteSub(s, p, t, st), loc[t := AtLink(p, s.tasks[t].proc.value)])
    ensures ChannelsOk(DoCompleteSub(s, p, t, st), loc[t := AtLink(p, s.tasks[t].proc.value)])
  {
    var s', l := DoCompleteSub(s, p, t, st), AtLink(p, s.tasks[t].proc.value);
    TaskReturned(cfg, t, s.tasks[t], p, s.chans, s.reqs, st);
    TasksMove(cfg, s, s', loc, t, l);
    ChannelsStay(s, s', loc, t, l);
  }

  // ---------------------------------------------------------------- any step

  lemma StepInv(cfg: Config, s: State, loc: map<Task, Loc>, a: Action) returns (loc': map<Task, Loc>)
    requires Inv(cfg, s, loc) && Enabled(cfg, s, a)
    ensures Inv(cfg, Apply(cfg, s, a), loc')
  {
    match a
    case Submit(p, t, r) =>
      StepSubmit(cfg, s, loc, p, t, r);
      loc' := loc[t := AtPick(p, r)];
    case Take(p, w) =>
      StepTake(cfg, s, loc, p, w);
      loc' := loc[s.procs[p].push.t := AtLink(p, w)];
    case TakeNone(p) =>
      StepTakeNone(cfg, s, loc, p);
      loc' := loc[s.procs[p].push.t := Gone];
    case LinkNode(p) =>
      StepLink(cfg, s, loc, p);
      loc' := loc[s.procs[p].push.t := AtMail(s.procs[p].push.dest)];
    case WriteEvent(p) => StepWrite(cfg, s, loc, p); loc' := loc;
    case Wake(p) => StepWake(cfg, s, loc, p); loc' := loc;
    case ReadEvent(p) => StepRead(cfg, s, loc, p); loc' := loc;
    case Pop(p, c) => loc' := StepPop(cfg, s, loc, p, c);
    case PopNone(p) => StepPopNone(cfg, s, loc, p); loc' := loc;
    case ParkSelf(p) => StepPark(cfg, s, loc, p); loc' := loc;
    case Finish(p, t, c, st) =>
      StepFinish(cfg, s, loc, p, t, c, st);
      loc' := loc[t := AtLink(p, s.tasks[t].done)];
    case Forward(p, t, c, f) =>
      StepForward(cfg, s, loc, p, t, c, f);
      loc' := loc[t := AtLink(p, s.tasks[t].done)];
    case DeleteChannel(p, c) => StepDelete(cfg, s, loc, p, c); loc' := loc;
    case CompleteSub(p, t, st) => loc' := StepSubDone(cfg, s, loc, p, t, st);
  }

  // Every state of a run satisfies the invariant.
  lemma {:induction false} RunInv(cfg: Config, ss: seq<State>, aa: seq<Action>, n: nat) returns (loc: map<Task, Loc>)
    requires IsRun(cfg, ss, aa) && n < |ss|
    ensures Inv(cfg, ss[n], loc)
  {
    if n == 0 {
      InitInv(cfg);
      loc := map[];
    } else {
      var loc0 := RunInv(cfg, ss, aa, n - 1);
      assert StepAt(cfg, ss, aa, n - 1);
      loc := StepInv(cfg, ss[n - 1], loc0, aa[n - 1]);
    }
  }
}
