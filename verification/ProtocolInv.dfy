/**
 The inductive invariant of the protocol, and the proof that every step keeps it and that
 no step faults.
 */
module ProtocolInv {
  import opened Options
  import opened Links
  import opened Protocol

  // ---------------------------------------------------------------- the history of a task

  // How far a history has come; `Bad` histories are not legal.
  datatype Phase = Start | Sent | Held | Forwarding | InSub | Returned(st: Status) | Closing(st: Status) | Over | Bad

  // h is the submitting HTTP worker and w the RPC process.
  function Advance(ph: Phase, e: Event, h: Proc, w: Proc): Phase {
    match (ph, e)
    case (Start, Submitted(p)) => if p == h then Sent else Bad
    case (Sent, Rejected(p)) => if p == h then Over else Bad
    case (Sent, Ran(p)) => if p == w then Held else Bad
    case (Held, Forwarded(p)) => if p == w then Forwarding else Bad
    case (Forwarding, SubStarted(p)) => if p == h then InSub else Bad
    case (InSub, SubDone(p, st)) => if p == h then Returned(st) else Bad
    case (Returned(st), Resumed(p, st')) => if p == w && st == st' then Held else Bad
    case (Held, Finished(p, st)) => if p == w then Closing(st) else Bad
    case (Closing(st), Responded(p, st')) => if p == h && st == st' then Over else Bad
    case _ => Bad
  }

  function PhaseOf(tr: seq<Event>, h: Proc, w: Proc): Phase {
    if tr == [] then Start else Advance(PhaseOf(tr[..|tr| - 1], h, w), tr[|tr| - 1], h, w)
  }

  function WorkerOf(k: TaskRec): Proc { if k.proc.Some? then k.proc.value else 0 }

  function TaskPhase(k: TaskRec): Phase { PhaseOf(k.trace, k.done, WorkerOf(k)) }

  lemma PhaseSnoc(tr: seq<Event>, e: Event, h: Proc, w: Proc)
    ensures PhaseOf(tr + [e], h, w) == Advance(PhaseOf(tr, h, w), e, h, w)
  {
    assert (tr + [e])[..|tr|] == tr;
  }

  lemma NotedPhase(k: TaskRec, e: Event)
    ensures TaskPhase(Noted(k, e)) == Advance(TaskPhase(k), e, k.done, WorkerOf(k))
  {
    PhaseSnoc(k.trace, e, k.done, WorkerOf(k));
  }

  lemma FreshPhase(h: Proc, w: Proc)
    ensures PhaseOf([Submitted(h)], h, w) == Sent
  {
    assert [Submitted(h)][..0] == [];
    assert PhaseOf([], h, w) == Start;
  }

  // ---------------------------------------------------------------- where a task is

  datatype Loc =
    | AtPick(p: Proc, r: Req)
    | AtLink(p: Proc, d: Proc)
    | AtMail(p: Proc)
    | AtService(p: Proc, c: Chan)
    | AtSub(p: Proc)
    | Gone

  ghost predicate Ended(tr: seq<Event>) {
    tr != [] && (tr[|tr| - 1].Rejected? || tr[|tr| - 1].Responded?)
  }

  ghost predicate At(s: State, t: Task, l: Loc) {
    match l
    case AtPick(p, r) => p in s.procs && s.procs[p].push == Pick(t, r)
    case AtLink(p, d) => p in s.procs && s.procs[p].push == Link(t, d)
    case AtMail(p) => p in s.procs && t in s.procs[p].mail
    case AtService(p, c) => (p, t, c) in s.svc
    case AtSub(p) => (p, t) in s.sub
    case Gone => t in s.tasks && Ended(s.tasks[t].trace)
  }

  // ---------------------------------------------------------------- the invariant

  // A relayed task: its closure is a live channel made by a forward on the live channel of
  // the task itself, both in the private memory of its RPC process.
  ghost predicate Relayed(t: Task, k: TaskRec, chans: map<Chan, ChanRec>) {
    && k.proc.Some?
    && k.closure.ForwardDone? && k.closure.c in chans
    && var n := chans[k.closure.c];
       && n.pre.Some? && n == ChanRec(k.proc.value, None, k.req, n.pre, t)
       && OwnChannel(t, k, n.pre.value, chans)
  }

  ghost predicate OwnChannel(t: Task, k: TaskRec, c: Chan, chans: map<Chan, ChanRec>) {
    k.proc.Some? && c in chans && chans[c] == ChanRec(k.proc.value, Some(t), k.req, None, t)
  }

  // Everything that the receiver d will read has been written.
  ghost predicate Published(cfg: Config, t: Task, k: TaskRec, d: Proc, chans: map<Chan, ChanRec>) {
    && k.proc.Some?
    && var ph := TaskPhase(k);
       || (d == k.proc.value && ph.Sent? && k.closure == Method(k.req))
       || (d == k.proc.value && ph == Returned(k.status) && Relayed(t, k, chans))
       || (d == k.done && ph.Forwarding? && k.finish == RequestForward(k.req) && Relayed(t, k, chans))
       || (d == k.done && ph == Closing(k.status) && k.finish == RequestFinish(k.req))
  }

  ghost predicate LocOk(cfg: Config, t: Task, k: TaskRec, l: Loc, chans: map<Chan, ChanRec>) {
    match l
    case AtPick(p, r) =>
      p == k.done && r == k.req && k.proc.None? && k.trace == [Submitted(p)] && k.closure == Method(r)
    case AtLink(p, d) => Published(cfg, t, k, d, chans) && p == if d == k.done then k.proc.value else k.done
    case AtMail(d) => Published(cfg, t, k, d, chans)
    case AtService(p, c) => k.proc == Some(p) && TaskPhase(k).Held? && OwnChannel(t, k, c, chans)
    case AtSub(p) => p == k.done && TaskPhase(k).InSub? && Relayed(t, k, chans)
    case Gone =>
      && TaskPhase(k).Over? && k.trace != []
      && k.trace[|k.trace| - 1] == (if k.proc.None? then Rejected(k.done) else Responded(k.done, k.status))
      && (k.proc.None? ==> k.status == INTERNAL_SERVER_ERROR)
  }

  ghost predicate RequestOk(t: Task, k: TaskRec, reqs: map<Req, ReqRec>) {
    && k.req in reqs && reqs[k.req].owner == k.done && reqs[k.req].serves == t
    && reqs[k.req].responses == if TaskPhase(k).Over? then [k.status] else []
  }

  ghost predicate TaskOk(cfg: Config, t: Task, k: TaskRec, l: Loc, chans: map<Chan, ChanRec>, reqs: map<Req, ReqRec>) {
    && k.done in cfg.http
    && (k.proc.Some? ==> k.proc.value in cfg.rpc)
    && (cfg.guarded ==> !TaskPhase(k).Forwarding? && !TaskPhase(k).InSub? && !TaskPhase(k).Returned?)
    && (Ended(k.trace) <==> TaskPhase(k).Over?)
    && LocOk(cfg, t, k, l, chans)
    && RequestOk(t, k, reqs)
  }

  // Channel c is needed by task t, which is at l.
  ghost predicate Needs(k: TaskRec, l: Loc, chans: map<Chan, ChanRec>, c: Chan) {
    || (l.AtService? && l.c == c)
    || ( && (TaskPhase(k).Forwarding? || TaskPhase(k).InSub? || TaskPhase(k).Returned?)
         && k.closure.ForwardDone?
         && (k.closure.c == c || (k.closure.c in chans && chans[k.closure.c].pre == Some(c))))
  }

  // `loc` names for every task the one place that holds it.
  ghost predicate PlacesOk(s: State, loc: map<Task, Loc>) {
    && loc.Keys == s.tasks.Keys
    && (forall t, l: Loc | !l.Gone? && At(s, t, l) :: t in loc && loc[t] == l)
    && (forall t | t in loc :: !loc[t].Gone? ==> At(s, t, loc[t]))
    && (forall p | p in s.procs :: Distinct(s.procs[p].mail))
  }

  ghost predicate TasksOk(cfg: Config, s: State, loc: map<Task, Loc>) {
    forall t | t in s.tasks :: t in loc && TaskOk(cfg, t, s.tasks[t], loc[t], s.chans, s.reqs)
  }

  // A live channel is needed by the task it was made for, unless its owner is about to
  // delete it.
  ghost predicate ChannelOk(s: State, loc: map<Task, Loc>, c: Chan)
    requires c in s.chans
  {
    var n := s.chans[c];
    && n.serves in s.tasks && n.serves in loc && n.owner in s.procs
    && (c in s.procs[n.owner].del <==> !Needs(s.tasks[n.serves], loc[n.serves], s.chans, c))
  }

  // Only live channels are about to be deleted, and only by their owner.
  ghost predicate DeletionsOk(s: State) {
    forall p, c | p in s.procs && c in s.procs[p].del :: c in s.chans && s.chans[c].owner == p
  }

  ghost predicate ChannelsOk(s: State, loc: map<Task, Loc>) {
    DeletionsOk(s) && forall c | c in s.chans :: ChannelOk(s, loc, c)
  }

  // A waiting task is announced, about to be announced, or in front of a running drain.
  ghost predicate Announced(s: State, p: Proc) requires p in s.procs {
    || s.procs[p].efd > 0
    || s.procs[p].base.Drain?
    || exists q | q in s.procs :: s.procs[q].push == Signal(p)
  }

  ghost predicate WakeOk(s: State) {
    forall p | p in s.procs :: s.procs[p].mail != [] ==> Announced(s, p)
  }

  ghost predicate Shell(cfg: Config, s: State) {
    && ValidConfig(cfg) && !s.fault
    && s.procs.Keys == cfg.http + cfg.rpc
    && (forall p | p in s.procs && p in cfg.http :: !s.procs[p].base.Park? && s.procs[p].del == {})
    && (forall p | p in s.procs :: s.procs[p].push.Signal? ==> s.procs[p].push.dest in s.procs)
    && (forall w | w in s.idle :: w in cfg.rpc)
  }

  ghost predicate Inv(cfg: Config, s: State, loc: map<Task, Loc>) {
    && Shell(cfg, s)
    && PlacesOk(s, loc)
    && TasksOk(cfg, s, loc)
    && ChannelsOk(s, loc)
    && WakeOk(s)
  }

  lemma InitInv(cfg: Config)
    requires ValidConfig(cfg)
    ensures Inv(cfg, Init(cfg), map[])
  {
  }

  // ---------------------------------------------------------------- frames

  // A step that moves task t to l and leaves every other task where it is.
  lemma PlacesMove(s: State, s': State, loc: map<Task, Loc>, t: Task, l: Loc)
    requires PlacesOk(s, loc)
    requires s'.tasks.Keys == s.tasks.Keys + {t}
    requires forall u, m: Loc | u != t && !m.Gone? :: At(s', u, m) <==> At(s, u, m)
    requires forall m: Loc | !m.Gone? :: At(s', t, m) <==> m == l
    requires forall p | p in s'.procs :: Distinct(s'.procs[p].mail)
    ensures PlacesOk(s', loc[t := l])
  {
    var loc' := loc[t := l];
    forall u | u in loc' && !loc'[u].Gone? ensures At(s', u, loc'[u]) {
      if u != t {
        assert At(s, u, loc[u]);
      }
    }
  }

  // A step that moves no task.
  lemma PlacesStay(s: State, s': State, loc: map<Task, Loc>)
    requires PlacesOk(s, loc)
    requires s'.tasks.Keys == s.tasks.Keys
    requires forall u, m: Loc | !m.Gone? :: At(s', u, m) <==> At(s, u, m)
    requires forall p | p in s'.procs :: Distinct(s'.procs[p].mail)
    ensures PlacesOk(s', loc)
  {
    forall u | u in loc && !loc[u].Gone? ensures At(s', u, loc[u]) {
      assert At(s, u, loc[u]);
    }
  }

  // A task keeps its invariant while its channels and its request are left alone.
  lemma TaskFrame(cfg: Config, t: Task, k: TaskRec, l: Loc,
                  chans: map<Chan, ChanRec>, chans': map<Chan, ChanRec>,
                  reqs: map<Req, ReqRec>, reqs': map<Req, ReqRec>)
    requires TaskOk(cfg, t, k, l, chans, reqs)
    requires forall c | c in chans && chans[c].serves == t && Needs(k, l, chans, c) ::
      c in chans' && chans'[c] == chans[c]
    requires k.req in reqs' && reqs'[k.req] == reqs[k.req]
    ensures TaskOk(cfg, t, k, l, chans', reqs')
    ensures forall c :: Needs(k, l, chans, c) ==> c in chans && chans[c].serves == t
    ensures forall c :: Needs(k, l, chans', c) <==> Needs(k, l, chans, c)
  {
  }

  // Channels of other tasks are left alone.
  ghost predicate OthersKept(s: State, s': State, t: Task) {
    forall c | c in s.chans && s.chans[c].serves != t :: c in s'.chans && s'.chans[c] == s.chans[c]
  }

  // Requests of other tasks are left alone.
  ghost predicate RequestsKept(s: State, s': State, t: Task) {
    forall r | r in s.reqs && s.reqs[r].serves != t :: r in s'.reqs && s'.reqs[r] == s.reqs[r]
  }

  // A step that concerns only task t, its request and its channels.
  lemma TasksMove(cfg: Config, s: State, s': State, loc: map<Task, Loc>, t: Task, l: Loc)
    requires TasksOk(cfg, s, loc)
    requires t in s'.tasks && s'.tasks == s.tasks[t := s'.tasks[t]]
    requires TaskOk(cfg, t, s'.tasks[t], l, s'.chans, s'.reqs)
    requires OthersKept(s, s', t) && RequestsKept(s, s', t)
    ensures TasksOk(cfg, s', loc[t := l])
  {
    forall u | u in s'.tasks && u != t ensures u in loc && TaskOk(cfg, u, s.tasks[u], loc[u], s'.chans, s'.reqs) {
      assert TaskOk(cfg, u, s.tasks[u], loc[u], s.chans, s.reqs);
      TaskFrame(cfg, u, s.tasks[u], loc[u], s.chans, s'.chans, s.reqs, s'.reqs);
    }
  }

  ghost predicate OwnChannelsOk(s: State, loc: map<Task, Loc>, t: Task) {
    forall c | c in s.chans && s.chans[c].serves == t :: ChannelOk(s, loc, c)
  }

  lemma ChannelsMove(cfg: Config, s: State, s': State, loc: map<Task, Loc>, t: Task, l: Loc, p: Proc)
    requires TasksOk(cfg, s, loc) && ChannelsOk(s, loc) && p in s.procs
    requires t in s'.tasks && s'.tasks == s.tasks[t := s'.tasks[t]]
    requires p in s'.procs && s'.procs == s.procs[p := s'.procs[p]]
    requires OthersKept(s, s', t)
    requires forall c | c in s.chans && s.chans[c].owner != p :: c in s'.chans && s'.chans[c] == s.chans[c]
    requires forall c | c in s'.procs[p].del :: c in s'.chans && s'.chans[c].owner == p
    requires forall c | c in s.chans && s.chans[c].serves != t :: c in s'.procs[p].del <==> c in s.procs[p].del
    requires forall c | c in s'.chans && c !in s.chans :: s'.chans[c].serves == t
    requires forall c | c in s'.chans && c in s.chans :: s'.chans[c] == s.chans[c]
    requires OwnChannelsOk(s', loc[t := l], t)
    ensures ChannelsOk(s', loc[t := l])
  {
    forall c | c in s'.chans && c in s.chans && s.chans[c].serves != t ensures ChannelOk(s', loc[t := l], c) {
      var u := s.chans[c].serves;
      assert ChannelOk(s, loc, c);
      assert TaskOk(cfg, u, s.tasks[u], loc[u], s.chans, s.reqs);
      TaskFrame(cfg, u, s.tasks[u], loc[u], s.chans, s'.chans, s.reqs, s.reqs);
    }
  }

  // The same for a step of p that leaves the channels as they are and is about to delete one of t.
  lemma ChannelRetires(s: State, s': State, loc: map<Task, Loc>, p: Proc, t: Task, c: Chan, l: Loc)
    requires ChannelsOk(s, loc) && p in s.procs && c in s.chans && s.chans[c].serves == t && s.chans[c].owner == p
    requires t in s'.tasks && s'.tasks == s.tasks[t := s'.tasks[t]] && s'.chans == s.chans
    requires p in s'.procs && s'.procs == s.procs[p := s'.procs[p]] && s'.procs[p].del == s.procs[p].del + {c}
    requires OwnChannelsOk(s', loc[t := l], t)
    ensures ChannelsOk(s', loc[t := l])
  {
    forall x | x in s'.chans && s.chans[x].serves != t ensures ChannelOk(s', loc[t := l], x) {
      assert ChannelOk(s, loc, x);
    }
  }

  // The same for a step that leaves the channels as they are and does not change what t needs.
  lemma ChannelsStay(s: State, s': State, loc: map<Task, Loc>, t: Task, l: Loc)
    requires ChannelsOk(s, loc)
    requires s'.chans == s.chans && s'.procs.Keys == s.procs.Keys
    requires forall p | p in s.procs :: s'.procs[p].del == s.procs[p].del
    requires t in s'.tasks && s'.tasks == s.tasks[t := s'.tasks[t]]
    requires t in s.tasks ==> t in loc
    requires t in s.tasks ==> forall c :: Needs(s'.tasks[t], l, s.chans, c) <==> Needs(s.tasks[t], loc[t], s.chans, c)
    ensures ChannelsOk(s', loc[t := l])
  {
    forall c | c in s'.chans ensures ChannelOk(s', loc[t := l], c) {
      assert ChannelOk(s, loc, c);
    }
  }

  // Wake-ups survive a step of p that takes no signal away, adds no mail and ends no drain.
  lemma WakeMove(s: State, s': State, p: Proc)
    requires WakeOk(s) && p in s.procs && s.procs.Keys == s'.procs.Keys
    requires forall q | q in s.procs && q != p :: s'.procs[q] == s.procs[q]
    requires !s.procs[p].push.Signal?
    requires s'.procs[p].mail != [] ==> s.procs[p].mail != []
    requires s'.procs[p].mail != [] ==> (
      s'.procs[p].base.Drain? || (!s.procs[p].base.Drain? && s'.procs[p].efd == s.procs[p].efd))
    ensures WakeOk(s')
  {
    forall q | q in s'.procs && s'.procs[q].mail != [] ensures Announced(s', q) {
      assert Announced(s, q);
      if x :| x in s.procs && s.procs[x].push == Signal(q) {
        assert s'.procs[x].push == Signal(q);
      }
    }
  }

  lemma Members(mail: seq<Task>)
    requires Distinct(mail) && mail != []
    ensures Distinct(mail[1..])
    ensures forall u :: u in mail[1..] <==> u in mail && u != mail[0]
  {
    forall u | u in mail && u != mail[0] ensures u in mail[1..] {
      var i :| 0 <= i < |mail| && mail[i] == u;
      assert mail[1..][i - 1] == u;
    }
  }

  // ---------------------------------------------------------------- what a step does to its task

  // The pure part of the proof: one lemma per arrow of the life of a task.

  lemma TaskTaken(cfg: Config, t: Task, k: TaskRec, l: Loc, chans: map<Chan, ChanRec>, reqs: map<Req, ReqRec>, w: Proc)
    requires ValidConfig(cfg) && TaskOk(cfg, t, k, l, chans, reqs) && l.AtPick? && w in cfg.rpc
    ensures TaskOk(cfg, t, k.(proc := Some(w)), AtLink(l.p, w), chans, reqs)
    ensures forall c :: !Needs(k.(proc := Some(w)), AtLink(l.p, w), chans, c) && !Needs(k, l, chans, c)
  {
    FreshPhase(k.done, w);
    FreshPhase(k.done, 0);
  }

  function Answered(reqs: map<Req, ReqRec>, r: Req, st: Status): map<Req, ReqRec>
    requires r in reqs
  {
    reqs[r := reqs[r].(responses := [st])]
  }

  lemma TaskRejected(cfg: Config, t: Task, k: TaskRec, l: Loc, chans: map<Chan, ChanRec>, reqs: map<Req, ReqRec>)
    requires ValidConfig(cfg) && TaskOk(cfg, t, k, l, chans, reqs) && l.AtPick?
    ensures k.req == l.r && reqs[k.req].owner == l.p && reqs[k.req].responses == []
    ensures var k' := Noted(k.(status := INTERNAL_SERVER_ERROR), Rejected(l.p));
      && TaskOk(cfg, t, k', Gone, chans, Answered(reqs, k.req, INTERNAL_SERVER_ERROR))
      && forall c :: !Needs(k', Gone, chans, c) && !Needs(k, l, chans, c)
  {
    FreshPhase(k.done, WorkerOf(k));
    NotedPhase(k.(status := INTERNAL_SERVER_ERROR), Rejected(l.p));
  }

  lemma TaskRan(cfg: Config, t: Task, k: TaskRec, p: Proc, chans: map<Chan, ChanRec>, reqs: map<Req, ReqRec>, c: Chan)
    requires ValidConfig(cfg) && TaskOk(cfg, t, k, AtMail(p), chans, reqs) && p in cfg.rpc
    requires k.closure.Method? && c !in chans
    ensures var k', chans' := Noted(k, Ran(p)), chans[c := ChanRec(p, Some(t), k.closure.r, None, t)];
      && TaskOk(cfg, t, k', AtService(p, c), chans', reqs)
      && forall x :: (Needs(k', AtService(p, c), chans', x) <==> x == c) && !Needs(k, AtMail(p), chans, x)
  {
    NotedPhase(k, Ran(p));
  }

  lemma TaskResumed(cfg: Config, t: Task, k: TaskRec, p: Proc, chans: map<Chan, ChanRec>, reqs: map<Req, ReqRec>)
    requires ValidConfig(cfg) && TaskOk(cfg, t, k, AtMail(p), chans, reqs) && p in cfg.rpc && k.closure.ForwardDone?
    ensures Relayed(t, k, chans) && k.proc == Some(p)
    ensures var k', n := Noted(k, Resumed(p, k.status)), k.closure.c;
      && chans[n].pre.value != n
      && TaskOk(cfg, t, k', AtService(p, chans[n].pre.value), chans, reqs)
      && (forall x :: Needs(k', AtService(p, chans[n].pre.value), chans, x) <==> x == chans[n].pre.value)
      && (forall x :: Needs(k, AtMail(p), chans, x) <==> x == n || x == chans[n].pre.value)
  {
    NotedPhase(k, Resumed(p, k.status));
  }

  lemma TaskResponded(cfg: Config, t: Task, k: TaskRec, p: Proc, chans: map<Chan, ChanRec>, reqs: map<Req, ReqRec>)
    requires ValidConfig(cfg) && TaskOk(cfg, t, k, AtMail(p), chans, reqs) && p in cfg.http && k.finish.RequestFinish?
    ensures k.finish.r == k.req && reqs[k.req].owner == p && reqs[k.req].responses == []
    ensures var k' := Noted(k, Responded(p, k.status));
      && TaskOk(cfg, t, k', Gone, chans, Answered(reqs, k.req, k.status))
      && forall c :: !Needs(k', Gone, chans, c) && !Needs(k, AtMail(p), chans, c)
  {
    NotedPhase(k, Responded(p, k.status));
  }

  lemma TaskSubStarted(cfg: Config, t: Task, k: TaskRec, p: Proc, chans: map<Chan, ChanRec>, reqs: map<Req, ReqRec>)
    requires ValidConfig(cfg) && TaskOk(cfg, t, k, AtMail(p), chans, reqs) && p in cfg.http && k.finish.RequestForward?
    ensures k.finish.r == k.req && reqs[k.req].owner == p && reqs[k.req].responses == []
    ensures var k' := Noted(k, SubStarted(p));
      && TaskOk(cfg, t, k', AtSub(p), chans, reqs)
      && forall c :: Needs(k', AtSub(p), chans, c) <==> Needs(k, AtMail(p), chans, c)
  {
    NotedPhase(k, SubStarted(p));
  }

  lemma TaskFinished(cfg: Config, t: Task, k: TaskRec, l: Loc, chans: map<Chan, ChanRec>, reqs: map<Req,
                     ReqRec>, st: Status)
    requires ValidConfig(cfg) && TaskOk(cfg, t, k, l, chans, reqs) && l.AtService?
    ensures OwnChannel(t, k, l.c, chans) && k.proc == Some(l.p)
    ensures var k' := Noted(k.(status := st, finish := RequestFinish(chans[l.c].r)), Finished(l.p, st));
      && TaskOk(cfg, t, k', AtLink(l.p, k.done), chans, reqs)
      && forall x :: !Needs(k', AtLink(l.p, k.done), chans, x) && (Needs(k, l, chans, x) <==> x == l.c)
  {
    NotedPhase(k.(status := st, finish := RequestFinish(chans[l.c].r)), Finished(l.p, st));
  }

  lemma TaskForwarded(cfg: Config, t: Task, k: TaskRec, l: Loc, chans: map<Chan, ChanRec>, reqs: map<Req,
                      ReqRec>, f: Chan)
    requires ValidConfig(cfg) && TaskOk(cfg, t, k, l, chans, reqs) && l.AtService? && f !in chans && !cfg.guarded
    ensures OwnChannel(t, k, l.c, chans) && k.proc == Some(l.p)
    ensures var k' := Noted(k.(finish := RequestForward(chans[l.c].r), closure := ForwardDone(f)), Forwarded(l.p));
      var chans' := chans[f := ChanRec(l.p, None, chans[l.c].r, Some(l.c), t)];
      && TaskOk(cfg, t, k', AtLink(l.p, k.done), chans', reqs)
      && (forall x :: Needs(k', AtLink(l.p, k.done), chans', x) <==> x == f || x == l.c)
      && (forall x :: Needs(k, l, chans, x) <==> x == l.c)
  {
    NotedPhase(k.(finish := RequestForward(chans[l.c].r), closure := ForwardDone(f)), Forwarded(l.p));
  }

  lemma TaskReturned(cfg: Config, t: Task, k: TaskRec, p: Proc, chans: map<Chan, ChanRec>, reqs: map<Req,
                     ReqRec>, st: Status)
    requires ValidConfig(cfg) && TaskOk(cfg, t, k, AtSub(p), chans, reqs)
    ensures k.proc.Some?
    ensures var k' := Noted(k.(status := st), SubDone(p, st));
      && TaskOk(cfg, t, k', AtLink(p, k.proc.value), chans, reqs)
      && forall c :: Needs(k', AtLink(p, k.proc.value), chans, c) <==> Needs(k, AtSub(p), chans, c)
  {
    NotedPhase(k.(status := st), SubDone(p, st));
  }
}
