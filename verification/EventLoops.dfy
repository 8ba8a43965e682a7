/**
 What one process does over a whole run, in its own order: the turns of its event loop, the
 steps of a push, the deletions of channels, and the counter of its eventfd.
 */
module EventLoops {
  import opened Eventfd
  import IdleTokens
  import opened Options
  import opened Protocol
  import opened ProtocolSteps
  import opened ProtocolTheorems

  // ---------------------------------------------------------------- one step, seen by one process

  // A step of another process may fill the mailbox and the eventfd of p, and nothing else of it.
  lemma StepOfOthers(cfg: Config, s: State, a: Action, p: Proc)
    requires Enabled(cfg, s, a) && !Apply(cfg, s, a).fault && p in s.procs && a.p != p
    ensures p in Apply(cfg, s, a).procs
    ensures var x, y := s.procs[p], Apply(cfg, s, a).procs[p]; y == x.(mail := y.mail, efd := y.efd)
  {
    match a
    case Pop(q, c) => PopProcs(cfg, s, q, c);
    case LinkNode(q) =>
    case WriteEvent(q) =>
    case _ => IdleTokens.OthersAsTheyWere(cfg, s, a, p);
  }

  predicate Decision(a: Action) { a.Finish? || a.Forward? || a.CompleteSub? }

  // The steps of the event loop itself.
  predicate LoopAction(a: Action) { a.Wake? || a.ReadEvent? || a.PopNone? || a.ParkSelf? }

  // All other steps of a process leave its place in the loop alone.
  lemma OtherOwnStep(cfg: Config, s: State, a: Action)
    requires Enabled(cfg, s, a) && !Apply(cfg, s, a).fault && !LoopAction(a)
    ensures a.p in Apply(cfg, s, a).procs && Apply(cfg, s, a).procs[a.p].base == s.procs[a.p].base
  {
    match a
    case Pop(q, c) => PopProcs(cfg, s, q, c);
    case Finish(_, _, _, _) => DecisionIs(cfg, s, a);
    case Forward(_, _, _, _) => DecisionIs(cfg, s, a);
    case CompleteSub(_, _, _) => DecisionIs(cfg, s, a);
    case LinkNode(_) =>
    case WriteEvent(_) =>
    case _ => PlainKeepsBase(cfg, s, a);
  }

  lemma PlainKeepsBase(cfg: Config, s: State, a: Action)
    requires Enabled(cfg, s, a) && (a.Submit? || a.Take? || a.TakeNone? || a.DeleteChannel?)
    ensures a.p in Apply(cfg, s, a).procs && Apply(cfg, s, a).procs[a.p].base == s.procs[a.p].base
  {
  }

  // All that a decision does to its process.
  lemma DecisionIs(cfg: Config, s: State, a: Action)
    requires Enabled(cfg, s, a) && Decision(a)
    ensures a.p in Apply(cfg, s, a).procs
    ensures var x, y := s.procs[a.p], Apply(cfg, s, a).procs[a.p];
      && y == x.(push := y.push, del := y.del) && x.push.NoPush?
      && (!Apply(cfg, s, a).fault ==> y.push.Link? && y.del == x.del + if a.Finish? then {a.c} else {})
  {
  }

  // ---------------------------------------------------------------- the turns of the event loop

  datatype Turn = Woke | ReadOk | ReadFailed | Drained | Parked

  // The turn that a step is for process p; a read succeeds at a positive counter.
  function TurnOf(s: State, a: Action, p: Proc): seq<Turn> {
    if a.p != p || p !in s.procs then []
    else if a.Wake? then [Woke]
    else if a.ReadEvent? then [if s.procs[p].efd > 0 then ReadOk else ReadFailed]
    else if a.PopNone? then [Drained]
    else if a.ParkSelf? then [Parked]
    else []
  }

  // The turns of p in the first n steps.
  function Turns(ss: seq<State>, aa: seq<Action>, n: nat, p: Proc): seq<Turn>
    requires |ss| == |aa| + 1 && n <= |aa|
  {
    if n == 0 then [] else Turns(ss, aa, n - 1, p) + TurnOf(ss[n - 1], aa[n - 1], p)
  }

  // The handler: drain the mailbox, and in an RPC process park.
  function Handler(rpc: bool): seq<Turn> { if rpc then [Drained, Parked] else [Drained] }

  // k successful reads in a row, with the handler after each.
  function Reads(rpc: bool, k: nat): seq<Turn> { if k == 0 then [] else Reads(rpc, k - 1) + [ReadOk] + Handler(rpc) }

  // do { read; handler } while the read succeeds: so the handler also runs after the read that
  // fails, unless it is guarded.
  function WakeUp(rpc: bool, guarded: bool, k: nat): seq<Turn> {
    [Woke] + Reads(rpc, k) + [ReadFailed] + if guarded then [] else Handler(rpc)
  }

  function WakeUps(rpc: bool, guarded: bool, ks: seq<nat>): seq<Turn> {
    if ks == [] then [] else WakeUps(rpc, guarded, ks[..|ks| - 1]) + WakeUp(rpc, guarded, ks[|ks| - 1])
  }

  // What a process has done when it sleeps: its first handler run and some wake-ups.
  function Whole(rpc: bool, guarded: bool, ks: seq<nat>): seq<Turn> { Handler(rpc) + WakeUps(rpc, guarded, ks) }

  // What it has done wherever it stands; k are the successful reads since the last wake-up.
  ghost predicate Stands(rpc: bool, guarded: bool, base: Base, h: seq<Turn>, ks: seq<nat>, k: nat) {
    var awake := Whole(rpc, guarded, ks) + [Woke] + Reads(rpc, k);
    match base
    case Sleep => h == Whole(rpc, guarded, ks)
    case Read => h == awake
    case Drain(again) => if again then h == awake + [ReadOk] else h == [] || (!guarded && h == awake + [ReadFailed])
    case Park(again) =>
      && rpc
      && if again then h == awake + [ReadOk, Drained]
         else h == [Drained] || (!guarded && h == awake + [ReadFailed, Drained])
  }

  lemma NextWakeUp(rpc: bool, guarded: bool, ks: seq<nat>, k: nat)
    ensures Whole(rpc, guarded, ks + [k])
         == Whole(rpc, guarded, ks) + [Woke] + Reads(rpc, k) + [ReadFailed] + if guarded then [] else Handler(rpc)
  {
    assert (ks + [k])[..|ks|] == ks;
    Regroup(Handler(rpc), WakeUps(rpc, guarded, ks), [Woke], Reads(rpc, k), [ReadFailed],
            if guarded then [] else Handler(rpc));
  }

  lemma Regroup(a: seq<Turn>, b: seq<Turn>, c: seq<Turn>, d: seq<Turn>, e: seq<Turn>, f: seq<Turn>)
    ensures a + (b + (c + d + e + f)) == a + b + c + d + e + f
  {
  }

  // One step of the loop.
  lemma LoopStands(cfg: Config, s: State, a: Action, h: seq<Turn>, ks: seq<nat>, k: nat)
    returns (ks': seq<nat>, k': nat)
    requires Enabled(cfg, s, a) && LoopAction(a)
    requires Stands(a.p in cfg.rpc, cfg.guarded, s.procs[a.p].base, h, ks, k)
    ensures a.p in Apply(cfg, s, a).procs
    ensures Stands(a.p in cfg.rpc, cfg.guarded, Apply(cfg, s, a).procs[a.p].base, h + TurnOf(s, a, a.p), ks', k')
  {
    var rpc, g := a.p in cfg.rpc, cfg.guarded;
    ks', k' := ks, k;
    var awake := Whole(rpc, g, ks) + [Woke] + Reads(rpc, k);
    if a.Wake? {
      k' := 0;
      assert Whole(rpc, g, ks) + [Woke] + [] == h + [Woke];
    } else if a.ReadEvent? {
      if s.procs[a.p].efd == 0 && g {
        NextWakeUp(rpc, g, ks, k);
        ks' := ks + [k];
        assert awake + [ReadFailed] + [] == h + [ReadFailed];
      }
    } else if a.PopNone? && rpc {
      assert awake + [ReadOk] + [Drained] == awake + [ReadOk, Drained];
      assert awake + [ReadFailed] + [Drained] == awake + [ReadFailed, Drained];
    } else {
      ks', k' := HandlerDone(rpc, g, s.procs[a.p].base, h, ks, k, TurnOf(s, a, a.p));
    }
  }

  // The end of the handler: back to the read after one that succeeded, and to sleep otherwise.
  lemma HandlerDone(rpc: bool, g: bool, base: Base, h: seq<Turn>, ks: seq<nat>, k: nat, last: seq<Turn>)
    returns (ks': seq<nat>, k': nat)
    requires if rpc then base.Park? && last == [Parked] else base.Drain? && last == [Drained]
    requires Stands(rpc, g, base, h, ks, k)
    ensures Stands(rpc, g, if base.again then Read else Sleep, h + last, ks', k')
  {
    var awake := Whole(rpc, g, ks) + [Woke] + Reads(rpc, k);
    ks', k' := ks, k;
    if base.again {
      k' := k + 1;
      assert h + last == awake + ([ReadOk] + Handler(rpc));
      assert Reads(rpc, k') == Reads(rpc, k) + [ReadOk] + Handler(rpc);
      assert h + last == Whole(rpc, g, ks) + [Woke] + Reads(rpc, k');
    } else if h == (if rpc then [Drained] else []) {
      ks' := [];
      assert h + last == Handler(rpc) + [];
    } else {
      ks' := ks + [k];
      NextWakeUp(rpc, g, ks, k);
      assert h + last == awake + [ReadFailed] + Handler(rpc);
    }
  }

  // In every run the turns of every process are those of its loop, up to where it stands.
  lemma {:induction false} LoopHistory(cfg: Config, ss: seq<State>, aa: seq<Action>, n: nat, p: Proc)
    returns (ks: seq<nat>, k: nat)
    requires IsRun(cfg, ss, aa) && n < |ss| && p in ss[n].procs
    ensures Stands(p in cfg.rpc, cfg.guarded, ss[n].procs[p].base, Turns(ss, aa, n, p), ks, k)
  {
    if n == 0 {
      ks, k := [], 0;
    } else {
      var i := n - 1;
      ProcsStay(cfg, ss, aa, i, p);
      ks, k := LoopHistory(cfg, ss, aa, i, p);
      NoFault(cfg, ss, aa, n);
      assert StepAt(cfg, ss, aa, i);
      ks, k := HistoryStep(cfg, ss[i], aa[i], p, Turns(ss, aa, i, p), ks, k);
    }
  }

  lemma HistoryStep(cfg: Config, s: State, a: Action, p: Proc, h: seq<Turn>, ks: seq<nat>, k: nat)
    returns (ks': seq<nat>, k': nat)
    requires Enabled(cfg, s, a) && !Apply(cfg, s, a).fault && p in s.procs
    requires Stands(p in cfg.rpc, cfg.guarded, s.procs[p].base, h, ks, k)
    ensures p in Apply(cfg, s, a).procs
    ensures Stands(p in cfg.rpc, cfg.guarded, Apply(cfg, s, a).procs[p].base, h + TurnOf(s, a, p), ks', k')
  {
    ks', k' := ks, k;
    if a.p != p {
      StepOfOthers(cfg, s, a, p);
      assert h + [] == h;
    } else if LoopAction(a) {
      ks', k' := LoopStands(cfg, s, a, h, ks, k);
    } else {
      OtherOwnStep(cfg, s, a);
      assert h + [] == h;
    }
  }

  lemma ProcsStay(cfg: Config, ss: seq<State>, aa: seq<Action>, i: nat, p: Proc)
    requires IsRun(cfg, ss, aa) && i < |aa|
    ensures p in ss[i + 1].procs <==> p in ss[i].procs
  {
    var _ := RunInv(cfg, ss, aa, i);
    var _ := RunInv(cfg, ss, aa, i + 1);
  }

  // New requests, decisions of services and ends of sub-requests come while the process sleeps or
  // drains, and not between a wake-up and its read or between a drain and its park.
  lemma WhereDecided(cfg: Config, ss: seq<State>, aa: seq<Action>, i: nat) returns (ks: seq<nat>, k: nat)
    requires IsRun(cfg, ss, aa) && i < |aa| && (aa[i].Submit? || Decision(aa[i]))
    ensures var rpc, h := aa[i].p in cfg.rpc, Turns(ss, aa, i, aa[i].p);
      var awake := Whole(rpc, cfg.guarded, ks) + [Woke] + Reads(rpc, k);
      h == [] || h == Whole(rpc, cfg.guarded, ks) || h == awake + [ReadOk] || h == awake + [ReadFailed]
  {
    assert StepAt(cfg, ss, aa, i);
    ks, k := LoopHistory(cfg, ss, aa, i, aa[i].p);
  }

  // Whether the last read of p among the first n steps found a signal.
  function LastRead(ss: seq<State>, aa: seq<Action>, n: nat, p: Proc): Option<bool>
    requires |ss| == |aa| + 1 && n <= |aa|
  {
    if n == 0 then None
    else if aa[n - 1] == ReadEvent(p) then Some(p in ss[n - 1].procs && ss[n - 1].procs[p].efd > 0)
    else LastRead(ss, aa, n - 1, p)
  }

  // The last read in some turns.
  function LastTurn(h: seq<Turn>): Option<bool> {
    if h == [] then None
    else match h[|h| - 1]
      case ReadOk => Some(true)
      case ReadFailed => Some(false)
      case _ => LastTurn(h[..|h| - 1])
  }

  lemma {:induction false} LastReadIsTurn(ss: seq<State>, aa: seq<Action>, n: nat, p: Proc)
    requires |ss| == |aa| + 1 && n <= |aa| && forall i | 0 <= i < |ss| :: p in ss[i].procs
    ensures LastRead(ss, aa, n, p) == LastTurn(Turns(ss, aa, n, p))
  {
    if n > 0 {
      LastReadIsTurn(ss, aa, n - 1, p);
      var h, t := Turns(ss, aa, n - 1, p), TurnOf(ss[n - 1], aa[n - 1], p);
      if t == [] {
        assert h + t == h;
      } else {
        assert (h + t)[..|h|] == h;
      }
    }
  }

  lemma {:induction false} LastOfWhole(rpc: bool, guarded: bool, ks: seq<nat>)
    ensures LastTurn(Whole(rpc, guarded, ks)) == if ks == [] then None else Some(false)
  {
    var n := |ks| - 1;
    if ks == [] {
      assert Whole(rpc, guarded, ks) == if rpc then [Drained] + [Parked] else [Drained];
      assert [Drained][..0] == [];
      if rpc {
        assert ([Drained] + [Parked])[..1] == [Drained];
      }
    } else {
      var before := Whole(rpc, guarded, ks[..n]) + [Woke] + Reads(rpc, ks[n]);
      assert ks == ks[..n] + [ks[n]];
      NextWakeUp(rpc, guarded, ks[..n], ks[n]);
      assert (before + [ReadFailed])[..|before|] == before;
      if guarded {
        assert before + [ReadFailed] + [] == before + [ReadFailed];
      } else {
        HandlerHidesNothing(rpc, before + [ReadFailed]);
      }
    }
  }

  lemma HandlerHidesNothing(rpc: bool, h: seq<Turn>)
    ensures LastTurn(h + Handler(rpc)) == LastTurn(h)
  {
    assert (h + [Drained])[..|h|] == h;
    if rpc {
      assert h + Handler(rpc) == h + [Drained] + [Parked];
      assert (h + [Drained] + [Parked])[..|h| + 1] == h + [Drained];
    }
  }

  // So no process falls asleep with its last read a success: it reads until a read fails.
  lemma SleepsAfterFailedRead(cfg: Config, ss: seq<State>, aa: seq<Action>, n: nat, p: Proc)
    requires IsRun(cfg, ss, aa) && n < |ss| && p in ss[n].procs && ss[n].procs[p].base.Sleep?
    ensures LastRead(ss, aa, n, p) != Some(true)
  {
    var ks, _ := LoopHistory(cfg, ss, aa, n, p);
    forall i | 0 <= i < |ss| ensures p in ss[i].procs {
      SameProcs(cfg, ss, aa, i, n, p);
    }
    LastReadIsTurn(ss, aa, n, p);
    LastOfWhole(p in cfg.rpc, cfg.guarded, ks);
  }

  lemma SameProcs(cfg: Config, ss: seq<State>, aa: seq<Action>, i: nat, j: nat, p: Proc)
    requires IsRun(cfg, ss, aa) && i < |ss| && j < |ss|
    ensures p in ss[i].procs <==> p in ss[j].procs
  {
    var _ := RunInv(cfg, ss, aa, i);
    var _ := RunInv(cfg, ss, aa, j);
  }

  // ---------------------------------------------------------------- the counter of the eventfd

  // The signals written to p since its last read.
  function Signals(ss: seq<State>, aa: seq<Action>, n: nat, p: Proc): nat
    requires |ss| == |aa| + 1 && n <= |aa|
  {
    if n == 0 || aa[n - 1] == ReadEvent(p) then 0
    else
      var s, a := ss[n - 1], aa[n - 1];
      Signals(ss, aa, n - 1, p) + if a.WriteEvent? && a.p in s.procs && s.procs[a.p].push == Signal(p) then 1 else 0
  }

  // The counter holds them, up to what 64 bits hold without the last value.
  lemma {:induction false} CounterIsSignals(cfg: Config, ss: seq<State>, aa: seq<Action>, n: nat, p: Proc)
    requires IsRun(cfg, ss, aa) && n < |ss| && p in ss[n].procs
    ensures var k := Signals(ss, aa, n, p);
      ss[n].procs[p].efd == if k < 18_446_744_073_709_551_614 then k else 18_446_744_073_709_551_614
  {
    if n > 0 {
      var i := n - 1;
      ProcsStay(cfg, ss, aa, i, p);
      CounterIsSignals(cfg, ss, aa, i, p);
      NoFault(cfg, ss, aa, n);
      assert StepAt(cfg, ss, aa, i);
      CounterStep(cfg, ss[i], aa[i], p);
    }
  }

  lemma CounterStep(cfg: Config, s: State, a: Action, p: Proc)
    requires Enabled(cfg, s, a) && !Apply(cfg, s, a).fault && p in s.procs
    ensures p in Apply(cfg, s, a).procs
    ensures Apply(cfg, s, a).procs[p].efd ==
      if a == ReadEvent(p) then 0
      else if a.WriteEvent? && s.procs[a.p].push == Signal(p) then Bump(s.procs[p].efd)
      else s.procs[p].efd
  {
    match a
    case Pop(q, c) => PopProcs(cfg, s, q, c);
    case ReadEvent(_) =>
    case WriteEvent(_) => CounterWritten(s, a.p, p);
    case LinkNode(_) => CounterLinked(s, a.p, p);
    case _ =>
      if a.p == p {
        CounterKept(cfg, s, a);
      } else {
        IdleTokens.OthersAsTheyWere(cfg, s, a, p);
      }
  }

  lemma CounterWritten(s: State, q: Proc, p: Proc)
    requires q in s.procs && s.procs[q].push.Signal? && p in s.procs && !DoWrite(s, q).fault
    ensures p in DoWrite(s, q).procs
    ensures DoWrite(s, q).procs[p].efd == if s.procs[q].push == Signal(p) then Bump(s.procs[p].efd) else s.procs[p].efd
  {
  }

  lemma CounterLinked(s: State, q: Proc, p: Proc)
    requires q in s.procs && s.procs[q].push.Link? && p in s.procs
    ensures p in DoLink(s, q).procs && DoLink(s, q).procs[p].efd == s.procs[p].efd
  {
  }

  lemma CounterKept(cfg: Config, s: State, a: Action)
    requires Enabled(cfg, s, a) && !a.Pop? && !a.ReadEvent? && !a.WriteEvent? && !a.LinkNode?
    ensures a.p in Apply(cfg, s, a).procs && Apply(cfg, s, a).procs[a.p].efd == s.procs[a.p].efd
  {
    if Decision(a) {
      DecisionIs(cfg, s, a);
    }
  }

  // ---------------------------------------------------------------- program order

  // The last step of p among the first n.
  function LastOwn(aa: seq<Action>, n: nat, p: Proc): Option<Action>
    requires n <= |aa|
  {
    if n == 0 then None else if aa[n - 1].p == p then Some(aa[n - 1]) else LastOwn(aa, n - 1, p)
  }

  // Steps whose process goes on with a push.
  predicate BeforeLink(a: Action) { a.Take? || Decision(a) }

  ghost predicate PushIs(push: Push, l: Option<Action>) {
    match push
    case NoPush => l.None? || !(l.value.Submit? || BeforeLink(l.value) || l.value.LinkNode?)
    case Pick(t, r) => l.Some? && l.value.Submit? && l.value.t == t && l.value.r == r
    case Link(_, _) => l.Some? && BeforeLink(l.value)
    case Signal(_) => l.Some? && l.value.LinkNode?
  }

  lemma OwnPush(cfg: Config, s: State, a: Action)
    requires Enabled(cfg, s, a) && !Apply(cfg, s, a).fault
    ensures a.p in Apply(cfg, s, a).procs && PushIs(Apply(cfg, s, a).procs[a.p].push, Some(a))
  {
    match a
    case Pop(q, c) => PopProcs(cfg, s, q, c);
    case Finish(_, _, _, _) => DecisionIs(cfg, s, a);
    case Forward(_, _, _, _) => DecisionIs(cfg, s, a);
    case CompleteSub(_, _, _) => DecisionIs(cfg, s, a);
    case LinkNode(p) => LinkPush(s, p);
    case WriteEvent(p) => WritePush(s, p);
    case _ => PlainPush(cfg, s, a);
  }

  lemma LinkPush(s: State, p: Proc)
    requires p in s.procs && s.procs[p].push.Link? && !DoLink(s, p).fault
    ensures p in DoLink(s, p).procs && DoLink(s, p).procs[p].push.Signal?
  {
  }

  lemma WritePush(s: State, p: Proc)
    requires p in s.procs && s.procs[p].push.Signal? && !DoWrite(s, p).fault
    ensures p in DoWrite(s, p).procs && DoWrite(s, p).procs[p].push.NoPush?
  {
  }

  lemma PlainPush(cfg: Config, s: State, a: Action)
    requires Enabled(cfg, s, a) && !Apply(cfg, s, a).fault && !a.Pop? && !Decision(a)
    requires !a.LinkNode? && !a.WriteEvent?
    ensures a.p in Apply(cfg, s, a).procs && PushIs(Apply(cfg, s, a).procs[a.p].push, Some(a))
  {
  }

  lemma {:induction false} PushAt(cfg: Config, ss: seq<State>, aa: seq<Action>, n: nat, p: Proc)
    requires IsRun(cfg, ss, aa) && n < |ss| && p in ss[n].procs
    ensures PushIs(ss[n].procs[p].push, LastOwn(aa, n, p))
  {
    if n > 0 {
      var i := n - 1;
      ProcsStay(cfg, ss, aa, i, p);
      PushAt(cfg, ss, aa, i, p);
      NoFault(cfg, ss, aa, n);
      assert StepAt(cfg, ss, aa, i);
      if aa[i].p == p {
        OwnPush(cfg, ss[i], aa[i]);
      } else {
        StepOfOthers(cfg, ss[i], aa[i], p);
      }
    }
  }

  // A submission is followed by its take or refusal; a take, a decision of a service and the end
  // of a sub-request by the link; the link by the signal; and these come at no other time.
  lemma ProgramOrder(cfg: Config, ss: seq<State>, aa: seq<Action>, i: nat)
    requires IsRun(cfg, ss, aa) && i < |aa|
    ensures var l, a := LastOwn(aa, i, aa[i].p), aa[i];
      && (a.Take? || a.TakeNone? <==> l.Some? && l.value.Submit?)
      && (a.LinkNode? <==> l.Some? && (l.value.Take? || l.value.Finish? || l.value.Forward? || l.value.CompleteSub?))
      && (a.WriteEvent? <==> l.Some? && l.value.LinkNode?)
  {
    assert StepAt(cfg, ss, aa, i);
    PushAt(cfg, ss, aa, i, aa[i].p);
  }

  // ---------------------------------------------------------------- when a decision is possible

  // By its turns, a process sleeps or drains: it has not just been woken, a drain of an RPC process
  // is not waiting for its park, and the handler has not just run after a read that succeeded.
  predicate MayDecide(rpc: bool, h: seq<Turn>) {
    h == [] || match h[|h| - 1]
      case Woke => false
      case ReadOk => true
      case ReadFailed => true
      case Drained => !rpc && LastTurn(h) != Some(true)
      case Parked => LastTurn(h) != Some(true)
  }

  lemma AtTheRead(rpc: bool, start: seq<Turn>, k: nat)
    ensures !MayDecide(rpc, start + [Woke] + Reads(rpc, k))
  {
    var h := start + [Woke] + Reads(rpc, k);
    if k > 0 {
      var before := start + [Woke] + Reads(rpc, k - 1) + [ReadOk];
      assert h == before + Handler(rpc);
      HandlerHidesNothing(rpc, before);
      assert before[..|before| - 1] + [ReadOk] == before;
    }
  }

  lemma AtRest(rpc: bool, guarded: bool, ks: seq<nat>)
    ensures MayDecide(rpc, Whole(rpc, guarded, ks))
  {
    LastOfWhole(rpc, guarded, ks);
    if ks != [] {
      var n := |ks| - 1;
      assert ks == ks[..n] + [ks[n]];
      NextWakeUp(rpc, guarded, ks[..n], ks[n]);
    }
  }

  lemma MayDecideIff(rpc: bool, guarded: bool, base: Base, h: seq<Turn>, ks: seq<nat>, k: nat)
    requires Stands(rpc, guarded, base, h, ks, k)
    ensures base.Sleep? || base.Drain? <==> MayDecide(rpc, h)
  {
    match base
    case Sleep => AtRest(rpc, guarded, ks);
    case Read => AtTheRead(rpc, Whole(rpc, guarded, ks), k);
    case _ =>
  }

  // The process is in the middle of a submission or a push.
  predicate Pushing(l: Option<Action>) {
    l.Some? && (l.value.Submit? || BeforeLink(l.value) || l.value.LinkNode?)
  }

  // Exactly then, and at no other time, a new request can come to an HTTP worker, a service can
  // decide on a task that it has, and a sub-request that is under way can end.
  lemma DecisionsIff(cfg: Config, ss: seq<State>, aa: seq<Action>, n: nat, p: Proc)
    requires IsRun(cfg, ss, aa) && n < |ss| && p in ss[n].procs
    ensures var may := MayDecide(p in cfg.rpc, Turns(ss, aa, n, p)) && !Pushing(LastOwn(aa, n, p)); var s := ss[n];
      && (forall t: Task, r: Req :: Enabled(cfg, s, Submit(p, t, r)) <==>
            may && p in cfg.http && t !in s.tasks && r !in s.reqs)
      && (forall t: Task, c: Chan, st :: Enabled(cfg, s, Finish(p, t, c, st)) <==> may && (p, t, c) in s.svc)
      && (forall t: Task, c: Chan, f: Chan :: Enabled(cfg, s, Forward(p, t, c, f)) <==>
            may && !cfg.guarded && (p, t, c) in s.svc && f !in s.chans)
      && (forall t: Task, st :: Enabled(cfg, s, CompleteSub(p, t, st)) <==> may && (p, t) in s.sub)
  {
    var ks, k := LoopHistory(cfg, ss, aa, n, p);
    MayDecideIff(p in cfg.rpc, cfg.guarded, ss[n].procs[p].base, Turns(ss, aa, n, p), ks, k);
    PushAt(cfg, ss, aa, n, p);
  }

  // ---------------------------------------------------------------- channels are deleted first

  lemma StillOwed(cfg: Config, s: State, a: Action, p: Proc, c: Chan)
    requires Enabled(cfg, s, a) && !Apply(cfg, s, a).fault && p in s.procs && c in s.procs[p].del
    requires a != DeleteChannel(p, c)
    ensures p in Apply(cfg, s, a).procs && c in Apply(cfg, s, a).procs[p].del
  {
    if a.p != p {
      StepOfOthers(cfg, s, a, p);
    } else if Decision(a) {
      DecisionIs(cfg, s, a);
    } else if a.Pop? {
    } else {
      PlainDeletions(cfg, s, a, c);
    }
  }

  lemma PlainDeletions(cfg: Config, s: State, a: Action, c: Chan)
    requires Enabled(cfg, s, a) && !Apply(cfg, s, a).fault && !a.Pop? && !Decision(a) && c in s.procs[a.p].del
    requires a != DeleteChannel(a.p, c)
    ensures a.p in Apply(cfg, s, a).procs && c in Apply(cfg, s, a).procs[a.p].del
  {
  }

  // Before the process pops, reads, wakes up or goes to sleep again it has deleted the channels
  // that it owes.
  lemma {:induction false} DeletesFirst(cfg: Config, ss: seq<State>, aa: seq<Action>, k: nat, i: nat, p: Proc, c: Chan)
    returns (j: nat)
    requires IsRun(cfg, ss, aa) && k <= i < |aa| && p in ss[k].procs && c in ss[k].procs[p].del
    requires aa[i].p == p && (LoopAction(aa[i]) || aa[i].Pop?)
    ensures k <= j < i && aa[j] == DeleteChannel(p, c)
    decreases i - k
  {
    assert StepAt(cfg, ss, aa, k);
    if aa[k] == DeleteChannel(p, c) {
      j := k;
      assert StepAt(cfg, ss, aa, i);
    } else {
      NoFault(cfg, ss, aa, k + 1);
      StillOwed(cfg, ss[k], aa[k], p, c);
      j := DeletesFirst(cfg, ss, aa, k + 1, i, p, c);
    }
  }

  // Owed are the channel of a request that was finished, and a relay that has run.
  lemma FinishOwes(cfg: Config, ss: seq<State>, aa: seq<Action>, i: nat)
    requires IsRun(cfg, ss, aa) && i < |aa| && aa[i].Finish?
    ensures aa[i].p in ss[i + 1].procs && aa[i].c in ss[i + 1].procs[aa[i].p].del
  {
    assert StepAt(cfg, ss, aa, i);
    NoFault(cfg, ss, aa, i + 1);
    DecisionIs(cfg, ss[i], aa[i]);
  }

  lemma ResumptionOwes(cfg: Config, ss: seq<State>, aa: seq<Action>, i: nat)
    requires IsRun(cfg, ss, aa) && i < |aa| && aa[i].Pop? && aa[i].p in cfg.rpc
    ensures aa[i].p in ss[i].procs && ss[i].procs[aa[i].p].mail != []
    ensures var t := ss[i].procs[aa[i].p].mail[0];
      t in ss[i].tasks && (ss[i].tasks[t].closure.ForwardDone? ==>
        aa[i].p in ss[i + 1].procs && ss[i].tasks[t].closure.c in ss[i + 1].procs[aa[i].p].del)
  {
    assert StepAt(cfg, ss, aa, i);
    NoFault(cfg, ss, aa, i + 1);
  }
}
