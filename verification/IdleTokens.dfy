/**
 The idle-worker discipline of the guarded protocol: one successful read, one drain, one
 park.  Every RPC process holds exactly one token at any time.
 */
module IdleTokens {
  import opened Links
  import opened Protocol
  import opened ProtocolInv
  import opened ProtocolSteps
  import ProtocolTheorems

  // Parked on the idle ring; handed to submitter q, which has not linked its task yet;
  // linked by q, which has not written the eventfd yet; signalled; draining or about to park.
  datatype Token = Parked | HeldBy(q: Proc) | LinkedBy(q: Proc) | Signalled | Busy

  ghost predicate HasToken(s: State, w: Proc, tk: Token)
    requires w in s.procs
  {
    match tk
    case Parked => w in s.idle
    case HeldBy(q) => q in s.procs && s.procs[q].push.Link? && s.procs[q].push.dest == w
    case LinkedBy(q) => q in s.procs && s.procs[q].push == Signal(w)
    case Signalled => s.procs[w].efd > 0
    case Busy => s.procs[w].base.Drain? || s.procs[w].base.Park?
  }

  // How much mail goes with a token.
  predicate MailFits(ps: ProcState, tk: Token) {
    match tk
    case Parked => |ps.mail| == 0
    case HeldBy(_) => |ps.mail| == 0
    case LinkedBy(_) => |ps.mail| == 1
    case Signalled => |ps.mail| == 1 && ps.efd == 1
    case Busy => |ps.mail| <= 1 && (ps.base.Park? ==> ps.mail == [])
  }

  ghost predicate TokensOk(cfg: Config, s: State, tok: map<Proc, Token>) {
    && cfg.guarded && tok.Keys == cfg.rpc && cfg.rpc <= s.procs.Keys
    && (forall w, tk | w in cfg.rpc :: HasToken(s, w, tk) <==> tok[w] == tk)
    && (forall w | w in cfg.rpc :: MailFits(s.procs[w], tok[w]))
    && Distinct(s.idle)
  }

  // ---------------------------------------------------------------- frames

  // A step after which worker v has token tk, and the others are as before.
  lemma TokenMove(cfg: Config, s: State, s': State, tok: map<Proc, Token>, v: Proc, tk: Token)
    requires TokensOk(cfg, s, tok) && v in cfg.rpc && cfg.rpc <= s'.procs.Keys
    requires forall w, k: Token | w in cfg.rpc && w != v :: HasToken(s', w, k) <==> HasToken(s, w, k)
    requires forall k: Token :: HasToken(s', v, k) <==> k == tk
    requires forall w | w in cfg.rpc && w != v :: MailFits(s.procs[w], tok[w]) ==> MailFits(s'.procs[w], tok[w])
    requires MailFits(s'.procs[v], tk) && Distinct(s'.idle)
    ensures TokensOk(cfg, s', tok[v := tk])
  {
  }

  lemma TokensStay(cfg: Config, s: State, s': State, tok: map<Proc, Token>)
    requires TokensOk(cfg, s, tok) && cfg.rpc <= s'.procs.Keys
    requires forall w, k: Token | w in cfg.rpc :: HasToken(s', w, k) <==> HasToken(s, w, k)
    requires forall w | w in cfg.rpc :: MailFits(s.procs[w], tok[w]) ==> MailFits(s'.procs[w], tok[w])
    requires s'.idle == s.idle
    ensures TokensOk(cfg, s', tok)
  {
  }

  // ---------------------------------------------------------------- steps that move a token

  lemma TakeToken(cfg: Config, s: State, tok: map<Proc, Token>, p: Proc)
    requires TokensOk(cfg, s, tok) && p in s.procs && s.procs[p].push.Pick? && s.procs[p].push.t in s.tasks
    requires s.idle != [] && s.idle[0] in cfg.rpc
    ensures TokensOk(cfg, DoTake(cfg, s, p, s.idle[0]), tok[s.idle[0] := HeldBy(p)])
  {
    var w, s' := s.idle[0], DoTake(cfg, s, p, s.idle[0]);
    assert HasToken(s, w, Parked);
    forall v | v in s.idle && v != w ensures v in s'.idle {
      var i :| 0 <= i < |s.idle| && s.idle[i] == v;
      assert s'.idle[i - 1] == v;
    }
    forall v, k: Token | v in cfg.rpc && v != w ensures HasToken(s', v, k) <==> HasToken(s, v, k) {}
    forall k: Token ensures HasToken(s', w, k) <==> k == HeldBy(p) {
      assert HasToken(s, w, k) <==> k == Parked;
    }
    TokenMove(cfg, s, s', tok, w, HeldBy(p));
  }

  lemma LinkToken(cfg: Config, s: State, tok: map<Proc, Token>, p: Proc)
    requires TokensOk(cfg, s, tok) && p in s.procs && s.procs[p].push.Link?
    requires s.procs[p].push.dest in cfg.rpc && !OnSomeMailbox(s, s.procs[p].push.t)
    ensures TokensOk(cfg, DoLink(s, p), tok[s.procs[p].push.dest := LinkedBy(p)])
  {
    var d, s' := s.procs[p].push.dest, DoLink(s, p);
    assert HasToken(s, d, HeldBy(p));
    forall v, k: Token | v in cfg.rpc && v != d ensures HasToken(s', v, k) <==> HasToken(s, v, k) {}
    forall k: Token ensures HasToken(s', d, k) <==> k == LinkedBy(p) {
      assert HasToken(s, d, k) <==> k == HeldBy(p);
    }
    TokenMove(cfg, s, s', tok, d, LinkedBy(p));
  }

  lemma LinkElsewhere(cfg: Config, s: State, tok: map<Proc, Token>, p: Proc)
    requires TokensOk(cfg, s, tok) && p in s.procs && s.procs[p].push.Link?
    requires s.procs[p].push.dest in s.procs && s.procs[p].push.dest !in cfg.rpc && !OnSomeMailbox(s, s.procs[p].push.t)
    ensures TokensOk(cfg, DoLink(s, p), tok)
  {
    var s' := DoLink(s, p);
    forall v, k: Token | v in cfg.rpc ensures HasToken(s', v, k) <==> HasToken(s, v, k) {}
    TokensStay(cfg, s, s', tok);
  }

  lemma WriteToken(cfg: Config, s: State, tok: map<Proc, Token>, p: Proc)
    requires TokensOk(cfg, s, tok) && p in s.procs && s.procs[p].push.Signal? && s.procs[p].push.dest in cfg.rpc
    ensures TokensOk(cfg, DoWrite(s, p), tok[s.procs[p].push.dest := Signalled])
  {
    var d, s' := s.procs[p].push.dest, DoWrite(s, p);
    assert HasToken(s, d, LinkedBy(p));
    assert !HasToken(s, d, Signalled);
    forall v, k: Token | v in cfg.rpc && v != d ensures HasToken(s', v, k) <==> HasToken(s, v, k) {}
    forall k: Token ensures HasToken(s', d, k) <==> k == Signalled {
      assert HasToken(s, d, k) <==> k == LinkedBy(p);
    }
    TokenMove(cfg, s, s', tok, d, Signalled);
  }

  lemma WriteElsewhere(cfg: Config, s: State, tok: map<Proc, Token>, p: Proc)
    requires TokensOk(cfg, s, tok) && p in s.procs && s.procs[p].push.Signal?
    requires s.procs[p].push.dest in s.procs && s.procs[p].push.dest !in cfg.rpc
    ensures TokensOk(cfg, DoWrite(s, p), tok)
  {
    var s' := DoWrite(s, p);
    forall v, k: Token | v in cfg.rpc ensures HasToken(s', v, k) <==> HasToken(s, v, k) {}
    TokensStay(cfg, s, s', tok);
  }

  lemma ReadToken(cfg: Config, s: State, tok: map<Proc, Token>, p: Proc)
    requires TokensOk(cfg, s, tok) && p in s.procs && s.procs[p].base.Read?
    ensures TokensOk(cfg, DoRead(cfg, s, p), if p in cfg.rpc && s.procs[p].efd > 0 then tok[p := Busy] else tok)
  {
    var s' := DoRead(cfg, s, p);
    if p in cfg.rpc && s.procs[p].efd > 0 {
      assert HasToken(s, p, Signalled);
      forall v, k: Token | v in cfg.rpc && v != p ensures HasToken(s', v, k) <==> HasToken(s, v, k) {}
      forall k: Token ensures HasToken(s', p, k) <==> k == Busy {
        assert HasToken(s, p, k) <==> k == Signalled;
      }
      TokenMove(cfg, s, s', tok, p, Busy);
    } else {
      forall v, k: Token | v in cfg.rpc ensures HasToken(s', v, k) <==> HasToken(s, v, k) {}
      TokensStay(cfg, s, s', tok);
    }
  }

  lemma ParkToken(cfg: Config, s: State, tok: map<Proc, Token>, p: Proc)
    requires TokensOk(cfg, s, tok) && p in s.procs && p in cfg.rpc && s.procs[p].base.Park?
    ensures TokensOk(cfg, DoPark(cfg, s, p), tok[p := Parked])
  {
    var s' := DoPark(cfg, s, p);
    assert HasToken(s, p, Busy) && !HasToken(s, p, Parked);
    forall v, k: Token | v in cfg.rpc && v != p ensures HasToken(s', v, k) <==> HasToken(s, v, k) {}
    forall k: Token ensures HasToken(s', p, k) <==> k == Parked {
      assert HasToken(s, p, k) <==> k == Busy;
    }
    TokenMove(cfg, s, s', tok, p, Parked);
  }

  lemma PopToken(cfg: Config, s: State, tok: map<Proc, Token>, p: Proc, c: Chan)
    requires TokensOk(cfg, s, tok) && Enabled(cfg, s, Pop(p, c)) && !DoPop(cfg, s, p, c).fault
    ensures TokensOk(cfg, DoPop(cfg, s, p, c), tok)
    ensures p in cfg.rpc ==> DoPop(cfg, s, p, c).procs[p].mail == []
  {
    var s' := DoPop(cfg, s, p, c);
    PopProcs(cfg, s, p, c);
    PopIdle(cfg, s, p, c);
    forall v, k: Token | v in cfg.rpc ensures HasToken(s', v, k) <==> HasToken(s, v, k) {}
    if p in cfg.rpc {
      assert HasToken(s, p, Busy);
      forall k: Token ensures HasToken(s', p, k) <==> k == Busy {}
      TokenMove(cfg, s, s', tok, p, Busy);
      assert tok[p := Busy] == tok;
    } else {
      TokensStay(cfg, s, s', tok);
    }
  }

  // A step that leaves bases, eventfds, mail and idle ring alone and aims at no RPC process.
  lemma OtherToken(cfg: Config, s: State, s': State, tok: map<Proc, Token>, p: Proc)
    requires TokensOk(cfg, s, tok) && p in s.procs && p in s'.procs && s'.idle == s.idle
    requires s'.procs == s.procs[p := s'.procs[p]]
    requires s'.procs[p].mail == s.procs[p].mail && s'.procs[p].efd == s.procs[p].efd
    requires (s'.procs[p].base.Drain? || s'.procs[p].base.Park?) <==> (s.procs[p].base.Drain? || s.procs[p].base.Park?)
    requires p in cfg.rpc && s'.procs[p].base.Park? ==> s.procs[p].base.Park? || s.procs[p].mail == []
    requires (s.procs[p].push.Link? ==> s.procs[p].push.dest !in cfg.rpc) && !s.procs[p].push.Signal?
    requires (s'.procs[p].push.Link? ==> s'.procs[p].push.dest !in cfg.rpc) && !s'.procs[p].push.Signal?
    ensures TokensOk(cfg, s', tok)
  {
    forall v, k: Token | v in cfg.rpc ensures HasToken(s', v, k) <==> HasToken(s, v, k) {}
    TokensStay(cfg, s, s', tok);
  }

  // What the protocol's invariant says about the next step of a guarded run: finished tasks
  // go back to an HTTP worker, and there are no sub-requests.
  ghost predicate StepFacts(cfg: Config, s: State, a: Action)
    requires Enabled(cfg, s, a)
  {
    match a
    case Take(p, w) => s.procs[p].push.t in s.tasks && w in cfg.rpc
    case LinkNode(p) => s.procs[p].push.dest in s.procs && !OnSomeMailbox(s, s.procs[p].push.t)
    case Finish(p, t, c, st) =>
      var s' := DoFinish(s, p, t, c, st);
      && p in s'.procs && s'.procs == s.procs[p := s'.procs[p]] && s'.idle == s.idle
      && s'.procs[p] == s.procs[p].(push := s'.procs[p].push, del := s'.procs[p].del)
      && s'.procs[p].push.Link? && s'.procs[p].push.dest !in cfg.rpc
    case WriteEvent(p) => s.procs[p].push.dest in s.procs
    case ParkSelf(p) => p in cfg.rpc
    case Forward(_, _, _, _) => false
    case CompleteSub(_, _, _) => false
    case _ => true
  }

  lemma FinishFacts(cfg: Config, s: State, loc: map<Task, Loc>, a: Action)
    requires Inv(cfg, s, loc) && Enabled(cfg, s, a) && a.Finish?
    ensures StepFacts(cfg, s, a)
  {
    Placed(cfg, s, loc, a.t, AtService(a.p, a.c));
  }

  lemma GuardedFacts(cfg: Config, s: State, loc: map<Task, Loc>, a: Action)
    requires Inv(cfg, s, loc) && cfg.guarded && Enabled(cfg, s, a)
    ensures StepFacts(cfg, s, a)
  {
    match a
    case Take(p, w) => PickTarget(cfg, s, loc, p);
    case LinkNode(p) =>
      LinkTarget(cfg, s, loc, p);
      LinkableOnce(s, loc, p);
    case Finish(p, t, c, st) => FinishFacts(cfg, s, loc, a);
    case CompleteSub(p, t, st) => Placed(cfg, s, loc, t, AtSub(p));
    case _ =>
  }

  lemma TokenStep(cfg: Config, s: State, tok: map<Proc, Token>, a: Action) returns (tok': map<Proc, Token>)
    requires TokensOk(cfg, s, tok) && Enabled(cfg, s, a) && !Apply(cfg, s, a).fault && StepFacts(cfg, s, a)
    ensures TokensOk(cfg, Apply(cfg, s, a), tok')
  {
    tok' := tok;
    match a
    case Take(p, w) =>
      TakeToken(cfg, s, tok, p);
      tok' := tok[w := HeldBy(p)];
    case LinkNode(p) => tok' := LinkTokens(cfg, s, tok, p);
    case Finish(p, t, c, st) => OtherToken(cfg, s, DoFinish(s, p, t, c, st), tok, p);
    case _ => tok' := LoopTokens(cfg, s, tok, a);
  }

  lemma LinkTokens(cfg: Config, s: State, tok: map<Proc, Token>, p: Proc) returns (tok': map<Proc, Token>)
    requires TokensOk(cfg, s, tok) && p in s.procs && s.procs[p].push.Link?
    requires s.procs[p].push.dest in s.procs && !OnSomeMailbox(s, s.procs[p].push.t)
    ensures TokensOk(cfg, DoLink(s, p), tok')
  {
    if s.procs[p].push.dest in cfg.rpc {
      LinkToken(cfg, s, tok, p);
      tok' := tok[s.procs[p].push.dest := LinkedBy(p)];
    } else {
      LinkElsewhere(cfg, s, tok, p);
      tok' := tok;
    }
  }

  lemma LoopTokens(cfg: Config, s: State, tok: map<Proc, Token>, a: Action) returns (tok': map<Proc, Token>)
    requires TokensOk(cfg, s, tok) && Enabled(cfg, s, a) && !Apply(cfg, s, a).fault
    requires !a.Take? && !a.LinkNode? && !a.Finish? && StepFacts(cfg, s, a)
    ensures TokensOk(cfg, Apply(cfg, s, a), tok')
  {
    tok' := tok;
    match a
    case WriteEvent(p) =>
      if s.procs[p].push.dest in cfg.rpc {
        WriteToken(cfg, s, tok, p);
        tok' := tok[s.procs[p].push.dest := Signalled];
      } else {
        WriteElsewhere(cfg, s, tok, p);
      }
    case ReadEvent(p) =>
      ReadToken(cfg, s, tok, p);
      tok' := if p in cfg.rpc && s.procs[p].efd > 0 then tok[p := Busy] else tok;
    case ParkSelf(p) =>
      ParkToken(cfg, s, tok, p);
      tok' := tok[p := Parked];
    case Pop(p, c) => PopToken(cfg, s, tok, p, c);
    case PopNone(p) => PopNoneToken(cfg, s, tok, p);
    case _ => QuietToken(cfg, s, tok, a);
  }

  // These steps change no more of a process than its base, in the loop, and its push, and not
  // its mailbox or counter.
  lemma QuietStep(cfg: Config, s: State, a: Action)
    requires Enabled(cfg, s, a)
    requires a.Submit? || a.TakeNone? || a.Wake? || a.DeleteChannel?
    ensures var s', p := Apply(cfg, s, a), a.p;
      && p in s'.procs && s'.idle == s.idle && s'.procs == s.procs[p := s'.procs[p]]
      && s'.procs[p].mail == s.procs[p].mail && s'.procs[p].efd == s.procs[p].efd
      && ((s'.procs[p].base.Drain? || s'.procs[p].base.Park?) <==> (s.procs[p].base.Drain? || s.procs[p].base.Park?))
      && (s'.procs[p].base.Park? ==> s.procs[p].base.Park?)
      && !s.procs[p].push.Link? && !s.procs[p].push.Signal? && !s'.procs[p].push.Link? && !s'.procs[p].push.Signal?
  {
  }

  lemma QuietToken(cfg: Config, s: State, tok: map<Proc, Token>, a: Action)
    requires TokensOk(cfg, s, tok) && Enabled(cfg, s, a)
    requires a.Submit? || a.TakeNone? || a.Wake? || a.DeleteChannel?
    ensures TokensOk(cfg, Apply(cfg, s, a), tok)
  {
    QuietStep(cfg, s, a);
    OtherToken(cfg, s, Apply(cfg, s, a), tok, a.p);
  }

  // The end of an HTTP worker's drain is no business of the tokens.
  lemma PopNoneToken(cfg: Config, s: State, tok: map<Proc, Token>, p: Proc)
    requires TokensOk(cfg, s, tok) && Enabled(cfg, s, PopNone(p))
    ensures TokensOk(cfg, DoPopNone(cfg, s, p), tok)
  {
    var s' := DoPopNone(cfg, s, p);
    forall v, k: Token | v in cfg.rpc ensures HasToken(s', v, k) <==> HasToken(s, v, k) {}
    TokensStay(cfg, s, s', tok);
  }

  // ---------------------------------------------------------------- theorems

  lemma {:induction false} RunTokens(cfg: Config, ss: seq<State>, aa: seq<Action>, n: nat)
    returns (tok: map<Proc, Token>)
    requires IsRun(cfg, ss, aa) && cfg.guarded && n < |ss|
    ensures TokensOk(cfg, ss[n], tok)
  {
    if n == 0 {
      tok := map w | w in cfg.rpc :: Busy;
    } else {
      var before := RunTokens(cfg, ss, aa, n - 1);
      tok := TokensOfStep(cfg, ss, aa, n - 1, before);
    }
  }

  lemma TokensOfStep(cfg: Config, ss: seq<State>, aa: seq<Action>, i: nat, tok: map<Proc, Token>)
    returns (tok': map<Proc, Token>)
    requires IsRun(cfg, ss, aa) && i < |aa| && TokensOk(cfg, ss[i], tok)
    ensures TokensOk(cfg, ss[i + 1], tok')
  {
    var loc := RunInv(cfg, ss, aa, i);
    ProtocolTheorems.NoFault(cfg, ss, aa, i + 1);
    assert StepAt(cfg, ss, aa, i);
    GuardedFacts(cfg, ss[i], loc, aa[i]);
    tok' := TokenStep(cfg, ss[i], tok, aa[i]);
  }

  // Every RPC process has exactly one token; parked and held workers have no mail, and no
  // mailbox ever holds more than one task; nobody is on the idle ring twice.
  lemma ExactlyOneToken(cfg: Config, ss: seq<State>, aa: seq<Action>, n: nat, w: Proc)
    requires IsRun(cfg, ss, aa) && cfg.guarded && n < |ss| && w in cfg.rpc
    ensures w in ss[n].procs
    ensures exists tk :: HasToken(ss[n], w, tk) && MailFits(ss[n].procs[w], tk)
                         && forall k :: HasToken(ss[n], w, k) ==> k == tk
    ensures Distinct(ss[n].idle)
  {
    var tok := RunTokens(cfg, ss, aa, n);
    assert HasToken(ss[n], w, tok[w]);
  }

  // The idle ring loses a worker only by Take and gains one only by its own park.
  lemma IdleStep(cfg: Config, ss: seq<State>, aa: seq<Action>, i: nat, w: Proc)
    requires IsRun(cfg, ss, aa) && cfg.guarded && i < |aa|
    ensures w in ss[i + 1].idle ==> w in ss[i].idle || aa[i] == ParkSelf(w)
    ensures aa[i].Take? && aa[i].w == w ==> w in ss[i].idle && w !in ss[i + 1].idle
  {
    var tok := RunTokens(cfg, ss, aa, i);
    var loc := RunInv(cfg, ss, aa, i);
    assert StepAt(cfg, ss, aa, i);
    IdleAfter(cfg, ss[i], aa[i]);
    if aa[i].Take? {
      PickTarget(cfg, ss[i], loc, aa[i].p);
    }
  }

  lemma IdleAfter(cfg: Config, s: State, a: Action)
    requires Enabled(cfg, s, a) && cfg.guarded
    ensures Apply(cfg, s, a).idle ==
      if a.Take? && s.procs[a.p].push.t in s.tasks then s.idle[1..]
      else if a.ParkSelf? then [a.p] + s.idle
      else s.idle
  {
    if a.Pop? {
      PopIdle(cfg, s, a.p, a.c);
    }
  }

  lemma {:induction false} StaysOffRing(cfg: Config, ss: seq<State>, aa: seq<Action>, i: nat, j: nat, w: Proc)
    requires IsRun(cfg, ss, aa) && cfg.guarded && i < j < |ss|
    requires aa[i].Take? && aa[i].w == w
    requires forall k | i < k < j :: aa[k] != ParkSelf(w)
    ensures w !in ss[j].idle
  {
    IdleStep(cfg, ss, aa, j - 1, w);
    if i < j - 1 {
      StaysOffRing(cfg, ss, aa, i, j - 1, w);
    }
  }

  // No worker is handed out twice without having parked in between.
  lemma NotHandedOutTwice(cfg: Config, ss: seq<State>, aa: seq<Action>, i: nat, j: nat, w: Proc)
    requires IsRun(cfg, ss, aa) && cfg.guarded && i < j < |aa|
    requires aa[i].Take? && aa[i].w == w && aa[j].Take? && aa[j].w == w
    ensures exists k :: i < k < j && aa[k] == ParkSelf(w)
  {
    IdleStep(cfg, ss, aa, j, w);
    if forall k | i < k < j :: aa[k] != ParkSelf(w) {
      StaysOffRing(cfg, ss, aa, i, j, w);
    }
  }

  // From the pop of its task to its park a worker stays busy, with an empty mailbox.
  ghost predicate Finishing(s: State, w: Proc) {
    w in s.procs && (s.procs[w].base.Drain? || s.procs[w].base.Park?) && s.procs[w].mail == []
  }

  lemma FinishingStep(cfg: Config, ss: seq<State>, aa: seq<Action>, i: nat, w: Proc)
    requires IsRun(cfg, ss, aa) && cfg.guarded && i < |aa| && w in cfg.rpc
    ensures aa[i].Pop? && aa[i].p == w ==> !Finishing(ss[i], w) && Finishing(ss[i + 1], w)
    ensures Finishing(ss[i], w) && aa[i] != ParkSelf(w) ==> Finishing(ss[i + 1], w)
  {
    MailOfBusy(cfg, ss, aa, i, w);
    ProtocolTheorems.NoFault(cfg, ss, aa, i + 1);
    assert StepAt(cfg, ss, aa, i);
    if IsBusy(ss[i].procs[w]) && aa[i] != ParkSelf(w) {
      BaseAfter(cfg, ss[i], aa[i], w);
    }
  }

  predicate IsBusy(ps: ProcState) { ps.base.Drain? || ps.base.Park? }

  // A busy worker is sent no task.
  lemma MailOfBusy(cfg: Config, ss: seq<State>, aa: seq<Action>, i: nat, w: Proc)
    requires IsRun(cfg, ss, aa) && cfg.guarded && i < |aa| && w in cfg.rpc
    ensures w in ss[i].procs && w in ss[i + 1].procs
    ensures IsBusy(ss[i].procs[w]) ==>
      ss[i + 1].procs[w].mail == [] || ss[i + 1].procs[w].mail == ss[i].procs[w].mail
    ensures aa[i].Pop? && aa[i].p == w ==> ss[i + 1].procs[w].mail == []
  {
    var tok := RunTokens(cfg, ss, aa, i);
    var tok' := RunTokens(cfg, ss, aa, i + 1);
    ProtocolTheorems.MailOfStep(cfg, ss, aa, i, w);
    SentNothing(cfg, ss[i], tok, aa[i], w);
  }

  lemma SentNothing(cfg: Config, s: State, tok: map<Proc, Token>, a: Action, w: Proc)
    requires TokensOk(cfg, s, tok) && w in cfg.rpc && Enabled(cfg, s, a)
    ensures a.LinkNode? && s.procs[a.p].push.dest == w ==> !IsBusy(s.procs[w])
    ensures IsBusy(s.procs[w]) ==> |s.procs[w].mail| <= 1
  {
    if a.LinkNode? && s.procs[a.p].push.dest == w {
      assert HasToken(s, w, HeldBy(a.p));
    }
    if IsBusy(s.procs[w]) {
      assert HasToken(s, w, Busy);
    }
  }

  // A busy worker stays busy until it parks.
  lemma BaseAfter(cfg: Config, s: State, a: Action, w: Proc)
    requires Enabled(cfg, s, a) && w in s.procs && w in cfg.rpc && !Apply(cfg, s, a).fault
    requires IsBusy(s.procs[w]) && a != ParkSelf(w)
    ensures w in Apply(cfg, s, a).procs && IsBusy(Apply(cfg, s, a).procs[w])
  {
    match a
    case Pop(p, c) => PopProcs(cfg, s, p, c);
    case LinkNode(p) => LinkBase(s, p, w);
    case WriteEvent(p) => WriteBase(s, p, w);
    case _ => OtherBase(cfg, s, a, w);
  }

  lemma LinkBase(s: State, p: Proc, w: Proc)
    requires p in s.procs && s.procs[p].push.Link? && w in s.procs
    ensures w in DoLink(s, p).procs && DoLink(s, p).procs[w].base == s.procs[w].base
  {
  }

  lemma WriteBase(s: State, p: Proc, w: Proc)
    requires p in s.procs && s.procs[p].push.Signal? && w in s.procs
    ensures w in DoWrite(s, p).procs && DoWrite(s, p).procs[w].base == s.procs[w].base
  {
  }

  lemma OtherBase(cfg: Config, s: State, a: Action, w: Proc)
    requires Enabled(cfg, s, a) && w in s.procs && w in cfg.rpc && !a.Pop? && !a.LinkNode? && !a.WriteEvent?
    requires IsBusy(s.procs[w]) && a != ParkSelf(w)
    ensures w in Apply(cfg, s, a).procs && IsBusy(Apply(cfg, s, a).procs[w])
  {
    if a.p == w {
      OwnBase(cfg, s, a);
    } else {
      OthersAsTheyWere(cfg, s, a, w);
    }
  }

  lemma OwnBase(cfg: Config, s: State, a: Action)
    requires Enabled(cfg, s, a) && a.p in cfg.rpc && !a.Pop? && !a.LinkNode? && !a.WriteEvent? && !a.ParkSelf?
    requires IsBusy(s.procs[a.p])
    ensures a.p in Apply(cfg, s, a).procs && IsBusy(Apply(cfg, s, a).procs[a.p])
  {
  }

  lemma OthersAsTheyWere(cfg: Config, s: State, a: Action, w: Proc)
    requires Enabled(cfg, s, a) && w in s.procs && w != a.p && !a.Pop? && !a.LinkNode? && !a.WriteEvent?
    ensures w in Apply(cfg, s, a).procs && Apply(cfg, s, a).procs[w] == s.procs[w]
  {
  }

  lemma {:induction false} StaysFinishing(cfg: Config, ss: seq<State>, aa: seq<Action>, i: nat, j: nat, w: Proc)
    requires IsRun(cfg, ss, aa) && cfg.guarded && i < j < |ss| && w in cfg.rpc
    requires aa[i].Pop? && aa[i].p == w
    requires forall k | i < k < j :: aa[k] != ParkSelf(w)
    ensures Finishing(ss[j], w)
  {
    FinishingStep(cfg, ss, aa, j - 1, w);
    if i < j - 1 {
      StaysFinishing(cfg, ss, aa, i, j - 1, w);
    }
  }

  // Every drain of a worker ends after one task: between two tasks of the same worker it
  // has parked.
  lemma OneTaskPerDrain(cfg: Config, ss: seq<State>, aa: seq<Action>, i: nat, j: nat, w: Proc)
    requires IsRun(cfg, ss, aa) && cfg.guarded && i < j < |aa| && w in cfg.rpc
    requires aa[i].Pop? && aa[i].p == w && aa[j].Pop? && aa[j].p == w
    ensures exists k :: i < k < j && aa[k] == ParkSelf(w)
  {
    FinishingStep(cfg, ss, aa, j, w);
    if forall k | i < k < j :: aa[k] != ParkSelf(w) {
      StaysFinishing(cfg, ss, aa, i, j, w);
    }
  }
}
