/**
 What reading leaves of the bytes of a task, and what a forward therefore sends: the
 sub-request goes out with req_bufs as its body, and those were read before.
 */
module Forwarding {
  import Codec
  import opened LivesHappen
  import opened Options
  import opened Payload
  import opened Protocol
  import opened ProtocolTheorems

  // ---------------------------------------------------------------- reading uses the bytes up

  // What the parser may leave of what it reads (`Readers.ReadAndGiveBack`): it gives back a part at
  // the end, and a message that is complete ends where the bytes end.
  ghost predicate Leaves(req: Bytes, left: Bytes) {
    && |left| <= |req| && req[|req| - |left|..] == left
    && (Codec.Parse(req).Ended? ==> left == [])
  }

  // What t's request still holds at step i.
  ghost function Unread(cfg: Config, ss: seq<State>, aa: seq<Action>, bs: seq<Bytes>, i: nat, t: Task): Bytes
    requires IsRun(cfg, ss, aa) && |bs| == |aa| && i <= |aa|
  {
    var m := BufsAt(cfg, ss, aa, bs, i);
    if t in m then m[t].req else []
  }

  // The closures parse what they read, and a request that does not parse never gets to its
  // service, so it is not forwarded.
  ghost predicate Parsing(cfg: Config, ss: seq<State>, aa: seq<Action>, bs: seq<Bytes>)
    requires IsRun(cfg, ss, aa) && |bs| == |aa|
  {
    && (forall i: nat, t | i < |aa| && NotesRead(ss, i, t) :: Leaves(Unread(cfg, ss, aa, bs, i, t), bs[i]))
    && (forall i: nat, j: nat, t, p | i < j < |aa| && Notes(ss, i, t, Ran(p)) && NotesForward(ss, j, t) ::
          Codec.Parse(Unread(cfg, ss, aa, bs, i, t)).Ended?)
  }

  // Every result with status 200 that t's continuations read before step i was a complete message.
  ghost predicate ResultsParse(cfg: Config, ss: seq<State>, aa: seq<Action>, bs: seq<Bytes>, i: nat, t: Task)
    requires IsRun(cfg, ss, aa) && |bs| == |aa|
  {
    forall q: nat, p | q < i && q < |aa| && Notes(ss, q, t, Resumed(p, 200)) ::
      Codec.Parse(Unread(cfg, ss, aa, bs, q, t)).Ended?
  }

  ghost predicate NotesRead(ss: seq<State>, i: nat, t: Task) { exists e :: Reads(e) && Notes(ss, i, t, e) }

  ghost predicate NotesForward(ss: seq<State>, i: nat, t: Task) {
    exists p :: Notes(ss, i, t, Event.Forwarded(p))
  }

  // A forward comes directly after a read.
  lemma ReadBeforeForward(cfg: Config, ss: seq<State>, aa: seq<Action>, bs: seq<Bytes>, j: nat, t: Task, p: Proc)
    returns (q: nat)
    requires IsRun(cfg, ss, aa) && |bs| == |aa| && j < |aa| && Notes(ss, j, t, Event.Forwarded(p))
    ensures q < j && TraceOf(ss[j], t) != [] && Notes(ss, q, t, LastEvent(ss[j], t)) && NotesRead(ss, q, t)
    ensures t in BufsAt(cfg, ss, aa, bs, j) && Unread(cfg, ss, aa, bs, j, t) == bs[q]
  {
    q := StepBefore(cfg, ss, aa, bs, j, t, Event.Forwarded(p));
  }

  // A sub-request goes out with the length of the message that was forwarded, and with what the
  // task's last reader has left.
  lemma SubRequestCarries(cfg: Config, ss: seq<State>, aa: seq<Action>, bs: seq<Bytes>, i: nat, t: Task, p: Proc)
    returns (j: nat, q: nat)
    requires IsRun(cfg, ss, aa) && |bs| == |aa| && i < |aa| && Notes(ss, i, t, SubStarted(p))
    ensures TraceOf(ss[i], t) != [] && Notes(ss, j, t, LastEvent(ss[i], t)) && NotesForward(ss, j, t)
    ensures TraceOf(ss[j], t) != [] && Notes(ss, q, t, LastEvent(ss[j], t)) && NotesRead(ss, q, t)
    ensures q < j < i && t in BufsAt(cfg, ss, aa, bs, i)
    ensures SubRequest(BufsAt(cfg, ss, aa, bs, i)[t]) == (|bs[j]|, bs[q])
  {
    j := StepBefore(cfg, ss, aa, bs, i, t, SubStarted(p));
    q := ReadBeforeForward(cfg, ss, aa, bs, j, t, LastEvent(ss[i], t).p);
  }

  // When a sub-request comes back, the read before its forward is the last one.
  lemma ReadBeforeResult(cfg: Config, ss: seq<State>, aa: seq<Action>, bs: seq<Bytes>, d: nat, t: Task, p: Proc,
                         st: Status)
    returns (j: nat, q: nat)
    requires IsRun(cfg, ss, aa) && |bs| == |aa| && d < |aa| && Notes(ss, d, t, SubDone(p, st))
    ensures q < j < d && NotesRead(ss, q, t) && NotesForward(ss, j, t)
    ensures t in BufsAt(cfg, ss, aa, bs, d) && Unread(cfg, ss, aa, bs, d, t) == bs[q]
  {
    var i := StepBefore(cfg, ss, aa, bs, d, t, SubDone(p, st));
    j, q := SubRequestCarries(cfg, ss, aa, bs, i, t, LastEvent(ss[d], t).p);
  }

  // Its continuation reads the result of the sub-request if that ended with 200; otherwise it
  // reads what the reader before the forward has left.
  lemma ContinuationReads(cfg: Config, ss: seq<State>, aa: seq<Action>, bs: seq<Bytes>, i: nat, t: Task,
                          p: Proc, st: Status)
    returns (d: nat, j: nat, q: nat)
    requires IsRun(cfg, ss, aa) && |bs| == |aa| && i < |aa| && Notes(ss, i, t, Resumed(p, st))
    ensures TraceOf(ss[i], t) != [] && LastEvent(ss[i], t).SubDone? && LastEvent(ss[i], t).st == st
    ensures q < j < d < i && Notes(ss, d, t, LastEvent(ss[i], t)) && NotesForward(ss, j, t) && NotesRead(ss, q, t)
    ensures t in BufsAt(cfg, ss, aa, bs, i)
    ensures Unread(cfg, ss, aa, bs, i, t) == if st == 200 then bs[d] else bs[q]
  {
    d := StepBefore(cfg, ss, aa, bs, i, t, Resumed(p, st));
    j, q := ReadBeforeResult(cfg, ss, aa, bs, d, t, LastEvent(ss[i], t).p, st);
  }

  // A read before a forward uses up all that it finds, unless it is a result that does not parse.
  lemma {:induction false} ReadUsesUp(cfg: Config, ss: seq<State>, aa: seq<Action>, bs: seq<Bytes>, q: nat, j: nat,
                                      t: Task)
    requires IsRun(cfg, ss, aa) && |bs| == |aa| && q < j < |aa| && Parsing(cfg, ss, aa, bs)
    requires NotesRead(ss, q, t) && NotesForward(ss, j, t)
    requires ResultsParse(cfg, ss, aa, bs, j, t)
    ensures bs[q] == []
  {
    var e :| Reads(e) && Notes(ss, q, t, e);
    if e.Resumed? && e.st != HTTP_OK {
      var _, j1, q1 := ContinuationReads(cfg, ss, aa, bs, q, t, e.p, e.st);
      ReadUsesUp(cfg, ss, aa, bs, q1, j1, t);
    }
    assert Codec.Parse(Unread(cfg, ss, aa, bs, q, t)).Ended?;
  }

  // So a sub-request goes out with no body at all, under the length of the message that was
  // forwarded: it carries the message exactly if that is empty.
  lemma SubRequestIsEmpty(cfg: Config, ss: seq<State>, aa: seq<Action>, bs: seq<Bytes>, i: nat, t: Task, p: Proc)
    returns (j: nat)
    requires IsRun(cfg, ss, aa) && |bs| == |aa| && i < |aa| && Notes(ss, i, t, SubStarted(p))
    requires Parsing(cfg, ss, aa, bs) && ResultsParse(cfg, ss, aa, bs, i, t)
    ensures TraceOf(ss[i], t) != [] && Notes(ss, j, t, LastEvent(ss[i], t)) && NotesForward(ss, j, t)
    ensures j < i && t in BufsAt(cfg, ss, aa, bs, i)
    ensures SubRequest(BufsAt(cfg, ss, aa, bs, i)[t]) == (|bs[j]|, [])
    ensures SubRequest(BufsAt(cfg, ss, aa, bs, i)[t]) == (|bs[j]|, bs[j]) <==> bs[j] == []
  {
    var q;
    j, q := SubRequestCarries(cfg, ss, aa, bs, i, t, p);
    ReadUsesUp(cfg, ss, aa, bs, q, j, t);
  }

  // And a continuation reads the result of its sub-request after a 200, and otherwise nothing.
  lemma ContinuationReadsResult(cfg: Config, ss: seq<State>, aa: seq<Action>, bs: seq<Bytes>, i: nat, t: Task,
                                p: Proc, st: Status)
    returns (d: nat)
    requires IsRun(cfg, ss, aa) && |bs| == |aa| && i < |aa| && Notes(ss, i, t, Resumed(p, st))
    requires Parsing(cfg, ss, aa, bs) && ResultsParse(cfg, ss, aa, bs, i, t)
    ensures TraceOf(ss[i], t) != [] && LastEvent(ss[i], t).SubDone? && LastEvent(ss[i], t).st == st
    ensures d < i && Notes(ss, d, t, LastEvent(ss[i], t)) && t in BufsAt(cfg, ss, aa, bs, i)
    ensures Unread(cfg, ss, aa, bs, i, t) == if st == 200 then bs[d] else []
  {
    var j, q;
    d, j, q := ContinuationReads(cfg, ss, aa, bs, i, t, p, st);
    ReadUsesUp(cfg, ss, aa, bs, q, j, t);
  }

  // ---------------------------------------------------------------- the forwarded message is not sent

  lemma EventOfAction(cfg: Config, s: State, a: Action, t: Task)
    requires Enabled(cfg, s, a) && t in s.tasks && EventFor(cfg, s, a, t).Some?
    ensures !a.Submit? && var e := EventFor(cfg, s, a, t).value; !e.Submitted? && (a.Forward? <==> e.Forwarded?)
  {
  }

  // Only submissions note a submission, and only forwards a forward.
  lemma ActionNotes(cfg: Config, ss: seq<State>, aa: seq<Action>, i: nat, t: Task, e: Event)
    requires IsRun(cfg, ss, aa) && i < |aa| && Notes(ss, i, t, e)
    ensures (aa[i].Submit? <==> e.Submitted?) && (aa[i].Forward? <==> e.Forwarded?)
  {
    assert StepAt(cfg, ss, aa, i);
    NoFault(cfg, ss, aa, i + 1);
    if t in ss[i].tasks {
      var o := EventFor(cfg, ss[i], aa[i], t);
      assert With(TraceOf(ss[i], t), o) == TraceOf(ss[i], t) + [e] by {
        TraceOfStep(cfg, ss[i], aa[i], t);
      }
      assert o == Some(e) by {
        assert With(TraceOf(ss[i], t), o)[|TraceOf(ss[i], t)|] == e;
      }
      EventOfAction(cfg, ss[i], aa[i], t);
    } else {
      NewTask(cfg, ss[i], aa[i], t);
      assert TraceOf(ss[i + 1], t)[0] == e;
    }
  }

  // Every request has body a, every forwarded message is b, and all else leaves nothing.
  function TwoMessages(aa: seq<Action>, a: Bytes, b: Bytes): (bs: seq<Bytes>) {
    seq(|aa|, i requires 0 <= i < |aa| => if aa[i].Submit? then a else if aa[i].Forward? then b else [])
  }

  lemma TwoMessagesParse(cfg: Config, ss: seq<State>, aa: seq<Action>, a: Bytes, b: Bytes)
    requires IsRun(cfg, ss, aa) && Codec.Parse(a).Ended?
    ensures Parsing(cfg, ss, aa, TwoMessages(aa, a, b))
  {
    var bs := TwoMessages(aa, a, b);
    forall i: nat, t | i < |aa| && NotesRead(ss, i, t) ensures Leaves(Unread(cfg, ss, aa, bs, i, t), bs[i]) {
      var e :| Reads(e) && Notes(ss, i, t, e);
      ActionNotes(cfg, ss, aa, i, t, e);
    }
    forall i: nat, j: nat, t, p | i < j < |aa| && Notes(ss, i, t, Ran(p)) && NotesForward(ss, j, t)
      ensures Codec.Parse(Unread(cfg, ss, aa, bs, i, t)).Ended? {
      var k := ServiceReads(cfg, ss, aa, bs, i, t, p);
      ActionNotes(cfg, ss, aa, k, t, LastEvent(ss[i], t));
    }
  }

  // A run in which a service that got a request with body a forwards message b, and the
  // sub-request goes out with length |b| and no body.
  ghost predicate SendsNothing(x: Cast, ss: seq<State>, aa: seq<Action>, bs: seq<Bytes>, k: nat, j: nat, i: nat,
                               a: Bytes, b: Bytes) {
    && IsRun(x.Config(), ss, aa) && |bs| == |aa| && k < j < i < |aa| && Parsing(x.Config(), ss, aa, bs)
    && Notes(ss, k, x.t, Ran(x.w)) && Unread(x.Config(), ss, aa, bs, k, x.t) == a
    && Notes(ss, j, x.t, Event.Forwarded(x.w)) && bs[j] == b
    && Notes(ss, i, x.t, SubStarted(x.h))
    && var m := BufsAt(x.Config(), ss, aa, bs, i); x.t in m && SubRequest(m[x.t]) == (|b|, [])
  }

  // There is such a run for any complete request and any message, also for a service that
  // forwards a copy of its request.
  lemma ForwardSendsNothing(x: Cast, a: Bytes, b: Bytes)
    requires x.Valid() && Codec.Parse(a).Ended?
    ensures exists ss, aa, bs, k, j, i :: SendsNothing(x, ss, aa, bs, k, j, i, a, b)
  {
    EveryLifeHappens(x, [HTTP_OK], HTTP_OK);
    var ss: seq<State>, aa: seq<Action> :| Lives(x, ss, aa, [HTTP_OK], HTTP_OK);
    var bs := TwoMessages(aa, a, b);
    TwoMessagesParse(x.Config(), ss, aa, a, b);
    FirstForward(x, ss, aa);
    var i := StepOf(x.Config(), ss, aa, bs, |aa|, x.t, 3);
    var j, k := SubRequestCarries(x.Config(), ss, aa, bs, i, x.t, x.h);
    ActionNotes(x.Config(), ss, aa, j, x.t, LastEvent(ss[i], x.t));
    FirstRead(x.Config(), ss, aa, i, j, x);
    var l := ServiceReads(x.Config(), ss, aa, bs, k, x.t, x.w);
    ActionNotes(x.Config(), ss, aa, l, x.t, LastEvent(ss[k], x.t));
    ActionNotes(x.Config(), ss, aa, k, x.t, Ran(x.w));
    assert SendsNothing(x, ss, aa, bs, k, j, i, a, b);
  }

  // The read before the first forward is the service's own.
  lemma FirstRead(cfg: Config, ss: seq<State>, aa: seq<Action>, i: nat, j: nat, x: Cast)
    requires IsRun(cfg, ss, aa) && j < i < |aa|
    requires TraceOf(ss[i], x.t) == [Submitted(x.h), Ran(x.w), Event.Forwarded(x.w)]
    requires Notes(ss, j, x.t, LastEvent(ss[i], x.t)) && TraceOf(ss[j], x.t) != []
    ensures LastEvent(ss[j], x.t) == Ran(x.w)
  {
    TraceGrows(cfg, ss, aa, j + 1, i, x.t);
    assert TraceOf(ss[i], x.t)[|TraceOf(ss[j], x.t)|].Forwarded?;
    assert TraceOf(ss[j], x.t) == TraceOf(ss[i], x.t)[..2];
  }

  lemma FirstForward(x: Cast, ss: seq<State>, aa: seq<Action>)
    requires Lives(x, ss, aa, [HTTP_OK], HTTP_OK)
    ensures var tr := TraceOf(ss[|aa|], x.t);
      |tr| > 3 && tr[..3] == [Submitted(x.h), Ran(x.w), Event.Forwarded(x.w)] && tr[3] == SubStarted(x.h)
  {
    var one := [HTTP_OK];
    assert one[..0] == [] && ProtocolTheorems.Rounds(x.h, x.w, []) == [];
    assert ProtocolTheorems.Rounds(x.h, x.w, one) == [] + Round(x.h, x.w, HTTP_OK);
  }
}
