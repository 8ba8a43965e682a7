/**
 The intrusive circular lists of nginx (`ngx_queue_t`), as the `next` and `prev` fields
 of the nodes of some memory.  The three functions perform the pointer writes of the
 program in the program's order; none of them assumes that the memory is well formed.
 */
module Links {
  import opened Options

  datatype Shape<!N(==)> = Shape(next: map<N, N>, prev: map<N, N>)

  // ngx_rpc_notify_push_task, lines 158-162.
  function Append<N>(s: Shape<N>, h: N, n: N): Shape<N>
    requires h in s.prev
  {
    var p1 := s.prev[n := s.prev[h]];
    var p2 := p1[h := n];
    var n1 := s.next[p2[n] := n];
    Shape(n1[n := h], p2)
  }

  // The pointers that an unlinking follows lead somewhere.
  predicate Poppable<N>(s: Shape<N>, h: N) {
    h in s.prev && (s.prev[h] != h ==> h in s.next && s.next[h] in s.next)
  }

  // The unlinking of ngx_rpc_notify_pop_task, lines 177-186, and of
  // ngx_rpc_queue_push_and_notify, lines 72-78.  `ngx_queue_empty` looks at `prev`.
  function RemoveFirst<N>(s: Shape<N>, h: N): (Shape<N>, Option<N>)
    requires Poppable(s, h)
  {
    if s.prev[h] == h then (s, None)
    else
      var n := s.next[h];
      var n1 := s.next[h := s.next[n]];
      (Shape(n1, s.prev[n1[h] := h]), Some(n))
  }

  // ngx_proc_rpc_process_one_cycle, lines 322-326: park at the front.
  function InsertFirst<N>(s: Shape<N>, h: N, w: N): Shape<N>
    requires h in s.next
  {
    var n1 := s.next[w := s.next[h]];
    var p1 := s.prev[n1[w] := w];
    Shape(n1[h := w], p1[w := h])
  }

  // ngx_queue_init.
  function InitNode<N>(s: Shape<N>, n: N): Shape<N> {
    Shape(s.next[n := n], s.prev[n := n])
  }

  // ---------------------------------------------------------------- well-formed rings

  ghost predicate Distinct<T>(xs: seq<T>) {
    forall i, j | 0 <= i < j < |xs| :: xs[i] != xs[j]
  }

  // The ring walked once, from its head back to its head.
  function Cycle<N>(h: N, xs: seq<N>): seq<N> { [h] + xs + [h] }

  // `a` and `b` are neighbours, in both directions.
  ghost predicate Linked<N>(s: Shape<N>, a: N, b: N) {
    a in s.next && s.next[a] == b && b in s.prev && s.prev[b] == a
  }

  ghost predicate LinkedAt<N>(s: Shape<N>, c: seq<N>, i: nat)
    requires i + 1 < |c|
  {
    Linked(s, c[i], c[i + 1])
  }

  // `xs` are the nodes of the ring at `h`: distinct, without the head, `next` and `prev`
  // inverse along the whole walk, and the walk closed through the head.
  ghost predicate Ring<N>(s: Shape<N>, h: N, xs: seq<N>) {
    && h !in xs && Distinct(xs)
    && forall i: nat | i <= |xs| :: LinkedAt(s, Cycle(h, xs), i)
  }

  // The `prev` test of `ngx_queue_empty` and the `next` test agree on every ring.
  lemma EmptyTests<N>(s: Shape<N>, h: N, xs: seq<N>)
    requires Ring(s, h, xs)
    ensures h in s.next && h in s.prev
    ensures s.prev[h] == h <==> xs == []
    ensures s.next[h] == h <==> xs == []
    ensures xs != [] ==> s.next[h] == xs[0] && s.prev[h] == xs[|xs| - 1]
    ensures Poppable(s, h)
  {
    assert LinkedAt(s, Cycle(h, xs), 0);
    assert LinkedAt(s, Cycle(h, xs), |xs|);
    if xs != [] {
      assert LinkedAt(s, Cycle(h, xs), 1);
    }
  }

  lemma RingNode<N>(s: Shape<N>, h: N, xs: seq<N>, i: nat)
    requires Ring(s, h, xs) && i < |xs|
    ensures Linked(s, xs[i], if i + 1 == |xs| then h else xs[i + 1])
    ensures Linked(s, if i == 0 then h else xs[i - 1], xs[i])
  {
    assert LinkedAt(s, Cycle(h, xs), i) && LinkedAt(s, Cycle(h, xs), i + 1);
  }

  lemma {:induction false} SamePath<N>(s: Shape<N>, h: N, xs: seq<N>, ys: seq<N>, n: nat)
    requires Ring(s, h, xs) && Ring(s, h, ys)
    requires n <= |xs| && n <= |ys|
    ensures xs[..n] == ys[..n]
  {
    if n > 0 {
      SamePath(s, h, xs, ys, n - 1);
      assert xs[..n - 1] == ys[..n - 1];
      if n > 1 {
        assert xs[n - 2] == xs[..n - 1][n - 2] == ys[..n - 1][n - 2] == ys[n - 2];
      }
      assert LinkedAt(s, Cycle(h, xs), n - 1) && LinkedAt(s, Cycle(h, ys), n - 1);
      assert xs[n - 1] == ys[n - 1];
    }
  }

  // A ring has one content.
  lemma RingUnique<N>(s: Shape<N>, h: N, xs: seq<N>, ys: seq<N>)
    requires Ring(s, h, xs) && Ring(s, h, ys)
    ensures xs == ys
  {
    if |xs| < |ys| {
      NotShorter(s, h, xs, ys);
    } else if |ys| < |xs| {
      NotShorter(s, h, ys, xs);
    } else {
      SamePath(s, h, xs, ys, |xs|);
      assert xs == xs[..|xs|] == ys[..|ys|] == ys;
    }
  }

  lemma NotShorter<N>(s: Shape<N>, h: N, xs: seq<N>, ys: seq<N>)
    requires Ring(s, h, xs) && Ring(s, h, ys)
    ensures |xs| >= |ys|
  {
    if |xs| < |ys| {
      SamePath(s, h, xs, ys, |xs|);
      EmptyTests(s, h, xs);
      EmptyTests(s, h, ys);
    }
  }

  // ---------------------------------------------------------------- refinement

  // Pushing a node that is not on the ring appends it.
  lemma AppendRing<N>(s: Shape<N>, h: N, xs: seq<N>, n: N)
    requires Ring(s, h, xs) && h in s.prev
    requires n != h && n !in xs
    ensures Ring(Append(s, h, n), h, xs + [n])
  {
    EmptyTests(s, h, xs);
    var r := Append(s, h, n);
    var c, d := Cycle(h, xs), Cycle(h, xs + [n]);
    forall i: nat | i <= |xs + [n]| ensures LinkedAt(r, d, i) {
      if i < |xs| {
        assert LinkedAt(s, c, i);
        assert d[i] == c[i] && d[i + 1] == c[i + 1];
      }
    }
  }

  lemma RemoveFirstRing<N>(s: Shape<N>, h: N, xs: seq<N>)
    requires Ring(s, h, xs)
    ensures Poppable(s, h)
    ensures xs == [] ==> RemoveFirst(s, h) == (s, None)
    ensures xs != [] ==> RemoveFirst(s, h).1 == Some(xs[0]) && Ring(RemoveFirst(s, h).0, h, xs[1..])
  {
    EmptyTests(s, h, xs);
    if xs != [] {
      var r := RemoveFirst(s, h).0;
      var c, d := Cycle(h, xs), Cycle(h, xs[1..]);
      assert LinkedAt(s, c, 1);
      assert forall i | 1 <= i <= |xs| :: d[i] == c[i + 1];
      forall i: nat | i <= |xs[1..]| ensures LinkedAt(r, d, i) {
        assert LinkedAt(s, c, i + 1);
        assert d[i + 1] == c[i + 2];
        if i > 0 {
          assert d[i] == c[i + 1];
        }
      }
    }
  }

  lemma InsertFirstRing<N>(s: Shape<N>, h: N, xs: seq<N>, w: N)
    requires Ring(s, h, xs) && h in s.next
    requires w != h && w !in xs
    ensures Ring(InsertFirst(s, h, w), h, [w] + xs)
  {
    EmptyTests(s, h, xs);
    var r := InsertFirst(s, h, w);
    var c, d := Cycle(h, xs), Cycle(h, [w] + xs);
    assert forall i | 2 <= i <= |xs| + 2 :: d[i] == c[i - 1];
    forall i: nat | i <= |[w] + xs| ensures LinkedAt(r, d, i) {
      if i >= 2 {
        assert LinkedAt(s, c, i - 1);
        assert d[i] == c[i - 1] && d[i + 1] == c[i];
      }
    }
  }

  // The pointers that the three operations change on a ring; all others stay, those of the node
  // that was removed included.
  lemma AppendPointers<N>(s: Shape<N>, h: N, xs: seq<N>, n: N)
    requires Ring(s, h, xs) && h in s.prev && n != h && n !in xs
    ensures var last := if xs == [] then h else xs[|xs| - 1];
      Append(s, h, n) == Shape(s.next[last := n][n := h], s.prev[n := last][h := n])
  {
    EmptyTests(s, h, xs);
  }

  lemma RemoveFirstPointers<N>(s: Shape<N>, h: N, xs: seq<N>)
    requires Ring(s, h, xs) && xs != [] && Poppable(s, h)
    ensures var second := if |xs| == 1 then h else xs[1];
      RemoveFirst(s, h).0 == Shape(s.next[h := second], s.prev[second := h])
  {
    EmptyTests(s, h, xs);
    RingNode(s, h, xs, 0);
  }

  lemma InsertFirstPointers<N>(s: Shape<N>, h: N, xs: seq<N>, w: N)
    requires Ring(s, h, xs) && h in s.next && w != h && w !in xs
    ensures var first := if xs == [] then h else xs[0];
      InsertFirst(s, h, w) == Shape(s.next[w := first][h := w], s.prev[first := w][w := h])
  {
    EmptyTests(s, h, xs);
  }

  // The nodes of two rings do not meet.
  ghost predicate Apart<N>(h: N, xs: seq<N>, g: N, ys: seq<N>) {
    g != h && g !in xs && h !in ys && forall y | y in ys :: y !in xs
  }

  // An operation on one ring leaves every node off that ring alone, hence every other ring.
  lemma AppendElsewhere<N>(s: Shape<N>, h: N, xs: seq<N>, n: N, g: N, ys: seq<N>)
    requires Ring(s, h, xs) && h in s.prev
    requires Ring(s, g, ys) && Apart(h, xs, g, ys) && n != g && n !in ys
    ensures Ring(Append(s, h, n), g, ys)
  {
    EmptyTests(s, h, xs);
    SameNodes(s, Append(s, h, n), h, xs + [n], g, ys);
  }

  lemma RemoveFirstElsewhere<N>(s: Shape<N>, h: N, xs: seq<N>, g: N, ys: seq<N>)
    requires Ring(s, h, xs) && Poppable(s, h)
    requires Ring(s, g, ys) && Apart(h, xs, g, ys)
    ensures Ring(RemoveFirst(s, h).0, g, ys)
  {
    EmptyTests(s, h, xs);
    if xs != [] {
      RingNode(s, h, xs, 0);
      SameNodes(s, RemoveFirst(s, h).0, h, xs, g, ys);
    }
  }

  lemma SameNodes<N>(s: Shape<N>, r: Shape<N>, h: N, xs: seq<N>, g: N, ys: seq<N>)
    requires Ring(s, g, ys)
    requires forall x | x in s.next && x != h && x !in xs :: x in r.next && r.next[x] == s.next[x]
    requires forall x | x in s.prev && x != h && x !in xs :: x in r.prev && r.prev[x] == s.prev[x]
    requires Apart(h, xs, g, ys)
    ensures Ring(r, g, ys)
  {
    var c := Cycle(g, ys);
    forall i: nat | i <= |ys| ensures LinkedAt(r, c, i) {
      assert LinkedAt(s, c, i);
    }
  }

  // ---------------------------------------------------------------- broken rings

  // From the head the `next` pointers run into a set of nodes that they never leave and
  // that does not hold the head, and the emptiness test fails.
  ghost predicate LassoInto<N>(s: Shape<N>, h: N, trap: set<N>) {
    && h !in trap
    && h in s.next && h in s.prev
    && s.next[h] in trap
    && s.prev[h] != h
    && (forall n {:trigger LeadsInto(s, n, trap)} | n in trap :: LeadsInto(s, n, trap))
  }

  ghost predicate LeadsInto<N>(s: Shape<N>, n: N, trap: set<N>) {
    n in s.next && s.next[n] in trap
  }

  lemma LassoIsNoRing<N>(s: Shape<N>, h: N, trap: set<N>, xs: seq<N>)
    requires LassoInto(s, h, trap)
    ensures !Ring(s, h, xs)
  {
    if Ring(s, h, xs) {
      var c := Cycle(h, xs);
      assert LinkedAt(s, c, 0);
      var i := 1;
      while i <= |xs|
        invariant 1 <= i <= |xs| + 1
        invariant c[i] in trap
      {
        assert LinkedAt(s, c, i) && LeadsInto(s, c[i], trap);
        i := i + 1;
      }
    }
  }

  // Parking a worker that is already on the idle ring, at any position, cuts the head off:
  // the workers from the front of the ring to this one form a circle of their own.
  lemma ParkTwice<N>(s: Shape<N>, h: N, xs: seq<N>, k: nat)
    requires Ring(s, h, xs) && h in s.next && k < |xs|
    ensures LassoInto(InsertFirst(s, h, xs[k]), h, set i | 0 <= i <= k :: xs[i])
  {
    EmptyTests(s, h, xs);
    var r := InsertFirst(s, h, xs[k]);
    var trap := set i | 0 <= i <= k :: xs[i];
    forall n | n in trap ensures LeadsInto(r, n, trap) {
      var i :| 0 <= i <= k && xs[i] == n;
      RingNode(s, h, xs, i);
      if i < k {
        assert r.next[n] == xs[i + 1];
      } else {
        assert r.next[n] == xs[0];
      }
    }
    assert xs[k] in trap;
  }

  // Parking keeps a ring exactly when the worker is not on it yet.
  lemma ParkKeepsRingIff<N>(s: Shape<N>, h: N, xs: seq<N>, w: N)
    requires Ring(s, h, xs) && h in s.next && w != h
    ensures (exists ys :: Ring(InsertFirst(s, h, w), h, ys)) <==> w !in xs
  {
    if w in xs {
      var k :| 0 <= k < |xs| && xs[k] == w;
      ParkTwice(s, h, xs, k);
      forall ys ensures !Ring(InsertFirst(s, h, w), h, ys) {
        LassoIsNoRing(InsertFirst(s, h, w), h, set i | 0 <= i <= k :: xs[i], ys);
      }
    } else {
      InsertFirstRing(s, h, xs, w);
    }
  }

  // Pushing keeps a ring exactly when the task is not on it yet.
  lemma PushKeepsRingIff<N>(s: Shape<N>, h: N, xs: seq<N>, n: N)
    requires Ring(s, h, xs) && h in s.prev && n != h
    ensures (exists ys :: Ring(Append(s, h, n), h, ys)) <==> n !in xs
  {
    if n in xs {
      var k :| 0 <= k < |xs| && xs[k] == n;
      forall ys ensures !Ring(Append(s, h, n), h, ys) {
        PushTwice(s, h, xs, k, ys);
      }
    } else {
      AppendRing(s, h, xs, n);
    }
  }

  lemma PushTwice<N>(s: Shape<N>, h: N, xs: seq<N>, k: nat, ys: seq<N>)
    requires Ring(s, h, xs) && h in s.prev && k < |xs|
    ensures !Ring(Append(s, h, xs[k]), h, ys)
  {
    EmptyTests(s, h, xs);
    var r := Append(s, h, xs[k]);
    if Ring(r, h, ys) {
      EmptyTests(r, h, ys);
      var m, e := |xs| - 1, |ys| - 1;
      // the new walk ends in the pushed node, which now points back to the old last node
      assert LinkedAt(r, Cycle(h, ys), e);
      // but the new walk follows the old one as far as it goes
      FollowsOldWalk(s, h, xs, k, ys, e);
      if e > 0 {
        FollowsOldWalk(s, h, xs, k, ys, e - 1);
      }
    }
  }

  lemma {:induction false} FollowsOldWalk<N>(s: Shape<N>, h: N, xs: seq<N>, k: nat, ys: seq<N>, i: nat)
    requires Ring(s, h, xs) && h in s.prev && k < |xs|
    requires Ring(Append(s, h, xs[k]), h, ys) && i < |ys|
    ensures i <= k && ys[i] == xs[i]
  {
    EmptyTests(s, h, xs);
    var r := Append(s, h, xs[k]);
    if i > 0 {
      FollowsOldWalk(s, h, xs, k, ys, i - 1);
      RingNode(s, h, xs, i - 1);
      RingNode(r, h, ys, i - 1);
      assert ys[i] in ys;
    } else {
      EmptyTests(r, h, ys);
    }
  }
}
