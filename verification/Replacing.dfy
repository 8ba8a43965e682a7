/**
 Replace of the code generator (ngx_rpc_generator.cpp): the loop that edits a string in place,
 and what it computes: cut the string at the leftmost non-overlapping occurrences, and join
 the pieces with the replacement.
 */
module Replacing {
  import opened Options

  // ---------------------------------------------------------------- finding

  predicate At(s: string, q: string, i: nat) { i + |q| <= |s| && s[i..i + |q|] == q }

  // The first occurrence of q in s at or behind i.
  function Find(s: string, q: string, i: nat): (r: Option<nat>)
    ensures r.Some? ==> i <= r.value && r.value + |q| <= |s|
    decreases |s| - i
  {
    if i > |s| then None else if At(s, q, i) then Some(i) else Find(s, q, i + 1)
  }

  lemma {:induction false} FindIsFirst(s: string, q: string, i: nat)
    ensures match Find(s, q, i)
      case Some(at) => At(s, q, at) && forall j :: i <= j < at ==> !At(s, q, j)
      case None => forall j: nat :: i <= j ==> !At(s, q, j)
    decreases |s| - i
  {
    if i <= |s| && !At(s, q, i) {
      FindIsFirst(s, q, i + 1);
    }
  }

  // std::string::find
  method FindFrom(s: string, q: string, pos: nat) returns (r: Option<nat>)
    ensures r == Find(s, q, pos)
  {
    var i := pos;
    while i + |q| <= |s|
      invariant pos <= i && Find(s, q, pos) == Find(s, q, i)
      decreases |s| - i
    {
      if s[i..i + |q|] == q {
        return Some(i);
      }
      i := i + 1;
    }
    return None;
  }

  // ---------------------------------------------------------------- splitting and joining

  function Split(s: string, q: string): (parts: seq<string>)
    requires q != ""
    ensures parts != []
    decreases |s|
  {
    match Find(s, q, 0)
    case None => [s]
    case Some(i) => [s[..i]] + Split(s[i + |q|..], q)
  }

  function Join(parts: seq<string>, r: string): string
    requires parts != []
  {
    if |parts| == 1 then parts[0] else parts[0] + r + Join(parts[1..], r)
  }

  function Replaced(s: string, q: string, r: string): string
    requires q != ""
    decreases |s|
  {
    match Find(s, q, 0)
    case None => s
    case Some(i) => s[..i] + r + Replaced(s[i + |q|..], q, r)
  }

  lemma {:induction false} ReplacedIsJoin(s: string, q: string, r: string)
    requires q != ""
    ensures Replaced(s, q, r) == Join(Split(s, q), r)
    decreases |s|
  {
    if Find(s, q, 0).Some? {
      var i := Find(s, q, 0).value;
      ReplacedIsJoin(s[i + |q|..], q, r);
      assert Split(s, q)[1..] == Split(s[i + |q|..], q);
    }
  }

  lemma AtBehind(a: string, s: string, q: string, i: nat)
    ensures At(a + s, q, |a| + i) <==> At(s, q, i)
  {
    if i + |q| <= |s| {
      assert (a + s)[|a| + i..|a| + i + |q|] == s[i..i + |q|];
    }
  }

  function Shift(r: Option<nat>, n: nat): Option<nat> { if r.None? then None else Some(r.value + n) }

  lemma {:induction false} FindBehind(a: string, s: string, q: string, i: nat)
    ensures Find(a + s, q, |a| + i) == Shift(Find(s, q, i), |a|)
    decreases |s| - i
  {
    AtBehind(a, s, q, i);
    if i <= |s| && !At(s, q, i) {
      FindBehind(a, s, q, i + 1);
    }
  }

  // subject.replace(at, |q|, r)
  lemma Edited(done: string, rest: string, i: nat, q: string, r: string)
    requires i + |q| <= |rest|
    ensures var s, at := done + rest, |done| + i;
      s[..at] + r + s[at + |q|..] == (done + (rest[..i] + r)) + rest[i + |q|..]
  {
    var s, at := done + rest, |done| + i;
    assert s[..at] == done + rest[..i] && s[at + |q|..] == rest[i + |q|..];
  }

  lemma Associative(a: string, b: string, c: string)
    ensures a + (b + c) == (a + b) + c
  {
  }

  lemma Total(done: string, rest: string, i: nat, q: string, r: string)
    requires q != "" && Find(rest, q, 0) == Some(i)
    ensures done + Replaced(rest, q, r) == (done + (rest[..i] + r)) + Replaced(rest[i + |q|..], q, r)
  {
    Associative(done, rest[..i] + r, Replaced(rest[i + |q|..], q, r));
  }

  // What is done in the subject, what is still to be searched, and what will come out.
  ghost predicate Editing(subject: string, pos: nat, done: string, rest: string, total: string, q: string, r: string)
    requires q != ""
  {
    subject == done + rest && pos == |done| && total == done + Replaced(rest, q, r)
  }

  lemma Turn(subject: string, pos: nat, done: string, rest: string, total: string, q: string, r: string,
             at: nat, next: string)
    returns (done2: string, rest2: string)
    requires q != "" && Editing(subject, pos, done, rest, total, q, r) && Find(subject, q, pos) == Some(at)
    requires next == subject[..at] + r + subject[at + |q|..]
    ensures Editing(next, at + |r|, done2, rest2, total, q, r) && |rest2| < |rest|
  {
    FindBehind(done, rest, q, 0);
    var i := at - pos;
    Edited(done, rest, i, q, r);
    Total(done, rest, i, q, r);
    done2, rest2 := done + (rest[..i] + r), rest[i + |q|..];
  }

  // The loop replaces in place and goes on behind what it put in, so a replacement is never
  // looked at again.  With an empty search string it would not end.
  method Replace(input: string, search: string, replace: string) returns (subject: string)
    requires search != ""
    ensures subject == Join(Split(input, search), replace)
  {
    subject := input;
    var pos: nat := 0;
    ghost var total, done, rest := Replaced(input, search, replace), "", input;
    while true
      invariant Editing(subject, pos, done, rest, total, search, replace)
      decreases |rest|
    {
      var found := FindFrom(subject, search, pos);
      if found.None? {
        FindBehind(done, rest, search, 0);
        ReplacedIsJoin(input, search, replace);
        return;
      }
      var at := found.value;
      var next := subject[..at] + replace + subject[at + |search|..];
      done, rest := Turn(subject, pos, done, rest, total, search, replace, at, next);
      subject, pos := next, at + |replace|;
    }
  }

  // ---------------------------------------------------------------- what splitting means

  // The pieces, joined with what was searched, are the string, and none holds an occurrence.
  lemma {:induction false} SplitPieces(s: string, q: string)
    requires q != ""
    ensures Join(Split(s, q), q) == s && forall p | p in Split(s, q) :: Find(p, q, 0).None?
    decreases |s|
  {
    FindIsFirst(s, q, 0);
    if Find(s, q, 0).Some? {
      var i := Find(s, q, 0).value;
      var front, back := s[..i], s[i + |q|..];
      SplitPieces(back, q);
      assert Split(s, q)[1..] == Split(back, q);
      assert s == front + q + back;
      NoEarlier(s, q, i);
    }
  }

  lemma NoEarlier(s: string, q: string, i: nat)
    requires q != "" && i <= |s| && forall j :: 0 <= j < i ==> !At(s, q, j)
    ensures Find(s[..i], q, 0).None?
  {
    FindIsFirst(s[..i], q, 0);
    match Find(s[..i], q, 0)
    case None =>
    case Some(at) =>
      assert s[..i][at..at + |q|] == s[at..at + |q|];
      assert At(s, q, at);
  }

  // Character by character, q stands at i.
  ghost predicate Occurs(s: string, q: string, i: nat) {
    i + |q| <= |s| && forall k :: 0 <= k < |q| ==> s[i + k] == q[k]
  }

  lemma AtIsOccurs(s: string, q: string, i: nat)
    ensures At(s, q, i) <==> Occurs(s, q, i)
  {
    if At(s, q, i) {
      forall k | 0 <= k < |q| ensures s[i + k] == q[k] {
        assert s[i..i + |q|][k] == q[k];
      }
    }
  }

  lemma FindIsLeftmost(s: string, q: string)
    ensures match Find(s, q, 0)
      case Some(i) => Occurs(s, q, i) && forall j: nat :: Occurs(s, q, j) ==> i <= j
      case None => forall j: nat :: !Occurs(s, q, j)
  {
    FindIsFirst(s, q, 0);
    forall j: nat ensures At(s, q, j) <==> Occurs(s, q, j) {
      AtIsOccurs(s, q, j);
    }
  }

  // The cut is at the leftmost occurrence, and what is behind it is cut in the same way.
  lemma SplitLeftmost(s: string, q: string)
    requires q != ""
    ensures var parts := Split(s, q);
      if |parts| == 1 then parts[0] == s && forall j: nat :: !Occurs(s, q, j)
      else
        && Occurs(s, q, |parts[0]|) && (forall j: nat :: Occurs(s, q, j) ==> |parts[0]| <= j)
        && parts[0] == s[..|parts[0]|] && parts[1..] == Split(s[|parts[0]| + |q|..], q)
  {
    FindIsLeftmost(s, q);
  }

  // Each replaced occurrence changes the length by the difference of the two lengths.
  lemma {:induction false} LengthOfReplaced(s: string, q: string, r: string)
    requires q != ""
    ensures |Replaced(s, q, r)| == |s| + (|Split(s, q)| - 1) * (|r| - |q|)
    decreases |s|
  {
    if Find(s, q, 0).Some? {
      var i := Find(s, q, 0).value;
      var back := s[i + |q|..];
      LengthOfReplaced(back, q, r);
      assert |Replaced(s, q, r)| == i + |r| + |Replaced(back, q, r)|;
      OneMore(|Split(back, q)|, |r| - |q|);
    }
  }

  lemma OneMore(n: nat, d: int)
    ensures n * d == (n - 1) * d + d
  {
  }

  // ---------------------------------------------------------------- single characters

  lemma {:induction false} FindChar(s: string, c: char, i: nat)
    ensures match Find(s, [c], i)
      case Some(at) => s[at] == c && forall j :: i <= j < at ==> s[j] != c
      case None => forall j :: i <= j < |s| ==> s[j] != c
    decreases |s| - i
  {
    if i < |s| && s[i..i + 1] != [c] {
      FindChar(s, c, i + 1);
    }
  }

  // Replacing one character by another changes it wherever it stands, and nothing else.
  lemma {:induction false} CharReplaced(s: string, c: char, d: char)
    ensures |Replaced(s, [c], [d])| == |s|
    ensures forall i :: 0 <= i < |s| ==> Replaced(s, [c], [d])[i] == if s[i] == c then d else s[i]
    decreases |s|
  {
    FindChar(s, c, 0);
    match Find(s, [c], 0)
    case None =>
    case Some(i) => CharReplaced(s[i + 1..], c, d);
  }

  // The reverse replacement undoes it exactly for strings without the new character.
  lemma CharUndone(s: string, c: char, d: char)
    requires c != d
    ensures Replaced(Replaced(s, [c], [d]), [d], [c]) == s <==> d !in s
  {
    var t := Replaced(s, [c], [d]);
    CharReplaced(s, c, d);
    CharReplaced(t, d, c);
  }

  // Splitting undoes joining when the pieces do not hold the character.
  lemma {:induction false} SplitOfJoin(parts: seq<string>, c: char)
    requires parts != [] && forall p | p in parts :: c !in p
    ensures Split(Join(parts, [c]), [c]) == parts
    decreases |parts|
  {
    var s := Join(parts, [c]);
    FindChar(s, c, 0);
    assert parts[0] in parts;
    if |parts| == 1 {
      assert parts == [s] && c !in s;
    } else {
      var tail := Join(parts[1..], [c]);
      FirstPiece(parts[0], c, tail, s);
      SplitOfJoin(parts[1..], c);
      assert [parts[0]] + parts[1..] == parts;
    }
  }

  lemma FirstPiece(first: string, c: char, tail: string, s: string)
    requires s == first + [c] + tail && c !in first
    ensures s[|first|] == c && forall j :: 0 <= j < |first| ==> s[j] != c
    ensures s[..|first|] == first && s[|first| + 1..] == tail
  {
    forall j | 0 <= j < |first| ensures s[j] != c {
      assert s[j] == first[j] && first[j] in first;
    }
  }

  lemma {:induction false} PiecesHoldOnly(s: string, p: string, c: char)
    requires c !in s && p in Split(s, ".")
    ensures c !in p
    decreases |s|
  {
    match Find(s, ".", 0)
    case None =>
    case Some(i) =>
      if p != s[..i] {
        PiecesHoldOnly(s[i + 1..], p, c);
      }
  }
}
