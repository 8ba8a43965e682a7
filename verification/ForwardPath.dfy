/**
 The path of a sub-request in the shared task (ngx_rpc_channel.cpp writes it with strncpy over
 exactly its length, ngx_http_rpc.c reads it with strlen).  No NUL is written behind it, so
 what is read depends on the paths the task was forwarded to before.
 */
module ForwardPath {
  import opened CStrings

  const MAX_PATH_NAME: nat := 128

  // strncpy(path, p, |p|)
  function Overlay(buf: string, p: string): string
    requires |p| <= |buf|
  {
    p + buf[|p|..]
  }

  // A path that strlen can find the end of.
  ghost predicate PathOk(p: string) { '\0' !in p && |p| < 128 }

  // A buffer with a NUL in it, and nothing but NUL behind the string.
  ghost predicate Clean(buf: string) {
    |buf| == MAX_PATH_NAME && |CString(buf)| < MAX_PATH_NAME
    && forall i :: |CString(buf)| <= i < MAX_PATH_NAME ==> buf[i] == NUL
  }

  lemma OverlayStep(buf: string, p: string, i: nat)
    requires i < |p| <= |buf|
    ensures Overlay(buf, p[..i])[i := p[i]] == Overlay(buf, p[..i + 1])
  {
  }

  method SetPath(path: array<char>, p: string)
    requires |p| <= path.Length
    modifies path
    ensures path[..] == Overlay(old(path[..]), p)
  {
    ghost var buf := path[..];
    for i := 0 to |p|
      invariant path[..] == Overlay(buf, p[..i])
    {
      OverlayStep(buf, p, i);
      path[i] := p[i];
    }
    assert p[..|p|] == p;
  }

  // What is read is the new path and behind it the end of a longer old one.
  lemma ReadAfter(buf: string, p: string)
    requires Clean(buf) && PathOk(p)
    ensures Clean(Overlay(buf, p))
    ensures CString(Overlay(buf, p)) == if |p| >= |CString(buf)| then p else p + CString(buf)[|p|..]
  {
    var old_ := CString(buf);
    CStringPrefix(buf);
    var n := if |p| >= |old_| then |p| else |old_|;
    var seen := if |p| >= |old_| then p else p + old_[|p|..];
    assert Overlay(buf, p) == seen + buf[n..];
    CStringIs(seen, buf[n..]);
  }

  // The buffer after a task, made with a zeroed path, was forwarded to the paths in order.
  ghost function Buffer(paths: seq<string>): (buf: string)
    requires forall p | p in paths :: PathOk(p)
    ensures Clean(buf)
    decreases |paths|
  {
    if paths == [] then
      var zero := seq(MAX_PATH_NAME, _ => NUL);
      assert CString(zero) == "";
      zero
    else
      var before := Buffer(paths[..|paths| - 1]);
      ReadAfter(before, paths[|paths| - 1]);
      Overlay(before, paths[|paths| - 1])
  }

  // The length of the longest path.
  function Longest(paths: seq<string>): (n: nat)
    ensures forall p | p in paths :: |p| <= n
    ensures if paths == [] then n == 0 else exists p :: p in paths && |p| == n
  {
    if paths == [] then 0
    else
      var before, last := Longest(paths[..|paths| - 1]), paths[|paths| - 1];
      assert paths == paths[..|paths| - 1] + [last];
      if |last| > before then |last| else before
  }

  lemma {:induction false} LengthIsLongest(paths: seq<string>)
    requires forall p | p in paths :: PathOk(p)
    ensures |CString(Buffer(paths))| == Longest(paths)
    decreases |paths|
  {
    if paths != [] {
      var before, last := paths[..|paths| - 1], paths[|paths| - 1];
      LengthIsLongest(before);
      ReadAfter(Buffer(before), last);
    }
  }

  // A sub-request goes to the path that was asked for exactly if no path before was longer.
  lemma ForwardedRightIff(paths: seq<string>, last: string)
    requires (forall p | p in paths :: PathOk(p)) && PathOk(last)
    ensures CString(Buffer(paths + [last])) == last <==> forall p | p in paths :: |p| <= |last|
  {
    assert (paths + [last])[..|paths|] == paths;
    LengthIsLongest(paths);
    ReadAfter(Buffer(paths), last);
  }

  // The buffer holds 128 bytes; a path of that many has no end in it.
  lemma RoomForPath(paths: seq<string>, p: string)
    requires forall q | q in paths :: PathOk(q)
    ensures |Buffer(paths)| == 128
    ensures |p| == 128 ==> Overlay(Buffer(paths), p) == p
  {
  }

  // After "/ab" a forward to "/a" goes to "/ab" again.
  lemma StaleEnd()
    ensures CString(Buffer(["/ab", "/a"])) == "/ab"
  {
    assert ["/ab", "/a"][..1] == ["/ab"] && ["/ab"][..0] == [];
    ReadAfter(Buffer([]), "/ab");
    ReadAfter(Buffer(["/ab"]), "/a");
  }
}
