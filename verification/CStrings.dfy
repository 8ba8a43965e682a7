// Strings as C reads them, up to the first NUL, and as nginx lower-cases them.
module CStrings {
  const NUL: char := '\0'

  function CString(buf: string): string {
    if buf == "" || buf[0] == NUL then "" else [buf[0]] + CString(buf[1..])
  }

  lemma {:induction false} CStringIs(s: string, rest: string)
    requires NUL !in s && (rest == "" || rest[0] == NUL)
    ensures CString(s + rest) == s
  {
    if s == "" {
      assert s + rest == rest;
    } else {
      assert (s + rest)[1..] == s[1..] + rest;
      CStringIs(s[1..], rest);
    }
  }

  lemma {:induction false} CStringPrefix(buf: string)
    ensures CString(buf) <= buf && NUL !in CString(buf)
    ensures |CString(buf)| < |buf| ==> buf[|CString(buf)|] == NUL
  {
    if buf != "" && buf[0] != NUL {
      CStringPrefix(buf[1..]);
    }
  }

  // The string ends before the first zero byte.
  lemma CStringEnds(s: string, rest: string)
    requires '\0' !in s
    ensures CString(s + "\0" + rest) == s && CString(s) == s
  {
    assert s + "\0" + rest == s + ("\0" + rest);
    CStringIs(s, "\0" + rest);
    assert s + "" == s;
    CStringIs(s, "");
  }

  // ngx_tolower
  function Lower(c: char): char { if 'A' <= c <= 'Z' then c + ' ' else c }

  // The same character, or the same letter of the Latin alphabet, whose two cases are 32 apart.
  predicate SameButCase(c: char, d: char) {
    || c == d
    || ('A' <= c <= 'Z' && d as int == c as int + 32)
    || ('A' <= d <= 'Z' && c as int == d as int + 32)
  }

  lemma LowerLetters(i: nat, c: char)
    ensures i < 26 ==> Lower((65 + i) as char) == Lower((97 + i) as char) == (97 + i) as char
    ensures !(65 <= c as int < 91) ==> Lower(c) == c
  {
  }

  lemma LowerSame(c: char, d: char)
    ensures Lower(c) == Lower(d) <==> SameButCase(c, d)
  {
  }

  ghost predicate SameTextButCase(a: string, b: string) {
    |a| == |b| && forall i :: 0 <= i < |a| ==> SameButCase(a[i], b[i])
  }

  lemma LowerAllSame(a: string, b: string)
    ensures LowerAll(a) == LowerAll(b) <==> SameTextButCase(a, b)
  {
    if LowerAll(a) == LowerAll(b) {
      forall i | 0 <= i < |a| ensures SameButCase(a[i], b[i]) {
        assert LowerAll(a)[i] == LowerAll(b)[i];
        LowerSame(a[i], b[i]);
      }
    } else if SameTextButCase(a, b) {
      forall i | 0 <= i < |a| ensures LowerAll(a)[i] == LowerAll(b)[i] {
        LowerSame(a[i], b[i]);
      }
    }
  }

  function LowerAll(s: string): (r: string)
    ensures |r| == |s| && forall i :: 0 <= i < |s| ==> r[i] == Lower(s[i])
  {
    seq(|s|, i requires 0 <= i < |s| => Lower(s[i]))
  }
}
