/**
 The namespace lines of a generated server header (ngx_rpc_server_template.h, with
 $PROTO_NAMESPACE$ as ngx_rpc_generator.cpp sets it before the opening and the closing line).
 */
module Namespaces {
  import opened Options
  import opened Replacing

  const OPEN_SEP: string := " {\nnamespace "
  const CLOSE_SEP: string := " \n} //for "

  // "namespace $PROTO_NAMESPACE$ {"
  function Opening(pkg: string): string { "namespace " + Replaced(pkg, ".", OPEN_SEP) + " {" }

  // "} // for $PROTO_NAMESPACE$"
  function Closing(pkg: string): string { "} // for " + Replaced(pkg, ".", CLOSE_SEP) }

  function Dots(s: string): nat { if s == "" then 0 else (if s[0] == '.' then 1 else 0) + Dots(s[1..]) }

  // A package holds only identifiers and dots.
  ghost predicate PackageOk(pkg: string) {
    forall c | c in pkg :: c !in {' ', '\n', '{', '}', '/'}
  }

  // ---------------------------------------------------------------- reading namespaces

  // The names opened by a text that consists of lines "namespace N {", in order.
  function ReadOpened(t: string): Option<seq<string>> {
    if !("namespace " <= t) then None
    else
      var rest := t[10..];
      match Find(rest, " ", 0)
      case None => None
      case Some(i) =>
        if rest[i..] == " {" then Some([rest[..i]])
        else if " {\n" <= rest[i..] then
          match ReadOpened(rest[i + 3..])
          case None => None
          case Some(names) => Some([rest[..i]] + names)
        else None
  }

  lemma NameEnds(name: string, more: string)
    requires ' ' !in name && more != "" && more[0] == ' '
    ensures Find(name + more, " ", 0) == Some(|name|)
  {
    var t := name + more;
    FindChar(t, ' ', 0);
    assert t[|name|] == ' ' && forall j :: 0 <= j < |name| ==> t[j] == name[j];
  }

  lemma ReadLast(name: string)
    requires ' ' !in name
    ensures ReadOpened("namespace " + (name + " {")) == Some([name])
  {
    NameEnds(name, " {");
    var rest := name + " {";
    assert ("namespace " + rest)[10..] == rest && rest[|name|..] == " {" && rest[..|name|] == name;
  }

  lemma Behind(a: string, b: string)
    ensures a <= a + b && (a + b)[|a|..] == b && (a + b)[..|a|] == a
  {
  }

  lemma ReadOne(name: string, more: string, next: string)
    requires ' ' !in name && |more| > 2 && " {\n" <= more && more[3..] == next && ReadOpened(next).Some?
    ensures ReadOpened("namespace " + (name + more)) == Some([name] + ReadOpened(next).value)
  {
    var rest := name + more;
    NameEnds(name, more);
    Behind("namespace ", rest);
    Behind(name, more);
    assert rest[|name| + 3..] == next;
  }

  // The opening text of some pieces.
  function OpenText(parts: seq<string>): string
    requires parts != []
  {
    "namespace " + Join(parts, OPEN_SEP) + " {"
  }

  lemma OpenTextStep(parts: seq<string>)
    requires |parts| > 1
    ensures OpenText(parts) == "namespace " + (parts[0] + (" {\n" + OpenText(parts[1..])))
  {
    var tail := Join(parts[1..], OPEN_SEP);
    assert Join(parts, OPEN_SEP) == parts[0] + OPEN_SEP + tail;
    assert OPEN_SEP == " {\n" + "namespace ";
  }

  lemma {:induction false} ReadBack(parts: seq<string>)
    requires parts != [] && forall p | p in parts :: ' ' !in p
    ensures ReadOpened(OpenText(parts)) == Some(parts)
    decreases |parts|
  {
    assert parts[0] in parts;
    if |parts| == 1 {
      ReadLast(parts[0]);
      assert OpenText(parts) == "namespace " + (parts[0] + " {") && parts == [parts[0]];
    } else {
      ReadBack(parts[1..]);
      Behind(" {\n", OpenText(parts[1..]));
      ReadOne(parts[0], " {\n" + OpenText(parts[1..]), OpenText(parts[1..]));
      OpenTextStep(parts);
      assert [parts[0]] + parts[1..] == parts;
    }
  }

  lemma {:induction false} DotsSplit(pkg: string)
    ensures |Split(pkg, ".")| == Dots(pkg) + 1
    decreases |pkg|
  {
    FindChar(pkg, '.', 0);
    match Find(pkg, ".", 0)
    case None => NoDots(pkg);
    case Some(i) =>
      DotsSplit(pkg[i + 1..]);
      NoDots(pkg[..i]);
      DotsOf(pkg[..i], "." + pkg[i + 1..]);
      assert pkg == pkg[..i] + ("." + pkg[i + 1..]);
      assert ("." + pkg[i + 1..])[1..] == pkg[i + 1..];
  }

  lemma {:induction false} NoDots(s: string)
    requires '.' !in s
    ensures Dots(s) == 0
  {
    if s != "" {
      NoDots(s[1..]);
    }
  }

  lemma {:induction false} DotsOf(a: string, b: string)
    ensures Dots(a + b) == Dots(a) + Dots(b)
  {
    if a == "" {
      assert a + b == b;
    } else {
      assert (a + b)[1..] == a[1..] + b;
      DotsOf(a[1..], b);
    }
  }

  // A package with k dots opens k + 1 namespaces, its pieces in order.
  lemma OpensInOrder(pkg: string)
    requires PackageOk(pkg)
    ensures ReadOpened(Opening(pkg)) == Some(Split(pkg, ".")) && |Split(pkg, ".")| == Dots(pkg) + 1
  {
    var parts := Split(pkg, ".");
    forall p | p in parts ensures ' ' !in p {
      PiecesHoldOnly(pkg, p, ' ');
    }
    ReadBack(parts);
    ReplacedIsJoin(pkg, ".", OPEN_SEP);
    DotsSplit(pkg);
  }

  // ---------------------------------------------------------------- counting braces

  // How often the brace b occurs in t outside comments, which go from // to the end of the line.
  function Braces(t: string, b: char, comment: bool): nat {
    if t == "" then 0
    else if comment then Braces(t[1..], b, t[0] != '\n')
    else if "//" <= t then Braces(t[2..], b, true)
    else (if t[0] == b then 1 else 0) + Braces(t[1..], b, false)
  }

  // Text without slashes or the brace counts for nothing in front of other text.
  lemma {:induction false} CodeSkipped(a: string, t: string, b: char)
    requires '/' !in a && b !in a
    ensures Braces(a + t, b, false) == Braces(t, b, false)
  {
    if a == "" {
      assert a + t == t;
    } else {
      assert (a + t)[0] == a[0] && (a + t)[1..] == a[1..] + t;
      CodeSkipped(a[1..], t, b);
    }
  }

  lemma {:induction false} CommentSkipped(a: string, t: string, b: char)
    requires '\n' !in a
    ensures Braces(a + t, b, true) == Braces(t, b, true)
  {
    if a == "" {
      assert a + t == t;
    } else {
      assert (a + t)[0] == a[0] && (a + t)[1..] == a[1..] + t;
      CommentSkipped(a[1..], t, b);
    }
  }

  lemma CodeChar(c: char, t: string, b: char)
    requires c != '/'
    ensures Braces([c] + t, b, false) == (if c == b then 1 else 0) + Braces(t, b, false)
  {
    assert ([c] + t)[0] == c && ([c] + t)[1..] == t;
  }

  function Is(c: char, b: char): nat { if c == b then 1 else 0 }

  lemma BraceBehindName(next: string, b: char)
    requires b in {'{', '}'}
    ensures Braces(" {" + next, b, false) == Is('{', b) + Braces(next, b, false)
  {
    assert " {" + next == " " + ("{" + next);
    CodeChar(' ', "{" + next, b);
    CodeChar('{', next, b);
  }

  lemma OpenedLine(name: string, more: string, b: char)
    requires '/' !in name && b !in name && b in {'{', '}'}
    ensures Braces("namespace " + (name + more), b, false) == Braces(more, b, false)
  {
    CodeSkipped("namespace ", name + more, b);
    CodeSkipped(name, more, b);
  }

  lemma {:induction false} OpenTextBraces(parts: seq<string>, b: char)
    requires parts != [] && b in {'{', '}'} && forall p | p in parts :: '/' !in p && b !in p
    ensures Braces(OpenText(parts), b, false) == if b == '{' then |parts| else 0
    decreases |parts|
  {
    assert parts[0] in parts;
    if |parts| == 1 {
      OpenedLine(parts[0], " {", b);
      BraceBehindName("", b);
      assert OpenText(parts) == "namespace " + (parts[0] + " {") && " {" + "" == " {";
    } else {
      OpenTextStep(parts);
      var next := OpenText(parts[1..]);
      OpenedLine(parts[0], " {\n" + next, b);
      BraceBehindName("\n" + next, b);
      CodeChar('\n', next, b);
      assert " {\n" + next == " {" + ("\n" + next);
      OpenTextBraces(parts[1..], b);
    }
  }

  // A closing brace, and a comment to the end of the line or of the text.
  lemma ClosedLine(comment: string, next: string, b: char)
    requires '\n' !in comment && b in {'{', '}'}
    ensures Braces("} //" + (comment + ("\n" + next)), b, false) == Is('}', b) + Braces(next, b, false)
    ensures Braces("} //" + comment, b, false) == Is('}', b)
  {
    var line := comment + ("\n" + next);
    CommentSkipped(comment, "\n" + next, b);
    CommentSkipped(comment, "", b);
    assert comment + "" == comment;
    assert ("\n" + next)[1..] == next;
    CommentStarts(line, b);
    CommentStarts(comment, b);
  }

  lemma CommentStarts(t: string, b: char)
    ensures Braces("} //" + t, b, false) == Is('}', b) + Is(' ', b) + Braces(t, b, true)
  {
    assert "} //" + t == "}" + (" " + ("//" + t));
    CodeChar('}', " " + ("//" + t), b);
    CodeChar(' ', "//" + t, b);
    assert ("//" + t)[2..] == t;
  }

  // The closing text of some pieces; the space behind the slashes is in the first line only.
  function CloseText(lead: string, parts: seq<string>): string
    requires parts != []
  {
    "} //" + (lead + Join(parts, CLOSE_SEP))
  }

  lemma CloseTextStep(lead: string, parts: seq<string>)
    requires |parts| > 1
    ensures CloseText(lead, parts) == "} //" + ((lead + parts[0] + " ") + ("\n" + CloseText("for ", parts[1..])))
  {
    var tail := Join(parts[1..], CLOSE_SEP);
    assert Join(parts, CLOSE_SEP) == parts[0] + CLOSE_SEP + tail;
    assert CLOSE_SEP == " " + "\n" + "} //" + "for ";
  }

  lemma {:induction false} CloseTextBraces(lead: string, parts: seq<string>, b: char)
    requires parts != [] && b in {'{', '}'} && '\n' !in lead && forall p | p in parts :: '\n' !in p
    ensures Braces(CloseText(lead, parts), b, false) == if b == '}' then |parts| else 0
    decreases |parts|
  {
    assert parts[0] in parts;
    if |parts| == 1 {
      ClosedLine(lead + parts[0], "", b);
    } else {
      CloseTextStep(lead, parts);
      ClosedLine(lead + parts[0] + " ", CloseText("for ", parts[1..]), b);
      CloseTextBraces("for ", parts[1..], b);
    }
  }

  // The lines as they are generated; the closing comments name the pieces in opening order.
  lemma LinesAre(pkg: string)
    ensures Opening(pkg) == "namespace " + Join(Split(pkg, "."), " {\nnamespace ") + " {"
    ensures Closing(pkg) == "} // for " + Join(Split(pkg, "."), " \n} //for ")
  {
    ReplacedIsJoin(pkg, ".", OPEN_SEP);
    ReplacedIsJoin(pkg, ".", CLOSE_SEP);
  }

  // The header opens and closes the same number of namespaces: one more than the package has dots.
  lemma Balanced(pkg: string)
    requires PackageOk(pkg)
    ensures Braces(Opening(pkg), '{', false) == Braces(Closing(pkg), '}', false) == Dots(pkg) + 1
    ensures Braces(Opening(pkg), '}', false) == Braces(Closing(pkg), '{', false) == 0
  {
    var parts := Split(pkg, ".");
    forall p | p in parts ensures '/' !in p && '\n' !in p && '{' !in p && '}' !in p {
      PiecesHoldOnly(pkg, p, '/');
      PiecesHoldOnly(pkg, p, '\n');
      PiecesHoldOnly(pkg, p, '{');
      PiecesHoldOnly(pkg, p, '}');
    }
    ReplacedIsJoin(pkg, ".", OPEN_SEP);
    ReplacedIsJoin(pkg, ".", CLOSE_SEP);
    DotsSplit(pkg);
    assert Opening(pkg) == OpenText(parts);
    assert Closing(pkg) == CloseText(" for ", parts) by {
      assert "} // for " == "} //" + " for ";
    }
    OpenTextBraces(parts, '{');
    OpenTextBraces(parts, '}');
    CloseTextBraces(" for ", parts, '{');
    CloseTextBraces(" for ", parts, '}');
  }
}
