/**
 The two route names the generator registers for a method of a service (the templates of
 ngx_rpc_module_template.h with the variables of ngx_rpc_generator.cpp), and a decoder that
 gives back the method from either.
 */
module Routes {
  import opened CStrings
  import opened Options
  import opened Replacing

  // The package as written in the .proto file, with dots.
  datatype Method = Method(pkg: string, service: string, name: string)

  datatype Form = Slash | Dot

  function Separator(f: Form): char { if f.Slash? then '/' else '.' }

  function NamePath(pkg: string): string { Replaced(pkg, ".", "/") }

  // "/$PROTO_NAMEPATH$/$PROTO_SERVER_NAME$/$PROTO_SERVER_METHOD_NAME$", or with dots
  function Route(m: Method, f: Form): string {
    "/" + NamePath(m.pkg) + [Separator(f)] + m.service + [Separator(f)] + m.name
  }

  // Identifiers hold neither dots nor slashes; a package, which may be empty, holds no slash.
  ghost predicate MethodOk(m: Method) {
    '/' !in m.pkg && '/' !in m.service && '.' !in m.service && '/' !in m.name && '.' !in m.name
  }

  function Decode(route: string): Option<(Method, Form)> {
    if route == "" || route[0] != '/' then None
    else if '.' in route then
      var parts := Split(route[1..], ".");
      if |parts| == 3 then Some((Method(Replaced(parts[0], "/", "."), parts[1], parts[2]), Dot)) else None
    else
      var parts := Split(route[1..], "/");
      var n := |parts|;
      if n >= 3 then Some((Method(Join(parts[..n - 2], "."), parts[n - 2], parts[n - 1]), Slash)) else None
  }

  lemma {:induction false} JoinMore(parts: seq<string>, a: string, b: string, c: char)
    requires parts != []
    ensures Join(parts + [a, b], [c]) == Join(parts, [c]) + [c] + a + [c] + b
    decreases |parts|
  {
    var all := parts + [a, b];
    if |parts| == 1 {
      assert all[1..] == [a, b] && [a, b][1..] == [b];
      assert Join([a, b], [c]) == a + [c] + Join([b], [c]) == a + [c] + b;
      assert Join(all, [c]) == parts[0] + [c] + (a + [c] + b);
    } else {
      assert all[1..] == parts[1..] + [a, b];
      JoinMore(parts[1..], a, b, c);
      assert Join(all, [c]) == parts[0] + [c] + (Join(parts[1..], [c]) + [c] + a + [c] + b);
    }
  }

  lemma PathHoldsNoDot(pkg: string)
    ensures '.' !in NamePath(pkg)
  {
    CharReplaced(pkg, '.', '/');
  }

  lemma DecodeDot(m: Method)
    requires MethodOk(m)
    ensures Decode(Route(m, Dot)) == Some((m, Dot))
  {
    var route, path := Route(m, Dot), NamePath(m.pkg);
    PathHoldsNoDot(m.pkg);
    JoinMore([path], m.service, m.name, '.');
    assert route[1..] == Join([path, m.service, m.name], ".") by {
      assert [path] + [m.service, m.name] == [path, m.service, m.name];
    }
    assert route[1 + |path|] == '.';
    SplitOfJoin([path, m.service, m.name], '.');
    CharUndone(m.pkg, '.', '/');
  }

  lemma DecodeSlash(m: Method)
    requires MethodOk(m)
    ensures Decode(Route(m, Slash)) == Some((m, Slash))
  {
    var route, pieces := Route(m, Slash), Split(m.pkg, ".");
    var parts := pieces + [m.service, m.name];
    ReplacedIsJoin(m.pkg, ".", "/");
    JoinMore(pieces, m.service, m.name, '/');
    assert route[1..] == Join(parts, "/");
    PathHoldsNoDot(m.pkg);
    assert '.' !in route;
    forall p | p in parts ensures '/' !in p {
      if p in pieces {
        PiecesHoldOnly(m.pkg, p, '/');
      }
    }
    SplitOfJoin(parts, '/');
    assert parts[..|parts| - 2] == pieces;
    SplitPieces(m.pkg, ".");
  }

  // The decoder recovers package, service, method and form from every route.
  lemma DecodeRoute(m: Method, f: Form)
    requires MethodOk(m)
    ensures Decode(Route(m, f)) == Some((m, f))
  {
    match f
    case Slash => DecodeSlash(m);
    case Dot => DecodeDot(m);
  }

  // What is registered: the pieces of the package, the service and the method behind slashes, or
  // the same with dots in front of the last two.
  lemma RoutesAre(m: Method)
    ensures Route(m, Slash) == "/" + Join(Split(m.pkg, ".") + [m.service, m.name], "/")
    ensures Route(m, Dot) == "/" + Join(Split(m.pkg, "."), "/") + "." + m.service + "." + m.name
  {
    ReplacedIsJoin(m.pkg, ".", "/");
    JoinMore(Split(m.pkg, "."), m.service, m.name, '/');
  }

  // So no two methods share a route, and no method's two routes are one.
  lemma RoutesAreDistinct(a: Method, f: Form, b: Method, g: Form)
    requires MethodOk(a) && MethodOk(b)
    ensures Route(a, f) == Route(b, g) <==> a == b && f == g
  {
    DecodeRoute(a, f);
    DecodeRoute(b, g);
  }

  // ---------------------------------------------------------------- looking routes up

  function LowerMethod(m: Method): Method {
    Method(LowerAll(m.pkg), LowerAll(m.service), LowerAll(m.name))
  }

  lemma LowerHolds(s: string, c: char)
    requires c !in s && !('a' <= c <= 'z')
    ensures c !in LowerAll(s)
  {
    forall i | 0 <= i < |s| ensures LowerAll(s)[i] != c {
      assert s[i] in s;
    }
  }

  lemma LowerPath(pkg: string)
    ensures LowerAll(NamePath(pkg)) == NamePath(LowerAll(pkg))
  {
    CharReplaced(pkg, '.', '/');
    CharReplaced(LowerAll(pkg), '.', '/');
  }

  // The key of a route is the route of the lower-cased method.
  lemma LowerRoute(m: Method, f: Form)
    ensures LowerAll(Route(m, f)) == Route(LowerMethod(m), f)
  {
    LowerPath(m.pkg);
  }

  ghost predicate SameMethodButCase(a: Method, b: Method) {
    SameTextButCase(a.pkg, b.pkg) && SameTextButCase(a.service, b.service) && SameTextButCase(a.name, b.name)
  }

  // The hash of routes compares lower-cased keys, so two registered routes share a key exactly
  // if they have one form and their methods differ at most in case.
  lemma KeysAreEqualIff(a: Method, f: Form, b: Method, g: Form)
    requires MethodOk(a) && MethodOk(b)
    ensures LowerAll(Route(a, f)) == LowerAll(Route(b, g)) <==> f == g && SameMethodButCase(a, b)
  {
    LowerAllSame(a.pkg, b.pkg);
    LowerAllSame(a.service, b.service);
    LowerAllSame(a.name, b.name);
    LowerRoute(a, f);
    LowerRoute(b, g);
    LowerOk(a);
    LowerOk(b);
    RoutesAreDistinct(LowerMethod(a), f, LowerMethod(b), g);
  }

  // Two methods that are registered under different routes, and share their key.
  lemma KeysCollide(pkg: string, service: string)
    requires '/' !in pkg && '/' !in service && '.' !in service
    ensures var a, b := Method(pkg, service, "Get"), Method(pkg, service, "get");
      && MethodOk(a) && MethodOk(b)
      && forall f :: Route(a, f) != Route(b, f) && LowerAll(Route(a, f)) == LowerAll(Route(b, f))
  {
    var a, b := Method(pkg, service, "Get"), Method(pkg, service, "get");
    assert LowerAll("Get") == LowerAll("get");
    forall f ensures Route(a, f) != Route(b, f) && LowerAll(Route(a, f)) == LowerAll(Route(b, f)) {
      RoutesAreDistinct(a, f, b, f);
      KeysAreEqualIff(a, f, b, f);
    }
  }

  lemma LowerOk(m: Method)
    requires MethodOk(m)
    ensures MethodOk(LowerMethod(m))
  {
    LowerHolds(m.pkg, '/');
    LowerHolds(m.service, '/');
    LowerHolds(m.service, '.');
    LowerHolds(m.name, '/');
    LowerHolds(m.name, '.');
  }
}
