/**
 ngx_http_header_modify_content_length (ngx_http_rpc.c): the search for the Content-Length
 header through the parts of a header list, with the part switched inside the loop.
 */
module HeaderList {
  import opened CStrings
  import opened Options

  // ngx_table_elt_t
  class Header {
    var hash: nat
    var key: string
    var value: string

    constructor (h: nat, k: string, v: string)
      ensures hash == h && key == k && value == v
    {
      hash, key, value := h, k, v;
    }
  }

  // ngx_list_part_t
  class Part {
    var elts: array<Header>
    var nelts: nat
    var next: Part?

    constructor (e: array<Header>, n: nat)
      ensures elts == e && nelts == n && next == null
    {
      elts, nelts, next := e, n, null;
    }
  }

  // The fields of headers_in that are used.
  class HeadersIn {
    var contentLengthN: int
    var contentLength: Header?
    var part: Part

    constructor (p: Part)
      ensures part == p && contentLength == null && contentLengthN == -1
    {
      contentLengthN, contentLength, part := -1, null, p;
    }
  }

  // ---------------------------------------------------------------- comparing names

  const NAME: string := "Content-Length:"

  // ngx_strncasecmp(key, name, |key|) == 0, for a name that ends with NUL.
  function SameName(key: string, name: string): bool {
    if key == "" then true
    else
      var c := if name == "" then NUL else name[0];
      Lower(key[0]) == Lower(c) && (key[0] == NUL || SameName(key[1..], if name == "" then "" else name[1..]))
  }

  ghost predicate Prefixes(key: string, name: string) {
    |key| <= |name| && forall i :: 0 <= i < |key| ==> SameButCase(key[i], name[i])
  }

  lemma LowerOfNul(c: char)
    ensures Lower(c) == NUL <==> c == NUL
  {
  }

  // The comparison goes over the key's own length: it accepts every beginning of the name, in
  // any case, and so the empty key as well.
  lemma {:induction false} SameNameIff(key: string, name: string)
    requires NUL !in key
    ensures SameName(key, name) <==> Prefixes(key, name)
    decreases |key|
  {
    if key != "" {
      LowerOfNul(key[0]);
      assert key[0] in key;
      if name != "" {
        SameNameIff(key[1..], name[1..]);
        LowerSame(key[0], name[0]);
        PrefixesStep(key, name);
      }
    }
  }

  // A key with a zero byte in it matches only if it is the whole name up to there.
  lemma {:induction false} SameNameToNul(key: string, name: string, z: nat)
    requires '\0' !in name && z < |key| && key[z] == '\0' && forall i :: 0 <= i < z ==> key[i] != '\0'
    ensures SameName(key, name) <==> z == |name| && Prefixes(key[..z], name)
    decreases |key|
  {
    LowerOfNul(key[0]);
    if name != "" {
      LowerOfNul(name[0]);
      assert name[0] in name;
      if z > 0 {
        SameNameToNul(key[1..], name[1..], z - 1);
        LowerSame(key[0], name[0]);
        PrefixesStep(key[..z], name);
        assert key[..z][1..] == key[1..][..z - 1];
      }
    }
  }

  lemma PrefixesStep(key: string, name: string)
    requires key != "" && name != ""
    ensures Prefixes(key, name) <==> SameButCase(key[0], name[0]) && Prefixes(key[1..], name[1..])
  {
    if SameButCase(key[0], name[0]) && Prefixes(key[1..], name[1..]) {
      assert forall i :: 1 <= i < |key| ==> key[i] == key[1..][i - 1] && name[i] == name[1..][i - 1];
    }
    if Prefixes(key, name) {
      assert forall i :: 0 <= i < |key| - 1 ==> key[1..][i] == key[i + 1] && name[1..][i] == name[i + 1];
    }
  }

  // The name that is looked for; a key is none of its beginnings as soon as one letter differs.
  lemma NameIs(key: string)
    requires NUL !in key
    ensures SameName(key, NAME) <==> Prefixes(key, "content-length:")
  {
    SameNameIff(key, NAME);
    assert Prefixes(key, NAME) <==> Prefixes(key, "content-length:");
  }

  // For one, the key "content" is taken for the name, and so is the empty key.
  lemma BeginningMatches()
    ensures SameName("content", NAME) && SameName("", NAME)
  {
    NameIs("content");
  }

  lemma WholeNameMatches()
    ensures SameName("Content-Length", NAME) && SameName("content-length", NAME)
  {
    NameIs("Content-Length");
    NameIs("content-length");
  }

  lemma OthersDiffer()
    ensures !SameName("Content-Type", NAME) && !SameName("Host", NAME) && !SameName("Content-Length: 1", NAME)
  {
    NameIs("Content-Type");
    assert "Content-Type"[8] == 'T' && "content-length:"[8] == 'l';
    NameIs("Host");
    assert "Host"[0] == 'H' && "content-length:"[0] == 'c';
    NameIs("Content-Length: 1");
  }

  predicate Live(h: Header)
    reads h
  {
    h.hash != 0 && SameName(h.key, NAME)
  }

  // ---------------------------------------------------------------- the value

  function Digit(d: nat): char
    requires d < 10
  {
    ('0' as int + d) as char
  }

  function Digits(n: nat): string { (if n < 10 then "" else Digits(n / 10)) + [Digit(n % 10)] }

  function Decimal(v: int): string { if v < 0 then "-" + Digits(-v) else Digits(v) }

  // The 32 bytes of the new value: snprintf writes the number and a NUL, and the rest is
  // whatever the memory held.
  ghost predicate Shows(value: string, v: int) {
    |value| == 32 && CString(value) == Decimal(v) && |Decimal(v)| < 32
  }

  function Pow10(k: nat): nat { if k == 0 then 1 else 10 * Pow10(k - 1) }

  lemma {:induction false} DigitsFit(n: nat, k: nat)
    requires k > 0 && n < Pow10(k)
    ensures |Digits(n)| <= k
  {
    if n >= 10 {
      DigitsFit(n / 10, k - 1);
    }
  }

  lemma Pow10Of(k: nat)
    requires k == 19
    ensures Pow10(k) == 10_000_000_000_000_000_000
  {
    assert Pow10(9) == 1_000_000_000;
    assert Pow10(10) == 10 * Pow10(9) && Pow10(11) == 10 * Pow10(10) && Pow10(12) == 10 * Pow10(11);
    assert Pow10(13) == 10 * Pow10(12) && Pow10(14) == 10 * Pow10(13) && Pow10(15) == 10 * Pow10(14);
    assert Pow10(16) == 10 * Pow10(15) && Pow10(17) == 10 * Pow10(16) && Pow10(18) == 10 * Pow10(17);
    assert Pow10(19) == 10 * Pow10(18);
  }

  // ngx_int_t on a 64-bit machine
  const INT64_MAX: int := 0x7fff_ffff_ffff_ffff

  lemma DecimalFits(v: int)
    requires -INT64_MAX - 1 <= v <= INT64_MAX
    ensures |Decimal(v)| < 32
  {
    Pow10Of(19);
    DigitsFit(if v < 0 then -v else v, 19);
  }

  function Number(s: string): int {
    if s == "" then 0 else 10 * Number(s[..|s| - 1]) + (s[|s| - 1] as int - 48)
  }

  // A decimal number, with a sign if it is negative.
  function Signed(s: string): int { if s != "" && s[0] == '-' then -Number(s[1..]) else Number(s) }

  lemma {:induction false} DigitsRead(n: nat)
    ensures Number(Digits(n)) == n && Digits(n) != "" && Digits(n)[0] != '-' && NUL !in Digits(n)
  {
    var front := if n < 10 then "" else Digits(n / 10);
    if n >= 10 {
      DigitsRead(n / 10);
    }
    assert Digits(n)[..|Digits(n)| - 1] == front;
  }

  lemma DecimalParts(v: int)
    ensures NUL !in Decimal(v) && Decimal(v) != "" && (v < 0 <==> Decimal(v)[0] == '-')
    ensures v < 0 ==> Decimal(v)[1..] == Digits(-v)
  {
    DigitsRead(if v < 0 then -v else v);
  }

  // The value of a header, read up to the zero byte as a decimal number, is the number.
  lemma ShowsNumber(value: string, v: int)
    requires Shows(value, v)
    ensures |value| == 32 && |CString(value)| < 32 && Signed(CString(value)) == v
  {
    DecimalParts(v);
    DigitsRead(if v < 0 then -v else v);
  }

  // The value of a header shows one number only.
  lemma ShowsOne(value: string, v: int, w: int)
    requires Shows(value, v) && Shows(value, w)
    ensures v == w
  {
    DecimalParts(v);
    DecimalParts(w);
    DigitsRead(if v < 0 then -v else v);
    DigitsRead(if w < 0 then -w else w);
  }

  // ngx_palloc(r->pool, 32) and snprintf(data, 32, "%ld", v)
  method Print(v: int) returns (value: string)
    requires -INT64_MAX - 1 <= v <= INT64_MAX
    ensures Shows(value, v)
  {
    DecimalFits(v);
    DecimalParts(v);
    var data := new char[32];
    var text := Decimal(v) + [NUL];
    forall i | 0 <= i < |text| {
      data[i] := text[i];
    }
    value := data[..];
    ghost var rest := value[|Decimal(v)|..];
    assert value[..|text|] == text;
    assert rest[0] == text[|Decimal(v)|];
    assert value == Decimal(v) + rest;
    CStringIs(Decimal(v), rest);
  }

  // ---------------------------------------------------------------- the search

  // How many headers of a part the loop looks at: switching to a part, it reads the first slot
  // before it asks how many there are.
  function Seen(k: nat, nelts: nat): nat { if k > 0 && nelts == 0 then 1 else nelts }

  // The parts of a list, one behind the other, with the headers of each that the loop looks at:
  // all of them, and for an empty part behind the first the one its first slot last held.
  ghost predicate List(first: Part, ps: seq<Part>, rows: seq<seq<Header>>)
    reads first, ps, set p | p in ps :: p.elts
  {
    && |ps| == |rows| > 0 && ps[0] == first
    && (forall k :: 0 <= k < |ps| ==> SeenRow(ps, rows, k))
    && (forall k :: 0 <= k < |ps| ==> ps[k].next == if k + 1 < |ps| then ps[k + 1] else null)
  }

  ghost predicate SeenRow(ps: seq<Part>, rows: seq<seq<Header>>, k: nat)
    requires k < |ps| == |rows|
    reads ps, set p | p in ps :: p.elts
  {
    && Seen(k, ps[k].nelts) <= ps[k].elts.Length
    && rows[k] == ps[k].elts[..Seen(k, ps[k].nelts)]
  }

  // All headers of the list in order.
  ghost function Flat(rows: seq<seq<Header>>): seq<Header> {
    if rows == [] then [] else Flat(rows[..|rows| - 1]) + rows[|rows| - 1]
  }

  lemma {:induction false} FlatPrefix(rows: seq<seq<Header>>, k: nat)
    requires k <= |rows|
    ensures Flat(rows[..k]) <= Flat(rows)
    decreases |rows| - k
  {
    if k == |rows| {
      assert rows[..k] == rows;
    } else {
      FlatPrefix(rows, k + 1);
      assert rows[..k + 1][..k] == rows[..k];
    }
  }

  lemma FlatAt(rows: seq<seq<Header>>, k: nat, i: nat)
    requires k < |rows| && i <= |rows[k]|
    ensures var at := |Flat(rows[..k])| + i;
      at <= |Flat(rows)| && (i < |rows[k]| ==> at < |Flat(rows)| && Flat(rows)[at] == rows[k][i])
    ensures |Flat(rows[..k + 1])| == |Flat(rows[..k])| + |rows[k]|
  {
    FlatPrefix(rows, k + 1);
    assert rows[..k + 1][..k] == rows[..k];
    var upTo := Flat(rows[..k + 1]);
    if i < |rows[k]| {
      assert upTo[|Flat(rows[..k])| + i] == rows[k][i];
    }
  }

  function FirstLive(hs: seq<Header>): Option<Header>
    reads hs
  {
    if hs == [] then None else if Live(hs[0]) then Some(hs[0]) else FirstLive(hs[1..])
  }

  lemma {:induction false} FirstLiveAt(hs: seq<Header>, at: nat)
    requires at <= |hs| && (forall j :: 0 <= j < at ==> !Live(hs[j])) && (at < |hs| ==> Live(hs[at]))
    ensures FirstLive(hs) == if at < |hs| then Some(hs[at]) else None
  {
    if at > 0 {
      assert forall j :: 0 <= j < at - 1 ==> hs[1..][j] == hs[j + 1];
      FirstLiveAt(hs[1..], at - 1);
    }
  }

  // The loop finds the first live header with the name in all parts, switching parts on the way.
  method Search(r: HeadersIn, ghost ps: seq<Part>, ghost rows: seq<seq<Header>>)
    returns (found: Header?, ghost at: nat)
    requires List(r.part, ps, rows)
    ensures var flat := Flat(rows); at <= |flat| && forall j :: 0 <= j < at ==> !Live(flat[j])
    ensures found == null <==> forall h :: h in Flat(rows) ==> !Live(h)
    ensures found == null ==> at == |Flat(rows)|
    ensures found != null ==> at < |Flat(rows)| && found == Flat(rows)[at] && Live(found)
    ensures FirstLive(Flat(rows)) == if found == null then None else Some(found)
  {
    var part := r.part;
    var header := part.elts;
    var i := 0;
    ghost var k, flat := 0, Flat(rows);
    at := 0;
    while true
      invariant k < |ps| && part == ps[k] && header == part.elts && i <= |rows[k]| && (k > 0 ==> i > 0)
      invariant at == |Flat(rows[..k])| + i && at <= |flat|
      invariant forall j :: 0 <= j < at ==> !Live(flat[j])
      decreases |flat| - at
    {
      assert SeenRow(ps, rows, k);
      FlatAt(rows, k, i);
      if i >= part.nelts {
        assert part.next == if k + 1 < |ps| then ps[k + 1] else null;
        if part.next == null {
          assert rows[..k + 1] == rows;
          FirstLiveAt(flat, at);
          return null, at;
        }
        part := part.next;
        header := part.elts;
        i, k := 0, k + 1;
        assert SeenRow(ps, rows, k);
        FlatAt(rows, k, i);
      }
      if Live(header[i]) {
        FirstLiveAt(flat, at);
        return header[i], at;
      }
      i, at := i + 1, at + 1;
    }
  }

  // Found and written, nothing found, or found and then a write through a null pointer.
  datatype Ending = Done | Declined | Crashed

  // The request gets the length, the first live header with the name gets it as its value, as
  // does the header the request points to, and nothing else changes.  It fails exactly if the
  // loop sees no such header, and writes through the null pointer exactly if it sees one and the
  // request points to none; the length is set all the same.
  method ModifyContentLength(r: HeadersIn, v: int, ghost ps: seq<Part>, ghost rows: seq<seq<Header>>,
                             ghost flat: seq<Header>)
    returns (ending: Ending, ghost at: nat)
    requires List(r.part, ps, rows)
    requires flat == Flat(rows)
    requires -INT64_MAX - 1 <= v <= INT64_MAX
    modifies r`contentLengthN, flat, r.contentLength
    ensures r.contentLengthN == v
    ensures ending == Declined <==> forall h :: h in flat ==> !old(Live(h))
    ensures ending == Crashed <==> r.contentLength == null && exists h :: h in flat && old(Live(h))
    ensures ending != Declined ==>
      at < |flat| && old(Live(flat[at])) && forall j :: 0 <= j < at ==> !old(Live(flat[j]))
    ensures ending != Declined ==> Shows(flat[at].value, v)
    ensures ending == Done ==> r.contentLength.value == flat[at].value
    ensures forall h :: h in flat || h == r.contentLength ==> h.hash == old(h.hash) && h.key == old(h.key)
    ensures forall h | h in flat ::
      (ending != Declined && h == flat[at]) || (ending == Done && h == r.contentLength) || h.value == old(h.value)
  {
    r.contentLengthN := v;
    var found;
    found, at := Search(r, ps, rows);
    assert forall h :: h in flat ==> Live(h) == old(Live(h));
    if found == null {
      return Declined, at;
    }
    found.value := Print(v);
    if r.contentLength == null {
      return Crashed, at;
    }
    r.contentLength.value := found.value;
    ending := Done;
  }

  // A request with these headers in one part, of which it points to `own`.
  method RequestWith(headers: seq<Header>, own: Header?) returns (r: HeadersIn)
    requires headers != []
    ensures fresh(r) && r.contentLength == own
    ensures List(r.part, [r.part], [headers]) && Flat([headers]) == headers
  {
    var elts := new Header[|headers|](i requires 0 <= i < |headers| => headers[i]);
    var part := new Part(elts, |headers|);
    r := new HeadersIn(part);
    r.contentLength := own;
    assert elts[..|headers|] == headers;
    assert SeenRow([part], [headers], 0);
    assert [headers][..0] == [];
  }

  // A request with the headers "Content-Type", a dead "Content-Length" and a live one that it
  // points to: the last one is changed, and the others keep their values.
  method OrdinaryRequest(v: int) returns (ending: Ending, headers: seq<Header>)
    requires -INT64_MAX - 1 <= v <= INT64_MAX
    ensures ending == Done && |headers| == 3
    ensures headers[0].value == "text/plain" && headers[1].value == "7"
    ensures |headers[2].value| == 32 && Signed(CString(headers[2].value)) == v
  {
    var kind := new Header(1, "Content-Type", "text/plain");
    var dead := new Header(0, "Content-Length", "7");
    var live := new Header(1, "Content-Length", "9");
    headers := [kind, dead, live];
    var r := RequestWith(headers, live);
    ending := ChangeThird(r, v, headers);
  }

  method ChangeThird(r: HeadersIn, v: int, headers: seq<Header>) returns (ending: Ending)
    requires -INT64_MAX - 1 <= v <= INT64_MAX && |headers| == 3 && r.contentLength == headers[2]
    requires List(r.part, [r.part], [headers]) && Flat([headers]) == headers
    requires headers[0].hash == 1 && headers[0].key == "Content-Type"
    requires headers[1].hash == 0 && headers[2].hash == 1 && headers[2].key == "Content-Length"
    requires headers[0] != headers[2] && headers[1] != headers[2]
    modifies r`contentLengthN, headers
    ensures ending == Done && headers[0].value == old(headers[0].value) && headers[1].value == old(headers[1].value)
    ensures |headers[2].value| == 32 && Signed(CString(headers[2].value)) == v
  {
    WholeNameMatches();
    OthersDiffer();
    assert !Live(headers[0]) && !Live(headers[1]) && Live(headers[2]);
    ghost var at;
    ending, at := ModifyContentLength(r, v, [r.part], [headers], headers);
    ShowsNumber(headers[2].value, v);
  }

  // A request with the header "content" and no Content-Length of its own crashes.
  method CrashingRequest(v: int) returns (ending: Ending)
    requires -INT64_MAX - 1 <= v <= INT64_MAX
    ensures ending == Crashed
  {
    var h := new Header(1, "content", "x");
    var r := RequestWith([h], null);
    BeginningMatches();
    ghost var at;
    ghost var flat := [h];
    assert h in flat && Live(h);
    ending, at := ModifyContentLength(r, v, [r.part], [[h]], flat);
  }

  // ---------------------------------------------------------------- empty parts

  lemma {:induction false} FirstLiveIn(a: seq<Header>, b: seq<Header>)
    ensures FirstLive(a + b) == if FirstLive(a).Some? then FirstLive(a) else FirstLive(b)
  {
    if a == [] {
      assert a + b == b;
    } else {
      assert (a + b)[0] == a[0] && (a + b)[1..] == a[1..] + b;
      FirstLiveIn(a[1..], b);
    }
  }

  // What the loop looks at, part by part: the headers of the part or, if it has none, the slot
  // that stands there, which is none of the headers `all`.
  ghost predicate Slots(rows: seq<seq<Header>>, full: seq<seq<Header>>, all: seq<Header>) {
    && |rows| == |full|
    && forall k :: 0 <= k < |rows| ==>
         rows[k] == full[k] || (full[k] == [] && |rows[k]| == 1 && rows[k][0] !in all)
  }

  // The headers of the parts proper.
  ghost predicate Headers(ps: seq<Part>, full: seq<seq<Header>>)
    reads ps, set p | p in ps :: p.elts
  {
    |full| == |ps| && forall k :: 0 <= k < |ps| ==>
      ps[k].nelts <= ps[k].elts.Length && full[k] == ps[k].elts[..ps[k].nelts]
  }

  lemma SlotsOfParts(head: Part, ps: seq<Part>, rows: seq<seq<Header>>, full: seq<seq<Header>>)
    requires List(head, ps, rows) && Headers(ps, full)
    requires forall k :: 0 < k < |ps| && ps[k].nelts == 0 && ps[k].elts.Length > 0 ==> ps[k].elts[0] !in Flat(full)
    ensures Slots(rows, full, Flat(full))
  {
    forall k | 0 <= k < |rows|
      ensures rows[k] == full[k] || (full[k] == [] && |rows[k]| == 1 && rows[k][0] !in Flat(full)) {
      assert SeenRow(ps, rows, k);
    }
  }

  // Part k has no headers but a live slot, and no live header stands in front of it.
  ghost predicate Exposed(rows: seq<seq<Header>>, full: seq<seq<Header>>, k: nat)
    requires k < |rows| == |full|
    reads rows[k], Flat(full[..k])
  {
    full[k] == [] && rows[k] != [] && Live(rows[k][0]) && FirstLive(Flat(full[..k])).None?
  }

  lemma ExposedBefore(rows: seq<seq<Header>>, full: seq<seq<Header>>, n: nat, k: nat)
    requires k < n <= |rows| == |full|
    ensures Exposed(rows[..n], full[..n], k) <==> Exposed(rows, full, k)
  {
    assert full[..n][..k] == full[..k];
  }

  lemma {:induction false} FirstLiveIsOne(hs: seq<Header>)
    ensures FirstLive(hs).Some? ==> FirstLive(hs).value in hs
  {
    if hs != [] {
      FirstLiveIsOne(hs[1..]);
    }
  }

  // One more part.
  lemma FlatSplit(rows: seq<seq<Header>>, n: nat)
    requires |rows| == n + 1
    ensures Flat(rows) == Flat(rows[..n]) + rows[n]
    ensures FirstLive(Flat(rows)) == var a := FirstLive(Flat(rows[..n])); if a.Some? then a else FirstLive(rows[n])
  {
    FirstLiveIn(Flat(rows[..n]), rows[n]);
  }

  lemma {:induction false} NoneExposed(rows: seq<seq<Header>>, full: seq<seq<Header>>, all: seq<Header>)
    requires Slots(rows, full, all) && forall k :: 0 <= k < |rows| ==> !Exposed(rows, full, k)
    ensures FirstLive(Flat(rows)) == FirstLive(Flat(full))
  {
    if rows != [] {
      var n := |rows| - 1;
      forall k | 0 <= k < n ensures !Exposed(rows[..n], full[..n], k) {
        ExposedBefore(rows, full, n, k);
      }
      NoneExposed(rows[..n], full[..n], all);
      FlatSplit(rows, n);
      FlatSplit(full, n);
      assert !Exposed(rows, full, n);
      assert rows[n] != full[n] ==> rows[n][1..] == [];
    }
  }

  // What an exposed slot makes the loop find is no header of the list.
  lemma {:induction false} OneExposed(rows: seq<seq<Header>>, full: seq<seq<Header>>, all: seq<Header>, k: nat)
    requires Slots(rows, full, all) && k < |rows| && Exposed(rows, full, k)
    ensures FirstLive(Flat(rows)).Some? && FirstLive(Flat(rows)).value !in all
  {
    var n := |rows| - 1;
    FlatSplit(rows, n);
    FlatSplit(full, n);
    if i :| 0 <= i < n && Exposed(rows, full, i) {
      ExposedBefore(rows, full, n, i);
      OneExposed(rows[..n], full[..n], all, i);
    } else {
      forall i | 0 <= i < n ensures !Exposed(rows[..n], full[..n], i) {
        ExposedBefore(rows, full, n, i);
      }
      NoneExposed(rows[..n], full[..n], all);
    }
  }

  // The loop finds what a search of the headers proper finds exactly if every live slot of an
  // empty part stands behind a live header.
  lemma SeenFindsTheSame(rows: seq<seq<Header>>, full: seq<seq<Header>>)
    requires Slots(rows, full, Flat(full))
    ensures FirstLive(Flat(rows)) == FirstLive(Flat(full)) <==>
      forall k :: 0 <= k < |rows| ==> !Exposed(rows, full, k)
  {
    if k :| 0 <= k < |rows| && Exposed(rows, full, k) {
      OneExposed(rows, full, Flat(full), k);
      FirstLiveIsOne(Flat(full));
    } else {
      NoneExposed(rows, full, Flat(full));
    }
  }

  // The same on the parts in memory: an empty part behind the first does harm exactly if its first
  // slot is live and no live header stands in front of it.
  lemma LoopFindsTheSame(head: Part, ps: seq<Part>, rows: seq<seq<Header>>, full: seq<seq<Header>>)
    requires List(head, ps, rows) && Headers(ps, full)
    requires forall k :: 0 < k < |ps| && ps[k].nelts == 0 && ps[k].elts.Length > 0 ==> ps[k].elts[0] !in Flat(full)
    ensures FirstLive(Flat(rows)) == FirstLive(Flat(full)) <==>
      forall k :: 0 < k < |ps| && ps[k].nelts == 0 && ps[k].elts.Length > 0 && Live(ps[k].elts[0]) ==>
        FirstLive(Flat(full[..k])).Some?
  {
    SlotsOfParts(head, ps, rows, full);
    SeenFindsTheSame(rows, full);
    forall k | 0 <= k < |ps|
      ensures Exposed(rows, full, k) <==>
        (k > 0 && ps[k].nelts == 0 && ps[k].elts.Length > 0 && Live(ps[k].elts[0])
         && FirstLive(Flat(full[..k])).None?) {
      assert SeenRow(ps, rows, k);
    }
  }

  // In a list of two empty parts a live slot of the second is found, where there is no header.
  lemma StaleSlotIsFound(p: Part, q: Part)
    requires p.nelts == 0 && p.next == q && q.nelts == 0 && q.next == null
    requires q.elts.Length > 0 && Live(q.elts[0])
    ensures var rows, full := [[], [q.elts[0]]], [[], []];
      && List(p, [p, q], rows) && Headers([p, q], full)
      && FirstLive(Flat(rows)) == Some(q.elts[0]) && FirstLive(Flat(full)) == None
  {
    var rows: seq<seq<Header>>, full: seq<seq<Header>> := [[], [q.elts[0]]], [[], []];
    FlatSplit(rows, 1);
    FlatSplit(full, 1);
    assert rows[..1] == [[]] == full[..1];
    assert Flat(rows[..1]) == [];
    assert SeenRow([p, q], rows, 0) && SeenRow([p, q], rows, 1);
  }
}
