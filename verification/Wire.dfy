/**
 The wire format of Protocol Buffers (Encoding, sections "Base 128 Varints", "Message
 Structure" and "Groups"), as far as the generated code of inspect.pb.cc relies on it:
 varints, tags, and fields that the message does not know.
 */
module Wire {
  import opened Options

  type byte = x: int | 0 <= x < 256

  const U32: nat := 0x1_0000_0000
  const U64: nat := 0x1_0000_0000_0000_0000
  const INT_MAX: nat := 0x7fff_ffff
  const MAX_VARINT_BYTES: nat := 10

  // A value read from the front of the input, with the input left.
  type Parsed<T> = Option<(T, seq<byte>)>

  // ---------------------------------------------------------------- varints

  function WriteVarint(n: nat): (s: seq<byte>)
    ensures s != []
  {
    if n < 128 then [n] else [n % 128 + 128] + WriteVarint(n / 128)
  }

  // At most `room` bytes, least significant group first.
  function ReadVarint(s: seq<byte>, room: nat): (r: Parsed<nat>)
    ensures r.Some? ==> |r.value.1| < |s|
  {
    if s == [] || room == 0 then None
    else if s[0] < 128 then Some((s[0], s[1..]))
    else match ReadVarint(s[1..], room - 1)
      case None => None
      case Some((v, rest)) => Some((s[0] - 128 + 128 * v, rest))
  }

  function Pow128(k: nat): nat { if k == 0 then 1 else 128 * Pow128(k - 1) }

  lemma {:induction false} VarintRoundTrip(n: nat, room: nat, t: seq<byte>)
    requires room > 0 && n < Pow128(room)
    ensures ReadVarint(WriteVarint(n) + t, room) == Some((n, t))
  {
    var s := WriteVarint(n) + t;
    if n < 128 {
      assert s[0] == n && s[1..] == t;
    } else {
      assert n / 128 < Pow128(room - 1);
      VarintRoundTrip(n / 128, room - 1, t);
      assert s[0] == n % 128 + 128 && s[1..] == WriteVarint(n / 128) + t;
    }
  }

  // More input behind a varint changes nothing but the rest.
  lemma {:induction false} VarintExtends(s: seq<byte>, room: nat, t: seq<byte>)
    requires ReadVarint(s, room).Some?
    ensures ReadVarint(s + t, room) == Some((ReadVarint(s, room).value.0, ReadVarint(s, room).value.1 + t))
  {
    assert (s + t)[0] == s[0] && (s + t)[1..] == s[1..] + t;
    if s[0] >= 128 {
      VarintExtends(s[1..], room - 1, t);
    }
  }

  // A varint field keeps 64 bits, a tag or a length 32.
  function ReadU64(s: seq<byte>): (r: Parsed<nat>)
    ensures r.Some? ==> |r.value.1| < |s| && r.value.0 < U64
  {
    match ReadVarint(s, MAX_VARINT_BYTES)
    case None => None
    case Some((v, rest)) => Some((v % U64, rest))
  }

  function ReadU32(s: seq<byte>): (r: Parsed<nat>)
    ensures r.Some? ==> |r.value.1| < |s| && r.value.0 < U32
  {
    match ReadVarint(s, MAX_VARINT_BYTES)
    case None => None
    case Some((v, rest)) => Some((v % U32, rest))
  }

  lemma TenGroups()
    ensures U64 < Pow128(MAX_VARINT_BYTES)
  {
    assert Pow128(1) == 128 && Pow128(2) == 0x4000 && Pow128(3) == 0x20_0000 && Pow128(4) == 0x1000_0000;
    assert Pow128(5) == 128 * Pow128(4) && Pow128(6) == 128 * Pow128(5) && Pow128(7) == 128 * Pow128(6);
    assert Pow128(8) == 128 * Pow128(7) && Pow128(9) == 128 * Pow128(8) && Pow128(10) == 128 * Pow128(9);
  }

  lemma VarintFits(n: nat, t: seq<byte>)
    requires n < U64
    ensures ReadVarint(WriteVarint(n) + t, MAX_VARINT_BYTES) == Some((n, t))
  {
    TenGroups();
    VarintRoundTrip(n, MAX_VARINT_BYTES, t);
  }

  lemma ReadU64Of(s: seq<byte>, n: nat, t: seq<byte>)
    requires n < U64 && ReadVarint(s, MAX_VARINT_BYTES) == Some((n, t))
    ensures ReadU64(s) == Some((n, t))
  {
  }

  lemma U64RoundTrip(n: nat, t: seq<byte>)
    requires n < U64
    ensures ReadU64(WriteVarint(n) + t) == Some((n, t))
  {
    VarintFits(n, t);
    ReadU64Of(WriteVarint(n) + t, n, t);
  }

  lemma ReadU32Of(s: seq<byte>, n: nat, t: seq<byte>)
    requires n < U32 && ReadVarint(s, MAX_VARINT_BYTES) == Some((n, t))
    ensures ReadU32(s) == Some((n, t))
  {
  }

  lemma U32RoundTrip(n: nat, t: seq<byte>)
    requires n < U32
    ensures ReadU32(WriteVarint(n) + t) == Some((n, t))
  {
    VarintFits(n, t);
    ReadU32Of(WriteVarint(n) + t, n, t);
  }

  // ---------------------------------------------------------------- groups by position

  // The bytes of a varint: the high bit is set in all but the last.
  ghost predicate Groups(b: seq<byte>) {
    b != [] && b[|b| - 1] < 128 && forall i :: 0 <= i < |b| - 1 ==> b[i] >= 128
  }

  // Their value: byte i counts its low seven bits times 128 to the power of i.
  function GroupsValue(b: seq<byte>): nat {
    if b == [] then 0 else GroupsValue(b[..|b| - 1]) + (b[|b| - 1] % 128) * Pow128(|b| - 1)
  }

  lemma {:induction false} GroupsShift(x: byte, b: seq<byte>)
    ensures GroupsValue([x] + b) == x % 128 + 128 * GroupsValue(b)
  {
    var s := [x] + b;
    if b == [] {
      assert s[..0] == [] && Pow128(0) == 1;
    } else {
      var n := |b| - 1;
      GroupsShift(x, b[..n]);
      assert s[..n + 1] == [x] + b[..n];
      assert Pow128(n + 1) == 128 * Pow128(n);
    }
  }

  // A varint is written in the fewest groups that hold the number.
  lemma {:induction false} VarintForm(n: nat)
    ensures var b := WriteVarint(n);
      Groups(b) && GroupsValue(b) == n && (|b| > 1 ==> b[|b| - 1] > 0)
  {
    if n < 128 {
      assert [n][..0] == [] && Pow128(0) == 1;
    } else {
      var b, x: byte := WriteVarint(n / 128), n % 128 + 128;
      VarintForm(n / 128);
      GroupsShift(x, b);
      assert WriteVarint(n) == [x] + b;
      MoreGroups(x, b);
    }
  }

  lemma MoreGroups(x: byte, b: seq<byte>)
    requires Groups(b) && x >= 128
    ensures Groups([x] + b) && ([x] + b)[|b|] == b[|b| - 1]
  {
  }

  // Any groups are read, up to ten of them, whether there are fewer or not.
  lemma {:induction false} ReadsGroups(b: seq<byte>, room: nat, t: seq<byte>)
    requires Groups(b)
    ensures ReadVarint(b + t, room) == if |b| <= room then Some((GroupsValue(b), t)) else None
  {
    if room > 0 {
      assert (b + t)[0] == b[0];
      if |b| == 1 {
        LastGroup(b);
        assert (b + t)[1..] == t;
      } else {
        assert (b + t)[1..] == b[1..] + t && b == [b[0]] + b[1..];
        FirstGroup(b);
        ReadsGroups(b[1..], room - 1, t);
      }
    }
  }

  lemma LastGroup(b: seq<byte>)
    requires Groups(b) && |b| == 1
    ensures GroupsValue(b) == b[0]
  {
    assert b[..0] == [] && Pow128(0) == 1;
  }

  lemma FirstGroup(b: seq<byte>)
    requires Groups(b) && |b| > 1
    ensures Groups(b[1..]) && b[0] >= 128 && GroupsValue(b) == b[0] - 128 + 128 * GroupsValue(b[1..])
  {
    assert b == [b[0]] + b[1..];
    GroupsShift(b[0], b[1..]);
  }

  // A number is read modulo 2^64, a tag or a length modulo 2^32.
  lemma ReadsNumber(b: seq<byte>, t: seq<byte>)
    requires Groups(b)
    ensures ReadU64(b + t) == if |b| <= 10 then Some((GroupsValue(b) % 18_446_744_073_709_551_616, t)) else None
    ensures ReadU32(b + t) == if |b| <= 10 then Some((GroupsValue(b) % 4_294_967_296, t)) else None
  {
    ReadsGroups(b, 10, t);
  }

  // Bytes that all have the high bit set are no varint.
  lemma {:induction false} NoGroups(s: seq<byte>, room: nat)
    requires forall i :: 0 <= i < |s| ==> s[i] >= 128
    ensures ReadVarint(s, room).None?
  {
    if s != [] && room > 0 {
      NoGroups(s[1..], room - 1);
    }
  }

  // ---------------------------------------------------------------- raw bytes

  function Take(n: nat, s: seq<byte>): (r: Parsed<seq<byte>>)
    ensures r.Some? ==> |r.value.1| <= |s| && |r.value.0| == n
  {
    if n <= |s| then Some((s[..n], s[n..])) else None
  }

  lemma TakeRoundTrip(data: seq<byte>, t: seq<byte>)
    ensures Take(|data|, data + t) == Some((data, t))
  {
    assert (data + t)[..|data|] == data && (data + t)[|data|..] == t;
  }

  // A length, read as a 32-bit int, and that many bytes.
  function ReadBytes(s: seq<byte>): (r: Parsed<seq<byte>>)
    ensures r.Some? ==> |r.value.1| < |s| && |r.value.0| <= INT_MAX
  {
    match ReadU32(s)
    case None => None
    case Some((n, rest)) => if n > INT_MAX then None else Take(n, rest)
  }

  function WriteBytes(data: seq<byte>): seq<byte> { WriteVarint(|data|) + data }

  lemma BytesRoundTrip(data: seq<byte>, t: seq<byte>)
    requires |data| <= INT_MAX
    ensures ReadBytes(WriteBytes(data) + t) == Some((data, t))
  {
    assert WriteBytes(data) + t == WriteVarint(|data|) + (data + t);
    U32RoundTrip(|data|, data + t);
    TakeRoundTrip(data, t);
  }

  lemma TakeExtends(n: nat, s: seq<byte>, t: seq<byte>)
    requires n <= |s|
    ensures Take(n, s + t) == Some((s[..n], s[n..] + t))
  {
    assert (s + t)[..n] == s[..n] && (s + t)[n..] == s[n..] + t;
  }

  lemma BytesExtend(s: seq<byte>, t: seq<byte>)
    requires ReadBytes(s).Some?
    ensures ReadBytes(s + t) == Some((ReadBytes(s).value.0, ReadBytes(s).value.1 + t))
  {
    VarintExtends(s, MAX_VARINT_BYTES, t);
    var (n, rest) := ReadU32(s).value;
    TakeExtends(n, rest, t);
  }

  // ---------------------------------------------------------------- unknown fields

  datatype Field =
    | Varint(num: nat, v: nat)
    | Fixed64(num: nat, data: seq<byte>)
    | Bytes(num: nat, data: seq<byte>)
    | Group(num: nat, fields: seq<Field>)
    | Fixed32(num: nat, data: seq<byte>)

  const END_GROUP: nat := 4

  function Tag(f: Field): nat {
    8 * f.num + match f
      case Varint(_, _) => 0
      case Fixed64(_, _) => 1
      case Bytes(_, _) => 2
      case Group(_, _) => 3
      case Fixed32(_, _) => 5
  }

  // Fields that some input can produce: well nested by construction, numbers and values in
  // range, and no tag zero, which ends a message.
  ghost predicate FieldOk(f: Field) {
    && f.num < U32 / 8 && Tag(f) != 0
    && match f
       case Varint(_, v) => v < U64
       case Fixed64(_, data) => |data| == 8
       case Bytes(_, data) => |data| <= INT_MAX
       case Group(_, fields) => forall g | g in fields :: FieldOk(g)
       case Fixed32(_, data) => |data| == 4
  }

  ghost predicate FieldsOk(fs: seq<Field>) { forall f | f in fs :: FieldOk(f) }

  // WireFormat::SkipField: read the field behind `tag`.
  function ReadField(tag: nat, s: seq<byte>): (r: Parsed<Field>)
    ensures r.Some? ==> |r.value.1| <= |s|
    ensures r.Some? && 0 < tag < U32 ==> Tag(r.value.0) == tag && FieldOk(r.value.0)
    decreases |s|, 1
  {
    var num := tag / 8;
    match tag % 8
    case 0 => (match ReadU64(s) case None => None case Some((v, rest)) => Some((Varint(num, v), rest)))
    case 1 => (match Take(8, s) case None => None case Some((d, rest)) => Some((Fixed64(num, d), rest)))
    case 2 => (match ReadBytes(s) case None => None case Some((d, rest)) => Some((Bytes(num, d), rest)))
    case 3 => (match ReadGroup(num, s) case None => None case Some((fs, rest)) => Some((Group(num, fs), rest)))
    case 5 => (match Take(4, s) case None => None case Some((d, rest)) => Some((Fixed32(num, d), rest)))
    case _ => None
  }

  // The fields of a group, up to the end tag with the group's number.
  function ReadGroup(num: nat, s: seq<byte>): (r: Parsed<seq<Field>>)
    ensures r.Some? ==> |r.value.1| < |s| && FieldsOk(r.value.0)
    decreases |s|, 0
  {
    match ReadU32(s)
    case None => None
    case Some((tag, rest)) =>
      if tag == 0 then None
      else if tag % 8 == END_GROUP then (if tag / 8 == num then Some(([], rest)) else None)
      else match ReadField(tag, rest)
        case None => None
        case Some((f, rest2)) =>
          match ReadGroup(num, rest2)
          case None => None
          case Some((fs, rest3)) => Some(([f] + fs, rest3))
  }

  // WireFormat::SerializeUnknownFields, field by field.
  function Payload(f: Field): seq<byte>
    decreases f, 0
  {
    match f
    case Varint(_, v) => WriteVarint(v)
    case Fixed64(_, data) => data
    case Bytes(_, data) => WriteBytes(data)
    case Group(num, fields) => WriteFields(fields) + WriteVarint(8 * num + END_GROUP)
    case Fixed32(_, data) => data
  }

  function WriteField(f: Field): seq<byte>
    decreases f, 1
  {
    WriteVarint(Tag(f)) + Payload(f)
  }

  function WriteFields(fs: seq<Field>): seq<byte>
    decreases fs, 2
  {
    if fs == [] then [] else WriteField(fs[0]) + WriteFields(fs[1..])
  }

  // Reading a written field gives it back, whatever follows.
  lemma {:induction false} FieldRoundTrip(f: Field, t: seq<byte>)
    requires FieldOk(f)
    ensures ReadU32(WriteField(f) + t) == Some((Tag(f), Payload(f) + t))
    ensures ReadField(Tag(f), Payload(f) + t) == Some((f, t))
    decreases f, 1
  {
    assert WriteField(f) + t == WriteVarint(Tag(f)) + (Payload(f) + t);
    U32RoundTrip(Tag(f), Payload(f) + t);
    assert Tag(f) / 8 == f.num;
    match f
    case Varint(_, v) => U64RoundTrip(v, t);
    case Fixed64(_, data) => TakeRoundTrip(data, t);
    case Bytes(_, data) => BytesRoundTrip(data, t);
    case Fixed32(_, data) => TakeRoundTrip(data, t);
    case Group(num, fields) =>
      assert Payload(f) + t == WriteFields(fields) + (WriteVarint(8 * num + END_GROUP) + t);
      GroupRoundTrip(num, fields, t);
  }

  lemma {:induction false} GroupRoundTrip(num: nat, fs: seq<Field>, t: seq<byte>)
    requires num < U32 / 8 && FieldsOk(fs)
    ensures ReadGroup(num, WriteFields(fs) + (WriteVarint(8 * num + END_GROUP) + t)) == Some((fs, t))
    decreases fs, 2
  {
    var rest := WriteVarint(8 * num + END_GROUP) + t;
    if fs == [] {
      assert WriteFields(fs) + rest == rest;
      U32RoundTrip(8 * num + END_GROUP, t);
    } else {
      assert WriteFields(fs) + rest == WriteField(fs[0]) + (WriteFields(fs[1..]) + rest);
      FieldRoundTrip(fs[0], WriteFields(fs[1..]) + rest);
      GroupRoundTrip(num, fs[1..], t);
      TagIsNoEnd(fs[0]);
      assert [fs[0]] + fs[1..] == fs;
    }
  }

  lemma TagIsNoEnd(f: Field)
    ensures Tag(f) % 8 != END_GROUP && Tag(f) / 8 == f.num
  {
  }

  // More input behind a field changes nothing but the rest.
  lemma {:induction false} FieldExtends(tag: nat, s: seq<byte>, t: seq<byte>)
    requires ReadField(tag, s).Some?
    ensures ReadField(tag, s + t) == Some((ReadField(tag, s).value.0, ReadField(tag, s).value.1 + t))
    decreases |s|, 1
  {
    match tag % 8
    case 0 => VarintExtends(s, MAX_VARINT_BYTES, t);
    case 1 => TakeExtends(8, s, t);
    case 2 => BytesExtend(s, t);
    case 3 => GroupExtends(tag / 8, s, t);
    case 5 => TakeExtends(4, s, t);
    case _ =>
  }

  lemma {:induction false} GroupExtends(num: nat, s: seq<byte>, t: seq<byte>)
    requires ReadGroup(num, s).Some?
    ensures ReadGroup(num, s + t) == Some((ReadGroup(num, s).value.0, ReadGroup(num, s).value.1 + t))
    decreases |s|, 0
  {
    VarintExtends(s, MAX_VARINT_BYTES, t);
    var (tag, rest) := ReadU32(s).value;
    if tag % 8 != END_GROUP {
      FieldExtends(tag, rest, t);
      GroupExtends(num, ReadField(tag, rest).value.1, t);
    }
  }

  // ---------------------------------------------------------------- fields by their bytes

  // What is written for a field: its number and wire type in a tag, and what the type says.
  lemma FieldForm(f: Field)
    ensures WriteField(f) == match f
      case Varint(n, v) => WriteVarint(8 * n) + WriteVarint(v)
      case Fixed64(n, d) => WriteVarint(8 * n + 1) + d
      case Bytes(n, d) => WriteVarint(8 * n + 2) + (WriteVarint(|d|) + d)
      case Group(n, fs) => WriteVarint(8 * n + 3) + (WriteFields(fs) + WriteVarint(8 * n + 4))
      case Fixed32(n, d) => WriteVarint(8 * n + 5) + d
  {
  }

  // What is read behind a tag of number n.
  lemma Fixed64Read(n: nat, s: seq<byte>, tag: nat)
    requires tag == 8 * n + 1
    ensures ReadField(tag, s) == if |s| < 8 then None else Some((Fixed64(n, s[..8]), s[8..]))
  {
    assert tag % 8 == 1 && tag / 8 == n;
  }

  lemma Fixed32Read(n: nat, s: seq<byte>, tag: nat)
    requires tag == 8 * n + 5
    ensures ReadField(tag, s) == if |s| < 4 then None else Some((Fixed32(n, s[..4]), s[4..]))
  {
    assert tag % 8 == 5 && tag / 8 == n;
  }

  lemma NothingRead(n: nat, s: seq<byte>, k: nat)
    requires k == 4 || k == 6 || k == 7
    ensures ReadField(8 * n + k, s) == None
  {
    assert (8 * n + k) % 8 == k;
  }

  lemma NumbersRead(n: nat, b: seq<byte>, t: seq<byte>)
    requires Groups(b) && |b| <= 10
    ensures ReadField(8 * n, b + t) == Some((Varint(n, GroupsValue(b) % 18_446_744_073_709_551_616), t))
  {
    ReadsNumber(b, t);
  }

  // A length beyond what a 32-bit int holds, or beyond the input, is refused.
  lemma BytesRead(n: nat, b: seq<byte>, t: seq<byte>)
    requires Groups(b) && |b| <= 10
    ensures var k := GroupsValue(b) % 4_294_967_296;
      ReadField(8 * n + 2, b + t) ==
        if k > 2_147_483_647 || k > |t| then None else Some((Bytes(n, t[..k]), t[k..]))
  {
    ReadsNumber(b, t);
  }

  // A group ends at the end tag of its own number and at no other, and not at a tag zero.
  lemma GroupEnds(n: nat, b: seq<byte>, t: seq<byte>)
    requires Groups(b) && |b| <= 10
    ensures var tag := GroupsValue(b) % 4_294_967_296;
      && (tag == 8 * n + 4 ==> ReadGroup(n, b + t) == Some(([], t)))
      && (tag == 0 || (tag % 8 == 4 && tag / 8 != n) ==> ReadGroup(n, b + t) == None)
  {
    ReadsNumber(b, t);
  }

  // ---------------------------------------------------------------- sizes

  function VarintSize(n: nat): nat { if n < 128 then 1 else 1 + VarintSize(n / 128) }

  lemma {:induction false} VarintSizeIsLength(n: nat)
    ensures VarintSize(n) == |WriteVarint(n)|
  {
    if n >= 128 {
      VarintSizeIsLength(n / 128);
    }
  }

  // WireFormat::ComputeUnknownFieldsSize.
  function FieldSize(f: Field): nat
    decreases f, 0
  {
    VarintSize(Tag(f)) + match f
      case Varint(_, v) => VarintSize(v)
      case Fixed64(_, _) => 8
      case Bytes(_, data) => VarintSize(|data|) + |data|
      case Group(num, fields) => FieldsSize(fields) + VarintSize(8 * num + END_GROUP)
      case Fixed32(_, _) => 4
  }

  function FieldsSize(fs: seq<Field>): nat
    decreases fs, 1
  {
    if fs == [] then 0 else FieldSize(fs[0]) + FieldsSize(fs[1..])
  }

  lemma {:induction false} FieldSizeIsLength(f: Field)
    requires FieldOk(f)
    ensures FieldSize(f) == |WriteField(f)|
    decreases f, 0
  {
    VarintSizeIsLength(Tag(f));
    match f
    case Varint(_, v) => VarintSizeIsLength(v);
    case Bytes(_, data) => VarintSizeIsLength(|data|);
    case Group(num, fields) =>
      FieldsSizeIsLength(fields);
      VarintSizeIsLength(8 * num + END_GROUP);
    case _ =>
  }

  lemma {:induction false} FieldsSizeIsLength(fs: seq<Field>)
    requires FieldsOk(fs)
    ensures FieldsSize(fs) == |WriteFields(fs)|
    decreases fs, 1
  {
    if fs != [] {
      FieldSizeIsLength(fs[0]);
      FieldsSizeIsLength(fs[1..]);
    }
  }
}
