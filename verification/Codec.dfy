/**
 The messages Request and Response of inspect.proto as values: one optional bytes field
 `json` with number 1, and the fields the program does not know.  Parsing, serializing,
 sizing and merging follow inspect.pb.cc; the two messages have the same code.
 */
module Codec {
  import opened Options
  import opened Wire

  datatype Msg = Msg(has: bool, json: seq<byte>, unknown: seq<Field>)

  const EMPTY: Msg := Msg(false, [], [])

  // Field 1, length-delimited.
  const JSON_TAG: nat := 10

  // ---------------------------------------------------------------- parsing

  // How the loop of MergePartialFromCodedStream ends: at the end of the input, early at
  // something that is not the end of the input (which ParseFromZeroCopyStream rejects as not
  // consumed), or in failure.
  datatype Outcome = Ended(m: Msg) | Stopped(m: Msg) | Failed

  // One turn of the loop on message m with s in front.  A malformed tag reads as tag zero.
  datatype Turn = Done(o: Outcome) | Again(m: Msg, rest: seq<byte>)

  function ParseTurn(m: Msg, s: seq<byte>): (r: Turn)
    ensures r.Again? ==> |r.rest| < |s|
  {
    if s == [] then Done(Ended(m))
    else match ReadU32(s)
      case None => Done(Stopped(m))
      case Some((tag, rest)) =>
        if tag == JSON_TAG then
          match ReadBytes(rest)
          case None => Done(Failed)
          case Some((data, rest2)) => Again(m.(has := true, json := data), rest2)
        else if tag == 0 || tag % 8 == END_GROUP then Done(Stopped(m))
        else
          match ReadField(tag, rest)
          case None => Done(Failed)
          case Some((f, rest2)) => Again(m.(unknown := m.unknown + [f]), rest2)
  }

  function ParseOnto(m: Msg, s: seq<byte>): Outcome
    decreases |s|
  {
    match ParseTurn(m, s)
    case Done(o) => o
    case Again(m2, rest) => ParseOnto(m2, rest)
  }

  function Parse(s: seq<byte>): Outcome { ParseOnto(EMPTY, s) }

  // ---------------------------------------------------------------- merging

  function MergeFrom(to: Msg, from: Msg): Msg {
    Msg(to.has || from.has, if from.has then from.json else to.json, to.unknown + from.unknown)
  }

  function MergeOutcome(to: Msg, o: Outcome): Outcome {
    match o
    case Ended(m) => Ended(MergeFrom(to, m))
    case Stopped(m) => Stopped(MergeFrom(to, m))
    case Failed => Failed
  }

  // ---------------------------------------------------------------- serializing and sizes

  function Serialize(m: Msg): seq<byte> {
    (if m.has then WriteVarint(JSON_TAG) + WriteBytes(m.json) else []) + WriteFields(m.unknown)
  }

  function ByteSize(m: Msg): nat {
    (if m.has then 1 + VarintSize(|m.json|) + |m.json| else 0) + FieldsSize(m.unknown)
  }

  // Messages that parsing produces.
  ghost predicate MsgOk(m: Msg) {
    && (!m.has ==> m.json == [])
    && |m.json| <= INT_MAX
    && FieldsOk(m.unknown)
    && (forall f | f in m.unknown :: Tag(f) != JSON_TAG)
  }

  lemma SizeIsLength(m: Msg)
    requires MsgOk(m)
    ensures ByteSize(m) == |Serialize(m)|
  {
    VarintSizeIsLength(|m.json|);
    FieldsSizeIsLength(m.unknown);
  }

  // ---------------------------------------------------------------- what parsing keeps

  lemma {:induction false} ParseKeepsOk(m: Msg, s: seq<byte>)
    requires MsgOk(m)
    ensures var o := ParseOnto(m, s); !o.Failed? ==> MsgOk(o.m)
    decreases |s|
  {
    match ParseTurn(m, s)
    case Done(_) =>
    case Again(m2, rest) => ParseKeepsOk(m2, rest);
  }

  // ---------------------------------------------------------------- concatenation is merge

  // Parsing onto a message is parsing from scratch and merging.
  lemma {:induction false} ParseOntoMerges(to: Msg, m: Msg, s: seq<byte>)
    ensures ParseOnto(MergeFrom(to, m), s) == MergeOutcome(to, ParseOnto(m, s))
    decreases |s|
  {
    match ParseTurn(m, s)
    case Done(_) =>
    case Again(m2, rest) =>
      assert forall f :: to.unknown + m.unknown + [f] == to.unknown + (m.unknown + [f]);
      assert ParseTurn(MergeFrom(to, m), s) == Again(MergeFrom(to, m2), rest);
      ParseOntoMerges(to, m2, rest);
  }

  // Input behind a completely parsed input is parsed onto its message.
  lemma {:induction false} ParseContinues(m: Msg, a: seq<byte>, b: seq<byte>)
    requires ParseOnto(m, a).Ended?
    ensures ParseOnto(m, a + b) == ParseOnto(ParseOnto(m, a).m, b)
    decreases |a|
  {
    if a == [] {
      assert a + b == b;
    } else {
      VarintExtends(a, MAX_VARINT_BYTES, b);
      var (tag, rest) := ReadU32(a).value;
      if tag == JSON_TAG {
        BytesExtend(rest, b);
      } else {
        FieldExtends(tag, rest, b);
      }
      var Again(m2, rest2) := ParseTurn(m, a);
      assert ParseTurn(m, a + b) == Again(m2, rest2 + b);
      ParseContinues(m2, rest2, b);
    }
  }

  // If a and b each parse completely, so does a ++ b, and it gives the two messages merged:
  // the last json wins and the unknown fields are appended in order.
  lemma ConcatenationIsMerge(a: seq<byte>, b: seq<byte>)
    requires Parse(a).Ended? && Parse(b).Ended?
    ensures Parse(a + b) == Ended(MergeFrom(Parse(a).m, Parse(b).m))
  {
    ParseContinues(EMPTY, a, b);
    ParseOntoMerges(Parse(a).m, EMPTY, b);
    assert MergeFrom(Parse(a).m, EMPTY) == Parse(a).m by {
      assert Parse(a).m.unknown + [] == Parse(a).m.unknown;
    }
  }

  // ---------------------------------------------------------------- round trips

  lemma {:induction false} FieldsParse(m: Msg, fs: seq<Field>)
    requires FieldsOk(fs) && forall f | f in fs :: Tag(f) != JSON_TAG
    ensures ParseOnto(m, WriteFields(fs)) == Ended(m.(unknown := m.unknown + fs))
    decreases |fs|
  {
    if fs == [] {
      assert m.unknown + fs == m.unknown;
    } else {
      var f, rest := fs[0], WriteFields(fs[1..]);
      FieldParses(m, f, rest);
      FieldsParse(m.(unknown := m.unknown + [f]), fs[1..]);
      assert m.unknown + [f] + fs[1..] == m.unknown + fs;
    }
  }

  lemma FieldParses(m: Msg, f: Field, rest: seq<byte>)
    requires FieldOk(f) && Tag(f) != JSON_TAG
    ensures ParseTurn(m, WriteField(f) + rest) == Again(m.(unknown := m.unknown + [f]), rest)
  {
    FieldRoundTrip(f, rest);
    TagIsNoEnd(f);
  }

  // Parsing the serialization of a message gives the message back.
  lemma RoundTrip(m: Msg)
    requires MsgOk(m)
    ensures Parse(Serialize(m)) == Ended(m)
  {
    var fields := WriteFields(m.unknown);
    if m.has {
      var s := Serialize(m);
      assert s == WriteVarint(JSON_TAG) + (WriteBytes(m.json) + fields);
      U32RoundTrip(JSON_TAG, WriteBytes(m.json) + fields);
      BytesRoundTrip(m.json, fields);
      assert ParseTurn(EMPTY, s) == Again(Msg(true, m.json, []), fields);
      FieldsParse(Msg(true, m.json, []), m.unknown);
    } else {
      assert Serialize(m) == fields;
      FieldsParse(EMPTY, m.unknown);
    }
    assert [] + m.unknown == m.unknown;
  }

  // ---------------------------------------------------------------- the bytes of a message

  // A message with json is the byte 10, the length in groups, and the json.
  lemma JsonForm(d: seq<byte>)
    ensures exists b :: Groups(b) && GroupsValue(b) == |d| && Serialize(Msg(true, d, [])) == [10] + b + d
    ensures |d| < 128 ==> Serialize(Msg(true, d, [])) == [10, |d|] + d
  {
    var b := WriteVarint(|d|);
    VarintForm(|d|);
    assert Serialize(Msg(true, d, [])) == [10] + b + d;
    assert |d| < 128 ==> [10] + [|d|] == [10, |d|];
  }

  // Unknown fields follow it, one behind the other.
  lemma MessageForm(m: Msg)
    ensures Serialize(m) == (if m.has then Serialize(Msg(true, m.json, [])) else []) + WriteFields(m.unknown)
  {
    assert WriteBytes(m.json) + [] == WriteBytes(m.json);
  }

  // Any groups of the tag 10 and of the length are read.
  lemma JsonParses(g: seq<byte>, b: seq<byte>, d: seq<byte>)
    requires Groups(g) && |g| <= 10 && GroupsValue(g) % 4_294_967_296 == 10
    requires Groups(b) && |b| <= 10 && GroupsValue(b) % 4_294_967_296 == |d| <= 2_147_483_647
    ensures Parse(g + b + d) == Ended(Msg(true, d, []))
  {
    var s := g + b + d;
    assert s == g + (b + d);
    ReadsNumber(g, b + d);
    ReadsNumber(b, d);
    TakeRoundTrip(d, []);
    assert d + [] == d;
    assert ParseTurn(EMPTY, s) == Again(Msg(true, d, []), []);
    assert ParseOnto(Msg(true, d, []), []) == Ended(Msg(true, d, []));
  }

  lemma ShortJsonParses(d: seq<byte>)
    requires |d| < 128
    ensures Parse([10, |d|] + d) == Ended(Msg(true, d, []))
  {
    OneGroup(10);
    OneGroup(|d|);
    assert [10] + [|d|] + d == [10, |d|] + d;
    JsonParses([10], [|d|], d);
  }

  lemma OneGroup(n: nat)
    requires n < 128
    ensures Groups([n]) && GroupsValue([n]) == n
  {
    assert [n][..0] == [] && Pow128(0) == 1;
  }

  // A message ends early at a tag zero, at an end of a group, and where no tag can be read.
  lemma StopsAt(m: Msg, b: seq<byte>, t: seq<byte>)
    requires Groups(b)
    ensures var tag := GroupsValue(b) % 4_294_967_296;
      |b| > 10 || tag == 0 || tag % 8 == 4 ==> ParseOnto(m, b + t) == Stopped(m)
  {
    ReadsNumber(b, t);
  }

  // Some inputs, byte by byte: the empty one and a short json,
  lemma CompleteInputs()
    ensures Parse([]) == Ended(Msg(false, [], [])) && Parse([10, 1, 97]) == Ended(Msg(true, [97], []))
  {
    ShortJsonParses([97]);
    assert [10, 1] + [97] == [10, 1, 97];
  }

  // tag zero, the end of a group, and bytes that are no tag,
  lemma StoppedInputs()
    ensures Parse([0]) == Stopped(Msg(false, [], [])) == Parse([12]) && Parse([138]) == Stopped(Msg(false, [], []))
  {
    OneGroup(0);
    OneGroup(12);
    NoGroups([138], 10);
    StopsAt(EMPTY, [0], []);
    StopsAt(EMPTY, [12], []);
    assert [0] + [] == [0] && [12] + [] == [12];
  }

  // a json that is cut off, a wire type that there is not, and a group that ends as another,
  lemma FailedInputs()
    ensures Parse([10, 2, 97]) == Failed && Parse([14]) == Failed && Parse([11, 20]) == Failed
  {
    CutOffJson();
    OneGroup(14);
    ReadsNumber([14], []);
    NothingRead(1, [], 6);
    assert [14] + [] == [14];
    WrongEnd();
  }

  lemma WrongEnd()
    ensures Parse([11, 20]) == Failed
  {
    OneGroup(11);
    OneGroup(20);
    ReadsNumber([11], [20]);
    GroupEnds(1, [20], []);
    assert [11] + [20] == [11, 20] && [20] + [] == [20];
  }

  lemma CutOffJson()
    ensures Parse([10, 2, 97]) == Failed
  {
    OneGroup(10);
    OneGroup(2);
    ReadsNumber([10], [2, 97]);
    ReadsNumber([2], [97]);
    assert [10] + [2, 97] == [10, 2, 97] && [2] + [97] == [2, 97];
  }

  // a number and a group under number 1, and bytes under number 2.
  lemma UnknownNumber()
    ensures Parse([8, 5]) == Ended(Msg(false, [], [Varint(1, 5)]))
  {
    assert [8, 5][1..] == [5] && [5][1..] == [];
    assert ReadField(8, [5]) == Some((Varint(1, 5), []));
    assert ParseTurn(EMPTY, [8, 5]) == Again(Msg(false, [], [] + [Varint(1, 5)]), []);
  }

  lemma UnknownGroup()
    ensures Parse([11, 12]) == Ended(Msg(false, [], [Group(1, [])]))
  {
    assert [11, 12][1..] == [12] && [12][1..] == [];
    assert ReadField(11, [12]) == Some((Group(1, []), []));
    assert ParseTurn(EMPTY, [11, 12]) == Again(Msg(false, [], [] + [Group(1, [])]), []);
  }

  lemma UnknownBytes()
    ensures Parse([18, 1, 97]) == Ended(Msg(false, [], [Bytes(2, [97])]))
  {
    assert [18, 1, 97][1..] == [1, 97] && [1, 97][1..] == [97] && [97][1..] == [] && [97][..1] == [97];
    assert ReadField(18, [1, 97]) == Some((Bytes(2, [97]), []));
    assert ParseTurn(EMPTY, [18, 1, 97]) == Again(Msg(false, [], [] + [Bytes(2, [97])]), []);
  }

  // On every accepted input, parsing what was parsed and serialized changes nothing, even
  // where the input used longer encodings or another field order.
  lemma ParseSerializeParse(s: seq<byte>)
    requires Parse(s).Ended?
    ensures Parse(Serialize(Parse(s).m)) == Parse(s)
  {
    ParseKeepsOk(EMPTY, s);
    RoundTrip(Parse(s).m);
  }

  // Serialization is canonical: it tells messages apart.
  lemma SerializeInjective(a: Msg, b: Msg)
    requires MsgOk(a) && MsgOk(b) && Serialize(a) == Serialize(b)
    ensures a == b
  {
    RoundTrip(a);
    RoundTrip(b);
  }

  // The serialization of a merge parses like the two serializations one after the other.
  lemma MergeOfSerializations(a: Msg, b: Msg)
    requires MsgOk(a) && MsgOk(b)
    ensures Parse(Serialize(a) + Serialize(b)) == Parse(Serialize(MergeFrom(a, b)))
  {
    RoundTrip(a);
    RoundTrip(b);
    ConcatenationIsMerge(Serialize(a), Serialize(b));
    RoundTrip(MergeFrom(a, b));
  }
}
