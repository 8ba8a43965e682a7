/**
 The ends of the codec: a coded input stream, a coded output stream, and the writers into a
 byte array, each written as the library's step-by-step code and proved against the functions
 of module Wire.
 */
module Streams {
  import opened Options
  import opened Wire

  // CodedInputStream
  class Input {
    var rest: seq<byte>
    // legitimate_message_end_: the last tag read was the end of the input.
    var ended: bool

    constructor (data: seq<byte>)
      ensures rest == data && !ended
    {
      rest, ended := data, false;
    }

    // Tag zero stands for the end of the input and for a malformed tag.
    method ReadTag() returns (tag: nat)
      modifies this
      ensures ended == (old(rest) == [])
      ensures match ReadU32(old(rest))
        case None => tag == 0
        case Some((t, after)) => tag == t && rest == after
    {
      ended, tag := rest == [], 0;
      var r := ReadU32(rest);
      if r.Some? {
        tag, rest := r.value.0, r.value.1;
      }
    }

    method ExpectAtEnd() returns (atEnd: bool)
      modifies `ended
      ensures atEnd == (rest == []) && ended == (atEnd || old(ended))
    {
      atEnd := rest == [];
      if atEnd {
        ended := true;
      }
    }

    method ReadString() returns (r: Option<seq<byte>>)
      modifies `rest
      ensures match ReadBytes(old(rest))
        case None => r.None?
        case Some((data, after)) => r == Some(data) && rest == after
    {
      var p := ReadBytes(rest);
      if p.None? {
        return None;
      }
      rest := p.value.1;
      return Some(p.value.0);
    }

    method SkipField(tag: nat) returns (r: Option<Field>)
      modifies `rest
      ensures match ReadField(tag, old(rest))
        case None => r.None?
        case Some((f, after)) => r == Some(f) && rest == after
    {
      var p := ReadField(tag, rest);
      if p.None? {
        return None;
      }
      rest := p.value.1;
      return Some(p.value.0);
    }
  }

  lemma {:induction false} WriteFieldsSnoc(fs: seq<Field>, f: Field)
    ensures WriteFields(fs + [f]) == WriteFields(fs) + WriteField(f)
  {
    if fs == [] {
      assert fs + [f] == [f] && WriteFields([f][1..]) == [];
    } else {
      assert (fs + [f])[0] == fs[0] && (fs + [f])[1..] == fs[1..] + [f];
      WriteFieldsSnoc(fs[1..], f);
    }
  }

  // CodedOutputStream
  class Output {
    var bytes: seq<byte>

    constructor ()
      ensures bytes == []
    {
      bytes := [];
    }

    method WriteRaw(data: seq<byte>)
      modifies this
      ensures bytes == old(bytes) + data
    {
      bytes := bytes + data;
    }

    method WriteVarint(n: nat)
      modifies this
      ensures bytes == old(bytes) + Wire.WriteVarint(n)
    {
      var v := n;
      while v >= 128
        invariant bytes + Wire.WriteVarint(v) == old(bytes) + Wire.WriteVarint(n)
      {
        assert Wire.WriteVarint(v) == [v % 128 + 128] + Wire.WriteVarint(v / 128);
        WriteRaw([v % 128 + 128]);
        v := v / 128;
      }
      WriteRaw([v]);
    }

    method WriteString(data: seq<byte>)
      modifies this
      ensures bytes == old(bytes) + WriteBytes(data)
    {
      WriteVarint(|data|);
      WriteRaw(data);
    }

    method WriteUnknown(f: Field)
      modifies this
      ensures bytes == old(bytes) + WriteField(f)
      decreases f, 1
    {
      var tag := Tag(f);
      ghost var first, second := Wire.WriteVarint(tag), Payload(f);
      assert WriteField(f) == first + second;
      WriteVarint(tag);
      WritePayload(f);
    }

    method WritePayload(f: Field)
      modifies this
      ensures bytes == old(bytes) + Payload(f)
      decreases f, 0
    {
      match f
      case Varint(_, v) => WriteVarint(v);
      case Fixed64(_, data) => WriteRaw(data);
      case Bytes(_, data) => WriteString(data);
      case Group(num, fields) =>
        WriteUnknowns(fields);
        WriteVarint(8 * num + END_GROUP);
      case Fixed32(_, data) => WriteRaw(data);
    }

    // WireFormat::SerializeUnknownFields
    method WriteUnknowns(fs: seq<Field>)
      modifies this
      ensures bytes == old(bytes) + WriteFields(fs)
      decreases fs, 2
    {
      for i := 0 to |fs|
        invariant bytes == old(bytes) + WriteFields(fs[..i])
      {
        assert fs[..i + 1] == fs[..i] + [fs[i]];
        WriteFieldsSnoc(fs[..i], fs[i]);
        WriteUnknown(fs[i]);
      }
      assert fs[..|fs|] == fs;
    }
  }

  // ---------------------------------------------------------------- into an array

  // s with `data` written at `at`, and nothing else changed.
  function Patch(s: seq<byte>, at: nat, data: seq<byte>): (r: seq<byte>)
    requires at + |data| <= |s|
    ensures |r| == |s|
  {
    s[..at] + data + s[at + |data|..]
  }

  lemma PatchNothing(s: seq<byte>, at: nat)
    requires at <= |s|
    ensures Patch(s, at, []) == s
  {
  }

  lemma PatchAfter(s: seq<byte>, at: nat, one: seq<byte>, two: seq<byte>)
    requires at + |one| + |two| <= |s|
    ensures Patch(Patch(s, at, one), at + |one|, two) == Patch(s, at, one + two)
  {
    var m := Patch(s, at, one);
    var e := at + |one|;
    assert m[..e] == s[..at] + one && m[e + |two|..] == s[e + |two|..];
  }

  // *target++ = b
  method PutByte(b: byte, a: array<byte>, target: nat) returns (end: nat)
    requires target < a.Length
    modifies a
    ensures end == target + 1 && a[..] == Patch(old(a[..]), target, [b])
  {
    a[target] := b;
    end := target + 1;
  }

  // The next byte behind those that were put at `from`.
  method PutNext(b: byte, a: array<byte>, target: nat, ghost s: seq<byte>, ghost from: nat, ghost before: seq<byte>)
    returns (end: nat)
    requires from + |before| == target < a.Length == |s| && a[..] == Patch(s, from, before)
    modifies a
    ensures end == target + 1 && a[..] == Patch(s, from, before + [b])
  {
    PatchAfter(s, from, before, [b]);
    end := PutByte(b, a, target);
  }

  // WriteRawToArray
  method WriteRawToArray(data: seq<byte>, a: array<byte>, target: nat) returns (end: nat)
    requires target + |data| <= a.Length
    modifies a
    ensures end == target + |data| && a[..] == Patch(old(a[..]), target, data)
  {
    ghost var s := a[..];
    end := target;
    PatchNothing(s, target);
    for i := 0 to |data|
      invariant end == target + i && a[..] == Patch(s, target, data[..i])
    {
      assert data[..i + 1] == data[..i] + [data[i]];
      end := PutNext(data[i], a, end, s, target, data[..i]);
    }
    assert data[..|data|] == data;
  }

  // The groups of n written so far, with v still to be written.
  ghost predicate Varints(n: nat, before: seq<byte>, v: nat) {
    before + WriteVarint(v) == WriteVarint(n) && |before| < |WriteVarint(n)|
  }

  lemma VarintsStep(n: nat, before: seq<byte>, v: nat)
    requires Varints(n, before, v)
    ensures if v >= 128 then Varints(n, before + [v % 128 + 128], v / 128) else before + [v] == WriteVarint(n)
  {
    if v >= 128 {
      assert before + ([v % 128 + 128] + WriteVarint(v / 128)) == before + [v % 128 + 128] + WriteVarint(v / 128);
    }
  }

  // WriteVarint32ToArray, WriteVarint64ToArray
  method WriteVarintToArray(n: nat, a: array<byte>, target: nat) returns (end: nat)
    requires target + |WriteVarint(n)| <= a.Length
    modifies a
    ensures end == target + |WriteVarint(n)| && a[..] == Patch(old(a[..]), target, WriteVarint(n))
  {
    ghost var s, before: seq<byte> := a[..], [];
    var v := n;
    end := target;
    PatchNothing(s, target);
    while v >= 128
      invariant Varints(n, before, v) && end == target + |before|
      invariant a[..] == Patch(s, target, before)
    {
      VarintsStep(n, before, v);
      end := PutNext(v % 128 + 128, a, end, s, target, before);
      before, v := before + [v % 128 + 128], v / 128;
    }
    VarintsStep(n, before, v);
    end := PutNext(v, a, end, s, target, before);
  }

  // WriteBytesWithSizeToArray
  method WriteStringToArray(data: seq<byte>, a: array<byte>, target: nat) returns (end: nat)
    requires target + |WriteBytes(data)| <= a.Length
    modifies a
    ensures end == target + |WriteBytes(data)| && a[..] == Patch(old(a[..]), target, WriteBytes(data))
  {
    PatchAfter(a[..], target, WriteVarint(|data|), data);
    end := WriteVarintToArray(|data|, a, target);
    end := WriteRawToArray(data, a, end);
  }

  method WriteUnknownToArray(f: Field, a: array<byte>, target: nat) returns (end: nat)
    requires target + |WriteField(f)| <= a.Length
    modifies a
    ensures end == target + |WriteField(f)| && a[..] == Patch(old(a[..]), target, WriteField(f))
    decreases f, 1
  {
    var tag := Tag(f);
    ghost var first, second := WriteVarint(tag), Payload(f);
    assert WriteField(f) == first + second;
    PatchAfter(a[..], target, first, second);
    end := WriteVarintToArray(tag, a, target);
    end := WritePayloadToArray(f, a, end);
  }

  method WritePayloadToArray(f: Field, a: array<byte>, target: nat) returns (end: nat)
    requires target + |Payload(f)| <= a.Length
    modifies a
    ensures end == target + |Payload(f)| && a[..] == Patch(old(a[..]), target, Payload(f))
    decreases f, 0
  {
    match f
    case Varint(_, v) => end := WriteVarintToArray(v, a, target);
    case Fixed64(_, data) => end := WriteRawToArray(data, a, target);
    case Bytes(_, data) => end := WriteStringToArray(data, a, target);
    case Group(num, fields) =>
      PatchAfter(a[..], target, WriteFields(fields), WriteVarint(8 * num + END_GROUP));
      end := WriteUnknownsToArray(fields, a, target);
      end := WriteVarintToArray(8 * num + END_GROUP, a, end);
    case Fixed32(_, data) => end := WriteRawToArray(data, a, target);
  }

  // WireFormat::SerializeUnknownFieldsToArray
  method WriteUnknownsToArray(fs: seq<Field>, a: array<byte>, target: nat) returns (end: nat)
    requires target + |WriteFields(fs)| <= a.Length
    modifies a
    ensures end == target + |WriteFields(fs)| && a[..] == Patch(old(a[..]), target, WriteFields(fs))
    decreases fs, 2
  {
    end := target;
    PatchNothing(a[..], target);
    for i := 0 to |fs|
      invariant end == target + |WriteFields(fs[..i])| <= a.Length
      invariant a[..] == Patch(old(a[..]), target, WriteFields(fs[..i]))
    {
      WriteFieldsStep(fs, i);
      PatchAfter(old(a[..]), target, WriteFields(fs[..i]), WriteField(fs[i]));
      end := WriteUnknownToArray(fs[i], a, end);
    }
    assert fs[..|fs|] == fs;
  }

  lemma WriteFieldsStep(fs: seq<Field>, i: nat)
    requires i < |fs|
    ensures WriteFields(fs[..i + 1]) == WriteFields(fs[..i]) + WriteField(fs[i])
    ensures |WriteFields(fs[..i])| + |WriteField(fs[i])| <= |WriteFields(fs)|
  {
    assert fs[..i + 1] == fs[..i] + [fs[i]];
    WriteFieldsSnoc(fs[..i], fs[i]);
    WriteFieldsPrefix(fs, i + 1);
  }

  lemma {:induction false} WriteFieldsPrefix(fs: seq<Field>, i: nat)
    requires i <= |fs|
    ensures |WriteFields(fs[..i])| <= |WriteFields(fs)|
    decreases |fs| - i
  {
    if i == |fs| {
      assert fs[..i] == fs;
    } else {
      assert fs[..i + 1] == fs[..i] + [fs[i]];
      WriteFieldsSnoc(fs[..i], fs[i]);
      WriteFieldsPrefix(fs, i + 1);
    }
  }
}
