/**
 Request and Response as objects: the has-bit, the pointer to the json string, which starts
 out at one empty string shared by the whole program, and the unknown fields.  Every method
 is proved against the values of module Codec, and keeps the strings of all messages apart.
 */
module Message {
  import opened Options
  import opened Wire
  import opened Codec
  import opened Streams

  // std::string
  class Str {
    var value: seq<byte>

    constructor ()
      ensures value == []
    {
      value := [];
    }
  }

  // The messages of a program and who owns each string on the heap: a message, or nobody but
  // the caller it was handed to.  `empty` is GetEmptyStringAlreadyInited().
  class World {
    const empty: Str
    ghost var messages: set<Message>
    ghost var owner: map<Str, Option<Message>>

    constructor ()
      ensures Sound() && messages == {} && owner == map[]
    {
      var e := new Str();
      empty := e;
      messages, owner := {}, map[];
    }

    ghost function Footprint(): set<object>
      reads this, messages
    {
      {this, empty} + messages + (set m | m in messages :: m.json)
    }

    // Each string a message points to is the shared one or owned by that message alone, a
    // string owned by a message is that message's json, and a message without the has-bit
    // has an empty json.
    ghost predicate Sound()
      reads Footprint()
    {
      && empty.value == []
      && empty !in owner
      && (forall m | m in messages :: m.world == this && m.Valid())
      && (forall m | m in messages && m.json != empty :: m.json in owner && owner[m.json] == Some(m))
      && (forall s | s in owner && owner[s].Some? :: owner[s].value in messages && owner[s].value.json == s)
    }

    // The string is on the heap and belongs to the caller.
    ghost predicate Lent(s: Str)
      reads this
    {
      s in owner && owner[s].None?
    }

    ghost method ExchangeOwners(m: Message, n: Message)
      modifies `owner
      ensures owner.Keys == old(owner.Keys)
      ensures forall s | s in owner ::
        owner[s] == (if old(owner[s]) == Some(m) then Some(n)
                     else if old(owner[s]) == Some(n) then Some(m) else old(owner[s]))
    {
      owner := map s | s in owner ::
        if owner[s] == Some(m) then Some(n) else if owner[s] == Some(n) then Some(m) else owner[s];
    }

    // No two messages own the same string.
    lemma Unshared(m: Message, n: Message)
      requires Sound() && m in messages && n in messages && m != n
      ensures m.json == n.json ==> m.json == empty
    {
    }

    // A caller's `new std::string`.
    method NewString() returns (s: Str)
      requires Sound()
      modifies this
      ensures Sound() && fresh(s) && s.value == [] && messages == old(messages)
      ensures owner == old(owner)[s := None]
      ensures Others({})
    {
      s := new Str();
      owner := owner[s := None];
    }

    // Every message outside ms keeps its value.
    twostate predicate Others(ms: set<Message>)
      reads Footprint()
    {
      && old(messages) - ms <= messages
      && forall m | m in old(messages) && m !in ms :: m.Value() == old(m.Value())
    }

    // A caller writes through a string pointer it once got from mutable_json.  The world stays
    // sound exactly if no message without the has-bit still points there.
    method WriteThrough(s: Str, v: seq<byte>)
      requires Sound() && s in owner
      modifies s
      ensures s.value == v
      ensures Sound() <==> (v == [] || forall m | m in messages :: m.json == s ==> m.hasJson)
    {
      s.value := v;
    }
  }

  class Message {
    const world: World
    var json: Str
    var hasJson: bool
    var unknown: seq<Field>
    var cachedSize: int

    ghost predicate Valid()
      reads this, json
    {
      && (hasJson ==> json != world.empty)
      && (!hasJson ==> json.value == [])
    }

    ghost function Value(): Msg
      reads this, json
    {
      Msg(hasJson, json.value, unknown)
    }

    ghost predicate In()
      reads world, world.Footprint()
    {
      this in world.messages && world.Sound()
    }

    // SharedCtor
    constructor (w: World)
      requires w.Sound()
      modifies w
      ensures world == w && In() && Value() == EMPTY && cachedSize == 0
      ensures w.messages == old(w.messages) + {this} && w.owner == old(w.owner)
      ensures w.Others({})
    {
      world, json, hasJson, unknown, cachedSize := w, w.empty, false, [], 0;
      new;
      w.messages := w.messages + {this};
    }

    // SharedDtor
    method Destroy()
      requires In()
      modifies world
      ensures world.Sound() && world.messages == old(world.messages) - {this}
      ensures world.owner == old(world.owner) - {json}
      ensures world.Others({this})
    {
      if json != world.empty {
        world.owner := world.owner - {json};
      }
      world.messages := world.messages - {this};
    }

    method MutableJson() returns (s: Str)
      requires In()
      modifies this, world`owner
      ensures In() && s == json && hasJson && s != world.empty && world.owner.Keys == old(world.owner.Keys) + {s}
      ensures fresh(s) || s == old(json)
      ensures Value() == old(Value()).(has := true)
      ensures world.messages == old(world.messages) && world.Others({this})
    {
      hasJson := true;
      if json == world.empty {
        json := new Str();
        world.owner := world.owner[json := Some(this)];
      }
      s := json;
    }

    method SetJson(v: seq<byte>)
      requires In()
      modifies this, json, world`owner
      ensures In() && (fresh(json) || json == old(json))
      ensures Value() == old(Value()).(has := true, json := v)
      ensures world.messages == old(world.messages) && world.Others({this})
    {
      var s := MutableJson();
      s.value := v;
    }

    method ClearJson()
      requires In()
      modifies this, json
      ensures In() && json == old(json) && Value() == old(Value()).(has := false, json := [])
      ensures world.Others({this})
    {
      if json != world.empty {
        json.value := [];
      }
      hasJson := false;
    }

    // The string goes to the caller, with its content; there is none if the message never had one.
    method ReleaseJson() returns (s: Str?)
      requires In()
      modifies this, world`owner
      ensures In() && json == world.empty && Value() == old(Value()).(has := false, json := [])
      ensures s == null <==> old(json) == world.empty
      ensures s != null ==> s == old(json) && world.Lent(s) && s.value == old(json.value)
      ensures s == null ==> world.owner == old(world.owner) && !old(hasJson)
      ensures world.Others({this})
    {
      hasJson := false;
      if json == world.empty {
        s := null;
      } else {
        s := json;
        json := world.empty;
        world.owner := world.owner[s := None];
      }
    }

    // The string of the message is deleted, and the message takes over the caller's.
    method SetAllocatedJson(s: Str?)
      requires In() && (s != null ==> world.Lent(s))
      modifies this, world`owner
      ensures In() && json == (if s == null then world.empty else s)
      ensures Value() == old(Value()).(has := s != null, json := if s == null then [] else s.value)
      ensures world.owner.Keys == old(world.owner.Keys - {json})
      ensures world.Others({this})
    {
      if json != world.empty {
        world.owner := world.owner - {json};
      }
      if s != null {
        hasJson, json := true, s;
        world.owner := world.owner[s := Some(this)];
      } else {
        hasJson, json := false, world.empty;
      }
    }

    // A caller makes a string and hands it over: the message has it as after set_json.
    method SetOwnJson(v: seq<byte>)
      requires In()
      modifies this, world
      ensures In() && fresh(json) && Value() == old(Value()).(has := true, json := v)
      ensures world.messages == old(world.messages) && world.Others({this})
    {
      var s := world.NewString();
      world.WriteThrough(s, v);
      SetAllocatedJson(s);
    }

    // What one message releases is given to another: the string moves with its content, and the
    // receiver has the has-bit exactly if there was a string, be it one that was cleared.
    method TakeJson(from: Message)
      requires In() && from.In() && from.world == world && from != this
      modifies this, from, world`owner
      ensures In() && from.In() && json == old(from.json) && from.json == world.empty
      ensures Value() == old(Value()).(has := old(from.json) != world.empty, json := old(from.json.value))
      ensures from.Value() == old(from.Value()).(has := false, json := [])
      ensures world.Others({this, from})
    {
      var s := from.ReleaseJson();
      SetAllocatedJson(s);
    }

    method Clear()
      requires In()
      modifies this, json
      ensures In() && json == old(json) && Value() == EMPTY
      ensures world.Others({this})
    {
      if hasJson {
        if json != world.empty {
          json.value := [];
        }
      }
      hasJson, unknown := false, [];
    }

    method MergeFrom(from: Message)
      requires In() && from.In() && from.world == world && from != this
      modifies this, json, world`owner
      ensures In() && (fresh(json) || json == old(json)) && Value() == Codec.MergeFrom(old(Value()), from.Value())
      ensures world.messages == old(world.messages) && world.Others({this})
    {
      if from.hasJson {
        SetJson(from.json.value);
      }
      unknown := unknown + from.unknown;
    }

    method CopyFrom(from: Message)
      requires In() && from.In() && from.world == world
      modifies this, json, world`owner
      ensures In() && Value() == old(from.Value())
      ensures world.messages == old(world.messages) && world.Others({this})
    {
      if from == this {
        return;
      }
      Clear();
      MergeFrom(from);
    }

    method Exchange(other: Message)
      modifies this, other
      ensures json == old(other.json) && other.json == old(json)
      ensures hasJson == old(other.hasJson) && other.hasJson == old(hasJson)
      ensures unknown == old(other.unknown) && other.unknown == old(unknown)
      ensures cachedSize == old(other.cachedSize) && other.cachedSize == old(cachedSize)
    {
      json, other.json := other.json, json;
      hasJson, other.hasJson := other.hasJson, hasJson;
      unknown, other.unknown := other.unknown, unknown;
      cachedSize, other.cachedSize := other.cachedSize, cachedSize;
    }

    // The strings change places; no bytes are copied.
    method Swap(other: Message)
      requires In() && other.In() && other.world == world
      modifies this, other, world`owner
      ensures In() && Value() == old(other.Value()) && other.Value() == old(Value())
      ensures json == old(other.json) && other.json == old(json)
      ensures cachedSize == old(other.cachedSize) && other.cachedSize == old(cachedSize)
      ensures world.messages == old(world.messages) && world.owner.Keys == old(world.owner.Keys)
      ensures world.Others({this, other})
    {
      if other != this {
        Exchange(other);
        world.ExchangeOwners(this, other);
        assert Valid() && other.Valid();
      }
    }

    // Tag 10: the string is made before its bytes are read, so a failed read leaves it behind.
    method ParseJson(input: Input) returns (ok: bool)
      requires In()
      modifies this, json, world`owner, input`rest
      ensures In() && world.messages == old(world.messages) && world.Others({this})
      ensures fresh(json) || json == old(json)
      ensures match ReadBytes(old(input.rest))
        case None => !ok
        case Some((data, after)) => ok && Value() == old(Value()).(has := true, json := data) && input.rest == after
    {
      var s := MutableJson();
      var data := input.ReadString();
      ok := data.Some?;
      if ok {
        s.value := data.value;
      }
    }

    // handle_unusual, for a tag that does not end the message
    method ParseUnknown(tag: nat, input: Input) returns (ok: bool)
      modifies `unknown, input`rest
      ensures match ReadField(tag, old(input.rest))
        case None => !ok && unknown == old(unknown)
        case Some((f, after)) => ok && unknown == old(unknown) + [f] && input.rest == after
    {
      var field := input.SkipField(tag);
      ok := field.Some?;
      if ok {
        unknown := unknown + [field.value];
      }
    }

    // One turn of the loop: it goes on, or it leaves with success or failure.
    method ParseOne(input: Input) returns (more: bool, ok: bool)
      requires In()
      modifies this, json, world`owner, input
      ensures In() && world.messages == old(world.messages) && world.Others({this})
      ensures fresh(json) || json == old(json)
      ensures match ParseTurn(old(Value()), old(input.rest))
        case Done(o) =>
          && !more && (ok <==> !o.Failed?)
          && (ok ==> Value() == o.m && (input.ended <==> o.Ended?))
        case Again(m, rest) =>
          && Value() == m && input.rest == rest
          && ok && (!more ==> rest == [] && input.ended)
    {
      var tag := input.ReadTag();
      if tag / 8 == 1 && tag == JSON_TAG {
        ok := ParseJson(input);
        if !ok {
          return false, false;
        }
        var atEnd := input.ExpectAtEnd();
        more := !atEnd;
      } else if tag == 0 || tag % 8 == END_GROUP {
        return false, true;
      } else {
        ok := ParseUnknown(tag, input);
        more := ok;
      }
    }

    // Success with the input not at its end means the loop stopped at something only an
    // enclosing message could have meant.
    method MergePartialFromCodedStream(input: Input) returns (ok: bool)
      requires In()
      modifies this, json, world`owner, input
      ensures In() && world.messages == old(world.messages) && world.Others({this})
      ensures fresh(json) || json == old(json)
      ensures var o := ParseOnto(old(Value()), old(input.rest));
        && (ok <==> !o.Failed?)
        && (ok ==> Value() == o.m && (input.ended <==> o.Ended?))
    {
      ghost var goal := ParseOnto(Value(), input.rest);
      var more := true;
      ok := true;
      while more
        invariant In() && world.messages == old(world.messages) && world.Others({this})
        invariant fresh(json) || json == old(json)
        invariant more ==> ParseOnto(Value(), input.rest) == goal
        invariant !more ==>
          && (ok <==> !goal.Failed?)
          && (ok ==> Value() == goal.m && (input.ended <==> goal.Ended?))
        decreases more, |input.rest|
      {
        more, ok := ParseOne(input);
      }
    }

    // Message::ParseFromZeroCopyStream
    method ParseFrom(input: Input) returns (ok: bool)
      requires In()
      modifies this, json, world`owner, input
      ensures In() && world.messages == old(world.messages) && world.Others({this})
      ensures ok <==> Parse(old(input.rest)).Ended?
      ensures ok ==> Value() == Parse(old(input.rest)).m
    {
      Clear();
      ok := MergePartialFromCodedStream(input);
      ok := ok && input.ended;
    }

    method SerializeWithCachedSizes(output: Output)
      modifies output
      ensures output.bytes == old(output.bytes) + Serialize(Value())
    {
      if hasJson {
        output.WriteVarint(JSON_TAG);
        output.WriteString(json.value);
      }
      if unknown != [] {
        output.WriteUnknowns(unknown);
      }
    }

    // WireFormatLite::WriteBytesToArray
    method WriteJsonToArray(a: array<byte>, target: nat) returns (end: nat)
      requires target + |WriteVarint(JSON_TAG) + WriteBytes(json.value)| <= a.Length
      modifies a
      ensures end == target + |WriteVarint(JSON_TAG) + WriteBytes(json.value)|
      ensures a[..] == Patch(old(a[..]), target, WriteVarint(JSON_TAG) + WriteBytes(json.value))
    {
      ghost var first, second := WriteVarint(JSON_TAG), WriteBytes(json.value);
      PatchAfter(a[..], target, first, second);
      end := WriteVarintToArray(JSON_TAG, a, target);
      end := WriteStringToArray(json.value, a, end);
    }

    method SerializeWithCachedSizesToArray(a: array<byte>, target: nat) returns (end: nat)
      requires target + |Serialize(Value())| <= a.Length
      modifies a
      ensures end == target + |Serialize(Value())|
      ensures a[..] == Patch(old(a[..]), target, Serialize(Value()))
    {
      end := target;
      PatchNothing(a[..], target);
      ghost var first := if hasJson then WriteVarint(JSON_TAG) + WriteBytes(json.value) else [];
      assert Serialize(Value()) == first + WriteFields(unknown);
      if hasJson {
        end := WriteJsonToArray(a, end);
      }
      PatchAfter(old(a[..]), target, first, WriteFields(unknown));
      if unknown != [] {
        end := WriteUnknownsToArray(unknown, a, end);
      }
    }

    // The size of the serialization, kept for the serializer.
    method ByteSize() returns (size: int)
      requires MsgOk(Value()) && |Serialize(Value())| <= INT_MAX
      modifies `cachedSize
      ensures size == cachedSize == |Serialize(Value())|
    {
      SizeIsLength(Value());
      size := 0;
      if hasJson {
        size := size + 1 + VarintSize(|json.value|) + |json.value|;
      }
      if unknown != [] {
        size := size + FieldsSize(unknown);
      }
      cachedSize := size;
    }

    // Message::SerializeToString and ParseFromString between two messages of the program.
    method SendTo(other: Message) returns (ok: bool)
      requires In() && other.In() && other.world == world && other != this && MsgOk(Value())
      modifies other, other.json, world`owner
      ensures In() && other.In() && ok
      ensures Value() == old(Value()) && other.Value() == Value()
    {
      var output := new Output();
      SerializeWithCachedSizes(output);
      assert output.bytes == Serialize(Value());
      RoundTrip(Value());
      var input := new Input(output.bytes);
      ok := other.ParseFrom(input);
    }
  }
}
