/**
 * The WebKit deserializer as the source writes it: methods that move one shared reader and append to
 * two pools, with loops that fill maps, sets and lists (ee/katc/deserialize_webkit.go). Each method
 * refines the function of the same role in WebkitSpec.
 */
module WebkitDeserializer {
  import opened Bytes
  import opened WebkitSpec

  class Deserializer {
    const c: Codec
    const reader: Reader
    var stringPool: seq<Text>
    var objectPool: seq<Text>

    ghost predicate Valid()
      reads this, reader
    {
      reader.Valid()
    }

    ghost function Now(): (st: State)
      requires Valid()
      reads this, reader
    {
      State(reader.Rest(), Pools(stringPool, objectPool))
    }

    /** The method returned what the specification says, and the deserializer is in the state it says. */
    ghost predicate Did<T>(r: Option<T>, out: Out<T>)
      requires Valid()
      reads this, reader
    {
      if r.None? then out.Err? else out == Ok(r.value, Now())
    }

    constructor (c: Codec, src: Text)
      ensures Valid() && fresh(reader) && this.c == c
      ensures Now() == State(src, Pools([], []))
    {
      this.c := c;
      this.reader := new Reader(src);
      stringPool, objectPool := [], [];
    }

    method Deserialize() returns (r: Option<map<Text, Text>>)
      requires Valid() && stringPool == [] && objectPool == []
      modifies this, reader
      ensures Valid()
      ensures Did(r, ReadDocument(c, old(reader.Rest())))
    {
      var version := reader.ReadUint(4);
      if version.None? {
        return None;
      }
      var tag := reader.ReadByte();
      if tag.None? || tag.value != ObjectTag {
        return None;
      }
      r := DeserializeObject();
    }

    method DeserializeObject() returns (r: Option<map<Text, Text>>)
      requires Valid()
      modifies this, reader
      ensures Valid()
      ensures Did(r, ReadFields(c, old(Now()), map[]))
      decreases |Now().rest|, 1
    {
      var obj: map<Text, Text> := map[];
      while true
        invariant Valid() && |Now().rest| <= |old(Now()).rest|
        invariant ReadFields(c, Now(), obj) == ReadFields(c, old(Now()), map[])
        decreases |Now().rest|
      {
        var name := DeserializeStringData();
        if name.None? {
          return None;
        }
        if name.value.Terminator? {
          return Some(obj);
        }
        var val := DeserializeValue();
        if val.None? {
          return None;
        }
        obj := obj[name.value.text := val.value];
      }
    }

    method DeserializeValue() returns (r: Option<Text>)
      requires Valid()
      modifies this, reader
      ensures Valid()
      ensures Did(r, ReadValue(c, old(Now())))
      decreases |Now().rest|, 0
    {
      var tag := reader.ReadByte();
      if tag.None? {
        return None;
      }
      if tag.value == ArrayTag {
        r := DeserializeArray();
      } else if tag.value == ObjectTag {
        r := DeserializeNestedObject();
      } else if tag.value == MapObjectTag {
        r := DeserializeMapData();
      } else if tag.value == SetObjectTag {
        r := DeserializeSetData();
      } else {
        r := DeserializeTerminal(tag.value);
      }
    }

    method AddToObjectPool(val: Text)
      requires Valid()
      modifies this
      ensures Valid()
      ensures Now() == old(Now()).AddObject(val)
    {
      objectPool := objectPool + [val];
    }

    method DeserializeTerminal(tag: byte) returns (r: Option<Text>)
      requires Valid()
      modifies this, reader
      ensures Valid()
      ensures Did(r, ReadTerminal(c, tag, old(Now())))
    {
      r := ConstantText(tag);
      if r.Some? {
        return;
      }
      if IsBoxed(tag) {
        r := DeserializeBoxed(tag);
        if r.Some? {
          AddToObjectPool(r.value);
        }
      } else {
        r := DeserializePlain(tag);
      }
    }

    /** The cases of DeserializeValue for terminals that do not join the object pool. */
    method DeserializePlain(tag: byte) returns (r: Option<Text>)
      requires Valid()
      modifies this, reader
      ensures Valid()
      ensures Did(r, ReadPlain(c, tag, old(Now())))
    {
      if tag == IntTag {
        var d := reader.ReadUint(4);
        r := if d.None? then None else Some(c.formatInt(ToInt32(d.value)));
      } else if tag == DateTag || tag == DoubleTag {
        r := DeserializeDouble();
      } else if tag == StringTag {
        r := DeserializeString();
      } else if tag == RegExpTag {
        r := DeserializeRegexp();
      } else if tag == ObjectReferenceTag {
        r := FromObjectPool();
      } else if tag == ErrorInstanceTag {
        r := DeserializeError();
      } else {
        r := None;
      }
    }

    /** The cases of DeserializeValue for terminals that join the object pool. */
    method DeserializeBoxed(tag: byte) returns (r: Option<Text>)
      requires Valid()
      requires IsBoxed(tag)
      modifies this, reader
      ensures Valid()
      ensures Did(r, ReadBoxed(c, tag, old(Now())))
    {
      if tag == ArrayBufferViewTag {
        r := DeserializeArrayBufferView();
      } else if tag == TrueObjectTag {
        r := Some(Ascii("true"));
      } else if tag == FalseObjectTag {
        r := Some(Ascii("false"));
      } else if tag == StringObjectTag {
        r := DeserializeString();
      } else if tag == EmptyStringObjectTag {
        r := Some([]);
      } else {
        r := DeserializeDouble();
      }
    }

    method DeserializeNestedObject() returns (r: Option<Text>)
      requires Valid()
      modifies this, reader
      ensures Valid()
      ensures Did(r, ReadNestedObject(c, old(Now())))
      decreases |Now().rest|, 2
    {
      var nested := DeserializeObject();
      if nested.None? {
        return None;
      }
      r := Some(c.marshalMap(nested.value));
      AddToObjectPool(r.value);
    }

    method DeserializeArray() returns (r: Option<Text>)
      requires Valid()
      modifies this, reader
      ensures Valid()
      ensures Did(r, ReadArray(c, old(Now())))
      decreases |Now().rest|, 2
    {
      var length := reader.ReadUint(4);
      if length.None? {
        return None;
      }
      var items := DeserializeItems(length.value);
      if items.None? {
        return None;
      }
      var ok := SkipArrayProperties();
      if !ok {
        return None;
      }
      r := Some(c.marshalList(items.value));
      AddToObjectPool(r.value);
    }

    /** The loop of DeserializeArray that fills the list by index. */
    method DeserializeItems(length: nat) returns (r: Option<seq<Text>>)
      requires Valid()
      modifies this, reader
      ensures Valid()
      ensures Did(r, ReadItems(c, old(Now()), seq(length, _ => [])))
      decreases |Now().rest|, 1
    {
      var list: seq<Text> := seq(length, _ => []);
      ghost var empty := list;
      while true
        invariant Valid() && |Now().rest| <= |old(Now()).rest| && |list| == length
        invariant ReadItems(c, Now(), list) == ReadItems(c, old(Now()), empty)
        decreases |Now().rest|
      {
        var index := reader.ReadUint(4);
        if index.None? {
          return None;
        }
        if index.value == TerminatorTag {
          return Some(list);
        }
        if index.value >= length {
          return None;
        }
        var val := DeserializeValue();
        if val.None? {
          return None;
        }
        list := list[index.value := val.value];
      }
    }

    /** What DeserializeArray reads after the items. */
    method SkipArrayProperties() returns (ok: bool)
      requires Valid()
      modifies this, reader
      ensures Valid()
      ensures Did(if ok then Some(()) else None, ReadArrayProperties(c, old(Now())))
      decreases |Now().rest|, 2
    {
      var start := reader.ReadUint(4);
      if start.None? {
        return false;
      }
      if start.value == NonIndexPropertiesTag {
        ok := ReadAndDiscardProperties();
      } else {
        ok := start.value == TerminatorTag;
      }
    }

    method ReadAndDiscardProperties() returns (ok: bool)
      requires Valid()
      modifies this, reader
      ensures Valid()
      ensures var r := ReadFields(c, old(Now()), map[]);
        if ok then r.Ok? && r.st == Now() else r.Err?
      decreases |Now().rest|, 1
    {
      ghost var seen: map<Text, Text> := map[];
      while true
        invariant Valid() && |Now().rest| <= |old(Now()).rest|
        invariant ReadFields(c, Now(), seen) == ReadFields(c, old(Now()), map[])
        decreases |Now().rest|
      {
        var name := DeserializeStringData();
        if name.None? {
          return false;
        }
        if name.value.Terminator? {
          return true;
        }
        var val := DeserializeValue();
        if val.None? {
          return false;
        }
        seen := seen[name.value.text := val.value];
      }
    }

    method DeserializeMapData() returns (r: Option<Text>)
      requires Valid()
      modifies this, reader
      ensures Valid()
      ensures Did(r, ReadMapData(c, old(Now())))
      decreases |Now().rest|, 2
    {
      var entries := DeserializeEntries();
      if entries.None? {
        return None;
      }
      var ok := ReadAndDiscardProperties();
      if !ok {
        return None;
      }
      r := Some(c.marshalMap(entries.value));
      AddToObjectPool(r.value);
    }

    /** The loop of DeserializeMapData: peek at the tag, put it back, read a key and a value. */
    method DeserializeEntries() returns (r: Option<map<Text, Text>>)
      requires Valid()
      modifies this, reader
      ensures Valid()
      ensures Did(r, ReadEntries(c, old(Now()), map[]))
      decreases |Now().rest|, 1
    {
      var entries: map<Text, Text> := map[];
      while true
        invariant Valid() && |Now().rest| <= |old(Now()).rest|
        invariant ReadEntries(c, Now(), entries) == ReadEntries(c, old(Now()), map[])
        decreases |Now().rest|
      {
        var peeked := PeekTag(NonMapPropertiesTag);
        if peeked.None? {
          return None;
        }
        if peeked.value {
          return Some(entries);
        }
        var key := DeserializeValue();
        if key.None? {
          return None;
        }
        var val := DeserializeValue();
        if val.None? {
          return None;
        }
        entries := entries[key.value := val.value];
      }
    }

    /** Reads one byte; if it is not `stop`, unreads it. */
    method PeekTag(stop: byte) returns (r: Option<bool>)
      requires Valid()
      modifies reader
      ensures Valid()
      ensures r.None? <==> old(Now()).rest == []
      ensures r.Some? ==> r.value == (old(Now()).rest[0] == stop)
      ensures r.Some? ==> Now() == if r.value then ReadByte(old(Now())).st else old(Now())
    {
      var tag := reader.ReadByte();
      if tag.None? {
        return None;
      }
      if tag.value == stop {
        return Some(true);
      }
      var ok := reader.UnreadByte();
      return Some(false);
    }

    method DeserializeSetData() returns (r: Option<Text>)
      requires Valid()
      modifies this, reader
      ensures Valid()
      ensures Did(r, ReadSetData(c, old(Now())))
      decreases |Now().rest|, 2
    {
      var elems := DeserializeElems();
      if elems.None? {
        return None;
      }
      var ok := ReadAndDiscardProperties();
      if !ok {
        return None;
      }
      r := Some(c.marshalSet(elems.value));
      AddToObjectPool(r.value);
    }

    /** The loop of DeserializeSetData. */
    method DeserializeElems() returns (r: Option<set<Text>>)
      requires Valid()
      modifies this, reader
      ensures Valid()
      ensures Did(r, ReadElems(c, old(Now()), {}))
      decreases |Now().rest|, 1
    {
      var elems: set<Text> := {};
      while true
        invariant Valid() && |Now().rest| <= |old(Now()).rest|
        invariant ReadElems(c, Now(), elems) == ReadElems(c, old(Now()), {})
        decreases |Now().rest|
      {
        var peeked := PeekTag(NonSetPropertiesTag);
        if peeked.None? {
          return None;
        }
        if peeked.value {
          return Some(elems);
        }
        var key := DeserializeValue();
        if key.None? {
          return None;
        }
        elems := elems + {key.value};
      }
    }

    method DeserializeStringData() returns (r: Option<StringRead>)
      requires Valid()
      modifies this, reader
      ensures Valid()
      ensures Did(r, ReadStringData(c, old(Now())))
    {
      var meta := reader.ReadUint(4);
      if meta.None? {
        return None;
      }
      if meta.value == TerminatorTag {
        return Some(Terminator);
      }
      if meta.value == StringPoolTag {
        var pooled := FromStringPool();
        r := if pooled.None? then None else Some(Str(pooled.value));
        return;
      }
      r := DeserializeNewString(meta.value);
    }

    /** The part of DeserializeStringData that reads a string for the first time and pools it. */
    method DeserializeNewString(meta: nat) returns (r: Option<StringRead>)
      requires Valid()
      modifies this, reader
      ensures Valid()
      ensures Did(r, ReadNewString(c, meta, old(Now())))
    {
      var is8Bit := meta >= Is8BitFlag;
      var numBytes := if is8Bit then meta - Is8BitFlag else meta * 2;
      var raw := reader.ReadFull(numBytes);
      if raw.None? {
        return None;
      }
      var decoded := if is8Bit then Some(c.latin1(raw.value)) else c.utf16(raw.value);
      if decoded.None? {
        return None;
      }
      stringPool := stringPool + [decoded.value];
      r := Some(Str(decoded.value));
    }

    /** StringData whose terminator, if it is one, counts as an empty string. */
    method DeserializeString() returns (r: Option<Text>)
      requires Valid()
      modifies this, reader
      ensures Valid()
      ensures Did(r, ReadString(c, old(Now())))
    {
      var s := DeserializeStringData();
      r := if s.None? then None else Some(s.value.Text());
    }

    method FromStringPool() returns (r: Option<Text>)
      requires Valid()
      modifies reader
      ensures Valid()
      ensures Did(r, FromPool(old(Now()), stringPool))
    {
      var index := ReadPoolIndex(|stringPool|);
      r := if index.None? || index.value >= |stringPool| then None else Some(stringPool[index.value]);
    }

    method FromObjectPool() returns (r: Option<Text>)
      requires Valid()
      modifies reader
      ensures Valid()
      ensures Did(r, FromPool(old(Now()), objectPool))
    {
      var index := ReadPoolIndex(|objectPool|);
      r := if index.None? || index.value >= |objectPool| then None else Some(objectPool[index.value]);
    }

    method ReadPoolIndex(size: nat) returns (r: Option<nat>)
      requires Valid()
      modifies reader
      ensures Valid()
      ensures Did(r, ReadUint(old(Now()), IndexWidth(size)))
    {
      if size <= 255 {
        r := reader.ReadUint(1);
      } else if size <= 65535 {
        r := reader.ReadUint(2);
      } else {
        r := reader.ReadUint(4);
      }
    }

    method DeserializeDouble() returns (r: Option<Text>)
      requires Valid()
      modifies reader
      ensures Valid()
      ensures Did(r, ReadDouble(c, old(Now())))
    {
      var bits := reader.ReadFull(8);
      r := if bits.None? then None else Some(c.formatDouble(bits.value));
    }

    method DeserializeRegexp() returns (r: Option<Text>)
      requires Valid()
      modifies this, reader
      ensures Valid()
      ensures Did(r, ReadRegExp(c, old(Now())))
    {
      var pattern := DeserializeString();
      if pattern.None? {
        return None;
      }
      var flags := DeserializeString();
      if flags.None? {
        return None;
      }
      r := Some(['/' as byte] + pattern.value + ['/' as byte] + flags.value);
    }

    method DeserializeArrayBufferView() returns (r: Option<Text>)
      requires Valid()
      modifies this, reader
      ensures Valid()
      ensures Did(r, ReadView(old(Now())))
    {
      var subtag := reader.ReadByte();
      if subtag.None? {
        return None;
      }
      var byteOffset := reader.ReadUint(8);
      if byteOffset.None? {
        return None;
      }
      var byteLength := reader.ReadUint(8);
      if byteLength.None? {
        return None;
      }
      var tag := reader.ReadByte();
      if tag.None? {
        return None;
      }
      r := DeserializeBuffer(tag.value);
    }

    /** The switch of DeserializeArrayBufferView on the kind of buffer. */
    method DeserializeBuffer(tag: byte) returns (r: Option<Text>)
      requires Valid()
      modifies this, reader
      ensures Valid()
      ensures Did(r, ReadBuffer(tag, old(Now())))
    {
      if tag == ArrayBufferTag {
        r := DeserializeArrayBuffer(false);
      } else if tag == ResizableArrayBufferTag {
        r := DeserializeArrayBuffer(true);
      } else if tag == ObjectReferenceTag {
        r := FromObjectPool();
      } else {
        r := None;
      }
    }

    method DeserializeArrayBuffer(resizable: bool) returns (r: Option<Text>)
      requires Valid()
      modifies this, reader
      ensures Valid()
      ensures Did(r, if resizable then ReadResizableArrayBuffer(old(Now())) else ReadArrayBuffer(old(Now())))
    {
      var length := reader.ReadUint(8);
      if length.None? {
        return None;
      }
      if resizable {
        var maxLength := reader.ReadUint(8);
        if maxLength.None? {
          return None;
        }
      }
      r := reader.Read(length.value);
      if r.Some? {
        AddToObjectPool(r.value);
      }
    }

    method DeserializeNullableString() returns (r: Option<Text>)
      requires Valid()
      modifies this, reader
      ensures Valid()
      ensures Did(r, ReadNullable(c, old(Now())))
    {
      var isNull := reader.ReadByte();
      if isNull.None? {
        return None;
      }
      if isNull.value == 1 {
        return Some([]);
      }
      r := DeserializeString();
    }

    method DeserializeError() returns (r: Option<Text>)
      requires Valid()
      modifies this, reader
      ensures Valid()
      ensures Did(r, ReadError(c, old(Now())))
    {
      var kind := reader.ReadByte();
      if kind.None? {
        return None;
      }
      var name := ErrorNameOf(kind.value);
      if name.None? {
        return None;
      }
      var message := DeserializeNullableString();
      if message.None? {
        return None;
      }
      var line := reader.ReadUint(4);
      if line.None? {
        return None;
      }
      var column := reader.ReadUint(4);
      if column.None? {
        return None;
      }
      r := DeserializeErrorOrigin(name.value, message.value, line.value, column.value);
    }

    /** The second half of DeserializeError. */
    method DeserializeErrorOrigin(name: ErrorName, message: Text, line: nat, column: nat) returns (r: Option<Text>)
      requires Valid()
      modifies this, reader
      ensures Valid()
      ensures Did(r, ReadErrorOrigin(c, name, message, line, column, old(Now())))
    {
      var sourceUrl := DeserializeNullableString();
      if sourceUrl.None? {
        return None;
      }
      var stack := DeserializeNullableString();
      if stack.None? {
        return None;
      }
      var cause := DeserializeNullableString();
      if cause.None? {
        return None;
      }
      r := Some(c.marshalError(ErrorFields(name, message, line, column, sourceUrl.value, stack.value, cause.value)));
    }
  }
}
