/**
 * The V8 reader as the source writes it: functions that move one shared reader, with loops that fill
 * maps, sets and lists (ee/indexeddb/values.go). Each method refines the function of the same role in
 * V8Spec, down to how much input is left after a failure.
 */
module V8Deserializer {
  import opened Bytes
  import opened Varint
  import opened V8Spec

  /** The method returned what the specification says and left the reader where it says. */
  ghost predicate Did<T>(reader: Reader, r: Option<T>, out: Out<T>)
    requires reader.Valid()
    reads reader
  {
    out == if r.None? then Err(reader.Rest()) else Ok(r.value, reader.Rest())
  }

  method NextNonPaddingByte(reader: Reader) returns (r: Option<byte>)
    requires reader.Valid()
    modifies reader
    ensures reader.Valid()
    ensures Did(reader, r, NextNonPadding(old(reader.Rest())))
  {
    while true
      invariant reader.Valid()
      invariant NextNonPadding(reader.Rest()) == NextNonPadding(old(reader.Rest()))
      decreases |reader.Rest()|
    {
      var b := reader.ReadByte();
      if b.None? {
        return None;
      }
      if b.value == Padding {
        continue;
      }
      return b;
    }
  }

  method DeserializeAsciiStr(reader: Reader) returns (r: Option<Text>)
    requires reader.Valid()
    modifies reader
    ensures reader.Valid()
    ensures Did(reader, r, ReadAscii(old(reader.Rest())))
  {
    var strLen := ReadUvarintFrom(reader);
    if strLen.None? {
      return None;
    }
    r := reader.ReadFull(strLen.value);
  }

  method DeserializeUtf16Str(c: Codec, reader: Reader) returns (r: Option<Text>)
    requires reader.Valid()
    modifies reader
    ensures reader.Valid()
    ensures Did(reader, r, ReadUtf16(c, old(reader.Rest())))
  {
    var raw := DeserializeAsciiStr(reader);
    if raw.None? {
      return None;
    }
    r := c.utf16(raw.value);
  }

  method DeserializeStringObject(c: Codec, reader: Reader) returns (r: Option<Text>)
    requires reader.Valid()
    modifies reader
    ensures reader.Valid()
    ensures Did(reader, r, ReadStringObject(c, old(reader.Rest())))
  {
    var token := NextNonPaddingByte(reader);
    if token.None? {
      return None;
    }
    if token.value == AsciiStr || token.value == Utf8Str {
      r := DeserializeAsciiStr(reader);
    } else if token.value == Utf16Str {
      r := DeserializeUtf16Str(c, reader);
    } else {
      r := None;
    }
  }

  method DeserializeRegexp(c: Codec, reader: Reader) returns (r: Option<Text>)
    requires reader.Valid()
    modifies reader
    ensures reader.Valid()
    ensures Did(reader, r, ReadRegexp(c, old(reader.Rest())))
  {
    var token := NextNonPaddingByte(reader);
    if token.None? || token.value != AsciiStr {
      return None;
    }
    var pattern := DeserializeAsciiStr(reader);
    if pattern.None? {
      return None;
    }
    var flags := ReadUvarintFrom(reader);
    if flags.None? {
      return None;
    }
    r := Some(['/' as byte] + pattern.value + ['/' as byte] + c.regexpFlags(flags.value));
  }

  method DeserializeInt(c: Codec, reader: Reader) returns (r: Option<Text>)
    requires reader.Valid()
    modifies reader
    ensures reader.Valid()
    ensures Did(reader, r, ReadInt(c, old(reader.Rest())))
  {
    var n := ReadVarintFrom(reader);
    r := if n.None? then None else Some(c.formatInt(n.value));
  }

  method DeserializeDouble(c: Codec, reader: Reader) returns (r: Option<Text>)
    requires reader.Valid()
    modifies reader
    ensures reader.Valid()
    ensures Did(reader, r, ReadDouble(c, old(reader.Rest())))
  {
    var bits := reader.ReadFull(8);
    r := if bits.None? then None else Some(c.formatDouble(bits.value));
  }

  method DeserializeBigInt(reader: Reader) returns (r: Option<Text>)
    requires reader.Valid()
    modifies reader
    ensures reader.Valid()
    ensures Did(reader, r, ReadBigInt(old(reader.Rest())))
  {
    var bitfield := ReadUvarintFrom(reader);
    if bitfield.None? {
      return None;
    }
    var digits := reader.ReadFull(bitfield.value % 0x1_0000_0000 / 2);
    if digits.None? {
      return None;
    }
    r := Some(if bitfield.value % 2 == 1 then Ascii("-?n") else Ascii("?n"));
  }

  method DeserializePresumablyEmptyArrayBufferView(reader: Reader) returns (r: Option<Text>)
    requires reader.Valid()
    modifies reader
    ensures reader.Valid()
    ensures Did(reader, r, ReadBareView(old(reader.Rest())))
  {
    var tag := reader.ReadByte();
    if tag.None? {
      return None;
    }
    var byteOffset := ReadUvarintFrom(reader);
    if byteOffset.None? {
      return None;
    }
    var byteLength := ReadUvarintFrom(reader);
    if byteLength.None? || byteLength.value != 0 {
      return None;
    }
    var end := reader.ReadByte();
    if end.None? || end.value != 3 {
      return None;
    }
    r := Some(Ascii("[]"));
  }

  method DeserializeArrayBuffer(c: Codec, reader: Reader) returns (r: Option<Text>)
    requires reader.Valid()
    modifies reader
    ensures reader.Valid()
    ensures Did(reader, r, ReadArrayBuffer(c, old(reader.Rest())))
  {
    var raw := DeserializeAsciiStr(reader);
    if raw.None? {
      return None;
    }
    var token := reader.ReadByte();
    if token.None? {
      return None;
    }
    if token.value != ArrayBufferView {
      var ok := reader.UnreadByte();
      return raw;
    }
    r := InterpretView(c, raw.value, reader);
  }

  /** The part of DeserializeArrayBuffer that reads the view after the buffer. */
  method InterpretView(c: Codec, raw: Text, reader: Reader) returns (r: Option<Text>)
    requires reader.Valid()
    modifies reader
    ensures reader.Valid()
    ensures Did(reader, r, ReadView(c, raw, old(reader.Rest())))
  {
    var tag := reader.ReadByte();
    if tag.None? {
      return None;
    }
    var byteOffset := ReadUvarintFrom(reader);
    if byteOffset.None? {
      return None;
    }
    var byteLength := ReadUvarintFrom(reader);
    if byteLength.None? {
      return None;
    }
    var flags := ReadUvarintFrom(reader);
    if flags.None? {
      return None;
    }
    if tag.value == DataView || byteLength.value == 0xFFFF_FFFF_FFFF_FFFF {
      return Some(raw);
    }
    var skipped := SkippedBytes(byteOffset.value);
    if skipped > |raw| || !IsTypedArray(tag.value) {
      return None;
    }
    r := Some(c.marshalTyped(tag.value, raw[skipped..]));
  }

  method DeserializeText(c: Codec, token: byte, reader: Reader) returns (r: Option<Text>)
    requires reader.Valid()
    modifies reader
    ensures reader.Valid()
    ensures Did(reader, r, ReadText(c, token, old(reader.Rest())))
  {
    if token == Utf8Str || token == AsciiStr {
      r := DeserializeAsciiStr(reader);
    } else if token == Utf16Str {
      r := DeserializeUtf16Str(c, reader);
    } else if token == StringObj {
      r := DeserializeStringObject(c, reader);
    } else {
      r := DeserializeRegexp(c, reader);
    }
  }

  method DeserializeNumber(c: Codec, token: byte, reader: Reader) returns (r: Option<Text>)
    requires reader.Valid()
    modifies reader
    ensures reader.Valid()
    ensures Did(reader, r, ReadNumber(c, token, old(reader.Rest())))
  {
    if token == Int32 {
      r := DeserializeInt(c, reader);
    } else if token == Double || token == NumberObj {
      r := DeserializeDouble(c, reader);
    } else if token == BigInt || token == BigIntObj {
      r := DeserializeBigInt(reader);
    } else {
      var bits := reader.ReadFull(8);
      r := if bits.None? then None else Some(c.formatDate(bits.value));
    }
  }

  /** The cases of DeserializeNext that read no other value. */
  method DeserializeScalar(c: Codec, token: byte, reader: Reader) returns (r: Option<Text>)
    requires reader.Valid() && IsScalar(token)
    modifies reader
    ensures reader.Valid()
    ensures Did(reader, r, ReadScalar(c, token, old(reader.Rest())))
  {
    if token == True || token == TrueObj {
      r := Some(Ascii("true"));
    } else if token == False || token == FalseObj {
      r := Some(Ascii("false"));
    } else if token == Undefined || token == Null {
      r := Some([]);
    } else if token == ArrayBuffer {
      r := DeserializeArrayBuffer(c, reader);
    } else if token == ObjReference {
      var id := ReadUvarintFrom(reader);
      r := if id.None? then None else Some(c.formatObjectId(id.value));
    } else if token == ArrayBufferView {
      r := DeserializePresumablyEmptyArrayBufferView(reader);
    } else if token in {Utf8Str, AsciiStr, Utf16Str, StringObj, Regexp} {
      r := DeserializeText(c, token, reader);
    } else {
      r := DeserializeNumber(c, token, reader);
    }
  }

  /** Dispatches on the token; padding, holes and unknown tokens are passed over until a token is known. */
  method DeserializeNext(c: Codec, token: byte, reader: Reader) returns (r: Option<Text>)
    requires reader.Valid()
    modifies reader
    ensures reader.Valid()
    ensures Did(reader, r, ReadNext(c, token, old(reader.Rest())))
    decreases |reader.Rest()|, 2
  {
    var next := token;
    while IsNoise(next)
      invariant reader.Valid() && |reader.Rest()| <= |old(reader.Rest())|
      invariant ReadNext(c, next, reader.Rest()) == ReadNext(c, token, old(reader.Rest()))
      decreases |reader.Rest()|
    {
      var b := NextNonPaddingByte(reader);
      if b.None? {
        return None;
      }
      next := b.value;
    }
    if IsContainer(next) {
      r := DeserializeContainer(c, next, reader);
    } else if IsScalar(next) {
      r := DeserializeScalar(c, next, reader);
    } else {
      r := None;
    }
  }

  /** The cases of DeserializeNext that read other values. */
  method DeserializeContainer(c: Codec, token: byte, reader: Reader) returns (r: Option<Text>)
    requires reader.Valid() && IsContainer(token)
    modifies reader
    ensures reader.Valid()
    ensures Did(reader, r, ReadContainer(c, token, old(reader.Rest())))
    decreases |reader.Rest()|, 1
  {
    if token == ObjectBegin {
      var m := DeserializeObject(c, reader);
      r := if m.None? then None else Some(c.marshalMap(m.value));
    } else if token == BeginSparseArray {
      r := DeserializeSparseArray(c, reader);
    } else if token == BeginDenseArray {
      r := DeserializeDenseArray(c, reader);
    } else if token == MapBegin {
      var m := DeserializeMap(c, reader);
      r := if m.None? then None else Some(c.marshalMap(m.value));
    } else if token == SetBegin {
      var e := DeserializeSet(c, reader);
      r := if e.None? then None else Some(c.marshalSet(e.value));
    } else {
      var e := DeserializeError(c, reader);
      r := Some(e);
    }
  }

  method DeserializePropertyName(c: Codec, token: byte, reader: Reader) returns (r: Option<Text>)
    requires reader.Valid()
    modifies reader
    ensures reader.Valid()
    ensures Did(reader, r, ReadPropertyName(c, token, old(reader.Rest())))
  {
    if token == AsciiStr {
      r := DeserializeAsciiStr(reader);
    } else if token == Utf16Str {
      r := DeserializeUtf16Str(c, reader);
    } else if token == Int32 {
      r := DeserializeInt(c, reader);
    } else if token == Uint32 {
      var n := ReadUvarintFrom(reader);
      r := if n.None? then None else Some(c.formatInt(ToInt64(n.value)));
    } else if token == Double {
      r := DeserializeDouble(c, reader);
    } else {
      var peeked := reader.ReadByte();
      r := None;
    }
  }

  method DeserializeObject(c: Codec, reader: Reader) returns (r: Option<map<Text, Text>>)
    requires reader.Valid()
    modifies reader
    ensures reader.Valid()
    ensures Did(reader, r, ReadObject(c, old(reader.Rest()), map[]))
    decreases |reader.Rest()|, 0
  {
    var obj: map<Text, Text> := map[];
    while true
      invariant reader.Valid() && |reader.Rest()| <= |old(reader.Rest())|
      invariant ReadObject(c, reader.Rest(), obj) == ReadObject(c, old(reader.Rest()), map[])
      decreases |reader.Rest()|
    {
      var start := NextNonPaddingByte(reader);
      if start.None? {
        return None;
      }
      if start.value == ObjectEnd {
        var count := ReadVarintFrom(reader);
        return Some(obj);
      }
      var name := DeserializePropertyName(c, start.value, reader);
      if name.None? {
        return None;
      }
      var token := NextNonPaddingByte(reader);
      if token.None? {
        return None;
      }
      var val := DeserializeNext(c, token.value, reader);
      if val.None? {
        return None;
      }
      obj := obj[name.value := val.value];
    }
  }

  method DeserializeDenseArray(c: Codec, reader: Reader) returns (r: Option<Text>)
    requires reader.Valid()
    modifies reader
    ensures reader.Valid()
    ensures Did(reader, r, ReadContainer(c, BeginDenseArray, old(reader.Rest())))
    decreases |reader.Rest()|, 0
  {
    var length := ReadUvarintFrom(reader);
    if length.None? {
      return None;
    }
    var items := DeserializeDenseItems(c, length.value, reader);
    if items.None? {
      return None;
    }
    var ended := SkipDenseEnd(reader);
    if !ended {
      return None;
    }
    r := Some(c.marshalList(items.value));
  }

  /** The loop of DeserializeDenseArray over its items. */
  method DeserializeDenseItems(c: Codec, length: nat, reader: Reader) returns (r: Option<seq<Option<Text>>>)
    requires reader.Valid()
    modifies reader
    ensures reader.Valid()
    ensures Did(reader, r, ReadDenseItems(c, old(reader.Rest()), length, []))
    decreases |reader.Rest()|, 0
  {
    var items: seq<Option<Text>> := [];
    for i := 0 to length
      invariant reader.Valid() && |reader.Rest()| <= |old(reader.Rest())|
      invariant ReadDenseItems(c, reader.Rest(), length - i, items) == ReadDenseItems(c, old(reader.Rest()), length, [])
    {
      var token := reader.ReadByte();
      if token.None? {
        return None;
      }
      var val := DeserializeNext(c, token.value, reader);
      if val.None? {
        return None;
      }
      items := items + [Some(val.value)];
    }
    r := Some(items);
  }

  /** The loop of DeserializeDenseArray over what follows the items. */
  method SkipDenseEnd(reader: Reader) returns (ok: bool)
    requires reader.Valid()
    modifies reader
    ensures reader.Valid()
    ensures Did(reader, if ok then Some(()) else None, ReadDenseEnd(old(reader.Rest())))
  {
    while true
      invariant reader.Valid()
      invariant ReadDenseEnd(reader.Rest()) == ReadDenseEnd(old(reader.Rest()))
      decreases |reader.Rest()|
    {
      var token := reader.ReadByte();
      if token.None? {
        return false;
      }
      if token.value == EndDenseArray {
        var count := ReadVarintFrom(reader);
        var length := ReadVarintFrom(reader);
        return true;
      }
      if token.value != 1 && token.value != 3 {
        return false;
      }
    }
  }

  method DeserializeSparseArray(c: Codec, reader: Reader) returns (r: Option<Text>)
    requires reader.Valid()
    modifies reader
    ensures reader.Valid()
    ensures Did(reader, r, ReadContainer(c, BeginSparseArray, old(reader.Rest())))
    decreases |reader.Rest()|, 0
  {
    var length := ReadUvarintFrom(reader);
    if length.None? {
      return None;
    }
    var items := DeserializeSparseItems(c, length.value, reader);
    if items.None? {
      return None;
    }
    r := Some(c.marshalList(items.value));
  }

  method DeserializeIndex(token: byte, reader: Reader) returns (r: Option<int>)
    requires reader.Valid()
    modifies reader
    ensures reader.Valid()
    ensures Did(reader, r, ReadIndex(token, old(reader.Rest())))
  {
    if token == Int32 {
      r := ReadVarintFrom(reader);
    } else if token == Uint32 {
      var n := ReadUvarintFrom(reader);
      r := if n.None? then None else Some(ToInt64(n.value));
    } else {
      r := None;
    }
  }

  /** The loop of DeserializeSparseArray. */
  method DeserializeSparseItems(c: Codec, length: nat, reader: Reader) returns (r: Option<seq<Option<Text>>>)
    requires reader.Valid()
    modifies reader
    ensures reader.Valid()
    ensures Did(reader, r, ReadSparseItems(c, old(reader.Rest()), seq(length, _ => None)))
    decreases |reader.Rest()|, 0
  {
    var items: seq<Option<Text>> := seq(length, _ => None);
    ghost var empty := items;
    while true
      invariant reader.Valid() && |reader.Rest()| <= |old(reader.Rest())|
      invariant ReadSparseItems(c, reader.Rest(), items) == ReadSparseItems(c, old(reader.Rest()), empty)
      decreases |reader.Rest()|
    {
      var token := reader.ReadByte();
      if token.None? {
        return None;
      }
      if token.value == EndSparseArray {
        var count := ReadVarintFrom(reader);
        var written := ReadVarintFrom(reader);
        return Some(items);
      }
      if token.value == 1 || token.value == 3 {
        continue;
      }
      var index := DeserializeIndex(token.value, reader);
      if index.None? {
        return None;
      }
      var next := reader.ReadByte();
      if next.None? {
        return None;
      }
      var val := DeserializeNext(c, next.value, reader);
      if val.None? || !(0 <= index.value < |items|) {
        return None;
      }
      items := items[index.value := Some(val.value)];
    }
  }

  method DeserializeMap(c: Codec, reader: Reader) returns (r: Option<map<Text, Text>>)
    requires reader.Valid()
    modifies reader
    ensures reader.Valid()
    ensures Did(reader, r, ReadMap(c, old(reader.Rest()), map[]))
    decreases |reader.Rest()|, 0
  {
    var m: map<Text, Text> := map[];
    while true
      invariant reader.Valid() && |reader.Rest()| <= |old(reader.Rest())|
      invariant ReadMap(c, reader.Rest(), m) == ReadMap(c, old(reader.Rest()), map[])
      decreases |reader.Rest()|
    {
      var keyToken := NextNonPaddingByte(reader);
      if keyToken.None? {
        return None;
      }
      if keyToken.value == MapEnd {
        var length := ReadUvarintFrom(reader);
        return Some(m);
      }
      var key := DeserializeNext(c, keyToken.value, reader);
      if key.None? {
        return None;
      }
      var valToken := NextNonPaddingByte(reader);
      if valToken.None? {
        return None;
      }
      var val := DeserializeNext(c, valToken.value, reader);
      if val.None? {
        return None;
      }
      m := m[key.value := val.value];
    }
  }

  method DeserializeSet(c: Codec, reader: Reader) returns (r: Option<set<Text>>)
    requires reader.Valid()
    modifies reader
    ensures reader.Valid()
    ensures Did(reader, r, ReadSet(c, old(reader.Rest()), {}))
    decreases |reader.Rest()|, 0
  {
    var e: set<Text> := {};
    while true
      invariant reader.Valid() && |reader.Rest()| <= |old(reader.Rest())|
      invariant ReadSet(c, reader.Rest(), e) == ReadSet(c, old(reader.Rest()), {})
      decreases |reader.Rest()|
    {
      var token := NextNonPaddingByte(reader);
      if token.None? {
        return None;
      }
      if token.value == SetEnd {
        var length := ReadUvarintFrom(reader);
        return Some(e);
      }
      var val := DeserializeNext(c, token.value, reader);
      if val.None? {
        return None;
      }
      e := e + {val.value};
    }
  }

  /** Collects what there is of an error object; nothing in it makes this fail. */
  method DeserializeError(c: Codec, reader: Reader) returns (text: Text)
    requires reader.Valid()
    modifies reader
    ensures reader.Valid()
    ensures Did(reader, Some(text), ReadError(c, old(reader.Rest()), []))
    decreases |reader.Rest()|, 0
  {
    var parts: seq<ErrorPart> := [];
    while true
      invariant reader.Valid() && |reader.Rest()| <= |old(reader.Rest())|
      invariant ReadError(c, reader.Rest(), parts) == ReadError(c, old(reader.Rest()), [])
      decreases |reader.Rest()|
    {
      ghost var s := reader.Rest();
      var subtag := reader.ReadByte();
      if subtag.None? || subtag.value == 0x2e {
        return c.marshalError(parts);
      }
      if IsPrototype(subtag.value) {
        parts := parts + [Prototype(subtag.value)];
        continue;
      }
      var token := reader.ReadByte();
      if token.None? {
        return c.marshalError(parts);
      }
      assert reader.Rest() == s[2..];
      var val := DeserializeNext(c, token.value, reader);
      parts := parts + [if val.Some? then Property(subtag.value, val.value) else Unreadable(subtag.value)];
    }
  }

  method ReadHeaderFrom(reader: Reader) returns (r: Option<byte>)
    requires reader.Valid()
    modifies reader
    ensures reader.Valid()
    ensures Did(reader, r, ReadHeader(old(reader.Rest())))
  {
    while true
      invariant reader.Valid()
      invariant ReadHeader(reader.Rest()) == ReadHeader(old(reader.Rest()))
      decreases |reader.Rest()|
    {
      var b := reader.ReadByte();
      if b.None? {
        return None;
      }
      if b.value == Version {
        var version := ReadUvarintFrom(reader);
        if version.None? {
          return None;
        }
      } else if IsRoot(b.value) {
        return b;
      }
    }
  }

  method DeserializeRootValue(c: Codec, root: byte, reader: Reader) returns (r: Option<seq<map<Text, Text>>>)
    requires reader.Valid()
    modifies reader
    ensures reader.Valid()
    ensures Did(reader, r, ReadRoot(c, root, old(reader.Rest())))
  {
    if root == ObjectBegin {
      var row := DeserializeObject(c, reader);
      r := if row.None? then None else Some([row.value]);
    } else {
      var list := DeserializeNext(c, root, reader);
      if list.None? {
        return None;
      }
      r := c.unmarshalRows(list.value);
    }
  }

  method DeserializeChrome(c: Codec, data: Text) returns (r: Option<seq<map<Text, Text>>>)
    ensures r.Some? <==> ReadRow(c, data).Ok?
    ensures r.Some? ==> r.value == ReadRow(c, data).value
  {
    var reader := new Reader(data);
    var version := ReadUvarintFrom(reader);
    if version.None? {
      return None;
    }
    var root := ReadHeaderFrom(reader);
    if root.None? {
      return None;
    }
    r := DeserializeRootValue(c, root.value, reader);
  }
}
