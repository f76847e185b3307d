/**
 * The Firefox reader as the source writes it: functions that move one shared reader, with loops that
 * fill maps, sets and lists (ee/katc/deserialize_firefox.go). Each method refines the function of the
 * same role in FirefoxSpec, down to where a failure leaves the reader.
 */
module FirefoxDeserializer {
  import opened Bytes
  import opened FirefoxSpec

  /** The reader stands at `at`. */
  ghost predicate StandsAt(reader: Reader, at: nat)
    reads reader
  {
    reader.Valid() && at == reader.i
  }

  /** The method returned what the specification says and left the reader where it says. */
  ghost predicate Did<T>(reader: Reader, r: Option<T>, out: Out<T>)
    reads reader
  {
    StandsAt(reader, out.at) && (if r.None? then out.Err? else out.Ok? && out.value == r.value)
  }

  method ReadWordFrom(reader: Reader, ghost at: nat) returns (r: Option<Text>)
    requires StandsAt(reader, at)
    modifies reader
    ensures Did(reader, r, ReadWord(reader.src, at))
  {
    r := reader.ReadFull(8);
  }

  method ReadUint64From(reader: Reader, ghost at: nat) returns (r: Option<nat>)
    requires StandsAt(reader, at)
    modifies reader
    ensures Did(reader, r, ReadUint64(reader.src, at))
  {
    var word := ReadWordFrom(reader, at);
    r := if word.None? then None else Some(Get(word.value, 8));
  }

  method NextPairFrom(reader: Reader, ghost at: nat) returns (r: Option<Pair>)
    requires StandsAt(reader, at)
    modifies reader
    ensures Did(reader, r, NextPair(reader.src, at))
  {
    var word := ReadWordFrom(reader, at);
    r := if word.None? then None else Some(Pair(Get(word.value[4..], 4), Get(word.value, 4)));
  }

  method DeserializeString(c: Codec, data: nat, reader: Reader, ghost at: nat) returns (r: Option<Text>)
    requires StandsAt(reader, at)
    modifies reader
    ensures Did(reader, r, ReadString(c, reader.src, at, data))
  {
    var n := if data >= AsciiFlag then data - AsciiFlag else data * 2;
    var raw := reader.ReadFull(n);
    if raw.None? {
      return None;
    }
    if n % 8 > 0 {
      SkipPadding(reader, 8 - n % 8);
    }
    assert StandsAt(reader, AfterString(reader.src, at, n));
    r := if data >= AsciiFlag then raw else c.utf16(raw.value);
  }

  /** Reads and discards `n` bytes, or as many as there are. */
  method SkipPadding(reader: Reader, n: nat)
    requires reader.Valid()
    modifies reader
    ensures reader.Valid()
    ensures reader.i == if |reader.src| - old(reader.i) < n then |reader.src| else old(reader.i) + n
  {
    for i := 0 to n
      invariant reader.Valid()
      invariant reader.i == if |reader.src| - old(reader.i) < i then |reader.src| else old(reader.i) + i
    {
      var b := reader.ReadByte();
    }
  }

  method DeserializeBigInt(data: nat, reader: Reader, ghost at: nat) returns (r: Option<Text>)
    requires StandsAt(reader, at)
    modifies reader
    ensures Did(reader, r, ReadBigInt(reader.src, at, data))
  {
    var n := if data >= AsciiFlag then data - AsciiFlag else data;
    if n == 0 {
      return Some(Ascii("0n"));
    }
    var digits := reader.ReadFull(n);
    if digits.None? {
      return None;
    }
    r := Some(if data >= AsciiFlag then Ascii("-?n") else Ascii("?n"));
  }

  method DeserializeRegexp(c: Codec, flags: nat, reader: Reader, ghost at: nat) returns (r: Option<Text>)
    requires StandsAt(reader, at)
    modifies reader
    ensures Did(reader, r, ReadRegexp(c, reader.src, at, flags))
  {
    var pair := NextPairFrom(reader, at);
    if pair.None? || pair.value.tag != StringTag {
      return None;
    }
    var pattern := DeserializeString(c, pair.value.data, reader, NextPair(reader.src, at).at);
    r := if pattern.None? then None
         else Some(['/' as byte] + pattern.value + ['/' as byte] + c.regexpFlags(flags));
  }

  method DeserializeTypedArray(c: Codec, kind: nat, reader: Reader, ghost at: nat) returns (r: Option<Text>)
    requires StandsAt(reader, at)
    modifies reader
    ensures Did(reader, r, ReadTypedArray(c, reader.src, at, kind))
  {
    var lengths := DeserializeTypedHeader(reader, at);
    if lengths.None? {
      return None;
    }
    r := DeserializeTypedBuffer(c, kind, lengths.value.0, lengths.value.1, reader, ReadTypedHeader(reader.src, at).at);
  }

  /** The first part of DeserializeTypedArray. */
  method DeserializeTypedHeader(reader: Reader, ghost at: nat) returns (r: Option<(nat, nat)>)
    requires StandsAt(reader, at)
    modifies reader
    ensures Did(reader, r, ReadTypedHeader(reader.src, at))
  {
    var length := ReadUint64From(reader, at);
    if length.None? {
      return None;
    }
    var flag := ReadUint64From(reader, at + 8);
    if flag.None? {
      return None;
    }
    var byteLength := ReadUint64From(reader, at + 16);
    if byteLength.None? {
      return None;
    }
    if flag.value != NoMaxByteLength {
      var maxByteLength := ReadUint64From(reader, at + 24);
      if maxByteLength.None? {
        return None;
      }
    }
    r := Some((length.value, byteLength.value));
  }

  /** The rest of DeserializeTypedArray: bytes, offset, padding, and the elements out of the bytes. */
  method DeserializeTypedBuffer(c: Codec, kind: nat, length: nat, byteLength: nat, reader: Reader, ghost at: nat)
    returns (r: Option<Text>)
    requires StandsAt(reader, at)
    modifies reader
    ensures Did(reader, r, ReadTypedBuffer(c, reader.src, at, kind, length, byteLength))
  {
    var size := ElementSize(kind);
    if size == 0 {
      return None;
    }
    var n := if length == 0xFFFF_FFFF_FFFF_FFFF then byteLength / size else length;
    r := DeserializePaddedBuffer(c, kind, size, n, byteLength, TypedPadding(byteLength / size, size), reader, at);
  }

  method DeserializePaddedBuffer(c: Codec, kind: nat, size: nat, length: nat, byteLength: nat, padding: nat,
                                 reader: Reader, ghost at: nat)
    returns (r: Option<Text>)
    requires StandsAt(reader, at)
    modifies reader
    ensures Did(reader, r, ReadPaddedBuffer(c, reader.src, at, kind, size, length, byteLength, padding))
  {
    var raw := reader.ReadFull(byteLength);
    if raw.None? {
      return None;
    }
    var byteOffset := reader.ReadUint(8);
    if byteOffset.None? {
      return None;
    }
    var skipped := reader.ReadFull(padding);
    if skipped.None? {
      return None;
    }
    r := Elements(c, kind, size, raw.value, byteOffset.value, length);
  }

  /** Goes back over the last word and reads it again as a double. */
  method RereadAsDouble(c: Codec, reader: Reader, ghost at: nat) returns (r: Option<Text>)
    requires StandsAt(reader, at) && at >= 8
    modifies reader
    ensures Did(reader, r, RereadDouble(c, reader.src, at))
  {
    for i := 0 to 8
      invariant reader.Valid() && reader.i == at - i
    {
      var ok := reader.UnreadByte();
    }
    var bits := reader.ReadFull(8);
    r := Some(c.formatDouble(bits.value));
  }

  /** The cases of DeserializeNext that read no other value. */
  method DeserializeScalar(c: Codec, item: Pair, reader: Reader, ghost at: nat) returns (r: Option<Text>)
    requires StandsAt(reader, at) && at >= 8
    modifies reader
    ensures Did(reader, r, ReadScalar(c, reader.src, at, item))
  {
    if item.tag == Int32Tag || item.tag == BackReferenceTag {
      r := Some(c.formatInt(item.data));
    } else if item.tag == NumberObjectTag {
      var bits := ReadWordFrom(reader, at);
      r := if bits.None? then None else Some(c.formatDouble(bits.value));
    } else if item.tag == BigIntTag || item.tag == BigIntObjectTag {
      r := DeserializeBigInt(item.data, reader, at);
    } else if item.tag == StringTag || item.tag == StringObjectTag {
      r := DeserializeString(c, item.data, reader, at);
    } else if item.tag == BooleanTag || item.tag == BooleanObjectTag {
      r := Some(if item.data > 0 then Ascii("true") else Ascii("false"));
    } else if item.tag == DateTag {
      var bits := ReadWordFrom(reader, at);
      r := if bits.None? then None else Some(c.formatDate(bits.value));
    } else if item.tag == RegexpTag {
      r := DeserializeRegexp(c, item.data, reader, at);
    } else if item.tag == TypedArrayTag {
      r := DeserializeTypedArray(c, item.data, reader, at);
    } else if item.tag >= FloatMax {
      r := None;
    } else {
      r := RereadAsDouble(c, reader, at);
    }
  }

  method DeserializeNext(c: Codec, item: Pair, reader: Reader, ghost at: nat) returns (r: Option<Value>)
    requires StandsAt(reader, at) && at >= 8
    modifies reader
    ensures Did(reader, r, ReadNext(c, reader.src, at, item))
    decreases |reader.src| - at, 2
  {
    if item.tag == NullTag || item.tag == UndefinedTag {
      return Some(Value([], true));
    }
    var text;
    if IsContainer(item.tag) {
      text := DeserializeContainer(c, item, reader, at);
    } else {
      text := DeserializeScalar(c, item, reader, at);
    }
    r := if text.None? then None else Some(Value(text.value, false));
  }

  /** The cases of DeserializeNext that read other values. */
  method DeserializeContainer(c: Codec, item: Pair, reader: Reader, ghost at: nat) returns (r: Option<Text>)
    requires StandsAt(reader, at) && at >= 8 && IsContainer(item.tag)
    modifies reader
    ensures Did(reader, r, ReadContainer(c, reader.src, at, item))
    decreases |reader.src| - at, 1
  {
    if item.tag == ObjectTag {
      var m := DeserializeObject(c, reader, at);
      r := if m.None? then None else Some(c.marshalMap(m.value));
    } else if item.tag == ArrayTag {
      var items := DeserializeArray(c, item.data, reader, at);
      r := if items.None? then None else Some(c.marshalList(items.value));
    } else if item.tag == MapTag {
      var m := DeserializeMap(c, reader, at);
      r := if m.None? then None else Some(c.marshalMap(m.value));
    } else if item.tag == SetTag {
      var e := DeserializeSet(c, reader, at);
      r := if e.None? then None else Some(c.marshalSet(e.value));
    } else {
      var parts := DeserializeError(c, reader, at);
      r := if parts.None? then None else Some(c.marshalError(parts.value));
    }
  }

  method DeserializeObject(c: Codec, reader: Reader, ghost at: nat) returns (r: Option<map<Text, Text>>)
    requires StandsAt(reader, at)
    modifies reader
    ensures Did(reader, r, ReadObject(c, reader.src, at, map[]))
    decreases |reader.src| - at, 0
  {
    var obj: map<Text, Text> := map[];
    ghost var now, d := at, reader.src;
    while true
      invariant StandsAt(reader, now) && at <= now
      invariant ReadObject(c, d, now, obj) == ReadObject(c, d, at, map[])
      decreases |d| - now
    {
      var key := NextPairFrom(reader, now);
      if key.None? {
        return None;
      }
      now := NextPair(d, now).at;
      if key.value.tag == EndOfKeysTag {
        return Some(obj);
      }
      if key.value.tag != StringTag {
        return None;
      }
      var name := DeserializeString(c, key.value.data, reader, now);
      if name.None? {
        return None;
      }
      now := ReadString(c, d, now, key.value.data).at;
      var item := NextPairFrom(reader, now);
      if item.None? {
        return None;
      }
      now := NextPair(d, now).at;
      var val := DeserializeNext(c, item.value, reader, now);
      if val.None? {
        return None;
      }
      now := ReadNext(c, d, now, item.value).at;
      obj := obj[name.value := val.value.text];
    }
  }

  method DeserializeArray(c: Codec, length: nat, reader: Reader, ghost at: nat) returns (r: Option<seq<Option<Text>>>)
    requires StandsAt(reader, at)
    modifies reader
    ensures Did(reader, r, ReadItems(c, reader.src, at, seq(length, _ => None)))
    decreases |reader.src| - at, 0
  {
    var items: seq<Option<Text>> := seq(length, _ => None);
    ghost var now, d, empty := at, reader.src, items;
    while true
      invariant StandsAt(reader, now) && at <= now
      invariant ReadItems(c, d, now, items) == ReadItems(c, d, at, empty)
      decreases |d| - now
    {
      var index := NextPairFrom(reader, now);
      if index.None? {
        return None;
      }
      now := NextPair(d, now).at;
      if index.value.tag == EndOfKeysTag {
        return Some(items);
      }
      var item := NextPairFrom(reader, now);
      if item.None? {
        return None;
      }
      now := NextPair(d, now).at;
      var val := DeserializeNext(c, item.value, reader, now);
      if val.None? || index.value.data >= |items| {
        return None;
      }
      now := ReadNext(c, d, now, item.value).at;
      items := items[index.value.data := Some(val.value.text)];
    }
  }

  method DeserializeMap(c: Codec, reader: Reader, ghost at: nat) returns (r: Option<map<Text, Text>>)
    requires StandsAt(reader, at)
    modifies reader
    ensures Did(reader, r, ReadMap(c, reader.src, at, map[]))
    decreases |reader.src| - at, 0
  {
    var m: map<Text, Text> := map[];
    ghost var now, d := at, reader.src;
    while true
      invariant StandsAt(reader, now) && at <= now
      invariant ReadMap(c, d, now, m) == ReadMap(c, d, at, map[])
      decreases |d| - now
    {
      var key := NextPairFrom(reader, now);
      if key.None? {
        return None;
      }
      now := NextPair(d, now).at;
      if key.value.tag == EndOfKeysTag {
        return Some(m);
      }
      var item := NextPairFrom(reader, now);
      if item.None? {
        return None;
      }
      now := NextPair(d, now).at;
      var name := DeserializeNext(c, key.value, reader, now);
      if name.None? {
        return None;
      }
      now := ReadNext(c, d, now, key.value).at;
      var val := DeserializeNext(c, item.value, reader, now);
      if val.None? {
        return None;
      }
      now := ReadNext(c, d, now, item.value).at;
      m := m[name.value.text := val.value.text];
    }
  }

  method DeserializeSet(c: Codec, reader: Reader, ghost at: nat) returns (r: Option<set<Text>>)
    requires StandsAt(reader, at)
    modifies reader
    ensures Did(reader, r, ReadSet(c, reader.src, at, {}))
    decreases |reader.src| - at, 0
  {
    var e: set<Text> := {};
    ghost var now, d := at, reader.src;
    while true
      invariant StandsAt(reader, now) && at <= now
      invariant ReadSet(c, d, now, e) == ReadSet(c, d, at, {})
      decreases |d| - now
    {
      var key := NextPairFrom(reader, now);
      if key.None? {
        return None;
      }
      now := NextPair(d, now).at;
      if key.value.tag == EndOfKeysTag {
        return Some(e);
      }
      var val := DeserializeNext(c, key.value, reader, now);
      if val.None? {
        return None;
      }
      now := ReadNext(c, d, now, key.value).at;
      e := e + {val.value.text};
    }
  }

  method DeserializeError(c: Codec, reader: Reader, ghost at: nat) returns (r: Option<seq<(Text, Text)>>)
    requires StandsAt(reader, at)
    modifies reader
    ensures Did(reader, r, ReadError(c, reader.src, at, []))
    decreases |reader.src| - at, 0
  {
    var parts: seq<(Text, Text)> := [];
    ghost var now, d := at, reader.src;
    while true
      invariant StandsAt(reader, now) && at <= now
      invariant ReadError(c, d, now, parts) == ReadError(c, d, at, [])
      decreases |d| - now
    {
      var prop := NextPairFrom(reader, now);
      if prop.None? {
        return None;
      }
      now := NextPair(d, now).at;
      if prop.value.tag == EndOfKeysTag {
        return Some(parts);
      }
      if prop.value.tag == StringTag {
        var reachesEnd := |reader.src| - reader.i < StringBytes(prop.value.data);
        var key := DeserializeString(c, prop.value.data, reader, now);
        if key.None? {
          if reachesEnd {
            return Some(parts);
          }
          return None;
        }
        now := ReadString(c, d, now, prop.value.data).at;
        var item := NextPairFrom(reader, now);
        if item.None? {
          return None;
        }
        now := NextPair(d, now).at;
        var val := DeserializeNext(c, item.value, reader, now);
        if val.None? {
          now := ReadNext(c, d, now, item.value).at;
          continue;
        }
        now := ReadNext(c, d, now, item.value).at;
        if val.value.isNil {
          continue;
        }
        parts := parts + [(key.value, val.value.text)];
      }
      assert SkipProperty(c, d, now, parts) == ReadError(c, d, at, []);
      var item := NextPairFrom(reader, now);
      if item.None? {
        return None;
      }
      now := NextPair(d, now).at;
      var skipped := DeserializeNext(c, item.value, reader, now);
      now := ReadNext(c, d, now, item.value).at;
    }
  }

  method DeserializeFirefox(c: Codec, data: Text) returns (r: Option<map<Text, Text>>)
    ensures r.Some? <==> ReadDocument(c, data).Ok?
    ensures r.Some? ==> r.value == ReadDocument(c, data).value
  {
    var reader := new Reader(data);
    var header := NextPairFrom(reader, 0);
    if header.None? || header.value.tag != HeaderTag {
      return None;
    }
    ghost var now := NextPair(data, 0).at;
    var root := NextPairFrom(reader, now);
    if root.None? || root.value.tag != ObjectTag {
      return None;
    }
    now := NextPair(data, now).at;
    r := DeserializeObject(c, reader, now);
  }
}
