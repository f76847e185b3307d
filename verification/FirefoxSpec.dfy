/**
 * What reading a Firefox structured clone means, as functions on the input and a position in it
 * (ee/katc/deserialize_firefox.go). Everything is stored in 8-byte words; how far reading keeps to
 * them is the subject of module FirefoxAlignment. Module FirefoxDeserializer refines these functions
 * with the mutable reader.
 */
module FirefoxSpec {
  import opened Bytes
  import opened Varint

  datatype Codec = Codec(
    utf16: Text -> Option<Text>,
    formatInt: nat -> Text,
    formatDouble: Text -> Text,
    formatDate: Text -> Text,
    regexpFlags: nat -> Text,
    marshalMap: map<Text, Text> -> Text,
    marshalList: seq<Option<Text>> -> Text,
    marshalSet: set<Text> -> Text,
    marshalTyped: (nat, Text) -> Text,
    marshalError: seq<(Text, Text)> -> Text)

  /** A rendered value; `isNil` marks the nulls, which the reader of error objects tells apart. */
  datatype Value = Value(text: Text, isNil: bool)

  datatype Pair = Pair(tag: nat, data: nat)

  datatype Out<+T> = Ok(value: T, at: nat) | Err(at: nat) {
    predicate IsFailure() {
      Err?
    }

    function PropagateFailure<U>(): Out<U>
      requires Err?
    {
      Err(at)
    }

    function Extract(): (T, nat)
      requires Ok?
    {
      (value, at)
    }
  }

  const FloatMax := 0xfff0_0000
  const HeaderTag := 0xfff1_0000
  const NullTag := 0xffff_0000
  const UndefinedTag := 0xffff_0001
  const BooleanTag := 0xffff_0002
  const Int32Tag := 0xffff_0003
  const StringTag := 0xffff_0004
  const DateTag := 0xffff_0005
  const RegexpTag := 0xffff_0006
  const ArrayTag := 0xffff_0007
  const ObjectTag := 0xffff_0008
  const BooleanObjectTag := 0xffff_000a
  const StringObjectTag := 0xffff_000b
  const NumberObjectTag := 0xffff_000c
  const BackReferenceTag := 0xffff_000d
  const MapTag := 0xffff_0011
  const SetTag := 0xffff_0012
  const EndOfKeysTag := 0xffff_0013
  const BigIntTag := 0xffff_001d
  const BigIntObjectTag := 0xffff_001e
  const TypedArrayTag := 0xffff_0020
  const ErrorTag := 0xffff_0022

  const NoMaxByteLength := 18446462731876827136

  /** Reading moves on from `a` to `b` within the input. */
  ghost predicate Within(d: Text, a: nat, b: nat) {
    a <= b <= |d|
  }

  // ----- primitives

  /** The word at the position. */
  function ReadWord(d: Text, at: nat): (r: Out<Text>)
    requires at <= |d|
    ensures Within(d, at, r.at)
    ensures r.Ok? ==> r.at == at + 8 && |r.value| == 8
  {
    if |d| - at < 8 then Err(|d|) else Ok(d[at..][..8], at + 8)
  }

  function ReadUint64(d: Text, at: nat): (r: Out<nat>)
    requires at <= |d|
    ensures Within(d, at, r.at)
    ensures r.Ok? ==> r.at == at + 8
  {
    var (word, at) :- ReadWord(d, at);
    Ok(Get(word, 8), at)
  }

  /** A pair is one word: the data in its low half, the tag in its high half. */
  function NextPair(d: Text, at: nat): (r: Out<Pair>)
    requires at <= |d|
    ensures Within(d, at, r.at)
    ensures r.Ok? ==> r.at == at + 8
  {
    var (word, at) :- ReadWord(d, at);
    Ok(Pair(Get(word[4..], 4), Get(word, 4)), at)
  }

  // ----- strings

  const AsciiFlag := 0x8000_0000

  /** The bytes of a string: a 31-bit length, in characters of one byte or of two. */
  function StringBytes(data: nat): nat {
    if data >= AsciiFlag then data - AsciiFlag else data * 2
  }

  /** The padding after `n` bytes, up to the next word. */
  function Padding(n: nat): nat {
    if n % 8 > 0 then 8 - n % 8 else 0
  }

  /** Past `n` bytes of a string and its padding, or as much of the padding as there is. */
  function AfterString(d: Text, at: nat, n: nat): (b: nat)
    requires at + n <= |d|
    ensures at + n <= b <= |d|
  {
    if |d| - at - n < Padding(n) then |d| else at + n + Padding(n)
  }

  function ReadString(c: Codec, d: Text, at: nat, data: nat): (r: Out<Text>)
    requires at <= |d|
    ensures Within(d, at, r.at)
  {
    var n := StringBytes(data);
    if |d| - at < n then Err(|d|) else
    var raw := d[at..][..n];
    var after := AfterString(d, at, n);
    if data >= AsciiFlag then Ok(raw, after)
    else match c.utf16(raw)
      case None => Err(after)
      case Some(text) => Ok(text, after)
  }

  // ----- BigInts

  /** The digits are skipped one byte at a time, however the words lie. */
  function ReadBigInt(d: Text, at: nat, data: nat): (r: Out<Text>)
    requires at <= |d|
    ensures Within(d, at, r.at)
  {
    var n := if data >= AsciiFlag then data - AsciiFlag else data;
    if n == 0 then Ok(Ascii("0n"), at)
    else if |d| - at < n then Err(|d|)
    else Ok(if data >= AsciiFlag then Ascii("-?n") else Ascii("?n"), at + n)
  }

  // ----- typed arrays

  function ElementSize(kind: nat): (n: nat)
    ensures n in {0, 1, 2, 4, 8}
  {
    if kind in {0, 1, 8} then 1
    else if kind in {2, 3} then 2
    else if kind in {4, 5, 6} then 4
    else if kind in {7, 9, 10} then 8
    else 0
  }

  /** `-leftover & 7`, where the leftover is the bytes of the last, incomplete group of eight elements. */
  function TypedPadding(elements: nat, size: nat): nat {
    (8 - elements % 8 * size % 8) % 8
  }

  function SkippedBytes(byteOffset: nat): nat {
    if ToInt64(byteOffset) < 0 then 0 else ToInt64(byteOffset)
  }

  /** The elements of a typed array, out of the bytes of its buffer. */
  function Elements(c: Codec, kind: nat, size: nat, raw: Text, byteOffset: nat, length: nat): Option<Text> {
    var skipped := SkippedBytes(byteOffset);
    if skipped > |raw| || length * size > |raw| - skipped then None
    else Some(c.marshalTyped(kind, raw[skipped..][..length * size]))
  }

  /** The buffer of a typed array, then its offset, then the padding of the buffer. */
  function ReadPaddedBuffer(c: Codec, d: Text, at: nat, kind: nat, size: nat, length: nat, byteLength: nat, padding: nat): (r: Out<Text>)
    requires at <= |d|
    ensures Within(d, at, r.at)
  {
    if |d| - at < byteLength + 8 + padding then Err(|d|) else
    var raw := d[at..][..byteLength];
    var byteOffset := Get(d[at + byteLength..], 8);
    var after := at + byteLength + 8 + padding;
    match Elements(c, kind, size, raw, byteOffset, length)
    case None => Err(after)
    case Some(text) => Ok(text, after)
  }

  function ReadTypedBuffer(c: Codec, d: Text, at: nat, kind: nat, length: nat, byteLength: nat): (r: Out<Text>)
    requires at <= |d|
    ensures Within(d, at, r.at)
  {
    var size := ElementSize(kind);
    if size == 0 then Err(at)
    else
      var n := if length == 0xFFFF_FFFF_FFFF_FFFF then byteLength / size else length;
      ReadPaddedBuffer(c, d, at, kind, size, n, byteLength, TypedPadding(byteLength / size, size))
  }

  /** The words before the buffer: length, a flag, the byte length and, if the flag says so, its maximum. */
  function ReadTypedHeader(d: Text, at: nat): (r: Out<(nat, nat)>)
    requires at <= |d|
    ensures Within(d, at, r.at)
  {
    var (length, at) :- ReadUint64(d, at);
    var (flag, at) :- ReadUint64(d, at);
    var (byteLength, at) :- ReadUint64(d, at);
    if flag == NoMaxByteLength then Ok((length, byteLength), at) else
    var (_, at) :- ReadUint64(d, at);
    Ok((length, byteLength), at)
  }

  function ReadTypedArray(c: Codec, d: Text, at: nat, kind: nat): (r: Out<Text>)
    requires at <= |d|
    ensures Within(d, at, r.at)
  {
    var (lengths, at) :- ReadTypedHeader(d, at);
    ReadTypedBuffer(c, d, at, kind, lengths.0, lengths.1)
  }

  // ----- values

  function Boxed(r: Out<Text>): (v: Out<Value>) {
    match r
    case Ok(text, at) => Ok(Value(text, false), at)
    case Err(at) => Err(at)
  }

  function ReadRegexp(c: Codec, d: Text, at: nat, flags: nat): (r: Out<Text>)
    requires at <= |d|
    ensures Within(d, at, r.at)
  {
    var (pair, at) :- NextPair(d, at);
    if pair.tag != StringTag then Err(at) else
    var (pattern, at) :- ReadString(c, d, at, pair.data);
    Ok(['/' as byte] + pattern + ['/' as byte] + c.regexpFlags(flags), at)
  }

  /** A tag below the float range is half of a double: the word before the position, read again as one. */
  function RereadDouble(c: Codec, d: Text, at: nat): (r: Out<Text>)
    requires 8 <= at <= |d|
    ensures r.Ok? && r.at == at
  {
    Ok(c.formatDouble(d[at - 8..][..8]), at)
  }

  function ReadScalar(c: Codec, d: Text, at: nat, item: Pair): (r: Out<Text>)
    requires 8 <= at <= |d|
    ensures Within(d, at, r.at)
  {
    if item.tag == Int32Tag || item.tag == BackReferenceTag then Ok(c.formatInt(item.data), at)
    else if item.tag == NumberObjectTag then
      var (bits, at) :- ReadWord(d, at);
      Ok(c.formatDouble(bits), at)
    else if item.tag == BigIntTag || item.tag == BigIntObjectTag then ReadBigInt(d, at, item.data)
    else if item.tag == StringTag || item.tag == StringObjectTag then ReadString(c, d, at, item.data)
    else if item.tag == BooleanTag || item.tag == BooleanObjectTag then
      Ok(if item.data > 0 then Ascii("true") else Ascii("false"), at)
    else if item.tag == DateTag then
      var (bits, at) :- ReadWord(d, at);
      Ok(c.formatDate(bits), at)
    else if item.tag == RegexpTag then ReadRegexp(c, d, at, item.data)
    else if item.tag == TypedArrayTag then ReadTypedArray(c, d, at, item.data)
    else if item.tag >= FloatMax then Err(at)
    else RereadDouble(c, d, at)
  }

  predicate IsContainer(tag: nat) {
    tag in {ObjectTag, ArrayTag, MapTag, SetTag, ErrorTag}
  }

  /** The value that `item` begins. */
  function ReadNext(c: Codec, d: Text, at: nat, item: Pair): (r: Out<Value>)
    requires 8 <= at <= |d|
    ensures Within(d, at, r.at)
    decreases |d| - at, 2
  {
    if item.tag == NullTag || item.tag == UndefinedTag then Ok(Value([], true), at)
    else if IsContainer(item.tag) then Boxed(ReadContainer(c, d, at, item))
    else Boxed(ReadScalar(c, d, at, item))
  }

  function ReadContainer(c: Codec, d: Text, at: nat, item: Pair): (r: Out<Text>)
    requires 8 <= at <= |d|
    requires IsContainer(item.tag)
    ensures Within(d, at, r.at)
    decreases |d| - at, 1
  {
    if item.tag == ObjectTag then
      var (m, at) :- ReadObject(c, d, at, map[]);
      Ok(c.marshalMap(m), at)
    else if item.tag == ArrayTag then
      var (items, at) :- ReadItems(c, d, at, seq(item.data, _ => None));
      Ok(c.marshalList(items), at)
    else if item.tag == MapTag then
      var (m, at) :- ReadMap(c, d, at, map[]);
      Ok(c.marshalMap(m), at)
    else if item.tag == SetTag then
      var (e, at) :- ReadSet(c, d, at, {});
      Ok(c.marshalSet(e), at)
    else
      var (parts, at) :- ReadError(c, d, at, []);
      Ok(c.marshalError(parts), at)
  }

  /** Keys and values up to the end of the object. */
  function ReadObject(c: Codec, d: Text, at: nat, acc: map<Text, Text>): (r: Out<map<Text, Text>>)
    requires at <= |d|
    ensures Within(d, at, r.at)
    decreases |d| - at, 0
  {
    var (key, at) :- NextPair(d, at);
    if key.tag == EndOfKeysTag then Ok(acc, at)
    else if key.tag != StringTag then Err(at) else
    var (name, at) :- ReadString(c, d, at, key.data);
    var (item, at) :- NextPair(d, at);
    var (value, at) :- ReadNext(c, d, at, item);
    ReadObject(c, d, at, acc[name := value.text])
  }

  function ReadItems(c: Codec, d: Text, at: nat, acc: seq<Option<Text>>): (r: Out<seq<Option<Text>>>)
    requires at <= |d|
    ensures Within(d, at, r.at)
    decreases |d| - at, 0
  {
    var (index, at) :- NextPair(d, at);
    if index.tag == EndOfKeysTag then Ok(acc, at) else
    var (item, at) :- NextPair(d, at);
    var (value, at) :- ReadNext(c, d, at, item);
    if index.data < |acc| then ReadItems(c, d, at, acc[index.data := Some(value.text)]) else Err(at)
  }

  /** Both pairs of an entry come before the contents of either. */
  function ReadMap(c: Codec, d: Text, at: nat, acc: map<Text, Text>): (r: Out<map<Text, Text>>)
    requires at <= |d|
    ensures Within(d, at, r.at)
    decreases |d| - at, 0
  {
    var (key, at) :- NextPair(d, at);
    if key.tag == EndOfKeysTag then Ok(acc, at) else
    var (item, at) :- NextPair(d, at);
    var (name, at) :- ReadNext(c, d, at, key);
    var (value, at) :- ReadNext(c, d, at, item);
    ReadMap(c, d, at, acc[name.text := value.text])
  }

  function ReadSet(c: Codec, d: Text, at: nat, acc: set<Text>): (r: Out<set<Text>>)
    requires at <= |d|
    ensures Within(d, at, r.at)
    decreases |d| - at, 0
  {
    var (key, at) :- NextPair(d, at);
    if key.tag == EndOfKeysTag then Ok(acc, at) else
    var (value, at) :- ReadNext(c, d, at, key);
    ReadSet(c, d, at, acc + {value.text})
  }

  /**
   * Properties of an error object. A named property is read and then, like an unnamed one, the next
   * property is skipped with it; a value that is null or cannot be read is dropped without that skip.
   * Running out of input in a name ends the object.
   */
  function ReadError(c: Codec, d: Text, at: nat, acc: seq<(Text, Text)>): (r: Out<seq<(Text, Text)>>)
    requires at <= |d|
    ensures Within(d, at, r.at)
    decreases |d| - at, 0
  {
    var (prop, at) :- NextPair(d, at);
    if prop.tag == EndOfKeysTag then Ok(acc, at)
    else if prop.tag != StringTag then SkipProperty(c, d, at, acc)
    else match ReadString(c, d, at, prop.data)
      case Err(end) => if |d| - at < StringBytes(prop.data) then Ok(acc, end) else Err(end)
      case Ok(key, at) =>
        var (item, at) :- NextPair(d, at);
        match ReadNext(c, d, at, item)
        case Err(end) => ReadError(c, d, end, acc)
        case Ok(value, at) =>
          if value.isNil then ReadError(c, d, at, acc) else SkipProperty(c, d, at, acc + [(key, value.text)])
  }

  function SkipProperty(c: Codec, d: Text, at: nat, acc: seq<(Text, Text)>): (r: Out<seq<(Text, Text)>>)
    requires at <= |d|
    ensures Within(d, at, r.at)
    decreases |d| - at, 0
  {
    var (item, at) :- NextPair(d, at);
    match ReadNext(c, d, at, item)
    case Err(end) => ReadError(c, d, end, acc)
    case Ok(_, at) => ReadError(c, d, at, acc)
  }

  /** A document: a header word, an object word, and the object. */
  function ReadDocument(c: Codec, d: Text): (r: Out<map<Text, Text>>)
    ensures r.Ok? ==> r.at <= |d|
  {
    var (header, at) :- NextPair(d, 0);
    if header.tag != HeaderTag then Err(at) else
    var (root, at) :- NextPair(d, at);
    if root.tag != ObjectTag then Err(at) else
    ReadObject(c, d, at, map[])
  }
}
