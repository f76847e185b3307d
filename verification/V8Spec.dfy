/**
 * What reading a V8-serialized value out of a Chrome IndexedDB row means, as functions on the unread
 * bytes (ee/indexeddb/values.go). A failure keeps the bytes that were left when it happened, because
 * the reader of error objects carries on from there. Module V8Deserializer refines these functions
 * with the mutable reader.
 */
module V8Spec {
  import opened Bytes
  import opened Varint

  datatype Codec = Codec(
    utf16: Text -> Option<Text>,
    formatInt: int -> Text,
    formatDouble: Text -> Text,
    formatDate: Text -> Text,
    formatObjectId: nat -> Text,
    regexpFlags: nat -> Text,
    marshalMap: map<Text, Text> -> Text,
    marshalList: seq<Option<Text>> -> Text,
    marshalSet: set<Text> -> Text,
    marshalTyped: (byte, Text) -> Text,
    marshalError: seq<ErrorPart> -> Text,
    unmarshalRows: Text -> Option<seq<map<Text, Text>>>)

  /** What the reader of error objects meets: a prototype tag, a property, or a property it cannot read. */
  datatype ErrorPart = Prototype(tag: byte) | Property(tag: byte, value: Text) | Unreadable(tag: byte)

  /** Outcome of a read, with the bytes left after it. */
  datatype Out<+T> = Ok(value: T, rest: Text) | Err(rest: Text) {
    predicate IsFailure() {
      Err?
    }

    function PropagateFailure<U>(): Out<U>
      requires Err?
    {
      Err(rest)
    }

    function Extract(): (T, Text)
      requires Ok?
    {
      (value, rest)
    }
  }

  const Version: byte := 0xff
  const Padding: byte := 0x00
  const Undefined: byte := 0x5f
  const Null: byte := 0x30
  const True: byte := 0x54
  const False: byte := 0x46
  const Int32: byte := 0x49
  const Uint32: byte := 0x55
  const Double: byte := 0x4e
  const BigInt: byte := 0x5a
  const Utf8Str: byte := 0x53
  const AsciiStr: byte := 0x22
  const Utf16Str: byte := 0x63
  const ObjReference: byte := 0x5e
  const ObjectBegin: byte := 0x6f
  const ObjectEnd: byte := 0x7b
  const BeginSparseArray: byte := 0x61
  const EndSparseArray: byte := 0x40
  const BeginDenseArray: byte := 0x41
  const EndDenseArray: byte := 0x24
  const Date: byte := 0x44
  const TrueObj: byte := 0x79
  const FalseObj: byte := 0x78
  const NumberObj: byte := 0x6e
  const BigIntObj: byte := 0x7a
  const StringObj: byte := 0x73
  const Regexp: byte := 0x52
  const MapBegin: byte := 0x3b
  const MapEnd: byte := 0x3a
  const SetBegin: byte := 0x27
  const SetEnd: byte := 0x2c
  const ArrayBuffer: byte := 0x42
  const ArrayBufferTransfer: byte := 0x74
  const ArrayBufferView: byte := 0x56
  const SharedArrayBuffer: byte := 0x75
  const WasmModuleTransfer: byte := 0x77
  const HostObj: byte := 0x5c
  const WasmMemoryTransfer: byte := 0x6d
  const Error: byte := 0x72
  const DataView: byte := 0x3f

  /** The tokens that begin a value. */
  predicate IsContainer(token: byte) {
    token in {ObjectBegin, BeginSparseArray, BeginDenseArray, MapBegin, SetBegin, Error}
  }

  predicate IsScalar(token: byte) {
    token in {Utf8Str, AsciiStr, Utf16Str, StringObj, Regexp, True, TrueObj, False, FalseObj, Undefined, Null,
              Int32, Double, NumberObj, BigInt, BigIntObj, Date, ArrayBuffer, ObjReference, ArrayBufferView}
  }

  predicate IsUnsupported(token: byte) {
    token in {ArrayBufferTransfer, SharedArrayBuffer, WasmMemoryTransfer, WasmModuleTransfer, HostObj}
  }

  /** Every other byte is skipped where a value is expected: padding, holes, counts and unknown tokens. */
  predicate IsNoise(token: byte) {
    !IsContainer(token) && !IsScalar(token) && !IsUnsupported(token)
  }

  // ----- primitives

  function NextByte(s: Text): (r: Out<byte>)
    ensures |r.rest| <= |s|
    ensures r.Ok? ==> |r.rest| == |s| - 1
  {
    if s == [] then Err(s) else Ok(s[0], s[1..])
  }

  function NextNonPadding(s: Text): (r: Out<byte>)
    ensures |r.rest| <= |s|
    ensures r.Ok? ==> |r.rest| < |s| && r.value != Padding
    decreases |s|
  {
    if s == [] then Err(s) else if s[0] == Padding then NextNonPadding(s[1..]) else Ok(s[0], s[1..])
  }

  function Take(s: Text, n: nat): (r: Out<Text>)
    ensures |r.rest| <= |s|
  {
    if |s| < n then Err([]) else Ok(s[..n], s[n..])
  }

  function NextUvarint(s: Text): (r: Out<nat>)
    ensures |r.rest| <= |s|
    ensures r.Ok? ==> |r.rest| < |s|
  {
    var u := ReadUvarint(s);
    if u.value.None? then Err(u.rest) else Ok(u.value.value, u.rest)
  }

  function NextVarint(s: Text): (r: Out<int>)
    ensures |r.rest| <= |s|
    ensures r.Ok? ==> |r.rest| < |s|
  {
    var (code, s) :- NextUvarint(s);
    Ok(UnZigZag(code), s)
  }

  // ----- values without other values inside

  function ReadAscii(s: Text): (r: Out<Text>)
    ensures |r.rest| <= |s|
  {
    var (n, s) :- NextUvarint(s);
    Take(s, n)
  }

  function ReadUtf16(c: Codec, s: Text): (r: Out<Text>)
    ensures |r.rest| <= |s|
  {
    var (raw, s) :- ReadAscii(s);
    match c.utf16(raw)
    case None => Err(s)
    case Some(text) => Ok(text, s)
  }

  function ReadStringObject(c: Codec, s: Text): (r: Out<Text>)
    ensures |r.rest| <= |s|
  {
    var (token, s) :- NextNonPadding(s);
    if token == AsciiStr || token == Utf8Str then ReadAscii(s)
    else if token == Utf16Str then ReadUtf16(c, s)
    else Err(s)
  }

  function ReadRegexp(c: Codec, s: Text): (r: Out<Text>)
    ensures |r.rest| <= |s|
  {
    var (token, s) :- NextNonPadding(s);
    if token != AsciiStr then Err(s) else
    var (pattern, s) :- ReadAscii(s);
    var (flags, s) :- NextUvarint(s);
    Ok(['/' as byte] + pattern + ['/' as byte] + c.regexpFlags(flags), s)
  }

  function ReadInt(c: Codec, s: Text): (r: Out<Text>)
    ensures |r.rest| <= |s|
  {
    var (n, s) :- NextVarint(s);
    Ok(c.formatInt(n), s)
  }

  function ReadDouble(c: Codec, s: Text): (r: Out<Text>)
    ensures |r.rest| <= |s|
  {
    var (bits, s) :- Take(s, 8);
    Ok(c.formatDouble(bits), s)
  }

  function ReadDate(c: Codec, s: Text): (r: Out<Text>)
    ensures |r.rest| <= |s|
  {
    var (bits, s) :- Take(s, 8);
    Ok(c.formatDate(bits), s)
  }

  /** The digits are skipped: the low 32 bits of the bitfield count them twice over, its last bit is the sign. */
  function ReadBigInt(s: Text): (r: Out<Text>)
    ensures |r.rest| <= |s|
  {
    var (bitfield, s) :- NextUvarint(s);
    var (_, s) :- Take(s, bitfield % 0x1_0000_0000 / 2);
    Ok(if bitfield % 2 == 1 then Ascii("-?n") else Ascii("?n"), s)
  }

  function ReadReference(c: Codec, s: Text): (r: Out<Text>)
    ensures |r.rest| <= |s|
  {
    var (id, s) :- NextUvarint(s);
    Ok(c.formatObjectId(id), s)
  }

  /** A view with no buffer before it has to be empty. */
  function ReadBareView(s: Text): (r: Out<Text>)
    ensures |r.rest| <= |s|
  {
    var (_, s) :- NextByte(s);
    var (_, s) :- NextUvarint(s);
    var (byteLength, s) :- NextUvarint(s);
    if byteLength != 0 then Err(s) else
    var (end, s) :- NextByte(s);
    if end == 3 then Ok(Ascii("[]"), s) else Err(s)
  }

  predicate IsTypedArray(tag: byte) {
    tag in {0x62, 0x42, 0x43, 0x77, 0x57, 0x64, 0x44, 0x66, 0x46, 0x71, 0x51}
  }

  /** An offset whose signed value is negative skips nothing. */
  function SkippedBytes(byteOffset: nat): nat {
    if ToInt64(byteOffset) < 0 then 0 else ToInt64(byteOffset)
  }

  /** The view that follows a buffer says how to interpret the buffer's bytes. */
  function ReadView(c: Codec, raw: Text, s: Text): (r: Out<Text>)
    ensures |r.rest| <= |s|
  {
    var (tag, s) :- NextByte(s);
    var (byteOffset, s) :- NextUvarint(s);
    var (byteLength, s) :- NextUvarint(s);
    var (_, s) :- NextUvarint(s);
    if tag == DataView || byteLength == 0xFFFF_FFFF_FFFF_FFFF then Ok(raw, s)
    else if SkippedBytes(byteOffset) > |raw| || !IsTypedArray(tag) then Err(s)
    else Ok(c.marshalTyped(tag, raw[SkippedBytes(byteOffset)..]), s)
  }

  /** A buffer is looked past by one byte, to see whether a view follows; there has to be one. */
  function ReadArrayBuffer(c: Codec, s: Text): (r: Out<Text>)
    ensures |r.rest| <= |s|
  {
    var (raw, s) :- ReadAscii(s);
    var (token, after) :- NextByte(s);
    if token == ArrayBufferView then ReadView(c, raw, after) else Ok(raw, s)
  }

  function ReadText(c: Codec, token: byte, s: Text): (r: Out<Text>)
    ensures |r.rest| <= |s|
  {
    if token == Utf8Str || token == AsciiStr then ReadAscii(s)
    else if token == Utf16Str then ReadUtf16(c, s)
    else if token == StringObj then ReadStringObject(c, s)
    else ReadRegexp(c, s)
  }

  function ReadNumber(c: Codec, token: byte, s: Text): (r: Out<Text>)
    ensures |r.rest| <= |s|
  {
    if token == Int32 then ReadInt(c, s)
    else if token == Double || token == NumberObj then ReadDouble(c, s)
    else if token == BigInt || token == BigIntObj then ReadBigInt(s)
    else ReadDate(c, s)
  }

  function ReadScalar(c: Codec, token: byte, s: Text): (r: Out<Text>)
    requires IsScalar(token)
    ensures |r.rest| <= |s|
  {
    if token == True || token == TrueObj then Ok(Ascii("true"), s)
    else if token == False || token == FalseObj then Ok(Ascii("false"), s)
    else if token == Undefined || token == Null then Ok([], s)
    else if token == ArrayBuffer then ReadArrayBuffer(c, s)
    else if token == ObjReference then ReadReference(c, s)
    else if token == ArrayBufferView then ReadBareView(s)
    else if token in {Utf8Str, AsciiStr, Utf16Str, StringObj, Regexp} then ReadText(c, token, s)
    else ReadNumber(c, token, s)
  }

  // ----- values

  /** The value whose token was just read. */
  function ReadNext(c: Codec, token: byte, s: Text): (r: Out<Text>)
    ensures |r.rest| <= |s|
    decreases |s|, 2
  {
    if IsContainer(token) then ReadContainer(c, token, s)
    else if IsScalar(token) then ReadScalar(c, token, s)
    else if IsUnsupported(token) then Err(s)
    else
      var (token, s) :- NextNonPadding(s);
      ReadNext(c, token, s)
  }

  function ReadContainer(c: Codec, token: byte, s: Text): (r: Out<Text>)
    requires IsContainer(token)
    ensures |r.rest| <= |s|
    decreases |s|, 1
  {
    if token == ObjectBegin then
      var (m, s) :- ReadObject(c, s, map[]);
      Ok(c.marshalMap(m), s)
    else if token == BeginSparseArray then
      var (n, s) :- NextUvarint(s);
      var (items, s) :- ReadSparseItems(c, s, seq(n, _ => None));
      Ok(c.marshalList(items), s)
    else if token == BeginDenseArray then
      var (n, s) :- NextUvarint(s);
      var (items, s) :- ReadDenseItems(c, s, n, []);
      var (_, s) :- ReadDenseEnd(s);
      Ok(c.marshalList(items), s)
    else if token == MapBegin then
      var (m, s) :- ReadMap(c, s, map[]);
      Ok(c.marshalMap(m), s)
    else if token == SetBegin then
      var (e, s) :- ReadSet(c, s, {});
      Ok(c.marshalSet(e), s)
    else
      ReadError(c, s, [])
  }

  function ReadPropertyName(c: Codec, token: byte, s: Text): (r: Out<Text>)
    ensures |r.rest| <= |s|
  {
    if token == AsciiStr then ReadAscii(s)
    else if token == Utf16Str then ReadUtf16(c, s)
    else if token == Int32 then ReadInt(c, s)
    else if token == Uint32 then
      var (n, s) :- NextUvarint(s);
      Ok(c.formatInt(ToInt64(n)), s)
    else if token == Double then ReadDouble(c, s)
    else Err(NextByte(s).rest)
  }

  /** Properties up to the end of the object; the count after the end is skipped however it reads. */
  function ReadObject(c: Codec, s: Text, acc: map<Text, Text>): (r: Out<map<Text, Text>>)
    ensures |r.rest| <= |s|
    decreases |s|, 0
  {
    var (token, s) :- NextNonPadding(s);
    if token == ObjectEnd then Ok(acc, NextVarint(s).rest) else
    var (name, s) :- ReadPropertyName(c, token, s);
    var (token, s) :- NextNonPadding(s);
    var (value, s) :- ReadNext(c, token, s);
    ReadObject(c, s, acc[name := value])
  }

  function ReadDenseItems(c: Codec, s: Text, n: nat, acc: seq<Option<Text>>): (r: Out<seq<Option<Text>>>)
    ensures |r.rest| <= |s|
    decreases |s|, 0
  {
    if n == 0 then Ok(acc, s) else
    var (token, s) :- NextByte(s);
    var (value, s) :- ReadNext(c, token, s);
    ReadDenseItems(c, s, n - 1, acc + [Some(value)])
  }

  function ReadDenseEnd(s: Text): (r: Out<()>)
    ensures |r.rest| <= |s|
    decreases |s|
  {
    var (token, s) :- NextByte(s);
    if token == EndDenseArray then Ok((), NextVarint(NextVarint(s).rest).rest)
    else if token == 1 || token == 3 then ReadDenseEnd(s)
    else Err(s)
  }

  /** The index before an item of a sparse array. */
  function ReadIndex(token: byte, s: Text): (r: Out<int>)
    ensures |r.rest| <= |s|
  {
    if token == Int32 then NextVarint(s)
    else if token == Uint32 then
      var (n, s) :- NextUvarint(s);
      Ok(ToInt64(n), s)
    else Err(s)
  }

  function ReadSparseItems(c: Codec, s: Text, acc: seq<Option<Text>>): (r: Out<seq<Option<Text>>>)
    ensures |r.rest| <= |s|
    decreases |s|, 0
  {
    var (token, s) :- NextByte(s);
    if token == EndSparseArray then Ok(acc, NextVarint(NextVarint(s).rest).rest)
    else if token == 1 || token == 3 then ReadSparseItems(c, s, acc)
    else
      var (i, s) :- ReadIndex(token, s);
      var (token, s) :- NextByte(s);
      var (value, s) :- ReadNext(c, token, s);
      if 0 <= i < |acc| then ReadSparseItems(c, s, acc[i := Some(value)]) else Err(s)
  }

  function ReadMap(c: Codec, s: Text, acc: map<Text, Text>): (r: Out<map<Text, Text>>)
    ensures |r.rest| <= |s|
    decreases |s|, 0
  {
    var (token, s) :- NextNonPadding(s);
    if token == MapEnd then Ok(acc, NextUvarint(s).rest) else
    var (key, s) :- ReadNext(c, token, s);
    var (token, s) :- NextNonPadding(s);
    var (value, s) :- ReadNext(c, token, s);
    ReadMap(c, s, acc[key := value])
  }

  function ReadSet(c: Codec, s: Text, acc: set<Text>): (r: Out<set<Text>>)
    ensures |r.rest| <= |s|
    decreases |s|, 0
  {
    var (token, s) :- NextNonPadding(s);
    if token == SetEnd then Ok(acc, NextUvarint(s).rest) else
    var (value, s) :- ReadNext(c, token, s);
    ReadSet(c, s, acc + {value})
  }

  predicate IsPrototype(tag: byte) {
    tag in {0x45, 0x52, 0x46, 0x53, 0x54, 0x55}
  }

  /** An error object never fails to read: what cannot be read is noted, and the end of input ends it. */
  function ReadError(c: Codec, s: Text, acc: seq<ErrorPart>): (r: Out<Text>)
    ensures |r.rest| <= |s|
    ensures r.Ok?
    decreases |s|, 0
  {
    if s == [] then Ok(c.marshalError(acc), s)
    else if s[0] == 0x2e then Ok(c.marshalError(acc), s[1..])
    else if IsPrototype(s[0]) then ReadError(c, s[1..], acc + [Prototype(s[0])])
    else if |s| == 1 then Ok(c.marshalError(acc), [])
    else
      match ReadNext(c, s[1], s[2..])
      case Ok(value, rest) => ReadError(c, rest, acc + [Property(s[0], value)])
      case Err(rest) => ReadError(c, rest, acc + [Unreadable(s[0])])
  }

  // ----- rows

  predicate IsRoot(token: byte) {
    token in {ObjectBegin, BeginDenseArray, BeginSparseArray, ArrayBuffer}
  }

  /** The header ends at the first byte that can begin a root value; version numbers are skipped. */
  function ReadHeader(s: Text): (r: Out<byte>)
    ensures |r.rest| <= |s|
    ensures r.Ok? ==> IsRoot(r.value)
    decreases |s|
  {
    var (token, s) :- NextByte(s);
    if token == Version then
      var (_, s) :- NextUvarint(s);
      ReadHeader(s)
    else if IsRoot(token) then Ok(token, s)
    else ReadHeader(s)
  }

  function ReadRoot(c: Codec, root: byte, s: Text): (r: Out<seq<map<Text, Text>>>) {
    if root == ObjectBegin then
      var (m, s) :- ReadObject(c, s, map[]);
      Ok([m], s)
    else
      var (list, s) :- ReadNext(c, root, s);
      match c.unmarshalRows(list)
      case None => Err(s)
      case Some(rows) => Ok(rows, s)
  }

  function ReadRow(c: Codec, s: Text): (r: Out<seq<map<Text, Text>>>) {
    var (_, s) :- NextUvarint(s);
    var (root, s) :- ReadHeader(s);
    ReadRoot(c, root, s)
  }
}
