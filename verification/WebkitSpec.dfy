/**
 * What reading a WebKit structured clone means, as functions on the unread bytes and the two
 * back-reference pools (ee/katc/deserialize_webkit.go). The loops of the source are the
 * accumulator functions here; module WebkitDeserializer refines them with the mutable reader.
 *
 * Text decoding, number formatting and JSON marshalling are parameters (`Codec`): every result
 * holds whatever they compute.
 */
module WebkitSpec {
  import opened Bytes

  datatype Codec = Codec(
    latin1: Text -> Text,
    utf16: Text -> Option<Text>,
    formatInt: int -> Text,
    formatDouble: Text -> Text,
    marshalMap: map<Text, Text> -> Text,
    marshalList: seq<Text> -> Text,
    marshalSet: set<Text> -> Text,
    marshalError: ErrorFields -> Text)

  /** The kinds of error that the format numbers from zero. */
  datatype ErrorName = Error | EvalError | RangeError | ReferenceError | SyntaxError | TypeError | URIError

  /** The properties of an error, marshalled under their own names. */
  datatype ErrorFields = ErrorFields(errorType: ErrorName, message: Text, lineNumber: nat, column: nat,
                                     fileName: Text, stack: Text, cause: Text)

  datatype Pools = Pools(strings: seq<Text>, objects: seq<Text>) {
    function AddString(t: Text): Pools {
      this.(strings := strings + [t])
    }

    function AddObject(t: Text): Pools {
      this.(objects := objects + [t])
    }
  }

  datatype State = State(rest: Text, pools: Pools) {
    function AddObject(t: Text): State {
      this.(pools := pools.AddObject(t))
    }
  }

  /** Outcome of a read: a value and the state after it, or an error. */
  datatype Out<+T> = Ok(value: T, st: State) | Err {
    predicate IsFailure() {
      Err?
    }

    function PropagateFailure<U>(): Out<U>
      requires Err?
    {
      Err
    }

    function Extract(): (T, State)
      requires Ok?
    {
      (value, st)
    }
  }

  datatype StringRead = Terminator | Str(text: Text) {
    /** The bytes of the string; the terminator reads as no bytes where a string was expected. */
    function Text(): Text {
      if Terminator? then [] else text
    }
  }

  const ArrayTag: byte := 1
  const ObjectTag: byte := 2
  const UndefinedTag: byte := 3
  const NullTag: byte := 4
  const IntTag: byte := 5
  const ZeroTag: byte := 6
  const OneTag: byte := 7
  const FalseTag: byte := 8
  const TrueTag: byte := 9
  const DoubleTag: byte := 10
  const DateTag: byte := 11
  const StringTag: byte := 16
  const RegExpTag: byte := 18
  const ObjectReferenceTag: byte := 19
  const ArrayBufferTag: byte := 21
  const ArrayBufferViewTag: byte := 22
  const TrueObjectTag: byte := 24
  const FalseObjectTag: byte := 25
  const StringObjectTag: byte := 26
  const EmptyStringObjectTag: byte := 27
  const NumberObjectTag: byte := 28
  const SetObjectTag: byte := 29
  const MapObjectTag: byte := 30
  const NonMapPropertiesTag: byte := 31
  const NonSetPropertiesTag: byte := 32
  const ResizableArrayBufferTag: byte := 54
  const ErrorInstanceTag: byte := 55

  const TerminatorTag: nat := 0xFFFF_FFFF
  const StringPoolTag: nat := 0xFFFF_FFFE
  const NonIndexPropertiesTag: nat := 0xFFFF_FFFD
  const Is8BitFlag: nat := 0x8000_0000

  /**
   * `b` is reached from `a` by reading: input is only consumed, pools are only appended to, each new
   * pooled string costs four bytes, and each new pooled object one (with `spare` paid for by the caller).
   */
  ghost predicate Moved(a: State, b: State, spare: nat) {
    && |b.rest| <= |a.rest|
    && a.pools.strings <= b.pools.strings
    && a.pools.objects <= b.pools.objects
    && 4 * (|b.pools.strings| - |a.pools.strings|) <= |a.rest| - |b.rest|
    && |b.pools.objects| - |a.pools.objects| <= |a.rest| - |b.rest| + spare
  }

  function ReadByte(st: State): (r: Out<byte>)
    ensures r.Ok? ==> Moved(st, r.st, 0) && |r.st.rest| == |st.rest| - 1
  {
    if |st.rest| == 0 then Err else Ok(st.rest[0], st.(rest := st.rest[1..]))
  }

  function ReadUint(st: State, w: nat): (r: Out<nat>)
    ensures r.Ok? ==> Moved(st, r.st, 0) && |r.st.rest| == |st.rest| - w
  {
    if |st.rest| < w then Err else Ok(Get(st.rest, w), st.(rest := st.rest[w..]))
  }

  function ReadBytes(st: State, n: nat): (r: Out<Text>)
    ensures r.Ok? ==> Moved(st, r.st, 0) && |r.st.rest| == |st.rest| - n
  {
    if |st.rest| < n then Err else Ok(st.rest[..n], st.(rest := st.rest[n..]))
  }

  /** Pool indices are as wide as the current pool needs. */
  function IndexWidth(poolSize: nat): (w: nat) {
    if poolSize <= 255 then 1 else if poolSize <= 65535 then 2 else 4
  }

  function FromPool(st: State, pool: seq<Text>): (r: Out<Text>)
    ensures r.Ok? ==> Moved(st, r.st, 0) && |r.st.rest| < |st.rest|
  {
    var (index, st) :- ReadUint(st, IndexWidth(|pool|));
    if index >= |pool| then Err else Ok(pool[index], st)
  }

  function DecodeString(c: Codec, is8Bit: bool, raw: Text): Option<Text> {
    if is8Bit then Some(c.latin1(raw)) else c.utf16(raw)
  }

  /**
   * The bytes taken by a string whose 32-bit metadata word is `meta`: the top bit says how wide the
   * characters are and the rest counts them. Doubling a 31-bit count does not overflow 32 bits.
   */
  function StringBytes(meta: nat): nat {
    if meta >= Is8BitFlag then meta - Is8BitFlag else meta * 2
  }

  function ReadNewString(c: Codec, meta: nat, st: State): (r: Out<StringRead>)
    ensures r.Ok? ==> |r.st.rest| <= |st.rest|
    ensures r.Ok? ==> st.pools.strings <= r.st.pools.strings && st.pools.objects == r.st.pools.objects
    ensures r.Ok? ==> |r.st.pools.strings| == |st.pools.strings| + 1
  {
    var (raw, st) :- ReadBytes(st, StringBytes(meta));
    match DecodeString(c, meta >= Is8BitFlag, raw)
    case None => Err
    case Some(text) => Ok(Str(text), st.(pools := st.pools.AddString(text)))
  }

  function ReadStringData(c: Codec, st: State): (r: Out<StringRead>)
    ensures r.Ok? ==> Moved(st, r.st, 0) && |r.st.rest| <= |st.rest| - 4
  {
    var (meta, st) :- ReadUint(st, 4);
    if meta == TerminatorTag then Ok(Terminator, st)
    else if meta == StringPoolTag then
      var (text, st) :- FromPool(st, st.pools.strings);
      Ok(Str(text), st)
    else ReadNewString(c, meta, st)
  }

  function ReadDouble(c: Codec, st: State): (r: Out<Text>)
    ensures r.Ok? ==> Moved(st, r.st, 0) && |r.st.rest| == |st.rest| - 8
  {
    var (bits, st) :- ReadBytes(st, 8);
    Ok(c.formatDouble(bits), st)
  }

  /** The 32-bit two's complement integer with the unsigned value `n`. */
  function ToInt32(n: nat): int {
    if n < 0x8000_0000 then n else n - 0x1_0000_0000
  }

  function ReadInt(c: Codec, st: State): (r: Out<Text>)
    ensures r.Ok? ==> Moved(st, r.st, 0)
  {
    var (n, st) :- ReadUint(st, 4);
    Ok(c.formatInt(ToInt32(n)), st)
  }

  function ReadString(c: Codec, st: State): (r: Out<Text>)
    ensures r.Ok? ==> Moved(st, r.st, 0) && |r.st.rest| <= |st.rest| - 4
  {
    var (s, st) :- ReadStringData(c, st);
    Ok(s.Text(), st)
  }

  function ReadRegExp(c: Codec, st: State): (r: Out<Text>)
    ensures r.Ok? ==> Moved(st, r.st, 0)
  {
    var (pattern, st) :- ReadString(c, st);
    var (flags, st) :- ReadString(c, st);
    Ok(['/' as byte] + pattern + ['/' as byte] + flags, st)
  }

  /** Appends a value that was just read to the object pool. */
  function Pooled(r: Out<Text>): (p: Out<Text>) {
    if r.Err? then Err else Ok(r.value, r.st.AddObject(r.value))
  }

  /**
   * Reader.Read into a buffer of `n` bytes: an error at the end of the input, even for an empty
   * buffer, and otherwise as many bytes as there are; the buffer stays zero after them.
   */
  function ReadUpTo(st: State, n: nat): (r: Out<Text>)
    ensures r.Ok? ==> Moved(st, r.st, 0)
  {
    if |st.rest| == 0 then Err else
    var k := if |st.rest| < n then |st.rest| else n;
    Ok(st.rest[..k] + Zeros(n - k), st.(rest := st.rest[k..]))
  }

  function ReadArrayBuffer(st: State): (r: Out<Text>)
    ensures r.Ok? ==> Moved(st, r.st, 0) && |r.st.rest| <= |st.rest| - 8
  {
    var (length, st) :- ReadUint(st, 8);
    Pooled(ReadUpTo(st, length))
  }

  function ReadResizableArrayBuffer(st: State): (r: Out<Text>)
    ensures r.Ok? ==> Moved(st, r.st, 0) && |r.st.rest| <= |st.rest| - 8
  {
    var (length, st) :- ReadUint(st, 8);
    var (maxLength, st) :- ReadUint(st, 8);
    Pooled(ReadUpTo(st, length))
  }

  function ReadBuffer(tag: byte, st: State): (r: Out<Text>)
    ensures r.Ok? ==> Moved(st, r.st, 0)
  {
    if tag == ArrayBufferTag then ReadArrayBuffer(st)
    else if tag == ResizableArrayBufferTag then ReadResizableArrayBuffer(st)
    else if tag == ObjectReferenceTag then FromPool(st, st.pools.objects)
    else Err
  }

  function ReadView(st: State): (r: Out<Text>)
    ensures r.Ok? ==> Moved(st, r.st, 0)
  {
    var (subtag, st) :- ReadByte(st);
    var (byteOffset, st) :- ReadUint(st, 8);
    var (byteLength, st) :- ReadUint(st, 8);
    var (tag, st) :- ReadByte(st);
    ReadBuffer(tag, st)
  }

  function ReadNullable(c: Codec, st: State): (r: Out<Text>)
    ensures r.Ok? ==> Moved(st, r.st, 0)
  {
    var (isNull, st) :- ReadByte(st);
    if isNull == 1 then Ok([], st) else ReadString(c, st)
  }

  function ErrorNameOf(kind: byte): Option<ErrorName> {
    match kind
    case 0 => Some(Error)
    case 1 => Some(EvalError)
    case 2 => Some(RangeError)
    case 3 => Some(ReferenceError)
    case 4 => Some(SyntaxError)
    case 5 => Some(TypeError)
    case 6 => Some(URIError)
    case _ => None
  }

  /** The second half of an error: where it came from. */
  function ReadErrorOrigin(c: Codec, name: ErrorName, message: Text, line: nat, column: nat, st: State): (r: Out<Text>)
    ensures r.Ok? ==> Moved(st, r.st, 0)
  {
    var (sourceUrl, st) :- ReadNullable(c, st);
    var (stack, st) :- ReadNullable(c, st);
    var (cause, st) :- ReadNullable(c, st);
    Ok(c.marshalError(ErrorFields(name, message, line, column, sourceUrl, stack, cause)), st)
  }

  function ReadError(c: Codec, st: State): (r: Out<Text>)
    ensures r.Ok? ==> Moved(st, r.st, 0)
  {
    var (kind, st) :- ReadByte(st);
    if ErrorNameOf(kind).None? then Err else
    var (message, st) :- ReadNullable(c, st);
    var (line, st) :- ReadUint(st, 4);
    var (column, st) :- ReadUint(st, 4);
    ReadErrorOrigin(c, ErrorNameOf(kind).value, message, line, column, st)
  }

  /** The text of a tag that is a whole value by itself. */
  function ConstantText(tag: byte): Option<Text> {
    if tag == UndefinedTag then Some(Ascii("undefined"))
    else if tag == NullTag then Some([])
    else if tag == ZeroTag then Some(Ascii("0"))
    else if tag == OneTag then Some(Ascii("1"))
    else if tag == FalseTag then Some(Ascii("false"))
    else if tag == TrueTag then Some(Ascii("true"))
    else None
  }

  /** Terminals with contents that do not join the object pool. */
  function ReadPlain(c: Codec, tag: byte, st: State): (r: Out<Text>)
    ensures r.Ok? ==> Moved(st, r.st, 0)
  {
    if tag == IntTag then ReadInt(c, st)
    else if tag == DateTag || tag == DoubleTag then ReadDouble(c, st)
    else if tag == StringTag then ReadString(c, st)
    else if tag == RegExpTag then ReadRegExp(c, st)
    else if tag == ObjectReferenceTag then FromPool(st, st.pools.objects)
    else if tag == ErrorInstanceTag then ReadError(c, st)
    else Err
  }

  predicate IsBoxed(tag: byte) {
    tag == ArrayBufferViewTag || TrueObjectTag <= tag <= NumberObjectTag
  }

  /** Terminals that join the object pool, before they do. */
  function ReadBoxed(c: Codec, tag: byte, st: State): (r: Out<Text>)
    requires IsBoxed(tag)
    ensures r.Ok? ==> Moved(st, r.st, 0)
  {
    if tag == ArrayBufferViewTag then ReadView(st)
    else if tag == TrueObjectTag then Ok(Ascii("true"), st)
    else if tag == FalseObjectTag then Ok(Ascii("false"), st)
    else if tag == StringObjectTag then ReadString(c, st)
    else if tag == EmptyStringObjectTag then Ok([], st)
    else ReadDouble(c, st)
  }

  /** Reads what follows the tag of a value that holds no other value. */
  function ReadTerminal(c: Codec, tag: byte, st: State): (r: Out<Text>)
    ensures r.Ok? ==> Moved(st, r.st, 1)
  {
    if ConstantText(tag).Some? then Ok(ConstantText(tag).value, st)
    else if IsBoxed(tag) then Pooled(ReadBoxed(c, tag, st))
    else ReadPlain(c, tag, st)
  }

  function ReadValue(c: Codec, st: State): (r: Out<Text>)
    ensures r.Ok? ==> Moved(st, r.st, 0) && |r.st.rest| < |st.rest|
    decreases |st.rest|, 0
  {
    var (tag, st) :- ReadByte(st);
    if tag == ArrayTag then ReadArray(c, st)
    else if tag == ObjectTag then ReadNestedObject(c, st)
    else if tag == MapObjectTag then ReadMapData(c, st)
    else if tag == SetObjectTag then ReadSetData(c, st)
    else ReadTerminal(c, tag, st)
  }

  /** (<name:StringData><value:Value>)* TerminatorTag, collected into a map. */
  function ReadFields(c: Codec, st: State, acc: map<Text, Text>): (r: Out<map<Text, Text>>)
    ensures r.Ok? ==> Moved(st, r.st, 0) && |r.st.rest| < |st.rest|
    decreases |st.rest|, 1
  {
    var (name, st) :- ReadStringData(c, st);
    if name.Terminator? then Ok(acc, st) else
    var (value, st) :- ReadValue(c, st);
    ReadFields(c, st, acc[name.text := value])
  }

  function ReadNestedObject(c: Codec, st: State): (r: Out<Text>)
    ensures r.Ok? ==> Moved(st, r.st, 1) && |r.st.rest| < |st.rest|
    decreases |st.rest|, 2
  {
    var (fields, st) :- ReadFields(c, st, map[]);
    Pooled(Ok(c.marshalMap(fields), st))
  }

  /** (<index:uint32><value:Value>)* TerminatorTag, written into a list of fixed length. */
  function ReadItems(c: Codec, st: State, acc: seq<Text>): (r: Out<seq<Text>>)
    ensures r.Ok? ==> Moved(st, r.st, 0) && |r.st.rest| < |st.rest|
    decreases |st.rest|, 1
  {
    var (index, st) :- ReadUint(st, 4);
    if index == TerminatorTag then Ok(acc, st)
    else if index >= |acc| then Err else
    var (value, st) :- ReadValue(c, st);
    ReadItems(c, st, acc[index := value])
  }

  function ReadArrayProperties(c: Codec, st: State): (r: Out<()>)
    ensures r.Ok? ==> Moved(st, r.st, 0) && |r.st.rest| < |st.rest|
    decreases |st.rest|, 2
  {
    var (start, st) :- ReadUint(st, 4);
    if start == NonIndexPropertiesTag then
      var (_, st) :- ReadFields(c, st, map[]);
      Ok((), st)
    else if start == TerminatorTag then Ok((), st)
    else Err
  }

  function ReadArray(c: Codec, st: State): (r: Out<Text>)
    ensures r.Ok? ==> Moved(st, r.st, 1) && |r.st.rest| < |st.rest|
    decreases |st.rest|, 2
  {
    var (length, st) :- ReadUint(st, 4);
    var (items, st) :- ReadItems(c, st, seq(length, _ => []));
    var (_, st) :- ReadArrayProperties(c, st);
    Pooled(Ok(c.marshalList(items), st))
  }

  /** (<key:Value><value:Value>)* NonMapPropertiesTag; the tag of a key is looked at before it is read. */
  function ReadEntries(c: Codec, st: State, acc: map<Text, Text>): (r: Out<map<Text, Text>>)
    ensures r.Ok? ==> Moved(st, r.st, 0) && |r.st.rest| < |st.rest|
    decreases |st.rest|, 1
  {
    var (tag, after) :- ReadByte(st);
    if tag == NonMapPropertiesTag then Ok(acc, after) else
    var (key, st) :- ReadValue(c, st);
    var (value, st) :- ReadValue(c, st);
    ReadEntries(c, st, acc[key := value])
  }

  function ReadMapData(c: Codec, st: State): (r: Out<Text>)
    ensures r.Ok? ==> Moved(st, r.st, 1) && |r.st.rest| < |st.rest|
    decreases |st.rest|, 2
  {
    var (entries, st) :- ReadEntries(c, st, map[]);
    var (_, st) :- ReadFields(c, st, map[]);
    Pooled(Ok(c.marshalMap(entries), st))
  }

  /** (<key:Value>)* NonSetPropertiesTag */
  function ReadElems(c: Codec, st: State, acc: set<Text>): (r: Out<set<Text>>)
    ensures r.Ok? ==> Moved(st, r.st, 0) && |r.st.rest| < |st.rest|
    decreases |st.rest|, 1
  {
    var (tag, after) :- ReadByte(st);
    if tag == NonSetPropertiesTag then Ok(acc, after) else
    var (key, st) :- ReadValue(c, st);
    ReadElems(c, st, acc + {key})
  }

  function ReadSetData(c: Codec, st: State): (r: Out<Text>)
    ensures r.Ok? ==> Moved(st, r.st, 1) && |r.st.rest| < |st.rest|
    decreases |st.rest|, 2
  {
    var (elems, st) :- ReadElems(c, st, {});
    var (_, st) :- ReadFields(c, st, map[]);
    Pooled(Ok(c.marshalSet(elems), st))
  }

  /** A whole document: a version word, then an object, both pools starting empty. */
  function ReadDocument(c: Codec, input: Text): (r: Out<map<Text, Text>>) {
    var (version, st) :- ReadUint(State(input, Pools([], [])), 4);
    var (tag, st) :- ReadByte(st);
    if tag == ObjectTag then ReadFields(c, st, map[]) else Err
  }
}
