/**
 * The WebKit structured clone format as trees: which trees can be written with given pools
 * (`WellFormed`), how they are written (`Encode`) and what they mean (`Render`).
 *
 * Encoders prepend to `rest`. Both the writer and the meaning thread the pools, because the width
 * of a back-reference depends on the size of its pool at that moment.
 */
module WebkitGrammar {
  import opened Bytes
  import opened WebkitSpec

  /** A string as it is written; `NoStr` is a bare terminator where a string was expected. */
  datatype StrLit = Latin(chars: Text) | Wide(units: Text) | PooledStr(index: nat) | NoStr

  datatype Nullable = NullStr | NonNull(flag: byte, str: StrLit)

  datatype Buffer = Plain(contents: Text) | Resizable(maxLength: nat, contents: Text) | Shared(index: nat)

  datatype Leaf =
    | Undefined
    | Null
    | Int(n: int)
    | Zero
    | One
    | False
    | True
    | Date(bits: Text)
    | Double(bits: Text)
    | String(str: StrLit)
    | RegExp(pattern: StrLit, flags: StrLit)
    | ObjectRef(index: nat)
    | View(subtag: byte, byteOffset: nat, byteLength: nat, buffer: Buffer)
    | TrueObject
    | FalseObject
    | StringObject(str: StrLit)
    | EmptyStringObject
    | NumberObject(bits: Text)
    | ErrorInstance(kind: byte, message: Nullable, line: nat, column: nat,
                    sourceUrl: Nullable, stack: Nullable, cause: Nullable)

  datatype Value =
    | Terminal(leaf: Leaf)
    | Array(length: nat, items: Items, props: Props)
    | Object(fields: Fields)
    | Map(entries: Entries, fields: Fields)
    | Set(elems: Elems, fields: Fields)
  datatype Fields = NoFields | Field(name: StrLit, value: Value, more: Fields)
  datatype Items = NoItems | Item(index: nat, value: Value, more: Items)
  datatype Entries = NoEntries | Entry(key: Value, value: Value, more: Entries)
  datatype Elems = NoElems | Elem(value: Value, more: Elems)
  datatype Props = NoProps | WithProps(fields: Fields)

  // ----- meaning

  function PoolItem(pool: seq<Text>, index: nat): Text {
    if index < |pool| then pool[index] else []
  }

  function RenderNew(text: Text, p: Pools): (Text, Pools) {
    (text, p.AddString(text))
  }

  function RenderStr(c: Codec, s: StrLit, p: Pools): (Text, Pools) {
    match s
    case Latin(chars) => RenderNew(c.latin1(chars), p)
    case Wide(units) => if c.utf16(units).Some? then RenderNew(c.utf16(units).value, p) else ([], p)
    case PooledStr(index) => (PoolItem(p.strings, index), p)
    case NoStr => ([], p)
  }

  function RenderNullable(c: Codec, s: Nullable, p: Pools): (Text, Pools) {
    match s
    case NullStr => ([], p)
    case NonNull(_, str) => RenderStr(c, str, p)
  }

  function Pool(r: (Text, Pools)): (Text, Pools) {
    (r.0, r.1.AddObject(r.0))
  }

  function RenderBuffer(b: Buffer, p: Pools): (Text, Pools) {
    match b
    case Plain(contents) => Pool((contents, p))
    case Resizable(_, contents) => Pool((contents, p))
    case Shared(index) => (PoolItem(p.objects, index), p)
  }

  function RenderRegExp(c: Codec, pattern: StrLit, flags: StrLit, p: Pools): (Text, Pools) {
    var (pt, p) := RenderStr(c, pattern, p);
    var (ft, p) := RenderStr(c, flags, p);
    (['/' as byte] + pt + ['/' as byte] + ft, p)
  }

  function RenderError(c: Codec, e: Leaf, p: Pools): (Text, Pools)
    requires e.ErrorInstance?
  {
    var (message, p) := RenderNullable(c, e.message, p);
    var (sourceUrl, p) := RenderNullable(c, e.sourceUrl, p);
    var (stack, p) := RenderNullable(c, e.stack, p);
    var (cause, p) := RenderNullable(c, e.cause, p);
    var name := if ErrorNameOf(e.kind).Some? then ErrorNameOf(e.kind).value else Error;
    (c.marshalError(ErrorFields(name, message, e.line, e.column, sourceUrl, stack, cause)), p)
  }

  function RenderLeaf(c: Codec, leaf: Leaf, p: Pools): (Text, Pools) {
    match leaf
    case Undefined => (Ascii("undefined"), p)
    case Null => ([], p)
    case Int(n) => (c.formatInt(n), p)
    case Zero => (Ascii("0"), p)
    case One => (Ascii("1"), p)
    case False => (Ascii("false"), p)
    case True => (Ascii("true"), p)
    case Date(bits) => (c.formatDouble(bits), p)
    case Double(bits) => (c.formatDouble(bits), p)
    case String(str) => RenderStr(c, str, p)
    case RegExp(pattern, flags) => RenderRegExp(c, pattern, flags, p)
    case ObjectRef(index) => (PoolItem(p.objects, index), p)
    case View(_, _, _, buffer) => Pool(RenderBuffer(buffer, p))
    case TrueObject => Pool((Ascii("true"), p))
    case FalseObject => Pool((Ascii("false"), p))
    case StringObject(str) => Pool(RenderStr(c, str, p))
    case EmptyStringObject => Pool(([], p))
    case NumberObject(bits) => Pool((c.formatDouble(bits), p))
    case ErrorInstance(_, _, _, _, _, _, _) => RenderError(c, leaf, p)
  }

  /** A value renders to text, and every boxed value or container joins the object pool once it is complete. */
  function Render(c: Codec, v: Value, p: Pools): (Text, Pools) {
    match v
    case Terminal(leaf) => RenderLeaf(c, leaf, p)
    case Array(length, items, props) =>
      var (list, p) := RenderItems(c, items, seq(length, _ => []), p);
      Pool((c.marshalList(list), RenderProps(c, props, p)))
    case Object(fields) =>
      var (m, p) := RenderFields(c, fields, map[], p);
      Pool((c.marshalMap(m), p))
    case Map(entries, fields) =>
      var (m, p) := RenderEntries(c, entries, map[], p);
      Pool((c.marshalMap(m), RenderFields(c, fields, map[], p).1))
    case Set(elems, fields) =>
      var (s, p) := RenderElems(c, elems, {}, p);
      Pool((c.marshalSet(s), RenderFields(c, fields, map[], p).1))
  }

  function RenderFields(c: Codec, fs: Fields, acc: map<Text, Text>, p: Pools): (map<Text, Text>, Pools) {
    match fs
    case NoFields => (acc, p)
    case Field(name, value, more) =>
      var (n, p) := RenderStr(c, name, p);
      var (t, p) := Render(c, value, p);
      RenderFields(c, more, acc[n := t], p)
  }

  function RenderItems(c: Codec, items: Items, acc: seq<Text>, p: Pools): (seq<Text>, Pools) {
    match items
    case NoItems => (acc, p)
    case Item(index, value, more) =>
      var (t, p) := Render(c, value, p);
      RenderItems(c, more, if index < |acc| then acc[index := t] else acc, p)
  }

  function RenderEntries(c: Codec, es: Entries, acc: map<Text, Text>, p: Pools): (map<Text, Text>, Pools) {
    match es
    case NoEntries => (acc, p)
    case Entry(key, value, more) =>
      var (k, p) := Render(c, key, p);
      var (t, p) := Render(c, value, p);
      RenderEntries(c, more, acc[k := t], p)
  }

  function RenderElems(c: Codec, es: Elems, acc: set<Text>, p: Pools): (set<Text>, Pools) {
    match es
    case NoElems => (acc, p)
    case Elem(value, more) =>
      var (t, p) := Render(c, value, p);
      RenderElems(c, more, acc + {t}, p)
  }

  function RenderProps(c: Codec, props: Props, p: Pools): Pools {
    match props
    case NoProps => p
    case WithProps(fields) => RenderFields(c, fields, map[], p).1
  }

  // ----- which trees can be written

  predicate WellFormedIndex(pool: seq<Text>, index: nat) {
    index < |pool| && index < 0x1_0000_0000
  }

  predicate WellFormedStr(c: Codec, s: StrLit, p: Pools) {
    match s
    case Latin(chars) => |chars| < 0x7FFF_FFFE
    case Wide(units) => |units| % 2 == 0 && |units| < 0x1_0000_0000 && c.utf16(units).Some?
    case PooledStr(index) => WellFormedIndex(p.strings, index)
    case NoStr => true
  }

  predicate WellFormedNullable(c: Codec, s: Nullable, p: Pools) {
    s.NonNull? ==> s.flag != 1 && WellFormedStr(c, s.str, p)
  }

  predicate WellFormedBuffer(b: Buffer, p: Pools) {
    match b
    case Plain(contents) => |contents| < 0x1_0000_0000_0000_0000
    case Resizable(maxLength, contents) =>
      maxLength < 0x1_0000_0000_0000_0000 && |contents| < 0x1_0000_0000_0000_0000
    case Shared(index) => WellFormedIndex(p.objects, index)
  }

  predicate WellFormedError(c: Codec, e: Leaf, p: Pools)
    requires e.ErrorInstance?
  {
    var p1 := RenderNullable(c, e.message, p).1;
    var p2 := RenderNullable(c, e.sourceUrl, p1).1;
    var p3 := RenderNullable(c, e.stack, p2).1;
    && e.kind <= 6
    && e.line < 0x1_0000_0000
    && e.column < 0x1_0000_0000
    && WellFormedNullable(c, e.message, p)
    && WellFormedNullable(c, e.sourceUrl, p1)
    && WellFormedNullable(c, e.stack, p2)
    && WellFormedNullable(c, e.cause, p3)
  }

  predicate WellFormedLeaf(c: Codec, leaf: Leaf, p: Pools) {
    match leaf
    case Int(n) => -0x8000_0000 <= n < 0x8000_0000
    case Date(bits) => |bits| == 8
    case Double(bits) => |bits| == 8
    case String(str) => WellFormedStr(c, str, p)
    case RegExp(pattern, flags) =>
      WellFormedStr(c, pattern, p) && WellFormedStr(c, flags, RenderStr(c, pattern, p).1)
    case ObjectRef(index) => WellFormedIndex(p.objects, index)
    case View(_, byteOffset, byteLength, buffer) =>
      && byteOffset < 0x1_0000_0000_0000_0000
      && byteLength < 0x1_0000_0000_0000_0000
      && WellFormedBuffer(buffer, p)
    case StringObject(str) => WellFormedStr(c, str, p)
    case NumberObject(bits) => |bits| == 8
    case ErrorInstance(_, _, _, _, _, _, _) => WellFormedError(c, leaf, p)
    case _ => true
  }

  predicate WellFormed(c: Codec, v: Value, p: Pools) {
    match v
    case Terminal(leaf) => WellFormedLeaf(c, leaf, p)
    case Array(length, items, props) =>
      && length < 0x1_0000_0000
      && WellFormedItems(c, items, length, p)
      && WellFormedProps(c, props, RenderItems(c, items, seq(length, _ => []), p).1)
    case Object(fields) => WellFormedFields(c, fields, p)
    case Map(entries, fields) =>
      && WellFormedEntries(c, entries, p)
      && WellFormedFields(c, fields, RenderEntries(c, entries, map[], p).1)
    case Set(elems, fields) =>
      && WellFormedElems(c, elems, p)
      && WellFormedFields(c, fields, RenderElems(c, elems, {}, p).1)
  }

  predicate WellFormedFields(c: Codec, fs: Fields, p: Pools) {
    match fs
    case NoFields => true
    case Field(name, value, more) =>
      var p1 := RenderStr(c, name, p).1;
      && !name.NoStr?
      && WellFormedStr(c, name, p)
      && WellFormed(c, value, p1)
      && WellFormedFields(c, more, Render(c, value, p1).1)
  }

  predicate WellFormedItems(c: Codec, items: Items, length: nat, p: Pools) {
    match items
    case NoItems => true
    case Item(index, value, more) =>
      && index < length
      && WellFormed(c, value, p)
      && WellFormedItems(c, more, length, Render(c, value, p).1)
  }

  predicate WellFormedEntries(c: Codec, es: Entries, p: Pools) {
    match es
    case NoEntries => true
    case Entry(key, value, more) =>
      var p1 := Render(c, key, p).1;
      && WellFormed(c, key, p)
      && WellFormed(c, value, p1)
      && WellFormedEntries(c, more, Render(c, value, p1).1)
  }

  predicate WellFormedElems(c: Codec, es: Elems, p: Pools) {
    match es
    case NoElems => true
    case Elem(value, more) =>
      WellFormed(c, value, p) && WellFormedElems(c, more, Render(c, value, p).1)
  }

  predicate WellFormedProps(c: Codec, props: Props, p: Pools) {
    props.WithProps? ==> WellFormedFields(c, props.fields, p)
  }

  // ----- how trees are written

  function EncodeIndex(pool: seq<Text>, index: nat, rest: Text): (s: Text)
    ensures |s| > |rest|
  {
    Put(index, IndexWidth(|pool|), rest)
  }

  function EncodeStr(lit: StrLit, p: Pools, rest: Text): (s: Text)
    ensures |s| >= |rest| + 4
  {
    match lit
    case Latin(chars) => Put(Is8BitFlag + |chars|, 4, chars + rest)
    case Wide(units) => Put(|units| / 2, 4, units + rest)
    case PooledStr(index) => Put(StringPoolTag, 4, EncodeIndex(p.strings, index, rest))
    case NoStr => Put(TerminatorTag, 4, rest)
  }

  function EncodeNullable(n: Nullable, p: Pools, rest: Text): (s: Text)
    ensures |s| > |rest|
  {
    match n
    case NullStr => [1] + rest
    case NonNull(flag, str) => [flag] + EncodeStr(str, p, rest)
  }

  function EncodeBuffer(b: Buffer, p: Pools, rest: Text): (s: Text)
    ensures |s| > |rest|
  {
    match b
    case Plain(contents) => [ArrayBufferTag] + Put(|contents|, 8, contents + rest)
    case Resizable(maxLength, contents) =>
      [ResizableArrayBufferTag] + Put(|contents|, 8, Put(maxLength, 8, contents + rest))
    case Shared(index) => [ObjectReferenceTag] + EncodeIndex(p.objects, index, rest)
  }

  function EncodeError(c: Codec, e: Leaf, p: Pools, rest: Text): (s: Text)
    requires e.ErrorInstance?
    ensures |s| > |rest|
  {
    var p1 := RenderNullable(c, e.message, p).1;
    var p2 := RenderNullable(c, e.sourceUrl, p1).1;
    var p3 := RenderNullable(c, e.stack, p2).1;
    [e.kind] + EncodeNullable(e.message, p, Put(e.line, 4, Put(e.column, 4,
      EncodeNullable(e.sourceUrl, p1, EncodeNullable(e.stack, p2, EncodeNullable(e.cause, p3, rest))))))
  }

  function LeafTag(leaf: Leaf): byte {
    match leaf
    case Undefined => UndefinedTag
    case Null => NullTag
    case Int(_) => IntTag
    case Zero => ZeroTag
    case One => OneTag
    case False => FalseTag
    case True => TrueTag
    case Date(_) => DateTag
    case Double(_) => DoubleTag
    case String(_) => StringTag
    case RegExp(_, _) => RegExpTag
    case ObjectRef(_) => ObjectReferenceTag
    case View(_, _, _, _) => ArrayBufferViewTag
    case TrueObject => TrueObjectTag
    case FalseObject => FalseObjectTag
    case StringObject(_) => StringObjectTag
    case EmptyStringObject => EmptyStringObjectTag
    case NumberObject(_) => NumberObjectTag
    case ErrorInstance(_, _, _, _, _, _, _) => ErrorInstanceTag
  }

  /** What follows the tag of a leaf. */
  function EncodeLeaf(c: Codec, leaf: Leaf, p: Pools, rest: Text): (s: Text)
    ensures |s| >= |rest|
  {
    match leaf
    case Int(n) => Put(n % 0x1_0000_0000, 4, rest)
    case Date(bits) => bits + rest
    case Double(bits) => bits + rest
    case String(str) => EncodeStr(str, p, rest)
    case RegExp(pattern, flags) =>
      EncodeStr(pattern, p, EncodeStr(flags, RenderStr(c, pattern, p).1, rest))
    case ObjectRef(index) => EncodeIndex(p.objects, index, rest)
    case View(subtag, byteOffset, byteLength, buffer) =>
      [subtag] + Put(byteOffset, 8, Put(byteLength, 8, EncodeBuffer(buffer, p, rest)))
    case StringObject(str) => EncodeStr(str, p, rest)
    case NumberObject(bits) => bits + rest
    case ErrorInstance(_, _, _, _, _, _, _) => EncodeError(c, leaf, p, rest)
    case _ => rest
  }

  function Encode(c: Codec, v: Value, p: Pools, rest: Text): (s: Text)
    ensures |s| > |rest|
  {
    match v
    case Terminal(leaf) => [LeafTag(leaf)] + EncodeLeaf(c, leaf, p, rest)
    case Array(length, items, props) =>
      var p1 := RenderItems(c, items, seq(length, _ => []), p).1;
      [ArrayTag] + Put(length, 4, EncodeItems(c, items, p, EncodeProps(c, props, p1, rest)))
    case Object(fields) => [ObjectTag] + EncodeFields(c, fields, p, rest)
    case Map(entries, fields) =>
      var p1 := RenderEntries(c, entries, map[], p).1;
      [MapObjectTag] + EncodeEntries(c, entries, p, EncodeFields(c, fields, p1, rest))
    case Set(elems, fields) =>
      var p1 := RenderElems(c, elems, {}, p).1;
      [SetObjectTag] + EncodeElems(c, elems, p, EncodeFields(c, fields, p1, rest))
  }

  function EncodeFields(c: Codec, fs: Fields, p: Pools, rest: Text): (s: Text)
    ensures |s| > |rest|
  {
    match fs
    case NoFields => Put(TerminatorTag, 4, rest)
    case Field(name, value, more) =>
      var p1 := RenderStr(c, name, p).1;
      var p2 := Render(c, value, p1).1;
      EncodeStr(name, p, Encode(c, value, p1, EncodeFields(c, more, p2, rest)))
  }

  function EncodeItems(c: Codec, items: Items, p: Pools, rest: Text): (s: Text)
    ensures |s| > |rest|
  {
    match items
    case NoItems => Put(TerminatorTag, 4, rest)
    case Item(index, value, more) =>
      Put(index, 4, Encode(c, value, p, EncodeItems(c, more, Render(c, value, p).1, rest)))
  }

  function EncodeEntries(c: Codec, es: Entries, p: Pools, rest: Text): (s: Text)
    ensures |s| > |rest|
  {
    match es
    case NoEntries => [NonMapPropertiesTag] + rest
    case Entry(key, value, more) =>
      var p1 := Render(c, key, p).1;
      var p2 := Render(c, value, p1).1;
      Encode(c, key, p, Encode(c, value, p1, EncodeEntries(c, more, p2, rest)))
  }

  function EncodeElems(c: Codec, es: Elems, p: Pools, rest: Text): (s: Text)
    ensures |s| > |rest|
  {
    match es
    case NoElems => [NonSetPropertiesTag] + rest
    case Elem(value, more) =>
      Encode(c, value, p, EncodeElems(c, more, Render(c, value, p).1, rest))
  }

  function EncodeProps(c: Codec, props: Props, p: Pools, rest: Text): (s: Text)
    ensures |s| > |rest|
  {
    match props
    case NoProps => Put(TerminatorTag, 4, rest)
    case WithProps(fields) => Put(NonIndexPropertiesTag, 4, EncodeFields(c, fields, p, rest))
  }

  // ----- documents

  datatype Document = Document(version: nat, fields: Fields)

  const NoPools := Pools([], [])

  predicate WellFormedDocument(c: Codec, d: Document) {
    d.version < 0x1_0000_0000 && WellFormedFields(c, d.fields, NoPools)
  }

  function EncodeDocument(c: Codec, d: Document, rest: Text): Text {
    Put(d.version, 4, [ObjectTag] + EncodeFields(c, d.fields, NoPools, rest))
  }

  function RenderDocument(c: Codec, d: Document): (map<Text, Text>, Pools) {
    RenderFields(c, d.fields, map[], NoPools)
  }

  // ----- what follows a tree has no influence on how it is written

  lemma ConsAppend(b: byte, s: Text, more: Text)
    ensures [b] + (s + more) == ([b] + s) + more
  {}

  lemma RawAppend(raw: Text, rest: Text, more: Text)
    ensures raw + (rest + more) == (raw + rest) + more
  {}

  lemma StrAppend(lit: StrLit, p: Pools, rest: Text, more: Text)
    ensures EncodeStr(lit, p, rest + more) == EncodeStr(lit, p, rest) + more
  {
    match lit
    case Latin(chars) =>
      RawAppend(chars, rest, more);
      PutAppend(Is8BitFlag + |chars|, 4, chars + rest, more);
    case Wide(units) =>
      RawAppend(units, rest, more);
      PutAppend(|units| / 2, 4, units + rest, more);
    case PooledStr(index) =>
      PutAppend(index, IndexWidth(|p.strings|), rest, more);
      PutAppend(StringPoolTag, 4, EncodeIndex(p.strings, index, rest), more);
    case NoStr =>
      PutAppend(TerminatorTag, 4, rest, more);
  }

  lemma NullableAppend(n: Nullable, p: Pools, rest: Text, more: Text)
    ensures EncodeNullable(n, p, rest + more) == EncodeNullable(n, p, rest) + more
  {
    match n
    case NullStr => ConsAppend(1, rest, more);
    case NonNull(flag, str) =>
      StrAppend(str, p, rest, more);
      ConsAppend(flag, EncodeStr(str, p, rest), more);
  }

  lemma BufferAppend(b: Buffer, p: Pools, rest: Text, more: Text)
    ensures EncodeBuffer(b, p, rest + more) == EncodeBuffer(b, p, rest) + more
  {
    match b
    case Plain(contents) =>
      RawAppend(contents, rest, more);
      PutAppend(|contents|, 8, contents + rest, more);
      ConsAppend(ArrayBufferTag, Put(|contents|, 8, contents + rest), more);
    case Resizable(maxLength, contents) =>
      RawAppend(contents, rest, more);
      PutAppend(maxLength, 8, contents + rest, more);
      PutAppend(|contents|, 8, Put(maxLength, 8, contents + rest), more);
      ConsAppend(ResizableArrayBufferTag, Put(|contents|, 8, Put(maxLength, 8, contents + rest)), more);
    case Shared(index) =>
      PutAppend(index, IndexWidth(|p.objects|), rest, more);
      ConsAppend(ObjectReferenceTag, EncodeIndex(p.objects, index, rest), more);
  }

  lemma ErrorAppend(c: Codec, e: Leaf, p: Pools, rest: Text, more: Text)
    requires e.ErrorInstance?
    ensures EncodeError(c, e, p, rest + more) == EncodeError(c, e, p, rest) + more
  {
    var p1 := RenderNullable(c, e.message, p).1;
    var p2 := RenderNullable(c, e.sourceUrl, p1).1;
    var p3 := RenderNullable(c, e.stack, p2).1;
    var s4 := EncodeNullable(e.cause, p3, rest);
    var s3 := EncodeNullable(e.stack, p2, s4);
    var s2 := EncodeNullable(e.sourceUrl, p1, s3);
    var s1 := Put(e.column, 4, s2);
    NullableAppend(e.cause, p3, rest, more);
    NullableAppend(e.stack, p2, s4, more);
    NullableAppend(e.sourceUrl, p1, s3, more);
    PutAppend(e.column, 4, s2, more);
    PutAppend(e.line, 4, s1, more);
    NullableAppend(e.message, p, Put(e.line, 4, s1), more);
    ConsAppend(e.kind, EncodeNullable(e.message, p, Put(e.line, 4, s1)), more);
  }

  lemma LeafAppend(c: Codec, leaf: Leaf, p: Pools, rest: Text, more: Text)
    ensures EncodeLeaf(c, leaf, p, rest + more) == EncodeLeaf(c, leaf, p, rest) + more
  {
    match leaf
    case Int(n) => PutAppend(n % 0x1_0000_0000, 4, rest, more);
    case Date(bits) => RawAppend(bits, rest, more);
    case Double(bits) => RawAppend(bits, rest, more);
    case String(str) => StrAppend(str, p, rest, more);
    case RegExp(pattern, flags) =>
      var p1 := RenderStr(c, pattern, p).1;
      StrAppend(flags, p1, rest, more);
      StrAppend(pattern, p, EncodeStr(flags, p1, rest), more);
    case ObjectRef(index) => PutAppend(index, IndexWidth(|p.objects|), rest, more);
    case View(subtag, byteOffset, byteLength, buffer) =>
      var s := EncodeBuffer(buffer, p, rest);
      BufferAppend(buffer, p, rest, more);
      PutAppend(byteLength, 8, s, more);
      PutAppend(byteOffset, 8, Put(byteLength, 8, s), more);
      ConsAppend(subtag, Put(byteOffset, 8, Put(byteLength, 8, s)), more);
    case StringObject(str) => StrAppend(str, p, rest, more);
    case NumberObject(bits) => RawAppend(bits, rest, more);
    case ErrorInstance(_, _, _, _, _, _, _) => ErrorAppend(c, leaf, p, rest, more);
    case _ =>
  }

  /** Writing a value before `rest + more` is writing it before `rest`, then `more`. */
  lemma {:induction false} EncodeAppend(c: Codec, v: Value, p: Pools, rest: Text, more: Text)
    ensures Encode(c, v, p, rest + more) == Encode(c, v, p, rest) + more
    decreases v
  {
    match v
    case Terminal(leaf) =>
      LeafAppend(c, leaf, p, rest, more);
      ConsAppend(LeafTag(leaf), EncodeLeaf(c, leaf, p, rest), more);
    case Array(length, items, props) =>
      var p1 := RenderItems(c, items, seq(length, _ => []), p).1;
      var tail := EncodeProps(c, props, p1, rest);
      PropsAppend(c, props, p1, rest, more);
      ItemsAppend(c, items, p, tail, more);
      PutAppend(length, 4, EncodeItems(c, items, p, tail), more);
      ConsAppend(ArrayTag, Put(length, 4, EncodeItems(c, items, p, tail)), more);
    case Object(fields) =>
      FieldsAppend(c, fields, p, rest, more);
      ConsAppend(ObjectTag, EncodeFields(c, fields, p, rest), more);
    case Map(entries, fields) =>
      var p1 := RenderEntries(c, entries, map[], p).1;
      FieldsAppend(c, fields, p1, rest, more);
      EntriesAppend(c, entries, p, EncodeFields(c, fields, p1, rest), more);
      ConsAppend(MapObjectTag, EncodeEntries(c, entries, p, EncodeFields(c, fields, p1, rest)), more);
    case Set(elems, fields) =>
      var p1 := RenderElems(c, elems, {}, p).1;
      FieldsAppend(c, fields, p1, rest, more);
      ElemsAppend(c, elems, p, EncodeFields(c, fields, p1, rest), more);
      ConsAppend(SetObjectTag, EncodeElems(c, elems, p, EncodeFields(c, fields, p1, rest)), more);
  }

  lemma {:induction false} FieldsAppend(c: Codec, fs: Fields, p: Pools, rest: Text, more: Text)
    ensures EncodeFields(c, fs, p, rest + more) == EncodeFields(c, fs, p, rest) + more
    decreases fs
  {
    match fs
    case NoFields => PutAppend(TerminatorTag, 4, rest, more);
    case Field(name, value, fs') =>
      var p1 := RenderStr(c, name, p).1;
      var p2 := Render(c, value, p1).1;
      var tail := EncodeFields(c, fs', p2, rest);
      FieldsAppend(c, fs', p2, rest, more);
      EncodeAppend(c, value, p1, tail, more);
      StrAppend(name, p, Encode(c, value, p1, tail), more);
  }

  lemma {:induction false} ItemsAppend(c: Codec, items: Items, p: Pools, rest: Text, more: Text)
    ensures EncodeItems(c, items, p, rest + more) == EncodeItems(c, items, p, rest) + more
    decreases items
  {
    match items
    case NoItems => PutAppend(TerminatorTag, 4, rest, more);
    case Item(index, value, items') =>
      var p1 := Render(c, value, p).1;
      var tail := EncodeItems(c, items', p1, rest);
      ItemsAppend(c, items', p1, rest, more);
      EncodeAppend(c, value, p, tail, more);
      PutAppend(index, 4, Encode(c, value, p, tail), more);
  }

  lemma {:induction false} EntriesAppend(c: Codec, es: Entries, p: Pools, rest: Text, more: Text)
    ensures EncodeEntries(c, es, p, rest + more) == EncodeEntries(c, es, p, rest) + more
    decreases es
  {
    match es
    case NoEntries => ConsAppend(NonMapPropertiesTag, rest, more);
    case Entry(key, value, es') =>
      var p1 := Render(c, key, p).1;
      var p2 := Render(c, value, p1).1;
      var tail := EncodeEntries(c, es', p2, rest);
      EntriesAppend(c, es', p2, rest, more);
      EncodeAppend(c, value, p1, tail, more);
      EncodeAppend(c, key, p, Encode(c, value, p1, tail), more);
  }

  lemma {:induction false} ElemsAppend(c: Codec, es: Elems, p: Pools, rest: Text, more: Text)
    ensures EncodeElems(c, es, p, rest + more) == EncodeElems(c, es, p, rest) + more
    decreases es
  {
    match es
    case NoElems => ConsAppend(NonSetPropertiesTag, rest, more);
    case Elem(value, es') =>
      var p1 := Render(c, value, p).1;
      var tail := EncodeElems(c, es', p1, rest);
      ElemsAppend(c, es', p1, rest, more);
      EncodeAppend(c, value, p, tail, more);
  }

  lemma {:induction false} PropsAppend(c: Codec, props: Props, p: Pools, rest: Text, more: Text)
    ensures EncodeProps(c, props, p, rest + more) == EncodeProps(c, props, p, rest) + more
    decreases props
  {
    match props
    case NoProps => PutAppend(TerminatorTag, 4, rest, more);
    case WithProps(fields) =>
      FieldsAppend(c, fields, p, rest, more);
      PutAppend(NonIndexPropertiesTag, 4, EncodeFields(c, fields, p, rest), more);
  }
}
