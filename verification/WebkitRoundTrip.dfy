/**
 * The reader inverts the writer: reading a written tree gives its meaning, leaves exactly what
 * followed it, and leaves both pools as the writer left them.
 */
module WebkitRoundTrip {
  import opened Bytes
  import opened WebkitSpec
  import opened WebkitGrammar

  lemma UintBack(n: nat, w: nat, rest: Text, p: Pools)
    requires n < Pow256(w)
    ensures ReadUint(State(Put(n, w, rest), p), w) == Ok(n, State(rest, p))
  {
    GetPut(n, w, rest);
  }

  lemma Uint4Back(n: nat, rest: Text, p: Pools)
    requires n < 0x1_0000_0000
    ensures ReadUint(State(Put(n, 4, rest), p), 4) == Ok(n, State(rest, p))
  {
    Pow256Values();
    UintBack(n, 4, rest, p);
  }

  lemma Uint8Back(n: nat, rest: Text, p: Pools)
    requires n < 0x1_0000_0000_0000_0000
    ensures ReadUint(State(Put(n, 8, rest), p), 8) == Ok(n, State(rest, p))
  {
    Pow256Values();
    UintBack(n, 8, rest, p);
  }

  lemma ByteBack(b: byte, rest: Text, p: Pools)
    ensures ReadByte(State([b] + rest, p)) == Ok(b, State(rest, p))
  {
    assert ([b] + rest)[1..] == rest;
  }

  lemma BytesBack(raw: Text, rest: Text, p: Pools)
    ensures ReadBytes(State(raw + rest, p), |raw|) == Ok(raw, State(rest, p))
  {
    assert (raw + rest)[..|raw|] == raw;
    assert (raw + rest)[|raw|..] == rest;
  }

  lemma IndexBack(pool: seq<Text>, index: nat, rest: Text, p: Pools)
    requires WellFormedIndex(pool, index)
    ensures FromPool(State(EncodeIndex(pool, index, rest), p), pool) == Ok(pool[index], State(rest, p))
  {
    Pow256Values();
    UintBack(index, IndexWidth(|pool|), rest, p);
  }

  function AsRead(c: Codec, s: StrLit, p: Pools): StringRead {
    if s.NoStr? then Terminator else Str(RenderStr(c, s, p).0)
  }

  lemma NewStringBack(c: Codec, meta: nat, raw: Text, text: Text, p: Pools, rest: Text)
    requires |raw| == StringBytes(meta)
    requires DecodeString(c, meta >= Is8BitFlag, raw) == Some(text)
    ensures ReadNewString(c, meta, State(raw + rest, p)) == Ok(Str(text), State(rest, p.AddString(text)))
  {
    BytesBack(raw, rest, p);
  }

  lemma StringDataBack(c: Codec, s: StrLit, p: Pools, rest: Text)
    requires WellFormedStr(c, s, p)
    ensures ReadStringData(c, State(EncodeStr(s, p, rest), p))
         == Ok(AsRead(c, s, p), State(rest, RenderStr(c, s, p).1))
  {
    match s
    case Latin(chars) =>
      Uint4Back(Is8BitFlag + |chars|, chars + rest, p);
      NewStringBack(c, Is8BitFlag + |chars|, chars, c.latin1(chars), p, rest);
    case Wide(units) =>
      Uint4Back(|units| / 2, units + rest, p);
      NewStringBack(c, |units| / 2, units, c.utf16(units).value, p, rest);
    case PooledStr(index) =>
      Uint4Back(StringPoolTag, EncodeIndex(p.strings, index, rest), p);
      IndexBack(p.strings, index, rest, p);
    case NoStr =>
      Uint4Back(TerminatorTag, rest, p);
  }

  /** `r` reads as the rendering `m` with `rest` left over. */
  ghost predicate Gives(r: Out<Text>, m: (Text, Pools), rest: Text) {
    r == Ok(m.0, State(rest, m.1))
  }

  lemma StringBack(c: Codec, s: StrLit, p: Pools, rest: Text)
    requires WellFormedStr(c, s, p)
    ensures Gives(ReadString(c, State(EncodeStr(s, p, rest), p)), RenderStr(c, s, p), rest)
  {
    StringDataBack(c, s, p, rest);
  }

  lemma NullableBack(c: Codec, s: Nullable, p: Pools, rest: Text)
    requires WellFormedNullable(c, s, p)
    ensures Gives(ReadNullable(c, State(EncodeNullable(s, p, rest), p)), RenderNullable(c, s, p), rest)
  {
    match s
    case NullStr => ByteBack(1, rest, p);
    case NonNull(flag, str) =>
      ByteBack(flag, EncodeStr(str, p, rest), p);
      StringBack(c, str, p, rest);
  }

  lemma DoubleBack(c: Codec, bits: Text, p: Pools, rest: Text)
    requires |bits| == 8
    ensures Gives(ReadDouble(c, State(bits + rest, p)), (c.formatDouble(bits), p), rest)
  {
    BytesBack(bits, rest, p);
  }

  lemma IntBack(c: Codec, n: int, p: Pools, rest: Text)
    requires -0x8000_0000 <= n < 0x8000_0000
    ensures Gives(ReadInt(c, State(Put(n % 0x1_0000_0000, 4, rest), p)), (c.formatInt(n), p), rest)
  {
    Uint4Back(n % 0x1_0000_0000, rest, p);
  }

  lemma RegExpBack(c: Codec, pattern: StrLit, flags: StrLit, p: Pools, rest: Text)
    requires WellFormedStr(c, pattern, p)
    requires WellFormedStr(c, flags, RenderStr(c, pattern, p).1)
    ensures Gives(ReadRegExp(c, State(EncodeLeaf(c, RegExp(pattern, flags), p, rest), p)),
                  RenderRegExp(c, pattern, flags, p), rest)
  {
    var p1 := RenderStr(c, pattern, p).1;
    StringBack(c, pattern, p, EncodeStr(flags, p1, rest));
    StringBack(c, flags, p1, rest);
  }

  lemma ContentsBack(contents: Text, p: Pools, rest: Text)
    requires contents != [] || rest != []
    ensures Gives(Pooled(ReadUpTo(State(contents + rest, p), |contents|)), Pool((contents, p)), rest)
  {
    assert (contents + rest)[..|contents|] + Zeros(0) == contents;
    assert (contents + rest)[|contents|..] == rest;
  }

  lemma BufferBack(b: Buffer, p: Pools, rest: Text)
    requires WellFormedBuffer(b, p)
    requires b.Shared? || b.contents != [] || rest != []
    ensures var st := State(EncodeBuffer(b, p, rest), p);
      && ReadByte(st).Ok?
      && Gives(ReadBuffer(ReadByte(st).value, ReadByte(st).st), RenderBuffer(b, p), rest)
  {
    match b
    case Plain(contents) =>
      ByteBack(ArrayBufferTag, Put(|contents|, 8, contents + rest), p);
      Uint8Back(|contents|, contents + rest, p);
      ContentsBack(contents, p, rest);
    case Resizable(maxLength, contents) =>
      ByteBack(ResizableArrayBufferTag, Put(|contents|, 8, Put(maxLength, 8, contents + rest)), p);
      Uint8Back(|contents|, Put(maxLength, 8, contents + rest), p);
      Uint8Back(maxLength, contents + rest, p);
      ContentsBack(contents, p, rest);
    case Shared(index) =>
      ByteBack(ObjectReferenceTag, EncodeIndex(p.objects, index, rest), p);
      IndexBack(p.objects, index, rest, p);
  }

  /** An empty buffer at the very end of the input cannot be read back: reading nothing needs one more byte. */
  predicate NeedsMore(leaf: Leaf) {
    leaf.View? && !leaf.buffer.Shared? && leaf.buffer.contents == []
  }

  lemma ViewBack(c: Codec, leaf: Leaf, p: Pools, rest: Text)
    requires leaf.View? && WellFormedLeaf(c, leaf, p)
    requires NeedsMore(leaf) ==> rest != []
    ensures Gives(ReadView(State(EncodeLeaf(c, leaf, p, rest), p)), RenderBuffer(leaf.buffer, p), rest)
  {
    var buffer := EncodeBuffer(leaf.buffer, p, rest);
    ByteBack(leaf.subtag, Put(leaf.byteOffset, 8, Put(leaf.byteLength, 8, buffer)), p);
    Uint8Back(leaf.byteOffset, Put(leaf.byteLength, 8, buffer), p);
    Uint8Back(leaf.byteLength, buffer, p);
    BufferBack(leaf.buffer, p, rest);
  }

  lemma ErrorBack(c: Codec, e: Leaf, p: Pools, rest: Text)
    requires e.ErrorInstance? && WellFormedError(c, e, p)
    ensures Gives(ReadError(c, State(EncodeError(c, e, p, rest), p)), RenderError(c, e, p), rest)
  {
    var p1 := RenderNullable(c, e.message, p).1;
    var p2 := RenderNullable(c, e.sourceUrl, p1).1;
    var p3 := RenderNullable(c, e.stack, p2).1;
    var s4 := EncodeNullable(e.cause, p3, rest);
    var s3 := EncodeNullable(e.stack, p2, s4);
    var s2 := EncodeNullable(e.sourceUrl, p1, s3);
    var s1 := Put(e.line, 4, Put(e.column, 4, s2));
    ByteBack(e.kind, EncodeNullable(e.message, p, s1), p);
    NullableBack(c, e.message, p, s1);
    Uint4Back(e.line, Put(e.column, 4, s2), p1);
    Uint4Back(e.column, s2, p1);
    NullableBack(c, e.sourceUrl, p1, s3);
    NullableBack(c, e.stack, p2, s4);
    NullableBack(c, e.cause, p3, rest);
  }

  lemma BoxedBack(c: Codec, leaf: Leaf, p: Pools, rest: Text)
    requires leaf.View? || leaf.StringObject? || leaf.NumberObject?
    requires WellFormedLeaf(c, leaf, p)
    requires NeedsMore(leaf) ==> rest != []
    ensures Gives(ReadTerminal(c, LeafTag(leaf), State(EncodeLeaf(c, leaf, p, rest), p)), RenderLeaf(c, leaf, p), rest)
  {
    match leaf
    case View(_, _, _, _) => ViewBack(c, leaf, p, rest);
    case StringObject(str) => StringBack(c, str, p, rest);
    case NumberObject(bits) => DoubleBack(c, bits, p, rest);
  }

  lemma NumericBack(c: Codec, leaf: Leaf, p: Pools, rest: Text)
    requires leaf.Int? || leaf.Date? || leaf.Double? || leaf.ObjectRef?
    requires WellFormedLeaf(c, leaf, p)
    ensures Gives(ReadTerminal(c, LeafTag(leaf), State(EncodeLeaf(c, leaf, p, rest), p)), RenderLeaf(c, leaf, p), rest)
  {
    match leaf
    case Int(n) => IntBack(c, n, p, rest);
    case Date(bits) => DoubleBack(c, bits, p, rest);
    case Double(bits) => DoubleBack(c, bits, p, rest);
    case ObjectRef(index) => IndexBack(p.objects, index, rest, p);
  }

  lemma TextualBack(c: Codec, leaf: Leaf, p: Pools, rest: Text)
    requires leaf.String? || leaf.RegExp?
    requires WellFormedLeaf(c, leaf, p)
    ensures Gives(ReadTerminal(c, LeafTag(leaf), State(EncodeLeaf(c, leaf, p, rest), p)), RenderLeaf(c, leaf, p), rest)
  {
    match leaf
    case String(str) => StringBack(c, str, p, rest);
    case RegExp(pattern, flags) => RegExpBack(c, pattern, flags, p, rest);
  }

  lemma ErrorLeafBack(c: Codec, leaf: Leaf, p: Pools, rest: Text)
    requires leaf.ErrorInstance? && WellFormedLeaf(c, leaf, p)
    ensures Gives(ReadTerminal(c, LeafTag(leaf), State(EncodeLeaf(c, leaf, p, rest), p)), RenderLeaf(c, leaf, p), rest)
  {
    var s := EncodeError(c, leaf, p, rest);
    assert ReadTerminal(c, ErrorInstanceTag, State(s, p)) == ReadPlain(c, ErrorInstanceTag, State(s, p));
    ErrorBack(c, leaf, p, rest);
  }

  predicate IsConstant(leaf: Leaf) {
    || leaf.Undefined? || leaf.Null? || leaf.Zero? || leaf.One? || leaf.False? || leaf.True?
    || leaf.TrueObject? || leaf.FalseObject? || leaf.EmptyStringObject?
  }

  lemma ConstantBack(c: Codec, leaf: Leaf, p: Pools, rest: Text)
    requires IsConstant(leaf)
    ensures Gives(ReadTerminal(c, LeafTag(leaf), State(EncodeLeaf(c, leaf, p, rest), p)), RenderLeaf(c, leaf, p), rest)
  {}

  lemma LeafBack(c: Codec, leaf: Leaf, p: Pools, rest: Text)
    requires WellFormedLeaf(c, leaf, p)
    requires NeedsMore(leaf) ==> rest != []
    ensures Gives(ReadTerminal(c, LeafTag(leaf), State(EncodeLeaf(c, leaf, p, rest), p)), RenderLeaf(c, leaf, p), rest)
  {
    if leaf.View? || leaf.StringObject? || leaf.NumberObject? {
      BoxedBack(c, leaf, p, rest);
    } else if leaf.Int? || leaf.Date? || leaf.Double? || leaf.ObjectRef? {
      NumericBack(c, leaf, p, rest);
    } else if leaf.String? || leaf.RegExp? {
      TextualBack(c, leaf, p, rest);
    } else if leaf.ErrorInstance? {
      ErrorLeafBack(c, leaf, p, rest);
    } else {
      ConstantBack(c, leaf, p, rest);
    }
  }

  lemma {:induction false} ValueBack(c: Codec, v: Value, p: Pools, rest: Text)
    requires WellFormed(c, v, p)
    requires v.Terminal? && NeedsMore(v.leaf) ==> rest != []
    ensures Gives(ReadValue(c, State(Encode(c, v, p, rest), p)), Render(c, v, p), rest)
    decreases v, 1
  {
    match v
    case Terminal(leaf) => TerminalBack(c, leaf, p, rest);
    case Array(_, _, _) => ArrayBack(c, v, p, rest);
    case Object(_) => ObjectBack(c, v, p, rest);
    case Map(_, _) => MapBack(c, v, p, rest);
    case Set(_, _) => SetBack(c, v, p, rest);
  }

  lemma TerminalBack(c: Codec, leaf: Leaf, p: Pools, rest: Text)
    requires WellFormedLeaf(c, leaf, p)
    requires NeedsMore(leaf) ==> rest != []
    ensures Gives(ReadValue(c, State(Encode(c, Terminal(leaf), p, rest), p)), RenderLeaf(c, leaf, p), rest)
  {
    ByteBack(LeafTag(leaf), EncodeLeaf(c, leaf, p, rest), p);
    LeafBack(c, leaf, p, rest);
  }

  lemma {:induction false} ObjectBack(c: Codec, v: Value, p: Pools, rest: Text)
    requires v.Object? && WellFormed(c, v, p)
    ensures Gives(ReadValue(c, State(Encode(c, v, p, rest), p)), Render(c, v, p), rest)
    decreases v, 0
  {
    ByteBack(ObjectTag, EncodeFields(c, v.fields, p, rest), p);
    FieldsBack(c, v.fields, map[], p, rest);
  }

  lemma {:induction false} ArrayBack(c: Codec, v: Value, p: Pools, rest: Text)
    requires v.Array? && WellFormed(c, v, p)
    ensures Gives(ReadValue(c, State(Encode(c, v, p, rest), p)), Render(c, v, p), rest)
    decreases v, 0
  {
    var empty := seq(v.length, _ => []);
    var p1 := RenderItems(c, v.items, empty, p).1;
    var tail := EncodeProps(c, v.props, p1, rest);
    ByteBack(ArrayTag, Put(v.length, 4, EncodeItems(c, v.items, p, tail)), p);
    Uint4Back(v.length, EncodeItems(c, v.items, p, tail), p);
    ItemsBack(c, v.items, empty, p, tail);
    PropsBack(c, v.props, p1, rest);
  }

  lemma {:induction false} MapBack(c: Codec, v: Value, p: Pools, rest: Text)
    requires v.Map? && WellFormed(c, v, p)
    ensures Gives(ReadValue(c, State(Encode(c, v, p, rest), p)), Render(c, v, p), rest)
    decreases v, 0
  {
    var p1 := RenderEntries(c, v.entries, map[], p).1;
    var tail := EncodeFields(c, v.fields, p1, rest);
    ByteBack(MapObjectTag, EncodeEntries(c, v.entries, p, tail), p);
    EntriesBack(c, v.entries, map[], p, tail);
    FieldsBack(c, v.fields, map[], p1, rest);
  }

  lemma {:induction false} SetBack(c: Codec, v: Value, p: Pools, rest: Text)
    requires v.Set? && WellFormed(c, v, p)
    ensures Gives(ReadValue(c, State(Encode(c, v, p, rest), p)), Render(c, v, p), rest)
    decreases v, 0
  {
    var p1 := RenderElems(c, v.elems, {}, p).1;
    var tail := EncodeFields(c, v.fields, p1, rest);
    ByteBack(SetObjectTag, EncodeElems(c, v.elems, p, tail), p);
    ElemsBack(c, v.elems, {}, p, tail);
    FieldsBack(c, v.fields, map[], p1, rest);
  }

  lemma {:induction false} FieldsBack(c: Codec, fs: Fields, acc: map<Text, Text>, p: Pools, rest: Text)
    requires WellFormedFields(c, fs, p)
    ensures var m := RenderFields(c, fs, acc, p);
      ReadFields(c, State(EncodeFields(c, fs, p, rest), p), acc) == Ok(m.0, State(rest, m.1))
    decreases fs
  {
    match fs
    case NoFields => StringDataBack(c, NoStr, p, rest);
    case Field(name, value, more) =>
      var (n, p1) := RenderStr(c, name, p);
      var (t, p2) := Render(c, value, p1);
      var tail := EncodeFields(c, more, p2, rest);
      StringDataBack(c, name, p, Encode(c, value, p1, tail));
      ValueBack(c, value, p1, tail);
      FieldsBack(c, more, acc[n := t], p2, rest);
  }

  lemma {:induction false} ItemsBack(c: Codec, items: Items, acc: seq<Text>, p: Pools, rest: Text)
    requires |acc| < 0x1_0000_0000
    requires WellFormedItems(c, items, |acc|, p)
    ensures var m := RenderItems(c, items, acc, p);
      ReadItems(c, State(EncodeItems(c, items, p, rest), p), acc) == Ok(m.0, State(rest, m.1))
    decreases items
  {
    match items
    case NoItems => Uint4Back(TerminatorTag, rest, p);
    case Item(index, value, more) =>
      var (t, p1) := Render(c, value, p);
      var tail := EncodeItems(c, more, p1, rest);
      Uint4Back(index, Encode(c, value, p, tail), p);
      ValueBack(c, value, p, tail);
      ItemsBack(c, more, acc[index := t], p1, rest);
  }

  lemma {:induction false} PropsBack(c: Codec, props: Props, p: Pools, rest: Text)
    requires WellFormedProps(c, props, p)
    ensures ReadArrayProperties(c, State(EncodeProps(c, props, p, rest), p)) == Ok((), State(rest, RenderProps(c, props, p)))
    decreases props
  {
    match props
    case NoProps => Uint4Back(TerminatorTag, rest, p);
    case WithProps(fields) =>
      Uint4Back(NonIndexPropertiesTag, EncodeFields(c, fields, p, rest), p);
      FieldsBack(c, fields, map[], p, rest);
  }

  /** The first byte of a value is the tag of a value. */
  lemma FirstByte(c: Codec, v: Value, p: Pools, rest: Text)
    ensures Encode(c, v, p, rest)[0] != NonMapPropertiesTag
    ensures Encode(c, v, p, rest)[0] != NonSetPropertiesTag
  {}

  lemma {:induction false} EntriesBack(c: Codec, es: Entries, acc: map<Text, Text>, p: Pools, rest: Text)
    requires WellFormedEntries(c, es, p)
    ensures var m := RenderEntries(c, es, acc, p);
      ReadEntries(c, State(EncodeEntries(c, es, p, rest), p), acc) == Ok(m.0, State(rest, m.1))
    decreases es
  {
    match es
    case NoEntries => ByteBack(NonMapPropertiesTag, rest, p);
    case Entry(key, value, more) =>
      var (k, p1) := Render(c, key, p);
      var (t, p2) := Render(c, value, p1);
      var tail := EncodeEntries(c, more, p2, rest);
      FirstByte(c, key, p, Encode(c, value, p1, tail));
      ValueBack(c, key, p, Encode(c, value, p1, tail));
      ValueBack(c, value, p1, tail);
      EntriesBack(c, more, acc[k := t], p2, rest);
  }

  lemma {:induction false} ElemsBack(c: Codec, es: Elems, acc: set<Text>, p: Pools, rest: Text)
    requires WellFormedElems(c, es, p)
    ensures var m := RenderElems(c, es, acc, p);
      ReadElems(c, State(EncodeElems(c, es, p, rest), p), acc) == Ok(m.0, State(rest, m.1))
    decreases es
  {
    match es
    case NoElems => ByteBack(NonSetPropertiesTag, rest, p);
    case Elem(value, more) =>
      var (t, p1) := Render(c, value, p);
      var tail := EncodeElems(c, more, p1, rest);
      FirstByte(c, value, p, tail);
      ValueBack(c, value, p, tail);
      ElemsBack(c, more, acc + {t}, p1, rest);
  }

  lemma DocumentBack(c: Codec, d: Document, rest: Text)
    requires WellFormedDocument(c, d)
    ensures var m := RenderDocument(c, d);
      ReadDocument(c, EncodeDocument(c, d, rest)) == Ok(m.0, State(rest, m.1))
  {
    var fields := EncodeFields(c, d.fields, NoPools, rest);
    Uint4Back(d.version, [ObjectTag] + fields, NoPools);
    ByteBack(ObjectTag, fields, NoPools);
    FieldsBack(c, d.fields, map[], NoPools, rest);
  }
}
