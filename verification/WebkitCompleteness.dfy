/**
 * The reader accepts nothing but written trees: from every successful read a tree can be recovered
 * that spells exactly the bytes consumed and means exactly what was returned. With the round trip
 * this characterises the reader completely.
 */
module WebkitCompleteness {
  import opened Bytes
  import opened WebkitSpec
  import opened WebkitGrammar
  import opened WebkitRoundTrip

  lemma UintSpelled(st: State, w: nat)
    requires ReadUint(st, w).Ok?
    ensures var r := ReadUint(st, w);
      && r.value < Pow256(w)
      && st.rest == Put(r.value, w, r.st.rest)
      && r.st.pools == st.pools
  {
    PutGet(st.rest, w);
  }

  lemma Uint4Spelled(st: State)
    requires ReadUint(st, 4).Ok?
    ensures var r := ReadUint(st, 4);
      && r.value < 0x1_0000_0000
      && st.rest == Put(r.value, 4, r.st.rest)
      && r.st.pools == st.pools
  {
    Pow256Values();
    UintSpelled(st, 4);
  }

  lemma Uint8Spelled(st: State)
    requires ReadUint(st, 8).Ok?
    ensures var r := ReadUint(st, 8);
      && r.value < 0x1_0000_0000_0000_0000
      && st.rest == Put(r.value, 8, r.st.rest)
      && r.st.pools == st.pools
  {
    Pow256Values();
    UintSpelled(st, 8);
  }

  lemma ByteSpelled(st: State)
    requires ReadByte(st).Ok?
    ensures st.rest == [ReadByte(st).value] + ReadByte(st).st.rest
    ensures ReadByte(st).st.pools == st.pools
  {}

  lemma BytesSpelled(st: State, n: nat)
    requires ReadBytes(st, n).Ok?
    ensures var r := ReadBytes(st, n);
      |r.value| == n && st.rest == r.value + r.st.rest && r.st.pools == st.pools
  {}

  lemma IndexSpelled(st: State, pool: seq<Text>) returns (index: nat)
    requires FromPool(st, pool).Ok?
    ensures var r := FromPool(st, pool);
      && WellFormedIndex(pool, index)
      && st.rest == EncodeIndex(pool, index, r.st.rest)
      && r.value == pool[index]
      && r.st.pools == st.pools
  {
    Pow256Values();
    var w := IndexWidth(|pool|);
    UintSpelled(st, w);
    index := ReadUint(st, w).value;
  }

  /** `s` spells what was consumed between `st` and `r` and means what `r` holds. */
  ghost predicate SpellsStr(c: Codec, s: StrLit, st: State, r: Out<StringRead>) {
    && r.Ok?
    && WellFormedStr(c, s, st.pools)
    && st.rest == EncodeStr(s, st.pools, r.st.rest)
    && r.value == AsRead(c, s, st.pools)
    && r.st.pools == RenderStr(c, s, st.pools).1
  }

  lemma NewStringSpelled(c: Codec, meta: nat, st: State) returns (s: StrLit)
    requires meta < 0xFFFF_FFFE
    requires ReadNewString(c, meta, st).Ok?
    ensures var r := ReadNewString(c, meta, st);
      && (s.Latin? || s.Wide?)
      && WellFormedStr(c, s, st.pools)
      && Put(meta, 4, st.rest) == EncodeStr(s, st.pools, r.st.rest)
      && r.value == AsRead(c, s, st.pools)
      && r.st.pools == RenderStr(c, s, st.pools).1
  {
    BytesSpelled(st, StringBytes(meta));
    var raw := ReadBytes(st, StringBytes(meta)).value;
    s := if meta >= Is8BitFlag then Latin(raw) else Wide(raw);
  }

  lemma StringDataSpelled(c: Codec, st: State) returns (s: StrLit)
    requires ReadStringData(c, st).Ok?
    ensures SpellsStr(c, s, st, ReadStringData(c, st))
  {
    Uint4Spelled(st);
    var (meta, st1) := ReadUint(st, 4).Extract();
    if meta == TerminatorTag {
      s := NoStr;
    } else if meta == StringPoolTag {
      var index := IndexSpelled(st1, st1.pools.strings);
      s := PooledStr(index);
    } else {
      s := NewStringSpelled(c, meta, st1);
    }
  }

  lemma StringSpelled(c: Codec, st: State) returns (s: StrLit)
    requires ReadString(c, st).Ok?
    ensures var r := ReadString(c, st);
      && WellFormedStr(c, s, st.pools)
      && st.rest == EncodeStr(s, st.pools, r.st.rest)
      && RenderStr(c, s, st.pools) == (r.value, r.st.pools)
  {
    s := StringDataSpelled(c, st);
  }

  lemma NullableSpelled(c: Codec, st: State) returns (s: Nullable)
    requires ReadNullable(c, st).Ok?
    ensures var r := ReadNullable(c, st);
      && WellFormedNullable(c, s, st.pools)
      && st.rest == EncodeNullable(s, st.pools, r.st.rest)
      && RenderNullable(c, s, st.pools) == (r.value, r.st.pools)
  {
    ByteSpelled(st);
    var (flag, st1) := ReadByte(st).Extract();
    if flag == 1 {
      s := NullStr;
    } else {
      var str := StringSpelled(c, st1);
      s := NonNull(flag, str);
    }
  }

  /** `leaf` spells what follows its tag `tag`. */
  ghost predicate SpellsLeaf(c: Codec, leaf: Leaf, tag: byte, st: State, r: Out<Text>) {
    && r.Ok?
    && LeafTag(leaf) == tag
    && WellFormedLeaf(c, leaf, st.pools)
    && st.rest == EncodeLeaf(c, leaf, st.pools, r.st.rest)
    && RenderLeaf(c, leaf, st.pools) == (r.value, r.st.pools)
  }

  lemma Int32Back(n: nat)
    requires n < 0x1_0000_0000
    ensures -0x8000_0000 <= ToInt32(n) < 0x8000_0000 && ToInt32(n) % 0x1_0000_0000 == n
  {
  }

  lemma IntSpelled(c: Codec, st: State) returns (leaf: Leaf)
    requires ReadInt(c, st).Ok?
    ensures SpellsLeaf(c, leaf, IntTag, st, ReadInt(c, st))
  {
    Uint4Spelled(st);
    var n := ReadUint(st, 4).value;
    leaf := Int(ToInt32(n));
    Int32Back(n);
  }

  lemma DoubleSpelled(c: Codec, st: State) returns (bits: Text)
    requires ReadDouble(c, st).Ok?
    ensures var r := ReadDouble(c, st);
      |bits| == 8 && st.rest == bits + r.st.rest && r.value == c.formatDouble(bits) && r.st.pools == st.pools
  {
    BytesSpelled(st, 8);
    bits := ReadBytes(st, 8).value;
  }

  lemma RegExpSpelled(c: Codec, st: State) returns (leaf: Leaf)
    requires ReadRegExp(c, st).Ok?
    ensures SpellsLeaf(c, leaf, RegExpTag, st, ReadRegExp(c, st))
  {
    var pattern := StringSpelled(c, st);
    var flags := StringSpelled(c, ReadString(c, st).st);
    leaf := RegExp(pattern, flags);
  }

  /** The declared length of a buffer is more than there is. */
  predicate ShortBuffer(tag: byte, st: State) {
    if tag == ArrayBufferTag then
      var length := ReadUint(st, 8);
      length.Ok? && |length.st.rest| < length.value
    else if tag == ResizableArrayBufferTag then
      var length := ReadUint(st, 8);
      length.Ok? && ReadUint(length.st, 8).Ok? && |ReadUint(length.st, 8).st.rest| < length.value
    else false
  }

  predicate ShortView(st: State) {
    var subtag := ReadByte(st);
    subtag.Ok? &&
    var byteOffset := ReadUint(subtag.st, 8);
    byteOffset.Ok? &&
    var byteLength := ReadUint(byteOffset.st, 8);
    byteLength.Ok? && ReadByte(byteLength.st).Ok? && ShortBuffer(ReadByte(byteLength.st).value, ReadByte(byteLength.st).st)
  }

  /** A view whose buffer is cut short by the end of the input; the source takes the missing bytes for zeros. */
  predicate CutShort(s: Text, p: Pools) {
    s != [] && s[0] == ArrayBufferViewTag && ShortView(State(s[1..], p))
  }

  lemma ContentsSpelled(st: State, n: nat)
    requires ReadUpTo(st, n).Ok? && (ReadUpTo(st, n).st.rest != [] || n <= |st.rest|)
    ensures var r := ReadUpTo(st, n);
      |r.value| == n && st.rest == r.value + r.st.rest && r.st.pools == st.pools
  {
    assert n <= |st.rest| && st.rest[..n] + Zeros(0) == st.rest[..n];
  }

  lemma BufferSpelled(tag: byte, st: State) returns (b: Buffer)
    requires ReadBuffer(tag, st).Ok? && (ReadBuffer(tag, st).st.rest != [] || !ShortBuffer(tag, st))
    ensures var r := ReadBuffer(tag, st);
      && WellFormedBuffer(b, st.pools)
      && [tag] + st.rest == EncodeBuffer(b, st.pools, r.st.rest)
      && RenderBuffer(b, st.pools) == (r.value, r.st.pools)
  {
    if tag == ArrayBufferTag {
      Uint8Spelled(st);
      var (length, st1) := ReadUint(st, 8).Extract();
      ContentsSpelled(st1, length);
      b := Plain(ReadUpTo(st1, length).value);
    } else if tag == ResizableArrayBufferTag {
      Uint8Spelled(st);
      var (length, st1) := ReadUint(st, 8).Extract();
      Uint8Spelled(st1);
      var (maxLength, st2) := ReadUint(st1, 8).Extract();
      ContentsSpelled(st2, length);
      b := Resizable(maxLength, ReadUpTo(st2, length).value);
    } else {
      var index := IndexSpelled(st, st.pools.objects);
      b := Shared(index);
    }
  }

  lemma ViewHeaderSpelled(st: State) returns (subtag: byte, byteOffset: nat, byteLength: nat, tag: byte, after: State)
    requires ReadView(st).Ok?
    ensures ReadView(st) == ReadBuffer(tag, after) && ShortView(st) == ShortBuffer(tag, after)
    ensures byteOffset < 0x1_0000_0000_0000_0000 && byteLength < 0x1_0000_0000_0000_0000
    ensures st.rest == [subtag] + Put(byteOffset, 8, Put(byteLength, 8, [tag] + after.rest))
    ensures after.pools == st.pools
  {
    ByteSpelled(st);
    var st1 := ReadByte(st).st;
    Uint8Spelled(st1);
    var st2 := ReadUint(st1, 8).st;
    Uint8Spelled(st2);
    var st3 := ReadUint(st2, 8).st;
    ByteSpelled(st3);
    subtag, byteOffset, byteLength := ReadByte(st).value, ReadUint(st1, 8).value, ReadUint(st2, 8).value;
    tag, after := ReadByte(st3).value, ReadByte(st3).st;
  }

  lemma ViewFromBuffer(c: Codec, leaf: Leaf, st: State, r: Out<Text>)
    requires leaf.View? && r.Ok?
    requires leaf.byteOffset < 0x1_0000_0000_0000_0000 && leaf.byteLength < 0x1_0000_0000_0000_0000
    requires WellFormedBuffer(leaf.buffer, st.pools)
    requires RenderBuffer(leaf.buffer, st.pools) == (r.value, r.st.pools)
    requires st.rest == [leaf.subtag] + Put(leaf.byteOffset, 8, Put(leaf.byteLength, 8, EncodeBuffer(leaf.buffer, st.pools, r.st.rest)))
    ensures SpellsLeaf(c, leaf, ArrayBufferViewTag, st, Pooled(r))
  {}

  lemma ViewSpelled(c: Codec, st: State) returns (leaf: Leaf)
    requires ReadView(st).Ok? && (ReadView(st).st.rest != [] || !ShortView(st))
    ensures SpellsLeaf(c, leaf, ArrayBufferViewTag, st, Pooled(ReadView(st)))
  {
    var subtag, byteOffset, byteLength, tag, after := ViewHeaderSpelled(st);
    var buffer := BufferSpelled(tag, after);
    leaf := View(subtag, byteOffset, byteLength, buffer);
    ViewFromBuffer(c, leaf, st, ReadBuffer(tag, after));
  }

  lemma ErrorHeaderSpelled(c: Codec, st: State) returns (kind: byte, message: Nullable, line: nat, column: nat, after: State)
    requires ReadError(c, st).Ok?
    ensures kind <= 6 && line < 0x1_0000_0000 && column < 0x1_0000_0000
    ensures WellFormedNullable(c, message, st.pools)
    ensures st.rest == [kind] + EncodeNullable(message, st.pools, Put(line, 4, Put(column, 4, after.rest)))
    ensures after.pools == RenderNullable(c, message, st.pools).1
    ensures ReadError(c, st) == ReadErrorOrigin(c, ErrorNameOf(kind).value, RenderNullable(c, message, st.pools).0, line, column, after)
  {
    ByteSpelled(st);
    kind := ReadByte(st).value;
    var st1 := ReadByte(st).st;
    message := NullableSpelled(c, st1);
    var st2 := ReadNullable(c, st1).st;
    Uint4Spelled(st2);
    var st3 := ReadUint(st2, 4).st;
    Uint4Spelled(st3);
    line, column, after := ReadUint(st2, 4).value, ReadUint(st3, 4).value, ReadUint(st3, 4).st;
  }

  lemma OriginSpelled(c: Codec, name: ErrorName, message: Text, line: nat, column: nat, st: State)
    returns (sourceUrl: Nullable, stack: Nullable, cause: Nullable)
    requires ReadErrorOrigin(c, name, message, line, column, st).Ok?
    ensures var r := ReadErrorOrigin(c, name, message, line, column, st);
      var u := RenderNullable(c, sourceUrl, st.pools);
      var k := RenderNullable(c, stack, u.1);
      var e := RenderNullable(c, cause, k.1);
      && WellFormedNullable(c, sourceUrl, st.pools)
      && WellFormedNullable(c, stack, u.1)
      && WellFormedNullable(c, cause, k.1)
      && st.rest == EncodeNullable(sourceUrl, st.pools, EncodeNullable(stack, u.1, EncodeNullable(cause, k.1, r.st.rest)))
      && r.value == c.marshalError(ErrorFields(name, message, line, column, u.0, k.0, e.0))
      && r.st.pools == e.1
  {
    sourceUrl := NullableSpelled(c, st);
    var st2 := ReadNullable(c, st).st;
    stack := NullableSpelled(c, st2);
    var st3 := ReadNullable(c, st2).st;
    cause := NullableSpelled(c, st3);
  }

  lemma ErrorFromParts(c: Codec, e: Leaf, st: State, after: State, r: Out<Text>)
    requires e.ErrorInstance? && r.Ok?
    requires e.kind <= 6 && e.line < 0x1_0000_0000 && e.column < 0x1_0000_0000
    requires WellFormedNullable(c, e.message, st.pools)
    requires after.pools == RenderNullable(c, e.message, st.pools).1
    requires st.rest == [e.kind] + EncodeNullable(e.message, st.pools, Put(e.line, 4, Put(e.column, 4, after.rest)))
    requires var m := RenderNullable(c, e.message, st.pools);
      var u := RenderNullable(c, e.sourceUrl, m.1);
      var k := RenderNullable(c, e.stack, u.1);
      var x := RenderNullable(c, e.cause, k.1);
      && WellFormedNullable(c, e.sourceUrl, m.1)
      && WellFormedNullable(c, e.stack, u.1)
      && WellFormedNullable(c, e.cause, k.1)
      && after.rest == EncodeNullable(e.sourceUrl, m.1, EncodeNullable(e.stack, u.1, EncodeNullable(e.cause, k.1, r.st.rest)))
      && r.value == c.marshalError(ErrorFields(ErrorNameOf(e.kind).value, m.0, e.line, e.column, u.0, k.0, x.0))
      && r.st.pools == x.1
    ensures SpellsLeaf(c, e, ErrorInstanceTag, st, r)
  {}

  lemma ErrorSpelled(c: Codec, st: State) returns (leaf: Leaf)
    requires ReadError(c, st).Ok?
    ensures SpellsLeaf(c, leaf, ErrorInstanceTag, st, ReadError(c, st))
  {
    var kind, message, line, column, after := ErrorHeaderSpelled(c, st);
    var text := RenderNullable(c, message, st.pools).0;
    var name := ErrorNameOf(kind).value;
    var sourceUrl, stack, cause := OriginSpelled(c, name, text, line, column, after);
    leaf := ErrorInstance(kind, message, line, column, sourceUrl, stack, cause);
    ErrorFromParts(c, leaf, st, after, ReadErrorOrigin(c, name, text, line, column, after));
  }

  lemma BoxedSpelled(c: Codec, tag: byte, st: State) returns (leaf: Leaf)
    requires tag == StringObjectTag || tag == NumberObjectTag || tag == ArrayBufferViewTag
    requires ReadTerminal(c, tag, st).Ok?
    requires tag == ArrayBufferViewTag ==> ReadTerminal(c, tag, st).st.rest != [] || !ShortView(st)
    ensures SpellsLeaf(c, leaf, tag, st, ReadTerminal(c, tag, st))
  {
    if tag == StringObjectTag {
      var str := StringSpelled(c, st);
      leaf := StringObject(str);
    } else if tag == NumberObjectTag {
      var bits := DoubleSpelled(c, st);
      leaf := NumberObject(bits);
    } else {
      leaf := ViewSpelled(c, st);
    }
  }

  lemma PlainSpelled(c: Codec, tag: byte, st: State) returns (leaf: Leaf)
    requires tag == DateTag || tag == DoubleTag || tag == StringTag || tag == ObjectReferenceTag
    requires ReadTerminal(c, tag, st).Ok?
    ensures SpellsLeaf(c, leaf, tag, st, ReadTerminal(c, tag, st))
  {
    if tag == StringTag {
      var str := StringSpelled(c, st);
      leaf := String(str);
    } else if tag == ObjectReferenceTag {
      var index := IndexSpelled(st, st.pools.objects);
      leaf := ObjectRef(index);
    } else {
      var bits := DoubleSpelled(c, st);
      leaf := if tag == DateTag then Date(bits) else Double(bits);
    }
  }

  lemma ConstantSpelled(c: Codec, tag: byte, st: State) returns (leaf: Leaf)
    requires tag in {UndefinedTag, NullTag, ZeroTag, OneTag, FalseTag, TrueTag, TrueObjectTag, FalseObjectTag, EmptyStringObjectTag}
    requires ReadTerminal(c, tag, st).Ok?
    ensures SpellsLeaf(c, leaf, tag, st, ReadTerminal(c, tag, st))
  {
    leaf := if tag == UndefinedTag then Undefined
            else if tag == NullTag then Null
            else if tag == ZeroTag then Zero
            else if tag == OneTag then One
            else if tag == FalseTag then False
            else if tag == TrueTag then True
            else if tag == TrueObjectTag then TrueObject
            else if tag == FalseObjectTag then FalseObject
            else EmptyStringObject;
  }

  lemma TerminalSpelled(c: Codec, tag: byte, st: State) returns (leaf: Leaf)
    requires ReadTerminal(c, tag, st).Ok?
    requires tag == ArrayBufferViewTag ==> ReadTerminal(c, tag, st).st.rest != [] || !ShortView(st)
    ensures SpellsLeaf(c, leaf, tag, st, ReadTerminal(c, tag, st))
  {
    if tag == IntTag {
      leaf := IntSpelled(c, st);
    } else if tag == DateTag || tag == DoubleTag || tag == StringTag || tag == ObjectReferenceTag {
      leaf := PlainSpelled(c, tag, st);
    } else if tag == RegExpTag {
      leaf := RegExpSpelled(c, st);
    } else if tag == StringObjectTag || tag == NumberObjectTag || tag == ArrayBufferViewTag {
      leaf := BoxedSpelled(c, tag, st);
    } else if tag == ErrorInstanceTag {
      leaf := ErrorSpelled(c, st);
    } else {
      leaf := ConstantSpelled(c, tag, st);
    }
  }

  /** `v` spells what was consumed between `st` and `r` and means what `r` holds. */
  ghost predicate Spells(c: Codec, v: Value, st: State, r: Out<Text>) {
    && r.Ok?
    && WellFormed(c, v, st.pools)
    && st.rest == Encode(c, v, st.pools, r.st.rest)
    && Render(c, v, st.pools) == (r.value, r.st.pools)
  }

  lemma {:induction false} ValueSpelled(c: Codec, st: State) returns (v: Value)
    requires ReadValue(c, st).Ok?
    requires ReadValue(c, st).st.rest != [] || !CutShort(st.rest, st.pools)
    ensures Spells(c, v, st, ReadValue(c, st))
    decreases |st.rest|, 0
  {
    ByteSpelled(st);
    var (tag, after) := ReadByte(st).Extract();
    if tag == ArrayTag {
      v := ArraySpelled(c, after);
    } else if tag == ObjectTag {
      var fields := FieldsSpelled(c, after, map[]);
      v := Object(fields);
    } else if tag == MapObjectTag {
      v := MapSpelled(c, after);
    } else if tag == SetObjectTag {
      v := SetSpelled(c, after);
    } else {
      var leaf := TerminalSpelled(c, tag, after);
      v := Terminal(leaf);
    }
  }

  lemma {:induction false} FieldsSpelled(c: Codec, st: State, acc: map<Text, Text>) returns (fs: Fields)
    requires ReadFields(c, st, acc).Ok?
    ensures var r := ReadFields(c, st, acc);
      && WellFormedFields(c, fs, st.pools)
      && st.rest == EncodeFields(c, fs, st.pools, r.st.rest)
      && RenderFields(c, fs, acc, st.pools) == (r.value, r.st.pools)
    decreases |st.rest|, 1
  {
    var name := StringDataSpelled(c, st);
    var (n, st1) := ReadStringData(c, st).Extract();
    if n.Terminator? {
      fs := NoFields;
    } else {
      var (t, st2) := ReadValue(c, st1).Extract();
      var value := ValueSpelled(c, st1);
      var more := FieldsSpelled(c, st2, acc[n.text := t]);
      fs := Field(name, value, more);
    }
  }

  lemma {:induction false} ItemsSpelled(c: Codec, st: State, acc: seq<Text>) returns (items: Items)
    requires ReadItems(c, st, acc).Ok?
    ensures var r := ReadItems(c, st, acc);
      && WellFormedItems(c, items, |acc|, st.pools)
      && st.rest == EncodeItems(c, items, st.pools, r.st.rest)
      && RenderItems(c, items, acc, st.pools) == (r.value, r.st.pools)
    decreases |st.rest|, 1
  {
    Uint4Spelled(st);
    var (index, st1) := ReadUint(st, 4).Extract();
    if index == TerminatorTag {
      items := NoItems;
    } else {
      var (t, st2) := ReadValue(c, st1).Extract();
      var value := ValueSpelled(c, st1);
      var more := ItemsSpelled(c, st2, acc[index := t]);
      items := Item(index, value, more);
    }
  }

  lemma {:induction false} PropsSpelled(c: Codec, st: State) returns (props: Props)
    requires ReadArrayProperties(c, st).Ok?
    ensures var r := ReadArrayProperties(c, st);
      && WellFormedProps(c, props, st.pools)
      && st.rest == EncodeProps(c, props, st.pools, r.st.rest)
      && RenderProps(c, props, st.pools) == r.st.pools
    decreases |st.rest|, 2
  {
    Uint4Spelled(st);
    var (start, st1) := ReadUint(st, 4).Extract();
    if start == TerminatorTag {
      props := NoProps;
    } else {
      var fields := FieldsSpelled(c, st1, map[]);
      props := WithProps(fields);
    }
  }

  lemma {:induction false} ArraySpelled(c: Codec, st: State) returns (v: Value)
    requires ReadArray(c, st).Ok?
    ensures Spells(c, v, st.(rest := [ArrayTag] + st.rest), ReadArray(c, st))
    decreases |st.rest|, 2
  {
    Uint4Spelled(st);
    var (length, st1) := ReadUint(st, 4).Extract();
    var empty: seq<Text> := seq(length, _ => []);
    var items := ItemsSpelled(c, st1, empty);
    var st2 := ReadItems(c, st1, empty).st;
    var props := PropsSpelled(c, st2);
    v := Array(length, items, props);
  }

  lemma {:induction false} EntriesSpelled(c: Codec, st: State, acc: map<Text, Text>) returns (es: Entries)
    requires ReadEntries(c, st, acc).Ok?
    ensures var r := ReadEntries(c, st, acc);
      && WellFormedEntries(c, es, st.pools)
      && st.rest == EncodeEntries(c, es, st.pools, r.st.rest)
      && RenderEntries(c, es, acc, st.pools) == (r.value, r.st.pools)
    decreases |st.rest|, 1
  {
    ByteSpelled(st);
    if ReadByte(st).value == NonMapPropertiesTag {
      es := NoEntries;
    } else {
      var (k, st1) := ReadValue(c, st).Extract();
      var (t, st2) := ReadValue(c, st1).Extract();
      var key := ValueSpelled(c, st);
      var value := ValueSpelled(c, st1);
      var more := EntriesSpelled(c, st2, acc[k := t]);
      es := Entry(key, value, more);
    }
  }

  lemma {:induction false} MapSpelled(c: Codec, st: State) returns (v: Value)
    requires ReadMapData(c, st).Ok?
    ensures Spells(c, v, st.(rest := [MapObjectTag] + st.rest), ReadMapData(c, st))
    decreases |st.rest|, 2
  {
    var entries := EntriesSpelled(c, st, map[]);
    var st1 := ReadEntries(c, st, map[]).st;
    var fields := FieldsSpelled(c, st1, map[]);
    v := Map(entries, fields);
  }

  lemma {:induction false} ElemsSpelled(c: Codec, st: State, acc: set<Text>) returns (es: Elems)
    requires ReadElems(c, st, acc).Ok?
    ensures var r := ReadElems(c, st, acc);
      && WellFormedElems(c, es, st.pools)
      && st.rest == EncodeElems(c, es, st.pools, r.st.rest)
      && RenderElems(c, es, acc, st.pools) == (r.value, r.st.pools)
    decreases |st.rest|, 1
  {
    ByteSpelled(st);
    if ReadByte(st).value == NonSetPropertiesTag {
      es := NoElems;
    } else {
      var (t, st1) := ReadValue(c, st).Extract();
      var value := ValueSpelled(c, st);
      var more := ElemsSpelled(c, st1, acc + {t});
      es := Elem(value, more);
    }
  }

  lemma {:induction false} SetSpelled(c: Codec, st: State) returns (v: Value)
    requires ReadSetData(c, st).Ok?
    ensures Spells(c, v, st.(rest := [SetObjectTag] + st.rest), ReadSetData(c, st))
    decreases |st.rest|, 2
  {
    var elems := ElemsSpelled(c, st, {});
    var st1 := ReadElems(c, st, {}).st;
    var fields := FieldsSpelled(c, st1, map[]);
    v := Set(elems, fields);
  }

  lemma DocumentSpelled(c: Codec, input: Text) returns (d: Document)
    requires ReadDocument(c, input).Ok?
    ensures var r := ReadDocument(c, input);
      && WellFormedDocument(c, d)
      && input == EncodeDocument(c, d, r.st.rest)
      && RenderDocument(c, d) == (r.value, r.st.pools)
  {
    var st := State(input, NoPools);
    Uint4Spelled(st);
    var (version, st1) := ReadUint(st, 4).Extract();
    ByteSpelled(st1);
    var fields := FieldsSpelled(c, ReadByte(st1).st, map[]);
    d := Document(version, fields);
  }

  // ----- the reader, characterised

  /** `v` can be written with pools `p`, spells `s` up to `rest`, and means `text` and the pools `q`. */
  ghost predicate SpelledBy(c: Codec, v: Value, s: Text, p: Pools, text: Text, rest: Text, q: Pools) {
    WellFormed(c, v, p) && s == Encode(c, v, p, rest) && Render(c, v, p) == (text, q)
  }

  lemma WrittenBufferWhole(b: Buffer, p: Pools, rest: Text)
    requires WellFormedBuffer(b, p)
    ensures var st := State(EncodeBuffer(b, p, rest), p);
      && ReadByte(st).Ok?
      && !ShortBuffer(ReadByte(st).value, ReadByte(st).st)
      && (!b.Shared? && b.contents == [] && rest == [] ==> ReadBuffer(ReadByte(st).value, ReadByte(st).st).Err?)
  {
    match b
    case Plain(contents) =>
      ByteBack(ArrayBufferTag, Put(|contents|, 8, contents + rest), p);
      Uint8Back(|contents|, contents + rest, p);
    case Resizable(maxLength, contents) =>
      ByteBack(ResizableArrayBufferTag, Put(|contents|, 8, Put(maxLength, 8, contents + rest)), p);
      Uint8Back(|contents|, Put(maxLength, 8, contents + rest), p);
      Uint8Back(maxLength, contents + rest, p);
    case Shared(index) =>
      ByteBack(ObjectReferenceTag, EncodeIndex(p.objects, index, rest), p);
  }

  /** A written view is not cut short; but an empty buffer at the very end of the input is an error. */
  lemma WrittenViewWhole(c: Codec, leaf: Leaf, p: Pools, rest: Text)
    requires leaf.View? && WellFormedLeaf(c, leaf, p)
    ensures !ShortView(State(EncodeLeaf(c, leaf, p, rest), p))
    ensures NeedsMore(leaf) && rest == [] ==> ReadView(State(EncodeLeaf(c, leaf, p, rest), p)).Err?
  {
    var buffer := EncodeBuffer(leaf.buffer, p, rest);
    ByteBack(leaf.subtag, Put(leaf.byteOffset, 8, Put(leaf.byteLength, 8, buffer)), p);
    Uint8Back(leaf.byteOffset, Put(leaf.byteLength, 8, buffer), p);
    Uint8Back(leaf.byteLength, buffer, p);
    WrittenBufferWhole(leaf.buffer, p, rest);
  }

  /** An empty buffer of its own at the very end of the input. */
  predicate EndsEmpty(v: Value, rest: Text) {
    rest == [] && v.Terminal? && NeedsMore(v.leaf)
  }

  lemma WrittenWhole(c: Codec, v: Value, p: Pools, rest: Text)
    requires WellFormed(c, v, p)
    ensures var s := Encode(c, v, p, rest);
      !CutShort(s, p) && (EndsEmpty(v, rest) ==> ReadValue(c, State(s, p)).Err?)
  {
    var s := Encode(c, v, p, rest);
    if v.Terminal? {
      var leaf := EncodeLeaf(c, v.leaf, p, rest);
      assert s == [LeafTag(v.leaf)] + leaf && s[1..] == leaf;
      if v.leaf.View? {
        WrittenViewWhole(c, v.leaf, p, rest);
        assert ReadTerminal(c, ArrayBufferViewTag, State(leaf, p)) == Pooled(ReadView(State(leaf, p)));
      }
    }
  }

  /**
   * A value is read from `s` with pools `p`, giving `text`, leaving `rest` and the pools `q`, and is not
   * cut short, exactly when some tree says so that does not end the input with an empty buffer.
   */
  lemma ReadsExactlyTheGrammar(c: Codec, s: Text, p: Pools, text: Text, rest: Text, q: Pools)
    ensures ReadValue(c, State(s, p)) == Ok(text, State(rest, q)) && !CutShort(s, p)
       <==> exists v :: SpelledBy(c, v, s, p, text, rest, q) && !EndsEmpty(v, rest)
  {
    if ReadValue(c, State(s, p)) == Ok(text, State(rest, q)) && !CutShort(s, p) {
      var v := ValueSpelled(c, State(s, p));
      WrittenWhole(c, v, p, rest);
      assert SpelledBy(c, v, s, p, text, rest, q) && !EndsEmpty(v, rest);
    }
    forall v | SpelledBy(c, v, s, p, text, rest, q) && !EndsEmpty(v, rest)
      ensures ReadValue(c, State(s, p)) == Ok(text, State(rest, q)) && !CutShort(s, p)
    {
      ValueBack(c, v, p, rest);
      WrittenWhole(c, v, p, rest);
    }
  }

  /** The documents accepted are exactly those the format can write, whatever follows them. */
  lemma AcceptsExactlyTheDocuments(c: Codec, input: Text)
    ensures ReadDocument(c, input).Ok?
       <==> exists d, rest :: WellFormedDocument(c, d) && input == EncodeDocument(c, d, rest)
    ensures forall d, rest :: WellFormedDocument(c, d) && input == EncodeDocument(c, d, rest) ==>
      ReadDocument(c, input) == Ok(RenderDocument(c, d).0, State(rest, RenderDocument(c, d).1))
  {
    if ReadDocument(c, input).Ok? {
      var d := DocumentSpelled(c, input);
    }
    forall d, rest | WellFormedDocument(c, d) && input == EncodeDocument(c, d, rest)
      ensures ReadDocument(c, input) == Ok(RenderDocument(c, d).0, State(rest, RenderDocument(c, d).1))
    {
      DocumentBack(c, d, rest);
    }
  }

  /** Where a document ends and what it means do not depend on how it is taken apart. */
  lemma UniquelyReadable(c: Codec, d1: Document, rest1: Text, d2: Document, rest2: Text)
    requires WellFormedDocument(c, d1) && WellFormedDocument(c, d2)
    requires EncodeDocument(c, d1, rest1) == EncodeDocument(c, d2, rest2)
    ensures rest1 == rest2 && RenderDocument(c, d1) == RenderDocument(c, d2)
  {
    DocumentBack(c, d1, rest1);
    DocumentBack(c, d2, rest2);
  }

  // ----- what comes after what is read

  /** Bytes added behind the input do not change what is read, unless it was cut short, only what is left. */
  lemma MoreInputChangesNothing(c: Codec, s: Text, p: Pools, more: Text)
    requires ReadValue(c, State(s, p)).Ok? && !CutShort(s, p)
    ensures var r := ReadValue(c, State(s, p));
      ReadValue(c, State(s + more, p)) == Ok(r.value, State(r.st.rest + more, r.st.pools))
  {
    var r := ReadValue(c, State(s, p));
    var v := ValueSpelled(c, State(s, p));
    WrittenWhole(c, v, p, r.st.rest);
    EncodeAppend(c, v, p, r.st.rest, more);
    ValueBack(c, v, p, r.st.rest + more);
  }

  lemma DocumentAppend(c: Codec, d: Document, rest: Text, more: Text)
    ensures EncodeDocument(c, d, rest + more) == EncodeDocument(c, d, rest) + more
  {
    var fields := EncodeFields(c, d.fields, NoPools, rest);
    FieldsAppend(c, d.fields, NoPools, rest, more);
    ConsAppend(ObjectTag, fields, more);
    PutAppend(d.version, 4, [ObjectTag] + fields, more);
  }

  /** The same for whole documents, with no exception. */
  lemma MoreAfterDocument(c: Codec, input: Text, more: Text)
    requires ReadDocument(c, input).Ok?
    ensures var r := ReadDocument(c, input);
      ReadDocument(c, input + more) == Ok(r.value, State(r.st.rest + more, r.st.pools))
  {
    var d := DocumentSpelled(c, input);
    var rest := ReadDocument(c, input).st.rest;
    DocumentAppend(c, d, rest, more);
    DocumentBack(c, d, rest + more);
  }

  /** So a document that is read to its end is no proper prefix of another such document. */
  lemma NoDocumentWithinAnother(c: Codec, input: Text, more: Text)
    requires ReadDocument(c, input).Ok? && ReadDocument(c, input).st.rest == []
    requires ReadDocument(c, input + more).Ok? && ReadDocument(c, input + more).st.rest == []
    ensures more == []
  {
    MoreAfterDocument(c, input, more);
    assert [] + more == more;
  }
}
