/**
 * V8-serialized values as trees, with everything the writer may vary and the reader must not care
 * about: how much padding precedes a property name, which skipped bytes precede a value, which counts
 * close a container. `Render` is what a tree means, `Body` how it is written after its token.
 */
module V8Grammar {
  import opened Bytes
  import opened Varint
  import opened V8Spec

  datatype Tree =
    | Text8(token: byte, chars: Text)
    | Text16(units: Text)
    | BoxedText8(pad: nat, token: byte, chars: Text)
    | BoxedText16(pad: nat, units: Text)
    | Pattern(pad: nat, chars: Text, flags: nat)
    | Constant(token: byte)
    | Integer(n: int)
    | Number(token: byte, bits: Text)
    | Moment(bits: Text)
    | Big(token: byte, bitfield: nat, digits: Text)
    | Reference(id: nat)
    | EmptyView(subtag: byte, byteOffset: nat)
    | Typed(raw: Text, tag: byte, byteOffset: nat, byteLength: nat, flags: nat)
    | Object(props: Props)
    | Dense(items: Items, gap: Text, count: nat, length: nat)
    | Sparse(size: nat, cells: Cells)
    | Map(entries: Entries)
    | Set(elems: Elems)

  /** A value with the bytes that are skipped before its token. */
  datatype Slot = Slot(noise: Text, tree: Tree)

  datatype Name = Name8(chars: Text) | Name16(units: Text) | NameInt(n: int) | NameUint(u: nat) | NameDouble(bits: Text)
  datatype Props = NoProps(pad: nat, count: nat) | Prop(pad: nat, name: Name, slot: Slot, more: Props)
  datatype Items = NoItems | Item(slot: Slot, more: Items)
  datatype Cells =
    | NoCells(count: nat, length: nat)
    | Gap(b: byte, more: Cells)
    | Cell(signed: bool, index: nat, slot: Slot, more: Cells)
  datatype Entries = NoEntries(pad: nat, count: nat) | Entry(key: Slot, value: Slot, more: Entries)
  datatype Elems = NoElems(pad: nat, count: nat) | Elem(slot: Slot, more: Elems)

  // ----- meaning

  function Decoded(c: Codec, units: Text): Text {
    if c.utf16(units).Some? then c.utf16(units).value else []
  }

  function RenderName(c: Codec, name: Name): Text {
    match name
    case Name8(chars) => chars
    case Name16(units) => Decoded(c, units)
    case NameInt(n) => c.formatInt(n)
    case NameUint(u) => c.formatInt(ToInt64(u))
    case NameDouble(bits) => c.formatDouble(bits)
  }

  function RenderConstant(token: byte): Text {
    if token == True || token == TrueObj then Ascii("true")
    else if token == False || token == FalseObj then Ascii("false")
    else []
  }

  function RenderTyped(c: Codec, t: Tree): Text
    requires t.Typed?
  {
    if t.tag == DataView || t.byteLength == 0xFFFF_FFFF_FFFF_FFFF then t.raw
    else if SkippedBytes(t.byteOffset) <= |t.raw| then c.marshalTyped(t.tag, t.raw[SkippedBytes(t.byteOffset)..])
    else []
  }

  function Render(c: Codec, t: Tree): Text {
    match t
    case Text8(_, chars) => chars
    case Text16(units) => Decoded(c, units)
    case BoxedText8(_, _, chars) => chars
    case BoxedText16(_, units) => Decoded(c, units)
    case Pattern(_, chars, flags) => ['/' as byte] + chars + ['/' as byte] + c.regexpFlags(flags)
    case Constant(token) => RenderConstant(token)
    case Integer(n) => c.formatInt(n)
    case Number(_, bits) => c.formatDouble(bits)
    case Moment(bits) => c.formatDate(bits)
    case Big(_, bitfield, _) => if bitfield % 2 == 1 then Ascii("-?n") else Ascii("?n")
    case Reference(id) => c.formatObjectId(id)
    case EmptyView(_, _) => Ascii("[]")
    case Typed(_, _, _, _, _) => RenderTyped(c, t)
    case Object(props) => c.marshalMap(RenderProps(c, props, map[]))
    case Dense(items, _, _, _) => c.marshalList(RenderItems(c, items, []))
    case Sparse(size, cells) => c.marshalList(RenderCells(c, cells, seq(size, _ => None)))
    case Map(entries) => c.marshalMap(RenderEntries(c, entries, map[]))
    case Set(elems) => c.marshalSet(RenderElems(c, elems, {}))
  }

  function RenderProps(c: Codec, props: Props, acc: map<Text, Text>): map<Text, Text> {
    match props
    case NoProps(_, _) => acc
    case Prop(_, name, slot, more) => RenderProps(c, more, acc[RenderName(c, name) := Render(c, slot.tree)])
  }

  function RenderItems(c: Codec, items: Items, acc: seq<Option<Text>>): seq<Option<Text>> {
    match items
    case NoItems => acc
    case Item(slot, more) => RenderItems(c, more, acc + [Some(Render(c, slot.tree))])
  }

  function RenderCells(c: Codec, cells: Cells, acc: seq<Option<Text>>): seq<Option<Text>> {
    match cells
    case NoCells(_, _) => acc
    case Gap(_, more) => RenderCells(c, more, acc)
    case Cell(_, index, slot, more) =>
      RenderCells(c, more, if index < |acc| then acc[index := Some(Render(c, slot.tree))] else acc)
  }

  function RenderEntries(c: Codec, entries: Entries, acc: map<Text, Text>): map<Text, Text> {
    match entries
    case NoEntries(_, _) => acc
    case Entry(key, value, more) => RenderEntries(c, more, acc[Render(c, key.tree) := Render(c, value.tree)])
  }

  function RenderElems(c: Codec, elems: Elems, acc: set<Text>): set<Text> {
    match elems
    case NoElems(_, _) => acc
    case Elem(slot, more) => RenderElems(c, more, acc + {Render(c, slot.tree)})
  }

  // ----- which trees can be written

  predicate Fits64(n: nat) {
    n < 0x1_0000_0000_0000_0000
  }

  predicate FitsInt64(n: int) {
    -0x8000_0000_0000_0000 <= n < 0x8000_0000_0000_0000
  }

  predicate Skipped(noise: Text) {
    forall i :: 0 <= i < |noise| ==> IsNoise(noise[i])
  }

  /** The first byte of a slot that is not padding. */
  function FirstToken(noise: Text, token: byte): byte {
    if noise == [] then token else if noise[0] != Padding then noise[0] else FirstToken(noise[1..], token)
  }

  predicate WellFormedUtf16(c: Codec, units: Text) {
    Fits64(|units|) && c.utf16(units).Some?
  }

  predicate WellFormedName(c: Codec, name: Name) {
    match name
    case Name8(chars) => Fits64(|chars|)
    case Name16(units) => WellFormedUtf16(c, units)
    case NameInt(n) => FitsInt64(n)
    case NameUint(u) => Fits64(u)
    case NameDouble(bits) => |bits| == 8
  }

  predicate WellFormedTyped(t: Tree)
    requires t.Typed?
  {
    && Fits64(|t.raw|) && Fits64(t.byteOffset) && Fits64(t.byteLength) && Fits64(t.flags)
    && (t.tag == DataView || t.byteLength == 0xFFFF_FFFF_FFFF_FFFF || (SkippedBytes(t.byteOffset) <= |t.raw| && IsTypedArray(t.tag)))
  }

  predicate WellFormed(c: Codec, t: Tree) {
    match t
    case Text8(token, chars) => (token == Utf8Str || token == AsciiStr) && Fits64(|chars|)
    case Text16(units) => WellFormedUtf16(c, units)
    case BoxedText8(_, token, chars) => (token == Utf8Str || token == AsciiStr) && Fits64(|chars|)
    case BoxedText16(_, units) => WellFormedUtf16(c, units)
    case Pattern(_, chars, flags) => Fits64(|chars|) && Fits64(flags)
    case Constant(token) => token in {True, TrueObj, False, FalseObj, V8Spec.Undefined, V8Spec.Null}
    case Integer(n) => FitsInt64(n)
    case Number(token, bits) => (token == Double || token == NumberObj) && |bits| == 8
    case Moment(bits) => |bits| == 8
    case Big(token, bitfield, digits) =>
      (token == BigInt || token == BigIntObj) && Fits64(bitfield) && |digits| == bitfield % 0x1_0000_0000 / 2
    case Reference(id) => Fits64(id)
    case EmptyView(_, byteOffset) => Fits64(byteOffset)
    case Typed(_, _, _, _, _) => WellFormedTyped(t)
    case Object(props) => WellFormedProps(c, props)
    case Dense(items, gap, count, length) =>
      && Fits64(Count(items)) && Fits64(count) && Fits64(length)
      && (forall i :: 0 <= i < |gap| ==> gap[i] == 1 || gap[i] == 3)
      && WellFormedItems(c, items)
    case Sparse(size, cells) => Fits64(size) && WellFormedCells(c, cells, size)
    case Map(entries) => WellFormedEntries(c, entries)
    case Set(elems) => WellFormedElems(c, elems)
  }

  predicate WellFormedSlot(c: Codec, slot: Slot) {
    Skipped(slot.noise) && WellFormed(c, slot.tree)
  }

  predicate WellFormedProps(c: Codec, props: Props) {
    match props
    case NoProps(_, count) => Fits64(count)
    case Prop(_, name, slot, more) =>
      WellFormedName(c, name) && WellFormedSlot(c, slot) && WellFormedProps(c, more)
  }

  predicate WellFormedItems(c: Codec, items: Items) {
    match items
    case NoItems => true
    case Item(slot, more) => WellFormedSlot(c, slot) && WellFormedItems(c, more)
  }

  predicate WellFormedCells(c: Codec, cells: Cells, size: nat) {
    match cells
    case NoCells(count, length) => Fits64(count) && Fits64(length)
    case Gap(b, more) => (b == 1 || b == 3) && WellFormedCells(c, more, size)
    case Cell(_, index, slot, more) =>
      && index < size && index < 0x8000_0000_0000_0000
      && WellFormedSlot(c, slot)
      && WellFormedCells(c, more, size)
  }

  /** The first unpadded byte of a key must not be the one that ends the map. */
  predicate WellFormedEntries(c: Codec, entries: Entries) {
    match entries
    case NoEntries(_, count) => Fits64(count)
    case Entry(key, value, more) =>
      && WellFormedSlot(c, key) && FirstToken(key.noise, Token(key.tree)) != MapEnd
      && WellFormedSlot(c, value)
      && WellFormedEntries(c, more)
  }

  predicate WellFormedElems(c: Codec, elems: Elems) {
    match elems
    case NoElems(_, count) => Fits64(count)
    case Elem(slot, more) =>
      && WellFormedSlot(c, slot) && FirstToken(slot.noise, Token(slot.tree)) != SetEnd
      && WellFormedElems(c, more)
  }

  // ----- how trees are written

  function Token(t: Tree): byte {
    match t
    case Text8(token, _) => token
    case Text16(_) => Utf16Str
    case BoxedText8(_, _, _) => StringObj
    case BoxedText16(_, _) => StringObj
    case Pattern(_, _, _) => Regexp
    case Constant(token) => token
    case Integer(_) => Int32
    case Number(token, _) => token
    case Moment(_) => V8Spec.Date
    case Big(token, _, _) => token
    case Reference(_) => ObjReference
    case EmptyView(_, _) => ArrayBufferView
    case Typed(_, _, _, _, _) => ArrayBuffer
    case Object(_) => ObjectBegin
    case Dense(_, _, _, _) => BeginDenseArray
    case Sparse(_, _) => BeginSparseArray
    case Map(_) => MapBegin
    case Set(_) => SetBegin
  }

  function PutText(chars: Text, rest: Text): Text {
    PutUvarint(|chars|, chars + rest)
  }

  function PutVarint(n: int, rest: Text): Text {
    PutUvarint(ZigZag(n), rest)
  }

  function PutName(name: Name, rest: Text): Text {
    match name
    case Name8(chars) => [AsciiStr] + PutText(chars, rest)
    case Name16(units) => [Utf16Str] + PutText(units, rest)
    case NameInt(n) => [Int32] + PutVarint(n, rest)
    case NameUint(u) => [Uint32] + PutUvarint(u, rest)
    case NameDouble(bits) => [Double] + (bits + rest)
  }

  function Count(items: Items): nat {
    match items
    case NoItems => 0
    case Item(_, more) => 1 + Count(more)
  }

  /** What follows the token of `t`. */
  function Body(t: Tree, rest: Text): Text {
    match t
    case Text8(_, chars) => PutText(chars, rest)
    case Text16(units) => PutText(units, rest)
    case BoxedText8(pad, token, chars) => Zeros(pad) + ([token] + PutText(chars, rest))
    case BoxedText16(pad, units) => Zeros(pad) + ([Utf16Str] + PutText(units, rest))
    case Pattern(pad, chars, flags) => Zeros(pad) + ([AsciiStr] + PutText(chars, PutUvarint(flags, rest)))
    case Constant(_) => rest
    case Integer(n) => PutVarint(n, rest)
    case Number(_, bits) => bits + rest
    case Moment(bits) => bits + rest
    case Big(_, bitfield, digits) => PutUvarint(bitfield, digits + rest)
    case Reference(id) => PutUvarint(id, rest)
    case EmptyView(subtag, byteOffset) => [subtag] + PutUvarint(byteOffset, PutUvarint(0, [3] + rest))
    case Typed(raw, tag, byteOffset, byteLength, flags) =>
      PutText(raw, [ArrayBufferView] + ([tag] + PutUvarint(byteOffset, PutUvarint(byteLength, PutUvarint(flags, rest)))))
    case Object(props) => PutProps(props, rest)
    case Dense(items, gap, count, length) =>
      PutUvarint(Count(items), PutItems(items, gap + ([EndDenseArray] + PutUvarint(count, PutUvarint(length, rest)))))
    case Sparse(size, cells) => PutUvarint(size, PutCells(cells, rest))
    case Map(entries) => PutEntries(entries, rest)
    case Set(elems) => PutElems(elems, rest)
  }

  function PutSlot(slot: Slot, rest: Text): Text {
    slot.noise + ([Token(slot.tree)] + Body(slot.tree, rest))
  }

  function PutProps(props: Props, rest: Text): Text {
    match props
    case NoProps(pad, count) => Zeros(pad) + ([ObjectEnd] + PutUvarint(count, rest))
    case Prop(pad, name, slot, more) => Zeros(pad) + PutName(name, PutSlot(slot, PutProps(more, rest)))
  }

  function PutItems(items: Items, rest: Text): Text {
    match items
    case NoItems => rest
    case Item(slot, more) => PutSlot(slot, PutItems(more, rest))
  }

  function PutCells(cells: Cells, rest: Text): Text {
    match cells
    case NoCells(count, length) => [EndSparseArray] + PutUvarint(count, PutUvarint(length, rest))
    case Gap(b, more) => [b] + PutCells(more, rest)
    case Cell(signed, index, slot, more) =>
      var tail := PutSlot(slot, PutCells(more, rest));
      if signed then [Int32] + PutVarint(index, tail) else [Uint32] + PutUvarint(index, tail)
  }

  function PutEntries(entries: Entries, rest: Text): Text {
    match entries
    case NoEntries(pad, count) => Zeros(pad) + ([MapEnd] + PutUvarint(count, rest))
    case Entry(key, value, more) => PutSlot(key, PutSlot(value, PutEntries(more, rest)))
  }

  function PutElems(elems: Elems, rest: Text): Text {
    match elems
    case NoElems(pad, count) => Zeros(pad) + ([SetEnd] + PutUvarint(count, rest))
    case Elem(slot, more) => PutSlot(slot, PutElems(more, rest))
  }

  // ----- rows

  datatype Header = NoHeader | VersionNumber(v: nat, more: Header) | Filler(b: byte, more: Header)
  datatype Row = Row(databaseVersion: nat, header: Header, root: Tree)

  predicate WellFormedHeader(h: Header) {
    match h
    case NoHeader => true
    case VersionNumber(v, more) => Fits64(v) && WellFormedHeader(more)
    case Filler(b, more) => b != Version && !IsRoot(b) && WellFormedHeader(more)
  }

  predicate WellFormedRow(c: Codec, row: Row) {
    && Fits64(row.databaseVersion) && WellFormedHeader(row.header)
    && IsRoot(Token(row.root)) && WellFormed(c, row.root)
    && (!row.root.Object? ==> c.unmarshalRows(Render(c, row.root)).Some?)
  }

  function PutHeader(h: Header, rest: Text): Text {
    match h
    case NoHeader => rest
    case VersionNumber(v, more) => [Version] + PutUvarint(v, PutHeader(more, rest))
    case Filler(b, more) => [b] + PutHeader(more, rest)
  }

  function PutRow(row: Row, rest: Text): Text {
    PutUvarint(row.databaseVersion, PutHeader(row.header, [Token(row.root)] + Body(row.root, rest)))
  }

  function RenderRow(c: Codec, row: Row): seq<map<Text, Text>> {
    if row.root.Object? then [RenderProps(c, row.root.props, map[])]
    else match c.unmarshalRows(Render(c, row.root))
      case None => []
      case Some(rows) => rows
  }
}
