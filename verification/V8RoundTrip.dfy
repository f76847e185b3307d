/**
 * The V8 reader inverts the writer: whatever padding, skipped bytes and counts a tree is written
 * with, reading it gives what it means and stops exactly where it ends.
 */
module V8RoundTrip {
  import opened Bytes
  import opened Varint
  import opened V8Spec
  import opened V8Grammar

  lemma ByteBack(b: byte, rest: Text)
    ensures NextByte([b] + rest) == Ok(b, rest)
  {
    assert ([b] + rest)[1..] == rest;
  }

  lemma TakeBack(raw: Text, rest: Text)
    ensures Take(raw + rest, |raw|) == Ok(raw, rest)
  {
    assert (raw + rest)[..|raw|] == raw;
    assert (raw + rest)[|raw|..] == rest;
  }

  lemma NextUvarintBack(n: nat, rest: Text)
    requires Fits64(n)
    ensures NextUvarint(PutUvarint(n, rest)) == Ok(n, rest)
  {
    UvarintBack(n, rest);
  }

  lemma NextVarintBack(n: int, rest: Text)
    requires FitsInt64(n)
    ensures NextVarint(PutVarint(n, rest)) == Ok(n, rest)
  {
    NextUvarintBack(ZigZag(n), rest);
  }

  /** A count is skipped whatever its value. */
  lemma CountSkipped(n: nat, rest: Text)
    requires Fits64(n)
    ensures NextVarint(PutUvarint(n, rest)).rest == rest
    ensures NextUvarint(PutUvarint(n, rest)).rest == rest
  {
    NextUvarintBack(n, rest);
  }

  lemma {:induction false} PaddingSkipped(pad: nat, token: byte, rest: Text)
    requires token != Padding
    ensures NextNonPadding(Zeros(pad) + ([token] + rest)) == Ok(token, rest)
    decreases pad
  {
    var s := Zeros(pad) + ([token] + rest);
    if pad == 0 {
      assert s == [token] + rest && s[1..] == rest;
    } else {
      assert s[1..] == Zeros(pad - 1) + ([token] + rest);
      PaddingSkipped(pad - 1, token, rest);
    }
  }

  lemma AsciiBack(chars: Text, rest: Text)
    requires Fits64(|chars|)
    ensures ReadAscii(PutText(chars, rest)) == Ok(chars, rest)
  {
    NextUvarintBack(|chars|, chars + rest);
    TakeBack(chars, rest);
  }

  lemma Utf16Back(c: Codec, units: Text, rest: Text)
    requires WellFormedUtf16(c, units)
    ensures ReadUtf16(c, PutText(units, rest)) == Ok(Decoded(c, units), rest)
  {
    AsciiBack(units, rest);
  }

  lemma NameBack(c: Codec, name: Name, rest: Text)
    requires WellFormedName(c, name)
    ensures var s := PutName(name, rest);
      s != [] && s[0] != Padding && s[0] != ObjectEnd
      && ReadPropertyName(c, s[0], s[1..]) == Ok(RenderName(c, name), rest)
  {
    var s := PutName(name, rest);
    match name
    case Name8(chars) =>
      assert s[1..] == PutText(chars, rest);
      AsciiBack(chars, rest);
    case Name16(units) =>
      assert s[1..] == PutText(units, rest);
      Utf16Back(c, units, rest);
    case NameInt(n) =>
      assert s[1..] == PutVarint(n, rest);
      NextVarintBack(n, rest);
    case NameUint(u) =>
      assert s[1..] == PutUvarint(u, rest);
      NextUvarintBack(u, rest);
    case NameDouble(bits) =>
      assert s[1..] == bits + rest;
      TakeBack(bits, rest);
  }

  // ----- noise

  /** Skipped bytes before a value make no difference, when padding is stripped first... */
  lemma {:induction false} NoiseSkipped(c: Codec, noise: Text, token: byte, rest: Text)
    requires Skipped(noise) && !IsNoise(token)
    ensures var r := NextNonPadding(noise + ([token] + rest));
      && r.Ok? && r.value == FirstToken(noise, token)
      && ReadNext(c, r.value, r.rest) == ReadNext(c, token, rest)
    decreases |noise|
  {
    var s := noise + ([token] + rest);
    if noise == [] {
      assert s == [token] + rest && s[1..] == rest;
    } else {
      assert s[1..] == noise[1..] + ([token] + rest);
      assert IsNoise(noise[0]);
      NoiseSkipped(c, noise[1..], token, rest);
    }
  }

  /** ...and when it is not. */
  lemma NoiseSkippedRaw(c: Codec, noise: Text, token: byte, rest: Text)
    requires Skipped(noise) && !IsNoise(token)
    ensures var r := NextByte(noise + ([token] + rest));
      r.Ok? && ReadNext(c, r.value, r.rest) == ReadNext(c, token, rest)
  {
    var s := noise + ([token] + rest);
    if noise == [] {
      assert s == [token] + rest && s[1..] == rest;
    } else {
      assert s[1..] == noise[1..] + ([token] + rest);
      assert IsNoise(noise[0]);
      NoiseSkipped(c, noise[1..], token, rest);
    }
  }

  // ----- scalars

  lemma BoxedBack(c: Codec, t: Tree, rest: Text)
    requires (t.BoxedText8? || t.BoxedText16?) && WellFormed(c, t)
    ensures ReadStringObject(c, Body(t, rest)) == Ok(Render(c, t), rest)
  {
    match t
    case BoxedText8(pad, token, chars) =>
      PaddingSkipped(pad, token, PutText(chars, rest));
      AsciiBack(chars, rest);
    case BoxedText16(pad, units) =>
      PaddingSkipped(pad, Utf16Str, PutText(units, rest));
      Utf16Back(c, units, rest);
  }

  lemma PatternBack(c: Codec, t: Tree, rest: Text)
    requires t.Pattern? && WellFormed(c, t)
    ensures ReadRegexp(c, Body(t, rest)) == Ok(Render(c, t), rest)
  {
    var flags := PutUvarint(t.flags, rest);
    PaddingSkipped(t.pad, AsciiStr, PutText(t.chars, flags));
    AsciiBack(t.chars, flags);
    NextUvarintBack(t.flags, rest);
  }

  lemma TextBack(c: Codec, t: Tree, rest: Text)
    requires t.Text8? || t.Text16? || t.BoxedText8? || t.BoxedText16? || t.Pattern?
    requires WellFormed(c, t)
    ensures ReadText(c, Token(t), Body(t, rest)) == Ok(Render(c, t), rest)
  {
    match t
    case Text8(_, chars) => AsciiBack(chars, rest);
    case Text16(units) => Utf16Back(c, units, rest);
    case BoxedText8(_, _, _) => BoxedBack(c, t, rest);
    case BoxedText16(_, _) => BoxedBack(c, t, rest);
    case Pattern(_, _, _) => PatternBack(c, t, rest);
  }

  lemma NumberBack(c: Codec, t: Tree, rest: Text)
    requires t.Integer? || t.Number? || t.Moment? || t.Big?
    requires WellFormed(c, t)
    ensures ReadNumber(c, Token(t), Body(t, rest)) == Ok(Render(c, t), rest)
  {
    match t
    case Integer(n) => NextVarintBack(n, rest);
    case Number(_, bits) => TakeBack(bits, rest);
    case Moment(bits) => TakeBack(bits, rest);
    case Big(_, bitfield, digits) =>
      NextUvarintBack(bitfield, digits + rest);
      TakeBack(digits, rest);
  }

  lemma EmptyViewBack(t: Tree, rest: Text)
    requires t.EmptyView? && Fits64(t.byteOffset)
    ensures ReadBareView(Body(t, rest)) == Ok(Ascii("[]"), rest)
  {
    ByteBack(t.subtag, PutUvarint(t.byteOffset, PutUvarint(0, [3] + rest)));
    NextUvarintBack(t.byteOffset, PutUvarint(0, [3] + rest));
    NextUvarintBack(0, [3] + rest);
    ByteBack(3, rest);
  }

  lemma TypedBack(c: Codec, t: Tree, rest: Text)
    requires t.Typed? && WellFormedTyped(t)
    ensures ReadArrayBuffer(c, Body(t, rest)) == Ok(RenderTyped(c, t), rest)
  {
    var s3 := PutUvarint(t.flags, rest);
    var s2 := PutUvarint(t.byteLength, s3);
    var s1 := PutUvarint(t.byteOffset, s2);
    AsciiBack(t.raw, [ArrayBufferView] + ([t.tag] + s1));
    ByteBack(ArrayBufferView, [t.tag] + s1);
    ByteBack(t.tag, s1);
    NextUvarintBack(t.byteOffset, s2);
    NextUvarintBack(t.byteLength, s3);
    NextUvarintBack(t.flags, rest);
  }

  predicate IsLeaf(t: Tree) {
    !(t.Object? || t.Dense? || t.Sparse? || t.Map? || t.Set?)
  }

  lemma ScalarBack(c: Codec, t: Tree, rest: Text)
    requires IsLeaf(t) && WellFormed(c, t)
    ensures IsScalar(Token(t))
    ensures ReadScalar(c, Token(t), Body(t, rest)) == Ok(Render(c, t), rest)
  {
    if t.Text8? || t.Text16? || t.BoxedText8? || t.BoxedText16? || t.Pattern? {
      TextBack(c, t, rest);
    } else if t.Integer? || t.Number? || t.Moment? || t.Big? {
      NumberBack(c, t, rest);
    } else if t.EmptyView? {
      EmptyViewBack(t, rest);
    } else if t.Typed? {
      TypedBack(c, t, rest);
    } else if t.Reference? {
      NextUvarintBack(t.id, rest);
    }
  }

  // ----- trees

  lemma TokenNotNoise(c: Codec, t: Tree)
    requires WellFormed(c, t)
    ensures !IsNoise(Token(t))
  {}

  lemma {:induction false} TreeBack(c: Codec, t: Tree, rest: Text)
    requires WellFormed(c, t)
    ensures ReadNext(c, Token(t), Body(t, rest)) == Ok(Render(c, t), rest)
    decreases t, 1
  {
    if IsLeaf(t) {
      ScalarBack(c, t, rest);
    } else {
      ContainerBack(c, t, rest);
    }
  }

  lemma {:induction false} ContainerBack(c: Codec, t: Tree, rest: Text)
    requires !IsLeaf(t) && WellFormed(c, t)
    ensures IsContainer(Token(t))
    ensures ReadContainer(c, Token(t), Body(t, rest)) == Ok(Render(c, t), rest)
    decreases t, 0
  {
    match t
    case Object(props) => PropsBack(c, props, map[], rest);
    case Dense(items, gap, count, length) =>
      var end := [EndDenseArray] + PutUvarint(count, PutUvarint(length, rest));
      NextUvarintBack(Count(items), PutItems(items, gap + end));
      ItemsBack(c, items, [], gap + end);
      DenseEndBack(gap, count, length, rest);
    case Sparse(size, cells) =>
      NextUvarintBack(size, PutCells(cells, rest));
      CellsBack(c, cells, seq(size, _ => None), rest);
    case Map(entries) => EntriesBack(c, entries, map[], rest);
    case Set(elems) => ElemsBack(c, elems, {}, rest);
  }

  /** Reads a slot where padding is stripped first. */
  lemma {:induction false} SlotBack(c: Codec, slot: Slot, rest: Text)
    requires WellFormedSlot(c, slot)
    ensures var r := NextNonPadding(PutSlot(slot, rest));
      && r.Ok? && r.value == FirstToken(slot.noise, Token(slot.tree))
      && ReadNext(c, r.value, r.rest) == Ok(Render(c, slot.tree), rest)
    decreases slot
  {
    TokenNotNoise(c, slot.tree);
    NoiseSkipped(c, slot.noise, Token(slot.tree), Body(slot.tree, rest));
    TreeBack(c, slot.tree, rest);
  }

  /** Reads a slot where it is not. */
  lemma {:induction false} SlotBackRaw(c: Codec, slot: Slot, rest: Text)
    requires WellFormedSlot(c, slot)
    ensures var r := NextByte(PutSlot(slot, rest));
      r.Ok? && ReadNext(c, r.value, r.rest) == Ok(Render(c, slot.tree), rest)
    decreases slot
  {
    TokenNotNoise(c, slot.tree);
    NoiseSkippedRaw(c, slot.noise, Token(slot.tree), Body(slot.tree, rest));
    TreeBack(c, slot.tree, rest);
  }

  lemma {:induction false} PropsBack(c: Codec, props: Props, acc: map<Text, Text>, rest: Text)
    requires WellFormedProps(c, props)
    ensures ReadObject(c, PutProps(props, rest), acc) == Ok(RenderProps(c, props, acc), rest)
    decreases props
  {
    match props
    case NoProps(pad, count) =>
      PaddingSkipped(pad, ObjectEnd, PutUvarint(count, rest));
      CountSkipped(count, rest);
    case Prop(pad, name, slot, more) =>
      var tail := PutProps(more, rest);
      var s := PutName(name, PutSlot(slot, tail));
      NameBack(c, name, PutSlot(slot, tail));
      assert s == [s[0]] + s[1..];
      PaddingSkipped(pad, s[0], s[1..]);
      SlotBack(c, slot, tail);
      PropsBack(c, more, acc[RenderName(c, name) := Render(c, slot.tree)], rest);
  }

  lemma {:induction false} ItemsBack(c: Codec, items: Items, acc: seq<Option<Text>>, rest: Text)
    requires WellFormedItems(c, items)
    ensures ReadDenseItems(c, PutItems(items, rest), Count(items), acc) == Ok(RenderItems(c, items, acc), rest)
    decreases items
  {
    match items
    case NoItems =>
    case Item(slot, more) =>
      SlotBackRaw(c, slot, PutItems(more, rest));
      ItemsBack(c, more, acc + [Some(Render(c, slot.tree))], rest);
  }

  lemma {:induction false} DenseEndBack(gap: Text, count: nat, length: nat, rest: Text)
    requires forall i :: 0 <= i < |gap| ==> gap[i] == 1 || gap[i] == 3
    requires Fits64(count) && Fits64(length)
    ensures ReadDenseEnd(gap + ([EndDenseArray] + PutUvarint(count, PutUvarint(length, rest)))) == Ok((), rest)
    decreases |gap|
  {
    var end := [EndDenseArray] + PutUvarint(count, PutUvarint(length, rest));
    var s := gap + end;
    if gap == [] {
      assert s == end;
      ByteBack(EndDenseArray, PutUvarint(count, PutUvarint(length, rest)));
      CountSkipped(count, PutUvarint(length, rest));
      CountSkipped(length, rest);
    } else {
      assert s[1..] == gap[1..] + end;
      DenseEndBack(gap[1..], count, length, rest);
    }
  }

  lemma IndexBack(signed: bool, index: nat, rest: Text)
    requires index < 0x8000_0000_0000_0000
    ensures var r := NextByte(if signed then [Int32] + PutVarint(index, rest) else [Uint32] + PutUvarint(index, rest));
      r.Ok? && r.value in {Int32, Uint32} && ReadIndex(r.value, r.rest) == Ok(index, rest)
  {
    if signed {
      ByteBack(Int32, PutVarint(index, rest));
      NextVarintBack(index, rest);
    } else {
      ByteBack(Uint32, PutUvarint(index, rest));
      NextUvarintBack(index, rest);
    }
  }

  lemma {:induction false} CellsBack(c: Codec, cells: Cells, acc: seq<Option<Text>>, rest: Text)
    requires WellFormedCells(c, cells, |acc|)
    ensures ReadSparseItems(c, PutCells(cells, rest), acc) == Ok(RenderCells(c, cells, acc), rest)
    decreases cells
  {
    match cells
    case NoCells(count, length) =>
      ByteBack(EndSparseArray, PutUvarint(count, PutUvarint(length, rest)));
      CountSkipped(count, PutUvarint(length, rest));
      CountSkipped(length, rest);
    case Gap(b, more) =>
      ByteBack(b, PutCells(more, rest));
      CellsBack(c, more, acc, rest);
    case Cell(signed, index, slot, more) =>
      IndexBack(signed, index, PutSlot(slot, PutCells(more, rest)));
      SlotBackRaw(c, slot, PutCells(more, rest));
      CellsBack(c, more, acc[index := Some(Render(c, slot.tree))], rest);
  }

  lemma {:induction false} EntriesBack(c: Codec, entries: Entries, acc: map<Text, Text>, rest: Text)
    requires WellFormedEntries(c, entries)
    ensures ReadMap(c, PutEntries(entries, rest), acc) == Ok(RenderEntries(c, entries, acc), rest)
    decreases entries
  {
    match entries
    case NoEntries(pad, count) =>
      PaddingSkipped(pad, MapEnd, PutUvarint(count, rest));
      CountSkipped(count, rest);
    case Entry(key, value, more) =>
      var tail := PutEntries(more, rest);
      SlotBack(c, key, PutSlot(value, tail));
      SlotBack(c, value, tail);
      EntriesBack(c, more, acc[Render(c, key.tree) := Render(c, value.tree)], rest);
  }

  lemma {:induction false} ElemsBack(c: Codec, elems: Elems, acc: set<Text>, rest: Text)
    requires WellFormedElems(c, elems)
    ensures ReadSet(c, PutElems(elems, rest), acc) == Ok(RenderElems(c, elems, acc), rest)
    decreases elems
  {
    match elems
    case NoElems(pad, count) =>
      PaddingSkipped(pad, SetEnd, PutUvarint(count, rest));
      CountSkipped(count, rest);
    case Elem(slot, more) =>
      SlotBack(c, slot, PutElems(more, rest));
      ElemsBack(c, more, acc + {Render(c, slot.tree)}, rest);
  }

  // ----- rows

  lemma {:induction false} HeaderBack(h: Header, root: byte, rest: Text)
    requires WellFormedHeader(h) && IsRoot(root)
    ensures ReadHeader(PutHeader(h, [root] + rest)) == Ok(root, rest)
    decreases h
  {
    match h
    case NoHeader => ByteBack(root, rest);
    case VersionNumber(v, more) =>
      ByteBack(Version, PutUvarint(v, PutHeader(more, [root] + rest)));
      NextUvarintBack(v, PutHeader(more, [root] + rest));
      HeaderBack(more, root, rest);
    case Filler(b, more) =>
      ByteBack(b, PutHeader(more, [root] + rest));
      HeaderBack(more, root, rest);
  }

  /** A whole row, from the database version to the last count, and not a byte further. */
  lemma RowBack(c: Codec, row: Row, rest: Text)
    requires WellFormedRow(c, row)
    ensures ReadRow(c, PutRow(row, rest)) == Ok(RenderRow(c, row), rest)
  {
    var body := Body(row.root, rest);
    NextUvarintBack(row.databaseVersion, PutHeader(row.header, [Token(row.root)] + body));
    HeaderBack(row.header, Token(row.root), body);
    RootBack(c, row, rest);
  }

  lemma RootBack(c: Codec, row: Row, rest: Text)
    requires WellFormedRow(c, row)
    ensures ReadRoot(c, Token(row.root), Body(row.root, rest)) == Ok(RenderRow(c, row), rest)
  {
    if row.root.Object? {
      PropsBack(c, row.root.props, map[], rest);
    } else {
      assert Token(row.root) != ObjectBegin;
      TreeBack(c, row.root, rest);
    }
  }
}
