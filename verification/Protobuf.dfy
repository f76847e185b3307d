/**
 * Schema-less decoding of protobuf wire data (ee/dataflatten/protobuf.go), with the wire format
 * reader it relies on modelled as functions. Shown here: decoding a concatenation is decoding the
 * parts and joining the values of each field number.
 */
module Protobuf {
  import opened Bytes
  import opened Varint

  datatype Codec = Codec(utf8Valid: Text -> bool, base64: Text -> Text)

  datatype Value =
    | Uint64(n: nat)
    | Uint32(n: nat)
    | Str(text: Text)
    | Message(fields: map<nat, Field>)

  /** A field seen once is its value; a repeated field is the list of its values. */
  datatype Field = One(value: Value) | Many(values: seq<Value>)

  type Fields = map<nat, seq<Value>>

  // ----- the wire format

  datatype Tag = Tag(num: nat, wire: nat, rest: Text)
  datatype Chunk = Chunk(body: Text, rest: Text)

  const VarintType := 0
  const Fixed64Type := 1
  const BytesType := 2
  const StartGroupType := 3
  const EndGroupType := 4
  const Fixed32Type := 5
  const MaxValidNumber := 0x1FFF_FFFF
  const RecursionLimit := 10000

  /** A tag: the field number above the low three bits; zero and more than 31 bits are invalid. */
  function ConsumeTag(s: Text): (r: Option<Tag>)
    ensures r.Some? ==> |r.value.rest| < |s|
  {
    var u := ReadUvarint(s);
    if u.value.None? || u.value.value / 8 == 0 || u.value.value / 8 > 0x7FFF_FFFF then None
    else Some(Tag(u.value.value / 8, u.value.value % 8, u.rest))
  }

  function ConsumeBytes(s: Text): (r: Option<Chunk>)
    ensures r.Some? ==> |r.value.body| < |s| && |r.value.rest| < |s|
  {
    var u := ReadUvarint(s);
    if u.value.None? || u.value.value > |u.rest| then None
    else Some(Chunk(u.rest[..u.value.value], u.rest[u.value.value..]))
  }

  /** What is left after the value of a field, whatever it is. */
  function SkipValue(num: nat, wire: nat, s: Text, depth: int): (r: Option<Text>)
    ensures r.Some? ==> |r.value| <= |s|
    decreases |s|, 1
  {
    if wire == VarintType then
      var u := ReadUvarint(s);
      if u.value.None? then None else Some(u.rest)
    else if wire == Fixed32Type then if |s| < 4 then None else Some(s[4..])
    else if wire == Fixed64Type then if |s| < 8 then None else Some(s[8..])
    else if wire == BytesType then
      match ConsumeBytes(s)
      case None => None
      case Some(b) => Some(b.rest)
    else if wire == StartGroupType then
      if depth < 0 then None
      else match FindEnd(num, s, depth)
        case None => None
        case Some(end) => Some(end.rest)
    else None
  }

  /** The end tag of group `num`: what starts with it, and what follows it. */
  function FindEnd(num: nat, s: Text, depth: int): (r: Option<Chunk>)
    ensures r.Some? ==> |r.value.rest| < |r.value.body| <= |s|
    decreases |s|, 0
  {
    match ConsumeTag(s)
    case None => None
    case Some(tag) =>
      if tag.wire == EndGroupType then
        if tag.num == num then Some(Chunk(s, tag.rest)) else None
      else match SkipValue(tag.num, tag.wire, tag.rest, depth - 1)
        case None => None
        case Some(rest) => FindEnd(num, rest, depth)
  }

  /** A group: the fields before its end tag, and what follows the end tag. */
  function ConsumeGroup(num: nat, s: Text): (r: Option<Chunk>)
    ensures r.Some? ==> |r.value.body| < |s| && |r.value.rest| < |s|
  {
    match FindEnd(num, s, RecursionLimit)
    case None => None
    case Some(end) => Some(Chunk(s[..|s| - |end.body|], end.rest))
  }

  // ----- decoding

  datatype Decoded = Decoded(num: nat, value: Value, rest: Text)

  predicate LooksLikeString(c: Codec, s: Text) {
    c.utf8Valid(s) && forall i :: 0 <= i < |s| ==> s[i] >= 0x20 || s[i] in {9, 10, 13}
  }

  function DecodeBytesField(c: Codec, s: Text): (v: Value)
    decreases |s|, 3
  {
    if s == [] then Str([])
    else if LooksLikeString(c, s) then Str(s)
    else match DecodeRaw(c, s)
      case Some(m) => if |m| > 0 then Message(m) else PlainBytes(c, s)
      case None => PlainBytes(c, s)
  }

  function PlainBytes(c: Codec, s: Text): Value {
    if c.utf8Valid(s) then Str(s) else Str(c.base64(s))
  }

  /** The value after a tag. */
  function DecodeValue(c: Codec, tag: Tag): (r: Option<Decoded>)
    ensures r.Some? ==> |r.value.rest| <= |tag.rest| && r.value.num == tag.num
    decreases |tag.rest|, 3
  {
    var s := tag.rest;
    if tag.wire == VarintType then
      var u := ReadUvarint(s);
      if u.value.None? then None else Some(Decoded(tag.num, Uint64(u.value.value), u.rest))
    else if tag.wire == Fixed64Type then
      if |s| < 8 then None else Some(Decoded(tag.num, Uint64(Get(s, 8)), s[8..]))
    else if tag.wire == Fixed32Type then
      if |s| < 4 then None else Some(Decoded(tag.num, Uint32(Get(s, 4)), s[4..]))
    else if tag.wire == BytesType then
      match ConsumeBytes(s)
      case None => None
      case Some(b) => Some(Decoded(tag.num, DecodeBytesField(c, b.body), b.rest))
    else if tag.wire == StartGroupType then
      match ConsumeGroup(tag.num, s)
      case None => None
      case Some(g) =>
        match DecodeRaw(c, g.body)
        case None => None
        case Some(m) => Some(Decoded(tag.num, Message(m), g.rest))
    else None
  }

  /** One field: a tag with a valid number, and its value. */
  function DecodeField(c: Codec, s: Text): (r: Option<Decoded>)
    ensures r.Some? ==> |r.value.rest| < |s|
    decreases |s|, 0
  {
    match ConsumeTag(s)
    case None => None
    case Some(tag) => if tag.num > MaxValidNumber then None else DecodeValue(c, tag)
  }

  function Values(fields: Fields, num: nat): seq<Value> {
    if num in fields then fields[num] else []
  }

  function Add(fields: Fields, num: nat, value: Value): Fields {
    fields[num := Values(fields, num) + [value]]
  }

  /** The loop over the fields, collecting values by field number. */
  function DecodeFields(c: Codec, s: Text, acc: Fields): (r: Option<Fields>)
    decreases |s|, 1
  {
    if s == [] then Some(acc)
    else match DecodeField(c, s)
      case None => None
      case Some(f) => DecodeFields(c, f.rest, Add(acc, f.num, f.value))
  }

  function AsField(values: seq<Value>): Field {
    if |values| == 1 then One(values[0]) else Many(values)
  }

  function Collapse(fields: Fields): map<nat, Field> {
    map num | num in fields :: AsField(fields[num])
  }

  function DecodeRaw(c: Codec, s: Text): (r: Option<map<nat, Field>>)
    decreases |s|, 2
  {
    match DecodeFields(c, s, map[])
    case None => None
    case Some(fields) => Some(Collapse(fields))
  }

  // ----- reading looks no further than what it consumes

  lemma {:induction false} DigitsStable(a: Text, b: Text, i: nat, x: nat, unit: nat)
    requires i <= 10 && ReadDigits(a, i, x, unit).value.Some?
    ensures ReadDigits(a + b, i, x, unit) == Uvarint(ReadDigits(a, i, x, unit).value, ReadDigits(a, i, x, unit).rest + b)
    decreases |a|
  {
    assert (a + b)[0] == a[0] && (a + b)[1..] == a[1..] + b;
    if a[0] >= 128 {
      DigitsStable(a[1..], b, i + 1, x + (a[0] - 128) * unit, unit * 128);
    }
  }

  lemma UvarintStable(a: Text, b: Text)
    requires ReadUvarint(a).value.Some?
    ensures ReadUvarint(a + b) == Uvarint(ReadUvarint(a).value, ReadUvarint(a).rest + b)
  {
    DigitsStable(a, b, 0, 0, 1);
  }

  lemma TagStable(a: Text, b: Text)
    requires ConsumeTag(a).Some?
    ensures ConsumeTag(a + b) == Some(ConsumeTag(a).value.(rest := ConsumeTag(a).value.rest + b))
  {
    UvarintStable(a, b);
  }

  lemma BytesStable(a: Text, b: Text)
    requires ConsumeBytes(a).Some?
    ensures ConsumeBytes(a + b) == Some(ConsumeBytes(a).value.(rest := ConsumeBytes(a).value.rest + b))
  {
    UvarintStable(a, b);
    var u := ReadUvarint(a);
    var n := u.value.value;
    assert (u.rest + b)[..n] == u.rest[..n];
    assert (u.rest + b)[n..] == u.rest[n..] + b;
  }

  lemma {:induction false} SkipStable(num: nat, wire: nat, a: Text, b: Text, depth: int)
    requires SkipValue(num, wire, a, depth).Some?
    ensures SkipValue(num, wire, a + b, depth) == Some(SkipValue(num, wire, a, depth).value + b)
    decreases |a|, 1
  {
    if wire == VarintType {
      UvarintStable(a, b);
    } else if wire == Fixed32Type {
      assert (a + b)[4..] == a[4..] + b;
    } else if wire == Fixed64Type {
      assert (a + b)[8..] == a[8..] + b;
    } else if wire == BytesType {
      BytesStable(a, b);
    } else {
      EndStable(num, a, b, depth);
    }
  }

  lemma {:induction false} EndStable(num: nat, a: Text, b: Text, depth: int)
    requires FindEnd(num, a, depth).Some?
    ensures var end := FindEnd(num, a, depth).value;
      FindEnd(num, a + b, depth) == Some(Chunk(end.body + b, end.rest + b))
    decreases |a|, 0
  {
    TagStable(a, b);
    var tag := ConsumeTag(a).value;
    if tag.wire != EndGroupType {
      SkipStable(tag.num, tag.wire, tag.rest, b, depth - 1);
      EndStable(num, SkipValue(tag.num, tag.wire, tag.rest, depth - 1).value, b, depth);
    }
  }

  lemma GroupStable(num: nat, a: Text, b: Text)
    requires ConsumeGroup(num, a).Some?
    ensures ConsumeGroup(num, a + b) == Some(ConsumeGroup(num, a).value.(rest := ConsumeGroup(num, a).value.rest + b))
  {
    EndStable(num, a, b, RecursionLimit);
    var n := |a| - |FindEnd(num, a, RecursionLimit).value.body|;
    assert (a + b)[..n] == a[..n];
  }

  lemma {:induction false} GetStable(a: Text, b: Text, w: nat)
    requires w <= |a|
    ensures Get(a + b, w) == Get(a, w)
    decreases w
  {
    if w > 0 {
      assert (a + b)[0] == a[0] && (a + b)[1..] == a[1..] + b;
      GetStable(a[1..], b, w - 1);
    }
  }

  lemma ValueStable(c: Codec, tag: Tag, b: Text)
    requires DecodeValue(c, tag).Some?
    ensures DecodeValue(c, tag.(rest := tag.rest + b)) == Some(DecodeValue(c, tag).value.(rest := DecodeValue(c, tag).value.rest + b))
  {
    var s := tag.rest;
    if tag.wire == VarintType {
      UvarintStable(s, b);
    } else if tag.wire == Fixed64Type {
      GetStable(s, b, 8);
      assert (s + b)[8..] == s[8..] + b;
    } else if tag.wire == Fixed32Type {
      GetStable(s, b, 4);
      assert (s + b)[4..] == s[4..] + b;
    } else if tag.wire == BytesType {
      BytesStable(s, b);
    } else {
      GroupStable(tag.num, s, b);
    }
  }

  lemma FieldStable(c: Codec, a: Text, b: Text)
    requires DecodeField(c, a).Some?
    ensures DecodeField(c, a + b) == Some(DecodeField(c, a).value.(rest := DecodeField(c, a).value.rest + b))
  {
    TagStable(a, b);
    ValueStable(c, ConsumeTag(a).value, b);
  }

  // ----- concatenation

  /** Decoding goes on with `b` where `a` ended. */
  lemma {:induction false} FieldsOfConcatenation(c: Codec, a: Text, b: Text, acc: Fields)
    requires DecodeFields(c, a, acc).Some?
    ensures DecodeFields(c, a + b, acc) == DecodeFields(c, b, DecodeFields(c, a, acc).value)
    decreases |a|
  {
    if a == [] {
      assert a + b == b;
    } else {
      FieldStable(c, a, b);
      var f := DecodeField(c, a).value;
      FieldsOfConcatenation(c, f.rest, b, Add(acc, f.num, f.value));
    }
  }

  /** `joined` holds, under every number, the values of `first` and then those of `second`. */
  ghost predicate Joined(first: Fields, second: Fields, joined: Fields) {
    forall num :: Values(joined, num) == Values(first, num) + Values(second, num)
  }

  /** No number is recorded without a value. */
  ghost predicate Tidy(fields: Fields) {
    forall num :: num in fields ==> fields[num] != []
  }

  lemma AddJoined(before: Fields, acc: Fields, joined: Fields, num: nat, value: Value)
    requires Joined(before, acc, joined) && Tidy(acc) && Tidy(joined)
    ensures Joined(before, Add(acc, num, value), Add(joined, num, value))
    ensures Tidy(Add(acc, num, value)) && Tidy(Add(joined, num, value))
  {
    var acc', joined' := Add(acc, num, value), Add(joined, num, value);
    forall k
      ensures Values(joined', k) == Values(before, k) + Values(acc', k)
    {
      assert Values(joined, k) == Values(before, k) + Values(acc, k);
      if k == num {
        assert Values(before, k) + Values(acc, k) + [value] == Values(before, k) + (Values(acc, k) + [value]);
      }
    }
  }

  /** What was collected before has no influence on what is collected after. */
  lemma {:induction false} FieldsAfter(c: Codec, s: Text, before: Fields, acc: Fields, joined: Fields)
    requires Joined(before, acc, joined) && Tidy(acc) && Tidy(joined)
    ensures DecodeFields(c, s, acc).Some? <==> DecodeFields(c, s, joined).Some?
    ensures DecodeFields(c, s, acc).Some? ==>
      var r, j := DecodeFields(c, s, acc).value, DecodeFields(c, s, joined).value;
      Joined(before, r, j) && Tidy(r) && Tidy(j)
    decreases |s|
  {
    if s != [] && DecodeField(c, s).Some? {
      var f := DecodeField(c, s).value;
      AddJoined(before, acc, joined, f.num, f.value);
      FieldsAfter(c, f.rest, before, Add(acc, f.num, f.value), Add(joined, f.num, f.value));
    }
  }

  /** The values of a field in a decoded message. */
  function FieldValues(m: map<nat, Field>, num: nat): seq<Value> {
    if num !in m then []
    else match m[num]
      case One(v) => [v]
      case Many(vs) => vs
  }

  /** Two messages as one: under every number, the values of the first, then those of the second. */
  function Join(m: map<nat, Field>, n: map<nat, Field>): map<nat, Field> {
    map num | num in m.Keys + n.Keys :: AsField(FieldValues(m, num) + FieldValues(n, num))
  }

  lemma CollapseKeepsValues(fields: Fields, num: nat)
    ensures FieldValues(Collapse(fields), num) == Values(fields, num)
  {}

  lemma CollapseJoinedAt(first: Fields, second: Fields, joined: Fields, num: nat)
    requires Values(joined, num) == Values(first, num) + Values(second, num)
    requires num in first ==> first[num] != []
    requires num in second ==> second[num] != []
    requires num in joined ==> joined[num] != []
    ensures num in joined <==> num in first || num in second
    ensures num in joined ==> Collapse(joined)[num] == AsField(FieldValues(Collapse(first), num) + FieldValues(Collapse(second), num))
  {
    CollapseKeepsValues(first, num);
    CollapseKeepsValues(second, num);
  }

  lemma CollapseJoined(first: Fields, second: Fields, joined: Fields)
    requires Joined(first, second, joined) && Tidy(first) && Tidy(second) && Tidy(joined)
    ensures Collapse(joined) == Join(Collapse(first), Collapse(second))
  {
    var whole, parts := Collapse(joined), Join(Collapse(first), Collapse(second));
    forall num
      ensures num in whole <==> num in parts
      ensures num in whole ==> whole[num] == parts[num]
    {
      assert Values(joined, num) == Values(first, num) + Values(second, num);
      CollapseJoinedAt(first, second, joined, num);
    }
  }

  lemma DecodedTidy(c: Codec, s: Text)
    requires DecodeFields(c, s, map[]).Some?
    ensures Tidy(DecodeFields(c, s, map[]).value)
  {
    FieldsAfter(c, s, map[], map[], map[]);
  }

  /**
   * If `a` decodes, then `a` followed by `b` decodes exactly when `b` does, and the whole is the two
   * messages joined.
   */
  lemma Concatenation(c: Codec, a: Text, b: Text)
    requires DecodeRaw(c, a).Some?
    ensures DecodeRaw(c, a + b)
         == if DecodeRaw(c, b).None? then None else Some(Join(DecodeRaw(c, a).value, DecodeRaw(c, b).value))
  {
    DecodedTidy(c, a);
    var first := DecodeFields(c, a, map[]).value;
    FieldsOfConcatenation(c, a, b, map[]);
    forall num
      ensures Values(first, num) == Values(first, num) + Values(map[], num)
    {}
    FieldsAfter(c, b, first, map[], first);
    if DecodeRaw(c, b).Some? {
      CollapseJoined(first, DecodeFields(c, b, map[]).value, DecodeFields(c, b, first).value);
    }
  }

  // ----- length-delimited fields

  lemma {:induction false} FieldsKept(c: Codec, s: Text, acc: Fields, num: nat)
    requires DecodeFields(c, s, acc).Some? && num in acc
    ensures num in DecodeFields(c, s, acc).value
    decreases |s|
  {
    if s != [] {
      var f := DecodeField(c, s).value;
      FieldsKept(c, f.rest, Add(acc, f.num, f.value), num);
    }
  }

  /** Bytes that decode, if there are any, decode to at least one field. */
  lemma SomeField(c: Codec, s: Text)
    requires s != [] && DecodeRaw(c, s).Some?
    ensures DecodeRaw(c, s).value != map[]
  {
    var f := DecodeField(c, s).value;
    FieldsKept(c, f.rest, Add(map[], f.num, f.value), f.num);
    assert f.num in DecodeRaw(c, s).value;
  }

  /**
   * Length-delimited data is a message exactly when there is some, it does not read like text, and it
   * decodes; the test for an empty message never decides. Otherwise it is text: itself if it is
   * valid, else encoded.
   */
  lemma MessageExactly(c: Codec, s: Text)
    ensures var v := DecodeBytesField(c, s);
      && (v.Message? <==> s != [] && !LooksLikeString(c, s) && DecodeRaw(c, s).Some?)
      && (v.Message? ==> Some(v.fields) == DecodeRaw(c, s))
      && (!v.Message? ==> v == Str(if s == [] || c.utf8Valid(s) then s else c.base64(s)))
  {
    if s != [] && DecodeRaw(c, s).Some? {
      SomeField(c, s);
    }
  }

  /** A field of length-delimited data as it is written. */
  function PutBytesField(num: nat, body: Text): Text {
    PutUvarint(8 * num + BytesType, PutUvarint(|body|, body))
  }

  /** A written field is read back: alone in a message, it is what its data is taken to be. */
  lemma BytesFieldBack(c: Codec, num: nat, body: Text)
    requires 0 < num <= MaxValidNumber && |body| < 0x1_0000_0000_0000_0000
    ensures DecodeRaw(c, PutBytesField(num, body)) == Some(map[num := One(DecodeBytesField(c, body))])
  {
    var s, length := PutBytesField(num, body), PutUvarint(|body|, body);
    UvarintBack(8 * num + BytesType, length);
    UvarintBack(|body|, body);
    assert body[..|body|] == body && body[|body|..] == [];
    var v := DecodeBytesField(c, body);
    assert DecodeField(c, s) == Some(Decoded(num, v, []));
    assert [] + [v] == [v];
    assert Add(map[], num, v) == map[num := [v]];
    assert DecodeFields(c, [], map[num := [v]]) == Some(map[num := [v]]);
    assert Collapse(map[num := [v]]) == map[num := One(v)];
  }

  /** So a message within a message is read back exactly when it does not read like text. */
  lemma NestedMessageBack(c: Codec, num: nat, body: Text)
    requires 0 < num <= MaxValidNumber && |body| < 0x1_0000_0000_0000_0000
    requires body != [] && DecodeRaw(c, body).Some?
    ensures DecodeRaw(c, PutBytesField(num, body)) == Some(map[num := One(Message(DecodeRaw(c, body).value))])
       <==> !LooksLikeString(c, body)
  {
    BytesFieldBack(c, num, body);
    MessageExactly(c, body);
    var one, other := map[num := One(DecodeBytesField(c, body))], map[num := One(Message(DecodeRaw(c, body).value))];
    assert one[num] == other[num] <==> !LooksLikeString(c, body);
  }

  /** `body` within fields within fields, the first number outermost. */
  function Nested(nums: seq<nat>, body: Text): Text {
    if nums == [] then body else PutBytesField(nums[0], Nested(nums[1..], body))
  }

  function NestedFields(nums: seq<nat>, m: map<nat, Field>): map<nat, Field> {
    if nums == [] then m else map[nums[0] := One(Message(NestedFields(nums[1..], m)))]
  }

  /** Some message inside another reads like text. */
  predicate SomeReadsLikeText(c: Codec, nums: seq<nat>, body: Text) {
    nums != [] && (LooksLikeString(c, Nested(nums[1..], body)) || SomeReadsLikeText(c, nums[1..], body))
  }

  /** At any depth: a message nested in others is read back exactly when none of those inside reads like text. */
  lemma {:induction false} DeeplyNestedBack(c: Codec, nums: seq<nat>, body: Text)
    requires forall i :: 0 <= i < |nums| ==> 0 < nums[i] <= MaxValidNumber
    requires |Nested(nums, body)| < 0x1_0000_0000_0000_0000
    requires body != [] && DecodeRaw(c, body).Some?
    ensures Nested(nums, body) != []
    ensures DecodeRaw(c, Nested(nums, body)) == Some(NestedFields(nums, DecodeRaw(c, body).value))
       <==> !SomeReadsLikeText(c, nums, body)
    decreases |nums|
  {
    if nums != [] {
      var num, inner := nums[0], Nested(nums[1..], body);
      var fields := NestedFields(nums[1..], DecodeRaw(c, body).value);
      assert |inner| < |Nested(nums, body)|;
      DeeplyNestedBack(c, nums[1..], body);
      BytesFieldBack(c, num, inner);
      MessageExactly(c, inner);
      var v := DecodeBytesField(c, inner);
      assert map[num := One(v)][num] == One(v) && map[num := One(Message(fields))][num] == One(Message(fields));
      assert map[num := One(v)] == map[num := One(Message(fields))] <==> v == Message(fields);
    }
  }

  // ----- the decoder as a loop

  method DecodeRawProtobuf(c: Codec, data: Text) returns (r: Option<map<nat, Field>>)
    ensures r == DecodeRaw(c, data)
    decreases |data|, 2
  {
    var s, fields: Fields := data, map[];
    while |s| > 0
      invariant |s| <= |data|
      invariant DecodeFields(c, s, fields) == DecodeFields(c, data, map[])
      decreases |s|
    {
      var tag := ConsumeTag(s);
      if tag.None? || tag.value.num > MaxValidNumber {
        return None;
      }
      var field := DecodeTagged(c, tag.value);
      if field.None? {
        return None;
      }
      s := field.value.rest;
      fields := fields[tag.value.num := Values(fields, tag.value.num) + [field.value.value]];
    }
    r := Some(Collapse(fields));
  }

  /** The switch on the wire type. */
  method DecodeTagged(c: Codec, tag: Tag) returns (r: Option<Decoded>)
    ensures r == DecodeValue(c, tag)
    decreases |tag.rest|, 3
  {
    var s := tag.rest;
    if tag.wire == VarintType {
      var u := ReadUvarint(s);
      return if u.value.None? then None else Some(Decoded(tag.num, Uint64(u.value.value), u.rest));
    } else if tag.wire == Fixed64Type {
      return if |s| < 8 then None else Some(Decoded(tag.num, Uint64(Get(s, 8)), s[8..]));
    } else if tag.wire == Fixed32Type {
      return if |s| < 4 then None else Some(Decoded(tag.num, Uint32(Get(s, 4)), s[4..]));
    } else if tag.wire == BytesType {
      var b := ConsumeBytes(s);
      if b.None? {
        return None;
      }
      var v := DecodeBytes(c, b.value.body);
      return Some(Decoded(tag.num, v, b.value.rest));
    } else if tag.wire == StartGroupType {
      var g := ConsumeGroup(tag.num, s);
      if g.None? {
        return None;
      }
      var m := DecodeRawProtobuf(c, g.value.body);
      return if m.None? then None else Some(Decoded(tag.num, Message(m.value), g.value.rest));
    } else {
      return None;
    }
  }

  method DecodeBytes(c: Codec, s: Text) returns (v: Value)
    ensures v == DecodeBytesField(c, s)
    decreases |s|, 3
  {
    if s == [] {
      return Str([]);
    }
    if LooksLikeString(c, s) {
      return Str(s);
    }
    var nested := DecodeRawProtobuf(c, s);
    if nested.Some? && |nested.value| > 0 {
      return Message(nested.value);
    }
    v := if c.utf8Valid(s) then Str(s) else Str(c.base64(s));
  }
}
