/**
 * What takes the Firefox reader off the 8-byte grid, and what its re-reading of doubles gives inside
 * maps.
 */
module FirefoxAlignment {
  import opened Bytes
  import opened FirefoxSpec

  // ----- bytes that are not whole words, told from the input

  /** Bytes off the grid that a value other than a container brings: the digits of a BigInt, or the ragged end of a typed array. */
  function ExtraOf(d: Text, at: nat, item: Pair): nat
    requires at <= |d|
  {
    if item.tag == BigIntTag || item.tag == BigIntObjectTag then
      if item.data >= AsciiFlag then item.data - AsciiFlag else item.data
    else if item.tag == TypedArrayTag && ElementSize(item.data) > 0 && ReadTypedHeader(d, at).Ok? then
      ReadTypedHeader(d, at).value.1 % ElementSize(item.data)
    else 0
  }

  /**
   * Those of a value at any depth: what the scalars in it bring, and the span of every read that fails
   * inside an error object, where reading carries on from wherever that read stopped.
   */
  function ExtraOfNext(c: Codec, d: Text, at: nat, item: Pair): nat
    requires 8 <= at <= |d|
    decreases |d| - at, 1
  {
    if item.tag == ObjectTag then ExtraOfObject(c, d, at)
    else if item.tag == ArrayTag then ExtraOfItems(c, d, at)
    else if item.tag == MapTag then ExtraOfMap(c, d, at)
    else if item.tag == SetTag then ExtraOfSet(c, d, at)
    else if item.tag == ErrorTag then ExtraOfError(c, d, at)
    else ExtraOf(d, at, item)
  }

  function ExtraOfObject(c: Codec, d: Text, at: nat): nat
    requires at <= |d|
    decreases |d| - at, 0
  {
    var key := NextPair(d, at);
    if key.Err? || key.value.tag != StringTag then 0 else
    var name := ReadString(c, d, key.at, key.value.data);
    if name.Err? then 0 else
    var item := NextPair(d, name.at);
    if item.Err? then 0 else
    var value := ReadNext(c, d, item.at, item.value);
    ExtraOfNext(c, d, item.at, item.value) + if value.Err? then 0 else ExtraOfObject(c, d, value.at)
  }

  function ExtraOfItems(c: Codec, d: Text, at: nat): nat
    requires at <= |d|
    decreases |d| - at, 0
  {
    var index := NextPair(d, at);
    if index.Err? || index.value.tag == EndOfKeysTag then 0 else
    var item := NextPair(d, index.at);
    if item.Err? then 0 else
    var value := ReadNext(c, d, item.at, item.value);
    ExtraOfNext(c, d, item.at, item.value) + if value.Err? then 0 else ExtraOfItems(c, d, value.at)
  }

  function ExtraOfMap(c: Codec, d: Text, at: nat): nat
    requires at <= |d|
    decreases |d| - at, 0
  {
    var key := NextPair(d, at);
    if key.Err? || key.value.tag == EndOfKeysTag then 0 else
    var item := NextPair(d, key.at);
    if item.Err? then 0 else
    var name := ReadNext(c, d, item.at, key.value);
    if name.Err? then 0 else
    var value := ReadNext(c, d, name.at, item.value);
    ExtraOfNext(c, d, item.at, key.value) + ExtraOfNext(c, d, name.at, item.value)
    + if value.Err? then 0 else ExtraOfMap(c, d, value.at)
  }

  function ExtraOfSet(c: Codec, d: Text, at: nat): nat
    requires at <= |d|
    decreases |d| - at, 0
  {
    var key := NextPair(d, at);
    if key.Err? || key.value.tag == EndOfKeysTag then 0 else
    var value := ReadNext(c, d, key.at, key.value);
    ExtraOfNext(c, d, key.at, key.value) + if value.Err? then 0 else ExtraOfSet(c, d, value.at)
  }

  function ExtraOfError(c: Codec, d: Text, at: nat): nat
    requires at <= |d|
    decreases |d| - at, 0
  {
    var prop := NextPair(d, at);
    if prop.Err? || prop.value.tag == EndOfKeysTag then 0
    else if prop.value.tag != StringTag then ExtraOfSkipped(c, d, prop.at) else
    var name := ReadString(c, d, prop.at, prop.value.data);
    if name.Err? then 0 else
    var item := NextPair(d, name.at);
    if item.Err? then 0 else
    var value := ReadNext(c, d, item.at, item.value);
    if value.Err? then value.at - item.at + ExtraOfError(c, d, value.at)
    else
      ExtraOfNext(c, d, item.at, item.value)
      + if value.value.isNil then ExtraOfError(c, d, value.at) else ExtraOfSkipped(c, d, value.at)
  }

  function ExtraOfSkipped(c: Codec, d: Text, at: nat): nat
    requires at <= |d|
    decreases |d| - at, 0
  {
    var item := NextPair(d, at);
    if item.Err? then 0 else
    var value := ReadNext(c, d, item.at, item.value);
    (if value.Err? then value.at - item.at else ExtraOfNext(c, d, item.at, item.value)) + ExtraOfError(c, d, value.at)
  }

  // ----- padding

  /** Padding up to a whole word. */
  lemma FillsWord(x: nat, leftover: nat)
    requires x % 8 == leftover % 8
    ensures (x + (8 - leftover % 8) % 8) % 8 == 0
  {
    var q, r := x / 8, x % 8;
    assert x + (8 - r) % 8 == 8 * (if r == 0 then q else q + 1);
  }

  lemma ModEight(k: int, r: int)
    ensures (8 * k + r) % 8 == r % 8
  {}

  lemma PaddingFills1(n: nat)
    ensures (n + TypedPadding(n, 1)) % 8 == 0
  {
    ModEight(n / 8, n % 8);
    FillsWord(n, n % 8);
  }

  lemma PaddingFills2(n: nat)
    ensures (n * 2 + TypedPadding(n, 2)) % 8 == 0
  {
    ModEight(n / 8 * 2, n % 8 * 2);
    FillsWord(n * 2, n % 8 * 2);
  }

  lemma PaddingFills4(n: nat)
    ensures (n * 4 + TypedPadding(n, 4)) % 8 == 0
  {
    ModEight(n / 8 * 4, n % 8 * 4);
    FillsWord(n * 4, n % 8 * 4);
  }

  lemma PaddingFills8(n: nat)
    ensures (n * 8 + TypedPadding(n, 8)) % 8 == 0
  {
    ModEight(n, 0);
    ModEight(n % 8, 0);
    FillsWord(n * 8, n % 8 * 8);
  }

  /** For every element size, the padding completes the last word of the whole elements among `byteLength` bytes. */
  lemma TypedPaddingFills(byteLength: nat, size: nat)
    requires size in {1, 2, 4, 8}
    ensures (byteLength - byteLength % size + TypedPadding(byteLength / size, size)) % 8 == 0
  {
    if size == 1 {
      PaddingFills1(byteLength);
    } else if size == 2 {
      PaddingFills2(byteLength / 2);
      assert byteLength / 2 * 2 == byteLength - byteLength % 2;
    } else if size == 4 {
      PaddingFills4(byteLength / 4);
      assert byteLength / 4 * 4 == byteLength - byteLength % 4;
    } else {
      PaddingFills8(byteLength / 8);
      assert byteLength / 8 * 8 == byteLength - byteLength % 8;
    }
  }

  /** So a typed array's bytes and padding are whole words and its ragged end. */
  lemma BufferWords(byteLength: nat, size: nat) returns (words: nat)
    requires size in {1, 2, 4, 8}
    ensures byteLength + TypedPadding(byteLength / size, size) == 8 * words + byteLength % size
  {
    TypedPaddingFills(byteLength, size);
    words := (byteLength - byteLength % size + TypedPadding(byteLength / size, size)) / 8;
  }

  lemma StringWords(n: nat) returns (words: nat)
    ensures n + Padding(n) == 8 * words
  {
    words := if n % 8 > 0 then n / 8 + 1 else n / 8;
  }

  // ----- the way from where a value starts to where it ends

  /** Whole words and `extra` bytes lie between `a` and `b`, unless the input ends at `b`. */
  ghost predicate Apart(d: Text, a: nat, b: nat, words: nat, extra: nat) {
    b == a + 8 * words + extra || b == |d|
  }

  lemma StringApart(c: Codec, d: Text, at: nat, data: nat) returns (words: nat)
    requires at <= |d|
    ensures var r := ReadString(c, d, at, data); r.Ok? ==> Apart(d, at, r.at, words, 0)
  {
    words := StringWords(StringBytes(data));
  }

  lemma RegexpApart(c: Codec, d: Text, at: nat, flags: nat) returns (words: nat)
    requires at <= |d|
    ensures var r := ReadRegexp(c, d, at, flags); r.Ok? ==> Apart(d, at, r.at, words, 0)
  {
    words := 0;
    var pair := NextPair(d, at);
    if pair.Ok? {
      words := StringApart(c, d, pair.at, pair.value.data);
      words := words + 1;
    }
  }

  lemma TypedApart(c: Codec, d: Text, at: nat, item: Pair) returns (words: nat)
    requires at <= |d| && item.tag == TypedArrayTag
    ensures var r := ReadTypedArray(c, d, at, item.data); r.Ok? ==> Apart(d, at, r.at, words, ExtraOf(d, at, item))
  {
    words := 0;
    var r := ReadTypedArray(c, d, at, item.data);
    if r.Ok? {
      var header := HeaderApart(d, at);
      var lengths := ReadTypedHeader(d, at);
      var buffer := BufferWords(lengths.value.1, ElementSize(item.data));
      words := header + buffer + 1;
    }
  }

  lemma HeaderApart(d: Text, at: nat) returns (words: nat)
    requires at <= |d|
    ensures var r := ReadTypedHeader(d, at); r.Ok? ==> r.at == at + 8 * words
  {
    var r := ReadTypedHeader(d, at);
    words := if r.Ok? && r.at == at + 24 then 3 else 4;
  }

  /** Strings, dates, regexps and numbers bring no extra bytes, a BigInt its digits, a typed array its ragged end. */
  lemma ExtraOfScalar(c: Codec, d: Text, at: nat, item: Pair) returns (words: nat)
    requires 8 <= at <= |d|
    ensures var r := ReadScalar(c, d, at, item); r.Ok? ==> Apart(d, at, r.at, words, ExtraOf(d, at, item))
  {
    if item.tag == TypedArrayTag {
      words := TypedApart(c, d, at, item);
    } else if item.tag == StringTag || item.tag == StringObjectTag {
      words := StringApart(c, d, at, item.data);
    } else if item.tag == RegexpTag {
      words := RegexpApart(c, d, at, item.data);
    } else if item.tag == NumberObjectTag || item.tag == DateTag {
      words := 1;
    } else {
      words := 0;
    }
  }

  lemma {:induction false} NextApart(c: Codec, d: Text, at: nat, item: Pair) returns (words: nat)
    requires 8 <= at <= |d|
    ensures var r := ReadNext(c, d, at, item); r.Ok? ==> Apart(d, at, r.at, words, ExtraOfNext(c, d, at, item))
    decreases |d| - at, 1
  {
    if item.tag == ObjectTag {
      words := ObjectApart(c, d, at, map[]);
    } else if item.tag == ArrayTag {
      words := ItemsApart(c, d, at, seq(item.data, _ => None));
    } else if item.tag == MapTag {
      words := MapApart(c, d, at, map[]);
    } else if item.tag == SetTag {
      words := SetApart(c, d, at, {});
    } else if item.tag == ErrorTag {
      words := ErrorApart(c, d, at, []);
    } else {
      words := ExtraOfScalar(c, d, at, item);
      if item.tag == NullTag || item.tag == UndefinedTag {
        words := 0;
      }
    }
  }

  lemma {:induction false} ObjectApart(c: Codec, d: Text, at: nat, acc: map<Text, Text>) returns (words: nat)
    requires at <= |d|
    ensures var r := ReadObject(c, d, at, acc); r.Ok? ==> r.at == at + 8 * words + ExtraOfObject(c, d, at)
    decreases |d| - at, 0
  {
    words := 1;
    if ReadObject(c, d, at, acc).Ok? {
      var (key, at1) := NextPair(d, at).Extract();
      if key.tag != EndOfKeysTag {
        var nameWords := StringApart(c, d, at1, key.data);
        var (name, at2) := ReadString(c, d, at1, key.data).Extract();
        var (item, at3) := NextPair(d, at2).Extract();
        var valueWords := NextApart(c, d, at3, item);
        var (value, at4) := ReadNext(c, d, at3, item).Extract();
        assert ReadObject(c, d, at4, acc[name := value.text]).Ok?;
        assert NextPair(d, at4).Ok?;
        var more := ObjectApart(c, d, at4, acc[name := value.text]);
        words := 2 + nameWords + valueWords + more;
      }
    }
  }

  lemma {:induction false} ItemsApart(c: Codec, d: Text, at: nat, acc: seq<Option<Text>>) returns (words: nat)
    requires at <= |d|
    ensures var r := ReadItems(c, d, at, acc); r.Ok? ==> r.at == at + 8 * words + ExtraOfItems(c, d, at)
    decreases |d| - at, 0
  {
    words := 1;
    if ReadItems(c, d, at, acc).Ok? {
      var (index, at1) := NextPair(d, at).Extract();
      if index.tag != EndOfKeysTag {
        var (item, at2) := NextPair(d, at1).Extract();
        var valueWords := NextApart(c, d, at2, item);
        var (value, at3) := ReadNext(c, d, at2, item).Extract();
        assert ReadItems(c, d, at3, acc[index.data := Some(value.text)]).Ok?;
        assert NextPair(d, at3).Ok?;
        var more := ItemsApart(c, d, at3, acc[index.data := Some(value.text)]);
        words := 2 + valueWords + more;
      }
    }
  }

  lemma {:induction false} MapApart(c: Codec, d: Text, at: nat, acc: map<Text, Text>) returns (words: nat)
    requires at <= |d|
    ensures var r := ReadMap(c, d, at, acc); r.Ok? ==> r.at == at + 8 * words + ExtraOfMap(c, d, at)
    decreases |d| - at, 0
  {
    words := 1;
    if ReadMap(c, d, at, acc).Ok? {
      var (key, at1) := NextPair(d, at).Extract();
      if key.tag != EndOfKeysTag {
        var (item, at2) := NextPair(d, at1).Extract();
        var keyWords := NextApart(c, d, at2, key);
        var (name, at3) := ReadNext(c, d, at2, key).Extract();
        var valueWords := NextApart(c, d, at3, item);
        var (value, at4) := ReadNext(c, d, at3, item).Extract();
        assert ReadMap(c, d, at4, acc[name.text := value.text]).Ok?;
        assert NextPair(d, at4).Ok?;
        var more := MapApart(c, d, at4, acc[name.text := value.text]);
        words := 2 + keyWords + valueWords + more;
      }
    }
  }

  lemma {:induction false} SetApart(c: Codec, d: Text, at: nat, acc: set<Text>) returns (words: nat)
    requires at <= |d|
    ensures var r := ReadSet(c, d, at, acc); r.Ok? ==> r.at == at + 8 * words + ExtraOfSet(c, d, at)
    decreases |d| - at, 0
  {
    words := 1;
    if ReadSet(c, d, at, acc).Ok? {
      var (key, at1) := NextPair(d, at).Extract();
      if key.tag != EndOfKeysTag {
        var valueWords := NextApart(c, d, at1, key);
        var (value, at2) := ReadNext(c, d, at1, key).Extract();
        assert ReadSet(c, d, at2, acc + {value.text}).Ok?;
        assert NextPair(d, at2).Ok?;
        var more := SetApart(c, d, at2, acc + {value.text});
        words := 1 + valueWords + more;
      }
    }
  }

  lemma {:induction false} ErrorApart(c: Codec, d: Text, at: nat, acc: seq<(Text, Text)>) returns (words: nat)
    requires at <= |d|
    ensures var r := ReadError(c, d, at, acc); r.Ok? ==> Apart(d, at, r.at, words, ExtraOfError(c, d, at))
    decreases |d| - at, 0
  {
    words := 1;
    var prop := NextPair(d, at);
    if prop.Ok? && prop.value.tag != EndOfKeysTag {
      if prop.value.tag != StringTag {
        words := SkippedApart(c, d, prop.at, acc);
        words := 1 + words;
      } else {
        var name := ReadString(c, d, prop.at, prop.value.data);
        if name.Ok? && NextPair(d, name.at).Ok? {
          var nameWords := StringApart(c, d, prop.at, prop.value.data);
          words := PropertyApart(c, d, name.at, acc, name.value);
          words := 1 + nameWords + words;
        }
      }
    }
  }

  /** The value of a named property, and what follows it. */
  lemma {:induction false} PropertyApart(c: Codec, d: Text, at: nat, acc: seq<(Text, Text)>, key: Text) returns (words: nat)
    requires at <= |d| && NextPair(d, at).Ok?
    ensures var item := NextPair(d, at);
      var value := ReadNext(c, d, item.at, item.value);
      if value.Err? then
        var r := ReadError(c, d, value.at, acc);
        r.Ok? ==> Apart(d, at, r.at, words, value.at - item.at + ExtraOfError(c, d, value.at))
      else if value.value.isNil then
        var r := ReadError(c, d, value.at, acc);
        r.Ok? ==> Apart(d, at, r.at, words, ExtraOfNext(c, d, item.at, item.value) + ExtraOfError(c, d, value.at))
      else
        var r := SkipProperty(c, d, value.at, acc + [(key, value.value.text)]);
        r.Ok? ==> Apart(d, at, r.at, words, ExtraOfNext(c, d, item.at, item.value) + ExtraOfSkipped(c, d, value.at))
    decreases |d| - at, 0
  {
    var item := NextPair(d, at);
    var value := ReadNext(c, d, item.at, item.value);
    if value.Err? {
      words := ErrorApart(c, d, value.at, acc);
      words := 1 + words;
    } else {
      var valueWords := NextApart(c, d, item.at, item.value);
      if value.value.isNil {
        words := ErrorApart(c, d, value.at, acc);
      } else {
        words := SkippedApart(c, d, value.at, acc + [(key, value.value.text)]);
      }
      words := 1 + valueWords + words;
    }
  }

  lemma {:induction false} SkippedApart(c: Codec, d: Text, at: nat, acc: seq<(Text, Text)>) returns (words: nat)
    requires at <= |d|
    ensures var r := SkipProperty(c, d, at, acc); r.Ok? ==> Apart(d, at, r.at, words, ExtraOfSkipped(c, d, at))
    decreases |d| - at, 0
  {
    words := 0;
    var item := NextPair(d, at);
    if item.Ok? {
      var value := ReadNext(c, d, item.at, item.value);
      var more := ErrorApart(c, d, value.at, acc);
      words := 1 + more;
      if value.Ok? {
        var valueWords := NextApart(c, d, item.at, item.value);
        words := words + valueWords;
      }
    }
  }

  lemma ModEightOf(at: nat, words: nat, extra: nat)
    ensures (at + 8 * words + extra) % 8 == (at + extra) % 8
  {
    ModEight(words, at + extra);
  }

  /** A value read from anywhere ends at the end of the input, or off the words it started on by exactly its extra bytes. */
  lemma AlignmentIsTheExtraBytes(c: Codec, d: Text, at: nat, item: Pair)
    requires 8 <= at <= |d|
    ensures var r := ReadNext(c, d, at, item);
      r.Ok? && r.at != |d| ==> r.at % 8 == (at + ExtraOfNext(c, d, at, item)) % 8
  {
    var words := NextApart(c, d, at, item);
    ModEightOf(at, words, ExtraOfNext(c, d, at, item));
  }

  /** So one that starts on the grid ends on it exactly when its extra bytes make whole words. */
  lemma WholeValuesStayAligned(c: Codec, d: Text, at: nat, item: Pair)
    requires 8 <= at <= |d| && at % 8 == 0
    ensures var r := ReadNext(c, d, at, item);
      r.Ok? && r.at != |d| ==> (r.at % 8 == 0 <==> ExtraOfNext(c, d, at, item) % 8 == 0)
  {
    AlignmentIsTheExtraBytes(c, d, at, item);
    ModEightOf(0, at / 8, ExtraOfNext(c, d, at, item));
  }

  /** So does a document, which always ends with a word of its own. */
  lemma WholeDocumentsStayAligned(c: Codec, d: Text)
    ensures var r := ReadDocument(c, d); r.Ok? ==> |d| >= 16 && r.at % 8 == ExtraOfObject(c, d, 16) % 8
  {
    if ReadDocument(c, d).Ok? {
      var words := ObjectApart(c, d, 16, map[]);
      ModEightOf(0, words + 2, ExtraOfObject(c, d, 16));
    }
  }

  // ----- doubles in maps

  function Word(d: Text, p: nat): Text
    requires p + 8 <= |d|
  {
    d[p..][..8]
  }

  function WordPair(d: Text, p: nat): Pair
    requires p + 8 <= |d|
  {
    Pair(Get(Word(d, p)[4..], 4), Get(Word(d, p), 4))
  }

  predicate IsDouble(item: Pair) {
    item.tag < FloatMax
  }

  /** All of the value is in its pair. */
  predicate NoContents(item: Pair) {
    || item.tag in {NullTag, UndefinedTag, BooleanTag, BooleanObjectTag, Int32Tag, BackReferenceTag}
    || IsDouble(item)
    || (item.tag in {StringTag, StringObjectTag, BigIntTag, BigIntObjectTag} && item.data in {0, AsciiFlag})
  }

  lemma ContainerHasContents(c: Codec, d: Text, at: nat, item: Pair)
    requires 8 <= at <= |d| && IsContainer(item.tag)
    ensures var r := ReadContainer(c, d, at, item); r.Ok? ==> r.at > at
  {
  }

  lemma NoContentsExactly(c: Codec, d: Text, at: nat, item: Pair)
    requires 8 <= at <= |d|
    ensures var r := ReadNext(c, d, at, item); r.Ok? ==> (r.at == at <==> NoContents(item))
  {
    if IsContainer(item.tag) {
      ContainerHasContents(c, d, at, item);
    }
  }

  /**
   * The entry of a map at `p`: both pairs come first, so a double is read again from the wrong word. As
   * a key it is rendered from the value's pair; as a value, from the last word of the key's contents,
   * which is its own word exactly when the key has none.
   */
  lemma DoubleInMap(c: Codec, d: Text, p: nat)
    requires p + 16 <= |d|
    ensures IsDouble(WordPair(d, p)) ==>
      ReadNext(c, d, p + 16, WordPair(d, p)) == Ok(Value(c.formatDouble(Word(d, p + 8)), false), p + 16)
    ensures var name := ReadNext(c, d, p + 16, WordPair(d, p));
      name.Ok? && IsDouble(WordPair(d, p + 8)) ==>
        && ReadNext(c, d, name.at, WordPair(d, p + 8)) == Ok(Value(c.formatDouble(Word(d, name.at - 8)), false), name.at)
        && (name.at - 8 == p + 8 <==> NoContents(WordPair(d, p)))
  {
    NoContentsExactly(c, d, p + 16, WordPair(d, p));
  }

  /** Every double of the entry is rendered from the word it is stored in. */
  predicate FromOwnWords(c: Codec, d: Text, p: nat)
    requires p + 16 <= |d|
  {
    var name := ReadNext(c, d, p + 16, WordPair(d, p));
    && (IsDouble(WordPair(d, p)) ==> name.at - 8 == p)
    && (name.Ok? && IsDouble(WordPair(d, p + 8)) ==> name.at - 8 == p + 8)
  }

  /** That is so exactly when the key is no double and, if the value is one, has no contents. */
  lemma EntryFromOwnWords(c: Codec, d: Text, p: nat)
    requires p + 16 <= |d| && ReadNext(c, d, p + 16, WordPair(d, p)).Ok?
    ensures FromOwnWords(c, d, p)
       <==> !IsDouble(WordPair(d, p)) && (IsDouble(WordPair(d, p + 8)) ==> NoContents(WordPair(d, p)))
  {
    DoubleInMap(c, d, p);
  }

  lemma EightCharacters(c: Codec, d: Text, at: nat, data: nat)
    requires at + 8 <= |d| && data == AsciiFlag + 8
    ensures ReadString(c, d, at, data) == Ok(d[at..][..8], at + 8)
  {
  }

  /** For one: a double behind an eight-character string key is rendered from the characters of the key. */
  lemma DoubleAfterStringKey(c: Codec, d: Text, p: nat)
    requires p + 24 <= |d|
    requires WordPair(d, p) == Pair(StringTag, AsciiFlag + 8) && IsDouble(WordPair(d, p + 8))
    ensures var name := ReadNext(c, d, p + 16, WordPair(d, p));
      && name.Ok? && name.value.text == Word(d, p + 16)
      && ReadNext(c, d, name.at, WordPair(d, p + 8)).value.text == c.formatDouble(name.value.text)
  {
    EightCharacters(c, d, p + 16, AsciiFlag + 8);
    DoubleInMap(c, d, p);
  }
}
