/**
 * Base-128 varints as Go's encoding/binary writes and reads them: at most ten bytes, at most 64 bits,
 * and zigzag for signed values.
 */
module Varint {
  import opened Bytes

  /** `x` as a varint, followed by `rest`. */
  function PutUvarint(x: nat, rest: Text): (s: Text)
    ensures |s| > |rest|
    decreases x, rest
  {
    if x < 128 then [x] + rest else [128 + x % 128] + PutUvarint(x / 128, rest)
  }

  /** What a reader of varints consumed and, unless it failed, the value. */
  datatype Uvarint = Uvarint(value: Option<nat>, rest: Text)

  /**
   * The loop of ReadUvarint with `i` bytes read, `x` collected so far and the next digit worth `unit`.
   * Running out of input fails where the input ends; an eleventh byte is never looked at.
   */
  function ReadDigits(s: Text, i: nat, x: nat, unit: nat): (r: Uvarint)
    requires i <= 10
    ensures |r.rest| <= |s|
    ensures r.value.Some? ==> |r.rest| < |s|
    decreases 10 - i, s
  {
    if i == 10 || s == [] then Uvarint(None, s)
    else if s[0] >= 128 then ReadDigits(s[1..], i + 1, x + (s[0] - 128) * unit, unit * 128)
    else if i == 9 && s[0] > 1 then Uvarint(None, s[1..])
    else Uvarint(Some(x + s[0] * unit), s[1..])
  }

  function ReadUvarint(s: Text): (r: Uvarint)
    ensures |r.rest| <= |s|
    ensures r.value.Some? ==> |r.rest| < |s|
  {
    ReadDigits(s, 0, 0, 1)
  }

  /** Zigzag: even codes are the naturals, odd codes the negatives. */
  function ZigZag(n: int): (code: nat) {
    if n >= 0 then 2 * n else -2 * n - 1
  }

  function UnZigZag(code: nat): (n: int)
    ensures ZigZag(n) == code
  {
    if code % 2 == 0 then code / 2 else -(code / 2) - 1
  }

  /** Go's int(x) of an unsigned 64-bit value. */
  function ToInt64(x: nat): int {
    if x < 0x8000_0000_0000_0000 then x else x - 0x1_0000_0000_0000_0000
  }

  /** The values that fit in the digits after the first `i`: 2^(64 - 7i). */
  function Room(i: nat): (n: nat)
    requires i <= 9
    decreases 9 - i, i
  {
    if i == 9 then 2 else 128 * Room(i + 1)
  }

  lemma RoomForUint64()
    ensures Room(0) == 0x1_0000_0000_0000_0000
  {
    assert Room(8) == 128 * Room(9);
    assert Room(6) == 128 * Room(7);
    assert Room(4) == 128 * Room(5);
    assert Room(2) == 128 * Room(3);
  }

  lemma DigitSum(digit: nat, higher: nat, unit: nat)
    ensures digit * unit + higher * (unit * 128) == (digit + 128 * higher) * unit
  {}

  lemma {:induction false} DigitsBack(v: nat, rest: Text, i: nat, x: nat, unit: nat)
    requires i <= 9 && v < Room(i)
    ensures ReadDigits(PutUvarint(v, rest), i, x, unit) == Uvarint(Some(x + v * unit), rest)
    decreases 9 - i
  {
    var s := PutUvarint(v, rest);
    if v < 128 {
      assert s[1..] == rest;
    } else {
      assert s[1..] == PutUvarint(v / 128, rest);
      DigitsBack(v / 128, rest, i + 1, x + (v % 128) * unit, unit * 128);
      DigitSum(v % 128, v / 128, unit);
    }
  }

  /** Reading back what was written, for every 64-bit value and whatever follows. */
  lemma UvarintBack(v: nat, rest: Text)
    requires v < 0x1_0000_0000_0000_0000
    ensures ReadUvarint(PutUvarint(v, rest)) == Uvarint(Some(v), rest)
  {
    RoomForUint64();
    DigitsBack(v, rest, 0, 0, 1);
  }

  /** No varint is a prefix of another: two that start the same input are the same. */
  lemma {:induction false} PrefixFree(a: nat, ra: Text, b: nat, rb: Text)
    requires PutUvarint(a, ra) == PutUvarint(b, rb)
    ensures a == b && ra == rb
    decreases a
  {
    var s, t := PutUvarint(a, ra), PutUvarint(b, rb);
    assert s[0] == t[0] && s[1..] == t[1..];
    if a < 128 {
      assert b < 128 && s[1..] == ra && t[1..] == rb;
    } else {
      assert b >= 128;
      assert s[1..] == PutUvarint(a / 128, ra) && t[1..] == PutUvarint(b / 128, rb);
      PrefixFree(a / 128, ra, b / 128, rb);
    }
  }

  lemma {:induction false} UvarintAppend(x: nat, rest: Text, more: Text)
    ensures PutUvarint(x, rest + more) == PutUvarint(x, rest) + more
    decreases x
  {
    if x < 128 {
      assert [x] + (rest + more) == ([x] + rest) + more;
    } else {
      UvarintAppend(x / 128, rest, more);
      var tail := PutUvarint(x / 128, rest);
      assert [128 + x % 128] + (tail + more) == ([128 + x % 128] + tail) + more;
    }
  }

  /** ReadUvarint as a loop over the reader. */
  method ReadUvarintFrom(reader: Reader) returns (r: Option<nat>)
    requires reader.Valid()
    modifies reader
    ensures reader.Valid()
    ensures ReadUvarint(old(reader.Rest())) == Uvarint(r, reader.Rest())
  {
    var x: nat, unit: nat := 0, 1;
    for i := 0 to 10
      invariant reader.Valid()
      invariant ReadDigits(reader.Rest(), i, x, unit) == ReadUvarint(old(reader.Rest()))
    {
      ghost var before := reader.Rest();
      var b := reader.ReadByte();
      if b.None? {
        return None;
      }
      assert reader.Rest() == before[1..];
      if b.value < 128 {
        if i == 9 && b.value > 1 {
          return None;
        }
        return Some(x + b.value * unit);
      }
      x := x + (b.value - 128) * unit;
      unit := unit * 128;
    }
    return None;
  }

  method ReadVarintFrom(reader: Reader) returns (r: Option<int>)
    requires reader.Valid()
    modifies reader
    ensures reader.Valid()
    ensures var u := ReadUvarint(old(reader.Rest()));
      && reader.Rest() == u.rest
      && r == if u.value.None? then None else Some(UnZigZag(u.value.value))
  {
    var u := ReadUvarintFrom(reader);
    r := if u.None? then None else Some(UnZigZag(u.value));
  }
}
