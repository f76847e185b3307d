/**
 * Bytes and the cursor over them that every binary reader shares.
 *
 * `Get`/`Put` give fixed-width little-endian integers as functions on byte strings; `Put` prepends
 * to what follows, so that encoders compose without re-associating concatenations. `Reader` is the
 * mutable cursor (Go's bytes.Reader) the readers move.
 */
module Bytes {
  type byte = b: int | 0 <= b < 256
  type Text = seq<byte>

  datatype Option<+T> = None | Some(value: T)

  function Pow256(w: nat): (n: nat)
    ensures n > 0
  {
    if w == 0 then 1 else 256 * Pow256(w - 1)
  }

  lemma Pow256Values()
    ensures Pow256(1) == 0x100
    ensures Pow256(2) == 0x1_0000
    ensures Pow256(4) == 0x1_0000_0000
    ensures Pow256(8) == 0x1_0000_0000_0000_0000
  {
    assert Pow256(3) == 256 * Pow256(2);
    assert Pow256(5) == 256 * Pow256(4);
    assert Pow256(6) == 256 * Pow256(5);
    assert Pow256(7) == 256 * Pow256(6);
  }

  function Zeros(n: nat): (t: Text)
    ensures |t| == n
  {
    seq(n, _ => 0)
  }

  /** The bytes of a text of single-byte characters. */
  function Ascii(s: string): (t: Text)
    ensures |t| == |s|
  {
    seq(|s|, i requires 0 <= i < |s| => if s[i] as int < 256 then s[i] as int else 0)
  }

  /** The little-endian integer in the first `w` bytes of `s`. */
  function Get(s: Text, w: nat): (n: nat)
    requires w <= |s|
    decreases w, s
  {
    if w == 0 then 0 else s[0] + 256 * Get(s[1..], w - 1)
  }

  /** `n` as `w` little-endian bytes, followed by `rest`. */
  function Put(n: nat, w: nat, rest: Text): (s: Text)
    ensures |s| == w + |rest|
    decreases w, n, rest
  {
    if w == 0 then rest else [n % 256] + Put(n / 256, w - 1, rest)
  }

  lemma {:induction false} GetPut(n: nat, w: nat, rest: Text)
    requires n < Pow256(w)
    ensures Get(Put(n, w, rest), w) == n
    ensures Put(n, w, rest)[w..] == rest
    decreases w
  {
    if w > 0 {
      GetPut(n / 256, w - 1, rest);
      var s := Put(n, w, rest);
      assert s[1..] == Put(n / 256, w - 1, rest);
      assert s[w..] == s[1..][w - 1..];
    }
  }

  lemma {:induction false} PutGet(s: Text, w: nat)
    requires w <= |s|
    ensures Get(s, w) < Pow256(w)
    ensures Put(Get(s, w), w, s[w..]) == s
    decreases w
  {
    if w > 0 {
      PutGet(s[1..], w - 1);
      assert s[w..] == s[1..][w - 1..];
      assert Get(s, w) % 256 == s[0] && Get(s, w) / 256 == Get(s[1..], w - 1);
      assert s == [s[0]] + s[1..];
    }
  }

  /** Printing before `rest` is printing before nothing, then `rest`. */
  lemma {:induction false} PutAppend(n: nat, w: nat, rest: Text, more: Text)
    ensures Put(n, w, rest + more) == Put(n, w, rest) + more
    decreases w
  {
    if w > 0 {
      PutAppend(n / 256, w - 1, rest, more);
      var tail := Put(n / 256, w - 1, rest);
      assert [n % 256] + (tail + more) == ([n % 256] + tail) + more;
    }
  }

  /** A cursor over an immutable byte string. */
  class Reader {
    const src: Text
    var i: nat

    ghost predicate Valid()
      reads this
    {
      i <= |src|
    }

    ghost function Rest(): (r: Text)
      requires Valid()
      reads this
    {
      src[i..]
    }

    constructor (src: Text)
      ensures Valid() && i == 0 && this.src == src && Rest() == src
    {
      this.src := src;
      i := 0;
    }

    method ReadByte() returns (r: Option<byte>)
      requires Valid()
      modifies this
      ensures Valid()
      ensures r.None? <==> old(Rest()) == []
      ensures r.None? ==> i == old(i)
      ensures r.Some? ==> i == old(i) + 1 && r.value == old(Rest())[0] && Rest() == old(Rest())[1..]
    {
      if i == |src| {
        return None;
      }
      r := Some(src[i]);
      i := i + 1;
    }

    method UnreadByte() returns (ok: bool)
      requires Valid()
      modifies this
      ensures Valid()
      ensures ok <==> old(i) > 0
      ensures i == if ok then old(i) - 1 else old(i)
      ensures ok ==> Rest() == [src[i]] + old(Rest())
    {
      ok := i > 0;
      if ok {
        i := i - 1;
      }
    }

    /** Fills a buffer of exactly `n` bytes, one byte at a time; fails when the input is shorter. */
    method ReadFull(n: nat) returns (r: Option<Text>)
      requires Valid()
      modifies this
      ensures Valid()
      ensures r.Some? <==> n <= |old(Rest())|
      ensures r.Some? ==> r.value == old(Rest())[..n] && Rest() == old(Rest())[n..] && i == old(i) + n
      ensures r.None? ==> Rest() == []
    {
      var buffer: Text := [];
      while |buffer| < n
        invariant Valid() && i == old(i) + |buffer|
        invariant |buffer| <= n
        invariant buffer == src[old(i)..i]
      {
        var b := ReadByte();
        if b.None? {
          return None;
        }
        buffer := buffer + [b.value];
      }
      r := Some(buffer);
    }

    /**
     * Read into a buffer of `n` bytes: fails at the end of the input, even when `n` is zero, and
     * otherwise fills as much of the buffer as there is input for.
     */
    method Read(n: nat) returns (r: Option<Text>)
      requires Valid()
      modifies this
      ensures Valid()
      ensures r.Some? <==> old(Rest()) != []
      ensures r.Some? ==>
        var k := if |old(Rest())| < n then |old(Rest())| else n;
        r.value == old(Rest())[..k] + Zeros(n - k) && Rest() == old(Rest())[k..]
    {
      if i == |src| {
        return None;
      }
      var k := if |src| - i < n then |src| - i else n;
      r := Some(src[i..i + k] + Zeros(n - k));
      i := i + k;
    }

    /** binary.Read of an unsigned integer of `w` bytes. */
    method ReadUint(w: nat) returns (r: Option<nat>)
      requires Valid()
      modifies this
      ensures Valid()
      ensures r.Some? <==> w <= |old(Rest())|
      ensures r.Some? ==> r.value == Get(old(Rest()), w) && Rest() == old(Rest())[w..] && i == old(i) + w
      ensures r.None? ==> Rest() == []
    {
      var raw := ReadFull(w);
      if raw.None? {
        return None;
      }
      GetPrefix(old(Rest()), w);
      r := Some(Get(raw.value, w));
    }
  }

  lemma {:induction false} GetPrefix(s: Text, w: nat)
    requires w <= |s|
    ensures Get(s[..w], w) == Get(s, w)
    decreases w
  {
    if w > 0 {
      GetPrefix(s[1..], w - 1);
      assert s[..w][1..] == s[1..][..w - 1];
    }
  }
}
