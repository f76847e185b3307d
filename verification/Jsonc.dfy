/**
 * JSON with comments made into JSON (ee/dataflatten/jsonc.go): comments are dropped and trailing
 * commas become spaces, in one pass that looks back over its own output. The reference here works
 * forward: an automaton follows strings and escapes and tags every byte, and a comma is trailing when
 * the next byte after it that is not white space closes a bracket. The two agree on every input
 * without the five things the one pass mistakes: a block comment that ends in an even number of stars;
 * one with a string, with a comment, or with a slash that ends the input, right after it; and a quote
 * outside strings behind an odd number of backslashes. Each is shown.
 */
module Jsonc {
  import opened Bytes

  const Quote: byte := 0x22
  const Star: byte := 0x2a
  const Comma: byte := 0x2c
  const Slash: byte := 0x2f
  const Backslash: byte := 0x5c
  const Space: byte := 0x20

  predicate IsNewline(b: byte) {
    b == 0x0a || b == 0x0d
  }

  predicate IsWhite(b: byte) {
    b == Space || b == 0x0d || b == 0x0a || b == 0x09
  }

  predicate IsCloser(b: byte) {
    b == 0x5d || b == 0x7d
  }

  // ----- the one pass

  /** The backslashes `out` ends with. */
  function Slashes(out: seq<byte>): nat {
    if out == [] || out[|out| - 1] != Backslash then 0 else 1 + Slashes(out[..|out| - 1])
  }

  /** What follows a line comment, from the end of the line. */
  function AfterLine(s: seq<byte>): (r: seq<byte>)
    ensures |r| <= |s|
  {
    if s == [] || IsNewline(s[0]) then s else AfterLine(s[1..])
  }

  /** What the one pass takes to follow a block comment: the byte after a star is not looked at as a star. */
  function SkipBlock(s: seq<byte>): (r: Option<seq<byte>>)
    ensures r.Some? ==> |r.value| + 2 <= |s|
    decreases |s|
  {
    if s == [] then None
    else if s[0] != Star then SkipBlock(s[1..])
    else if |s| == 1 then None
    else if s[1] == Slash then Some(s[2..])
    else SkipBlock(s[2..])
  }

  /** Blanks a comma that is the last byte of `out` but for white space. */
  function BlankLast(out: seq<byte>): (r: seq<byte>)
    ensures |r| == |out|
  {
    if out == [] then []
    else
      var n := |out| - 1;
      if IsWhite(out[n]) then BlankLast(out[..n]) + [out[n]]
      else if out[n] == Comma then out[..n] + [Space]
      else out
  }

  function Emit(out: seq<byte>, b: byte, inside: bool): seq<byte> {
    (if !inside && IsCloser(b) then BlankLast(out) else out) + [b]
  }

  /** What is left after the byte, or the comment, at the start of `s`, from the byte to be written out; None at an error. */
  function Next(s: seq<byte>, inside: bool): (r: Option<seq<byte>>)
    requires s != []
    ensures r.Some? ==> |r.value| <= |s|
  {
    if inside || s[0] != Slash then Some(s)
    else if |s| == 1 then None
    else if s[1] == Slash then Some(AfterLine(s[2..]))
    else if s[1] == Star then SkipBlock(s[2..])
    else Some(s)
  }

  function Toggled(out: seq<byte>, b: byte, inside: bool): bool {
    if b == Quote && Slashes(out) % 2 == 0 then !inside else inside
  }

  function Scan(s: seq<byte>, out: seq<byte>, inside: bool): Option<seq<byte>>
    decreases |s|
  {
    if s == [] then Some(out)
    else
      var inside := Toggled(out, s[0], inside);
      var next := Next(s, inside);
      if next.None? then None
      else if next.value == [] then Some(out)
      else Scan(next.value[1..], Emit(out, next.value[0], inside), inside)
  }

  // ----- the reference

  /** A byte outside comments; `plain` when it is outside strings too. */
  datatype Tagged = Tagged(b: byte, plain: bool)

  datatype Mode = Plain | InString | Escaped

  function Moved(mode: Mode, b: byte): Mode {
    match mode
    case Plain => if b == Quote then InString else Plain
    case InString => if b == Quote then Plain else if b == Backslash then Escaped else InString
    case Escaped => InString
  }

  function Tag(mode: Mode, b: byte): Tagged {
    Tagged(b, mode.Plain? && b != Quote)
  }

  /** What follows a block comment. */
  function AfterBlock(s: seq<byte>): (r: Option<seq<byte>>)
    ensures r.Some? ==> |r.value| + 2 <= |s|
  {
    if |s| < 2 then None
    else if s[0] == Star && s[1] == Slash then Some(s[2..])
    else AfterBlock(s[1..])
  }

  datatype Piece = Bad | Comment(rest: seq<byte>) | Byte

  /** What `s` starts with. A slash at the very end and a block comment that does not end are errors. */
  function FirstPiece(s: seq<byte>, mode: Mode): (p: Piece)
    requires s != []
    ensures p.Comment? ==> |p.rest| < |s|
  {
    if !mode.Plain? || s[0] != Slash then Byte
    else if |s| == 1 then Bad
    else if s[1] == Slash then Comment(AfterLine(s[2..]))
    else if s[1] == Star then
      var after := AfterBlock(s[2..]);
      if after.Some? then Comment(after.value) else Bad
    else Byte
  }

  /** The bytes of `s` outside comments. */
  function Strip(s: seq<byte>, mode: Mode): Option<seq<Tagged>>
    decreases |s|
  {
    if s == [] then Some([])
    else
      match FirstPiece(s, mode)
      case Bad => None
      case Comment(rest) => Strip(rest, mode)
      case Byte =>
        var more := Strip(s[1..], Moved(mode, s[0]));
        if more.None? then None else Some([Tag(mode, s[0])] + more.value)
  }

  /** The bytes, trailing commas blanked; `closes` when the next byte that is not white space closes a bracket. */
  function Blank(ts: seq<Tagged>, closes: bool): (r: seq<byte>)
    ensures |r| == |ts|
  {
    if ts == [] then []
    else
      var t := ts[|ts| - 1];
      var before := if t.plain && IsWhite(t.b) then closes else t.plain && IsCloser(t.b);
      Blank(ts[..|ts| - 1], before) + [if t.plain && t.b == Comma && closes then Space else t.b]
  }

  /** A comma outside strings, with nothing but white space between it and a closing bracket. */
  predicate TrailingComma(ts: seq<Tagged>, i: nat)
    requires i < |ts|
  {
    ts[i] == Tagged(Comma, true) && ClosesNext(ts, i + 1)
  }

  predicate ClosesNext(ts: seq<Tagged>, i: nat)
    requires i <= |ts|
    decreases |ts| - i
  {
    i < |ts| && ts[i].plain && (IsCloser(ts[i].b) || (IsWhite(ts[i].b) && ClosesNext(ts, i + 1)))
  }

  /** White space up to the end. */
  predicate WhiteFrom(ts: seq<Tagged>, i: nat)
    requires i <= |ts|
    decreases |ts| - i
  {
    i < |ts| ==> ts[i].plain && IsWhite(ts[i].b) && WhiteFrom(ts, i + 1)
  }

  lemma {:induction false} LookBack(ts: seq<Tagged>, i: nat)
    requires i < |ts|
    ensures var n := |ts| - 1; var t := ts[n];
      && (WhiteFrom(ts, i) <==> WhiteFrom(ts[..n], i) && t.plain && IsWhite(t.b))
      && (ClosesNext(ts, i) <==> ClosesNext(ts[..n], i) || (WhiteFrom(ts[..n], i) && t.plain && IsCloser(t.b)))
    decreases |ts| - i
  {
    if i < |ts| - 1 {
      LookBack(ts, i + 1);
    }
  }

  /** Nothing but the trailing commas is changed, and those become spaces. */
  lemma {:induction false} BlankAt(ts: seq<Tagged>, closes: bool, i: nat)
    requires i < |ts|
    ensures Blank(ts, closes)[i]
         == if TrailingComma(ts, i) || (ts[i] == Tagged(Comma, true) && closes && WhiteFrom(ts, i + 1)) then Space else ts[i].b
    decreases |ts|
  {
    var n := |ts| - 1;
    var t := ts[n];
    if i < n {
      BlankAt(ts[..n], if t.plain && IsWhite(t.b) then closes else t.plain && IsCloser(t.b), i);
      LookBack(ts, i + 1);
    }
  }

  function Reference(s: seq<byte>): Option<seq<byte>> {
    var ts := Strip(s, Plain);
    if ts.None? then None else Some(Blank(ts.value, false))
  }

  // ----- where block comments go wrong

  /** The stars before the slash that ends a block comment, `run` of them already seen. */
  function EndStars(s: seq<byte>, run: nat): nat {
    if s == [] then 0
    else if s[0] == Star then EndStars(s[1..], run + 1)
    else if s[0] == Slash && run > 0 then run
    else EndStars(s[1..], 0)
  }

  lemma {:induction false} TwoStarsMore(s: seq<byte>, run: nat)
    requires s == [] || s[0] != Slash || run > 0
    ensures EndStars(s, run + 2) % 2 == EndStars(s, run) % 2
    decreases |s|
  {
    if s != [] && s[0] == Star {
      TwoStarsMore(s[1..], run + 1);
    }
  }

  /** The one pass finds the end of a block comment exactly when an odd number of stars leads up to it. */
  lemma {:induction false} FindsEndExactly(s: seq<byte>)
    requires AfterBlock(s).Some?
    ensures SkipBlock(s) == AfterBlock(s) <==> EndStars(s, 0) % 2 == 1
    decreases |s|
  {
    if s[0] != Star {
      FindsEndExactly(s[1..]);
    } else if s[1] == Slash {
      assert EndStars(s[1..], 1) == 1;
    } else if s[1] != Star {
      assert s[1..][1..] == s[2..];
      FindsEndExactly(s[2..]);
    } else if |s| > 2 && s[2] == Slash {
      assert AfterBlock(s[1..]) == Some(s[1..][2..]);
      assert s[1..][1..] == s[2..];
      assert EndStars(s, 0) == EndStars(s[2..], 2) == 2;
    } else {
      assert s[1..][1..] == s[2..];
      FindsEndExactly(s[2..]);
      TwoStarsMore(s[2..], 0);
    }
  }

  /**
   * Every block comment ends with an odd number of stars, and neither a string nor a comment (nor a
   * slash at the very end) comes right after it; and no quote that opens a string is behind an odd
   * number of backslashes. `odd` says whether the bytes outside comments so far end in one.
   */
  predicate Clean(s: seq<byte>, mode: Mode, odd: bool)
    decreases |s|
  {
    s == [] ||
    match FirstPiece(s, mode)
    case Bad => true
    case Comment(rest) =>
      && (s[1] == Star ==>
            EndStars(s[2..], 0) % 2 == 1 && (rest != [] ==> rest[0] != Quote && FirstPiece(rest, mode).Byte?))
      && Clean(rest, mode, odd)
    case Byte => !(mode.Plain? && s[0] == Quote && odd) && Clean(s[1..], Moved(mode, s[0]), s[0] == Backslash && !odd)
  }

  /** Input that the reference refuses is refused too. */
  lemma {:induction false} NoEndFound(s: seq<byte>)
    requires AfterBlock(s).None?
    ensures SkipBlock(s).None?
    decreases |s|
  {
    if s != [] && s[0] != Star && |s| > 1 {
      NoEndFound(s[1..]);
    } else if |s| > 1 && s[0] == Star && s[1] != Slash {
      assert AfterBlock(s[1..]).None?;
      if |s| > 2 {
        assert s[1..][1..] == s[2..];
        NoEndFound(s[2..]);
      }
    }
  }

  // ----- the one pass and the reference agree

  /** White space and a comma at the end are outside strings. */
  predicate TailPlain(ts: seq<Tagged>) {
    ts != [] ==>
      var t := ts[|ts| - 1];
      && (IsWhite(t.b) ==> t.plain && TailPlain(ts[..|ts| - 1]))
      && (t.b == Comma ==> t.plain)
  }

  lemma {:induction false} BlankClosing(ts: seq<Tagged>)
    requires TailPlain(ts)
    ensures Blank(ts, true) == BlankLast(Blank(ts, false))
    decreases |ts|
  {
    if ts != [] {
      var n := |ts| - 1;
      var t := ts[n];
      if IsWhite(t.b) {
        BlankClosing(ts[..n]);
        var out := Blank(ts, false);
        assert out[..n] == Blank(ts[..n], false);
      } else {
        var before := t.plain && IsCloser(t.b);
        var out := Blank(ts, false);
        assert out[..n] == Blank(ts[..n], before);
        assert out == out[..n] + [t.b];
      }
    }
  }

  /** What the look back at the output says about the automaton's mode. */
  predicate Agree(ts: seq<Tagged>, out: seq<byte>, mode: Mode, inside: bool, odd: bool) {
    && out == Blank(ts, false)
    && inside == !mode.Plain?
    && (Slashes(out) % 2 == 1 <==> odd)
    && (!mode.Plain? ==> odd == mode.Escaped?)
    && (mode.Plain? ==> TailPlain(ts))
  }

  lemma SlashesAppend(out: seq<byte>, b: byte)
    ensures Slashes(out + [b]) == if b == Backslash then Slashes(out) + 1 else 0
  {
    assert (out + [b])[..|out + [b]| - 1] == out;
  }

  lemma BlankAppend(ts: seq<Tagged>, t: Tagged)
    requires t.plain ==> TailPlain(ts)
    ensures Blank(ts + [t], false) == Emit(Blank(ts, false), t.b, !t.plain)
  {
    assert (ts + [t])[..|ts + [t]| - 1] == ts;
    if t.plain && IsCloser(t.b) {
      BlankClosing(ts);
    }
  }

  /** One byte, written out and followed by the automaton. */
  lemma ByteAgrees(ts: seq<Tagged>, out: seq<byte>, mode: Mode, inside: bool, odd: bool, b: byte)
    requires Agree(ts, out, mode, inside, odd) && !(mode.Plain? && b == Quote && odd)
    ensures var after := Toggled(out, b, inside);
      Agree(ts + [Tag(mode, b)], Emit(out, b, after), Moved(mode, b), after, b == Backslash && !odd)
  {
    var t := Tag(mode, b);
    var after := Toggled(out, b, inside);
    BlankAppend(ts, t);
    assert Emit(out, b, after) == Emit(out, b, !t.plain);
    EmitSlashes(out, b, after);
    assert (ts + [t])[..|ts + [t]| - 1] == ts;
  }

  lemma EmitSlashes(out: seq<byte>, b: byte, inside: bool)
    ensures Slashes(Emit(out, b, inside)) == if b == Backslash then Slashes(out) + 1 else 0
  {
    SlashesAppend(if !inside && IsCloser(b) then BlankLast(out) else out, b);
  }

  /** A byte that ends a comment is written out as it would be by itself. */
  lemma AfterComment(s: seq<byte>, out: seq<byte>)
    requires s != [] && s[0] != Quote && FirstPiece(s, Plain).Byte?
    ensures Scan(s, out, false) == Scan(s[1..], Emit(out, s[0], false), false)
  {
  }

  lemma AfterLineEnds(s: seq<byte>)
    ensures var r := AfterLine(s); r == [] || IsNewline(r[0])
  {
  }

  function Joined(ts: seq<Tagged>, more: Option<seq<Tagged>>): Option<seq<byte>> {
    if more.None? then None else Some(Blank(ts + more.value, false))
  }

  lemma ByteScanned(s: seq<byte>, out: seq<byte>, mode: Mode, inside: bool, odd: bool)
    requires s != [] && FirstPiece(s, mode).Byte? && inside == !mode.Plain?
    requires (Slashes(out) % 2 == 1 <==> odd) && (!mode.Plain? ==> odd == mode.Escaped?)
    requires !(mode.Plain? && s[0] == Quote && odd)
    ensures var after := Toggled(out, s[0], inside);
      Scan(s, out, inside) == Scan(s[1..], Emit(out, s[0], after), after)
  {
    assert Next(s, Toggled(out, s[0], inside)) == Some(s);
  }

  lemma ByteStripped(s: seq<byte>, mode: Mode, ts: seq<Tagged>)
    requires s != [] && FirstPiece(s, mode).Byte?
    ensures Joined(ts, Strip(s, mode)) == Joined(ts + [Tag(mode, s[0])], Strip(s[1..], Moved(mode, s[0])))
  {
    var t, more := Tag(mode, s[0]), Strip(s[1..], Moved(mode, s[0]));
    if more.Some? {
      assert ts + ([t] + more.value) == (ts + [t]) + more.value;
    }
  }

  lemma {:induction false} ScanAgrees(s: seq<byte>, ts: seq<Tagged>, out: seq<byte>, mode: Mode, inside: bool, odd: bool)
    requires Agree(ts, out, mode, inside, odd) && Clean(s, mode, odd)
    ensures Scan(s, out, inside) == Joined(ts, Strip(s, mode))
    decreases |s|
  {
    if s == [] {
      assert ts + [] == ts;
    } else if FirstPiece(s, mode).Byte? {
      ByteAgrees(ts, out, mode, inside, odd, s[0]);
      var t := Tag(mode, s[0]);
      var after := Toggled(out, s[0], inside);
      ByteScanned(s, out, mode, inside, odd);
      ScanAgrees(s[1..], ts + [t], Emit(out, s[0], after), Moved(mode, s[0]), after, s[0] == Backslash && !odd);
      ByteStripped(s, mode, ts);
    } else {
      CommentAgrees(s, out, odd);
      if FirstPiece(s, mode).Comment? {
        ScanAgrees(FirstPiece(s, mode).rest, ts, out, mode, inside, odd);
      }
    }
  }

  lemma CommentAgrees(s: seq<byte>, out: seq<byte>, odd: bool)
    requires s != [] && Clean(s, Plain, odd) && !FirstPiece(s, Plain).Byte?
    ensures Scan(s, out, false) == if FirstPiece(s, Plain).Bad? then None else Scan(FirstPiece(s, Plain).rest, out, false)
  {
    assert s[0] == Slash;
    if |s| > 1 {
      if s[1] == Slash {
        var rest := AfterLine(s[2..]);
        AfterLineEnds(s[2..]);
        if rest != [] {
          AfterComment(rest, out);
        }
      } else {
        assert s[1] == Star;
        if AfterBlock(s[2..]).Some? {
          FindsEndExactly(s[2..]);
          var rest := AfterBlock(s[2..]).value;
          if rest != [] {
            AfterComment(rest, out);
          }
        } else {
          NoEndFound(s[2..]);
        }
      }
    }
  }

  /** On clean input the one pass does what the reference does, errors included. */
  lemma ScanIsReference(s: seq<byte>)
    requires Clean(s, Plain, false)
    ensures Scan(s, [], false) == Reference(s)
  {
    ScanAgrees(s, [], [], Plain, false, false);
    var more := Strip(s, Plain);
    if more.Some? {
      assert [] + more.value == more.value;
    }
  }

  /** A block comment that ends in two stars is taken not to end. */
  lemma TwoStarsMissed(text: seq<byte>)
    requires text == [Slash, Star, Star, Star, Slash]
    ensures Scan(text, [], false) == None && Reference(text) == Some([])
  {
    assert text[2..] == [Star, Star, Slash];
    assert text[2..][1..] == [Star, Slash];
    assert text[2..][2..] == [Slash];
    assert text[2..][1..][2..] == [];
    assert SkipBlock(text[2..][2..]) == None;
    assert AfterBlock(text[2..]) == AfterBlock(text[2..][1..]) == Some([]);
    assert FirstPiece(text, Plain) == Comment([]);
    assert Strip(text, Plain) == Strip([], Plain);
  }

  /** A comment right after a block comment is taken for plain text. */
  lemma CommentAfterCommentKept(text: seq<byte>)
    requires text == [Slash, Star, Star, Slash, Slash, Star, Star, Slash]
    ensures Scan(text, [], false) == None && Reference(text) == Some([])
  {
    assert text[2..][2..] == text[4..];
    assert Next(text, false) == Some(text[4..]) && FirstPiece(text, Plain) == Comment(text[4..]);
    assert text[4..][2..] == [Star, Slash] && [Star, Slash][2..] == [];
    assert FirstPiece(text[4..], Plain) == Comment([]);
    assert Strip(text, Plain) == Strip(text[4..], Plain) == Strip([], Plain);
    assert text[4..][1..] == text[5..] && text[5..][1..] == text[6..] && text[6..][1..] == text[7..];
    assert Scan(text[7..], [Slash, Star, Star], false) == None;
    assert [Slash, Star] + [Star] == [Slash, Star, Star] && [Slash] + [Star] == [Slash, Star] && [] + [Slash] == [Slash];
    assert Scan(text[6..], [Slash, Star], false) == None;
    assert Scan(text[5..], [Slash], false) == None;
  }

  /** A slash that ends the input right after a block comment is kept, where it is an error anywhere else. */
  lemma SlashAfterCommentKept(text: seq<byte>)
    requires text == [Slash, Star, Star, Slash, Slash]
    ensures Scan(text, [], false) == Some([Slash]) && Reference(text) == None
  {
    assert text[2..][2..] == text[4..] && text[4..][1..] == [];
    assert Next(text, false) == Some(text[4..]) && FirstPiece(text, Plain) == Comment(text[4..]);
    assert [] + [Slash] == [Slash];
    assert Scan(text, [], false) == Scan([], [Slash], false);
    assert Strip(text, Plain) == Strip(text[4..], Plain) == None;
  }

  /** A quote behind a backslash outside strings is not taken to open a string, so that what looks like a comment in it is dropped. */
  lemma QuoteAfterBackslashMissed(text: seq<byte>)
    requires text == [Backslash, Quote, Slash, Slash, Quote]
    ensures Scan(text, [], false) == Some([Backslash, Quote]) && Reference(text) == Some(text)
  {
    assert text[1..][1..] == text[2..] && text[2..][2..] == [Quote] && [Quote][1..] == [];
    assert AfterLine([Quote]) == AfterLine([]);
    assert [] + [Backslash] == [Backslash] && [Backslash] + [Quote] == [Backslash, Quote];
    SlashesAppend([], Backslash);
    assert Scan(text[2..], [Backslash, Quote], false) == Some([Backslash, Quote]);
    assert Scan(text[1..], [Backslash], false) == Some([Backslash, Quote]);
    BackslashedStringKept(text);
  }

  lemma BackslashedStringKept(text: seq<byte>)
    requires text == [Backslash, Quote, Slash, Slash, Quote]
    ensures Reference(text) == Some(text)
  {
    assert text[1..][1..] == text[2..];
    var ts := [Tagged(Backslash, true), Tagged(Quote, false), Tagged(Slash, false), Tagged(Slash, false), Tagged(Quote, false)];
    assert text[2..][1..] == text[3..] && text[3..][1..] == text[4..] && text[4..][1..] == [];
    StripByte(text[4..], InString, []);
    assert [ts[4]] + [] == ts[4..];
    StripByte(text[3..], InString, ts[4..]);
    assert [ts[3]] + ts[4..] == ts[3..];
    StripByte(text[2..], InString, ts[3..]);
    assert [ts[2]] + ts[3..] == ts[2..];
    StripByte(text[1..], Plain, ts[2..]);
    assert [ts[1]] + ts[2..] == ts[1..];
    StripByte(text, Plain, ts[1..]);
    assert [ts[0]] + ts[1..] == ts;
    forall i | 0 <= i < 5 ensures Blank(ts, false)[i] == text[i] {
      BlankAt(ts, false, i);
    }
    assert Blank(ts, false) == text;
  }

  /** A comment whose end is missed may end where the next one does, so the condition is not necessary. */
  lemma MissedEndMadeUpFor(text: seq<byte>, x: byte)
    requires x != Star && x != Slash && text == [Slash, Star, Star, Star, Slash, Slash, Star, x, Star, Slash]
    ensures !Clean(text, Plain, false) && Scan(text, [], false) == Reference(text) == Some([])
  {
    var body := text[2..];
    assert body[2..] == text[4..] && text[4..][1..] == text[5..] && text[5..][1..] == text[6..];
    assert text[6..][2..] == text[8..] && text[8..][2..] == [];
    assert SkipBlock(text[4..]) == SkipBlock(text[5..]) == SkipBlock(text[6..]) == SkipBlock(text[8..]) == Some([]);
    assert Next(text, false) == Some([]);
    MissedEndThere(text, x);
  }

  lemma MissedEndThere(text: seq<byte>, x: byte)
    requires x != Star && x != Slash && text == [Slash, Star, Star, Star, Slash, Slash, Star, x, Star, Slash]
    ensures !Clean(text, Plain, false) && Reference(text) == Some([])
  {
    var body := text[2..];
    assert body[1..] == text[3..] && text[3..][1..] == text[4..] && text[3..][2..] == text[5..];
    assert AfterBlock(body) == AfterBlock(text[3..]) == Some(text[5..]);
    assert EndStars(body, 0) == EndStars(text[3..], 1) == EndStars(text[4..], 2) == 2;
    assert text[5..][2..] == text[7..] && text[7..][1..] == text[8..] && text[8..][2..] == [];
    assert AfterBlock(text[7..]) == AfterBlock(text[8..]) == Some([]);
    assert FirstPiece(text[5..], Plain) == Comment([]);
    assert Strip(text, Plain) == Strip(text[5..], Plain) == Strip([], Plain);
  }

  lemma StripByte(s: seq<byte>, mode: Mode, more: seq<Tagged>)
    requires s != [] && FirstPiece(s, mode).Byte? && Strip(s[1..], Moved(mode, s[0])) == Some(more)
    ensures Strip(s, mode) == Some([Tag(mode, s[0])] + more)
  {
  }

  lemma StringKept(text: seq<byte>)
    requires text == [Slash, Star, Star, Slash, Quote, Slash, Slash, Quote]
    ensures Reference(text) == Some(text[4..])
  {
    assert text[2..][2..] == text[4..];
    assert FirstPiece(text, Plain) == Comment(text[4..]);
    assert text[4..][1..] == text[5..] && text[5..][1..] == text[6..] && text[6..][1..] == text[7..] && text[7..][1..] == [];
    var ts := [Tagged(Quote, false), Tagged(Slash, false), Tagged(Slash, false), Tagged(Quote, false)];
    StripByte(text[7..], InString, []);
    assert [ts[3]] + [] == ts[3..];
    StripByte(text[6..], InString, ts[3..]);
    assert [ts[2]] + ts[3..] == ts[2..];
    StripByte(text[5..], InString, ts[2..]);
    assert [ts[1]] + ts[2..] == ts[1..];
    StripByte(text[4..], Plain, ts[1..]);
    assert [ts[0]] + ts[1..] == ts;
    assert Strip(text, Plain) == Some(ts);
    forall i | 0 <= i < 4 ensures Blank(ts, false)[i] == text[4..][i] {
      BlankAt(ts, false, i);
    }
    assert Blank(ts, false) == text[4..];
  }

  /** A string right after a block comment is taken for plain text, so that what looks like a comment in it is dropped. */
  lemma StringAfterCommentCut(text: seq<byte>)
    requires text == [Slash, Star, Star, Slash, Quote, Slash, Slash, Quote]
    ensures Scan(text, [], false) == Some([Quote]) && Reference(text) == Some(text[4..])
  {
    StringKept(text);
    assert text[2..] == [Star, Slash, Quote, Slash, Slash, Quote];
    assert text[2..][2..] == [Quote, Slash, Slash, Quote];
    var rest := text[2..][2..][1..];
    assert rest == [Slash, Slash, Quote];
    assert Next(text, false) == Some([Quote, Slash, Slash, Quote]);
    assert rest[2..] == [Quote];
    assert AfterLine(rest[2..]) == [] by {
      assert rest[2..][1..] == [];
    }
    assert Scan(rest, [Quote], false) == Some([Quote]);
    assert Emit([], Quote, false) == [Quote];
  }

  // ----- the source's loops

  method CountBackslashes(out: array<byte>, k: nat) returns (n: nat)
    requires k <= out.Length
    ensures n == Slashes(out[..k])
  {
    n := 0;
    var i := k;
    while i > 0 && out[i - 1] == Backslash
      invariant 0 <= i <= k
      invariant n + Slashes(out[..i]) == Slashes(out[..k])
    {
      assert out[..i][..i - 1] == out[..i - 1];
      n := n + 1;
      i := i - 1;
    }
  }

  method SkipLineComment(raw: seq<byte>, pos: nat) returns (after: nat)
    requires pos <= |raw|
    ensures pos <= after <= |raw| && raw[after..] == AfterLine(raw[pos..])
  {
    after := pos;
    while after < |raw| && !IsNewline(raw[after])
      invariant pos <= after <= |raw|
      invariant AfterLine(raw[after..]) == AfterLine(raw[pos..])
    {
      after := after + 1;
    }
  }

  method SkipBlockComment(raw: seq<byte>, pos: nat) returns (after: Option<nat>)
    requires pos <= |raw|
    ensures after.None? <==> SkipBlock(raw[pos..]).None?
    ensures after.Some? ==> pos <= after.value <= |raw| && SkipBlock(raw[pos..]) == Some(raw[after.value..])
  {
    var i := pos;
    while i < |raw|
      invariant pos <= i <= |raw|
      invariant SkipBlock(raw[i..]) == SkipBlock(raw[pos..])
    {
      if raw[i] != Star {
        i := i + 1;
        continue;
      }
      if i + 1 == |raw| {
        return None;
      }
      assert raw[i..][2..] == raw[i + 2..];
      if raw[i + 1] == Slash {
        return Some(i + 2);
      }
      i := i + 2;
    }
    return None;
  }

  /** Looks back over white space. */
  method LookBackOverWhite(out: array<byte>, k: nat) returns (i: nat)
    requires k <= out.Length
    ensures i <= k && (i > 0 ==> !IsWhite(out[i - 1]))
    ensures BlankLast(out[..k]) == BlankLast(out[..k][..i]) + out[..k][i..]
  {
    ghost var was := out[..k];
    i := k;
    assert was[..k] == was && was[k..] == [];
    while i > 0 && IsWhite(out[i - 1])
      invariant i <= k
      invariant BlankLast(was) == BlankLast(was[..i]) + was[i..]
    {
      BlankLastWhite(was, i);
      i := i - 1;
    }
  }

  /** Looks back over white space for a comma. */
  method BlankTrailingComma(out: array<byte>, k: nat)
    requires k <= out.Length
    modifies out
    ensures out[..k] == BlankLast(old(out[..k]))
    ensures out[k..] == old(out[k..])
  {
    ghost var was := out[..k];
    var i := LookBackOverWhite(out, k);
    assert was[..i] + was[i..] == was;
    if i > 0 && out[i - 1] == Comma {
      assert was[..i][..i - 1] == was[..i - 1];
      out[i - 1] := Space;
      assert out[..k] == was[..i - 1] + [Space] + was[i..];
    }
  }

  lemma BlankLastWhite(out: seq<byte>, i: nat)
    requires 0 < i <= |out| && IsWhite(out[i - 1])
    ensures BlankLast(out[..i]) + out[i..] == BlankLast(out[..i - 1]) + out[i - 1..]
  {
    assert out[..i][..i - 1] == out[..i - 1];
    assert [out[i - 1]] + out[i..] == out[i - 1..];
  }

  /** Whether the byte read now is inside a string, or opens one. */
  method Toggle(out: array<byte>, k: nat, b: byte, inside: bool) returns (after: bool)
    requires k <= out.Length
    ensures after == Toggled(out[..k], b, inside)
  {
    after := inside;
    if b == Quote {
      var n := CountBackslashes(out, k);
      if n % 2 == 0 {
        after := !inside;
      }
    }
  }

  /** Skips a comment at `pos`, if there is one. */
  method Seek(raw: seq<byte>, pos: nat, inside: bool) returns (at: Option<nat>)
    requires pos < |raw|
    ensures at.None? <==> Next(raw[pos..], inside).None?
    ensures at.Some? ==> pos <= at.value <= |raw| && Next(raw[pos..], inside) == Some(raw[at.value..])
  {
    if inside || raw[pos] != Slash {
      return Some(pos);
    }
    if pos + 1 == |raw| {
      return None;
    }
    assert raw[pos..][2..] == raw[pos + 2..];
    if raw[pos + 1] == Slash {
      var after := SkipLineComment(raw, pos + 2);
      return Some(after);
    }
    if raw[pos + 1] == Star {
      at := SkipBlockComment(raw, pos + 2);
      return;
    }
    return Some(pos);
  }

  method Write(out: array<byte>, k: nat, b: byte, inside: bool)
    requires k < out.Length
    modifies out
    ensures out[..k + 1] == Emit(old(out[..k]), b, inside)
  {
    if !inside && IsCloser(b) {
      BlankTrailingComma(out, k);
    }
    out[k] := b;
    assert out[..k + 1] == out[..k] + [b];
  }

  method JsoncToJson(raw: seq<byte>) returns (r: Option<seq<byte>>)
    ensures r == Scan(raw, [], false)
    ensures Clean(raw, Plain, false) ==> r == Reference(raw)
  {
    if Clean(raw, Plain, false) {
      ScanIsReference(raw);
    }
    var out := new byte[|raw|];
    var k, pos, inside := 0, 0, false;
    assert raw[0..] == raw;
    while pos < |raw|
      invariant 0 <= k <= pos <= |raw| == out.Length
      invariant Scan(raw[pos..], out[..k], inside) == Scan(raw, [], false)
    {
      inside := Toggle(out, k, raw[pos], inside);
      var at := Seek(raw, pos, inside);
      if at.None? {
        return None;
      }
      if at.value == |raw| {
        return Some(out[..k]);
      }
      assert raw[at.value..][1..] == raw[at.value + 1..];
      Write(out, k, raw[at.value], inside);
      k := k + 1;
      pos := at.value + 1;
    }
    r := Some(out[..k]);
  }
}
