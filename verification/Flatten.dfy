/**
 * Flattening nested data into rows, filtered by a query (ee/dataflatten/flatten.go). The source
 * descends and filters at once, growing one path slice in place. The reference lists all the leaves
 * of the data and keeps those whose way down matches the query level by level. Shown here: the two
 * give the same rows in the same order, a longer query keeps fewer of them, rows have distinct
 * paths, and the shared slice never spoils a path.
 */
module Flatten {
  import opened Bytes

  /** Decoded data. Maps are in the order they are gone through. */
  datatype Data =
    | List(items: Items)
    | Map(entries: Entries)
    | MapList(maps: Maps)
    | Null
    | Scalar(str: Option<string>, text: Option<string>)  // as a string if it is one; as text if it can be made text

  datatype Items = NoItems | Items(head: Data, tail: Items)
  datatype Entries = NoEntries | Entries(key: string, value: Data, rest: Entries)
  datatype Maps = NoMaps | Maps(first: Entries, others: Maps)

  datatype Row = Row(path: seq<string>, value: string)

  /** Rows, or an error because something could not be made text. */
  datatype Out = Fail | Done(rows: seq<Row>)

  datatype Options = Options(query: seq<string>, includeNils: bool)

  // ----- numbers as text

  function Digit(d: nat): (c: char)
    requires d < 10
    ensures '0' <= c <= '9'
  {
    ('0' as int + d) as char
  }

  function Itoa(n: nat): (s: string)
    ensures s != [] && AllDigits(s)
  {
    if n < 10 then [Digit(n)] else Itoa(n / 10) + [Digit(n % 10)]
  }

  predicate AllDigits(s: string) {
    forall i :: 0 <= i < |s| ==> '0' <= s[i] <= '9'
  }

  function DecimalValue(s: string): nat
    requires AllDigits(s)
  {
    if s == [] then 0 else DecimalValue(s[..|s| - 1]) * 10 + (s[|s| - 1] as int - '0' as int)
  }

  const MaxInt := 0x7fff_ffff_ffff_ffff

  /** strconv.Atoi. */
  function Atoi(s: string): Option<int> {
    var negative := s != [] && s[0] == '-';
    var digits := if s != [] && (s[0] == '-' || s[0] == '+') then s[1..] else s;
    if digits == [] || !AllDigits(digits) then None
    else
      var v: int := DecimalValue(digits);
      if negative then if v <= MaxInt + 1 then Some(-v) else None
      else if v <= MaxInt then Some(v) else None
  }

  lemma {:induction false} DecimalValueOfItoa(n: nat)
    ensures DecimalValue(Itoa(n)) == n
    decreases n
  {
    if n >= 10 {
      DecimalValueOfItoa(n / 10);
      assert Itoa(n)[..|Itoa(n)| - 1] == Itoa(n / 10);
    }
  }

  lemma ItoaInjective(m: nat, n: nat)
    requires Itoa(m) == Itoa(n)
    ensures m == n
  {
    DecimalValueOfItoa(m);
    DecimalValueOfItoa(n);
  }

  // ----- matching one term

  predicate HasPrefix(s: string, p: string) {
    p <= s
  }

  predicate HasSuffix(s: string, p: string) {
    |p| <= |s| && s[|s| - |p|..] == p
  }

  predicate Contains(s: string, p: string) {
    p <= s || (s != [] && Contains(s[1..], p))
  }

  predicate MatchString(v: string, term: string) {
    if term == "*" then true
    else if HasPrefix(term, "*") && HasSuffix(term, "*") then Contains(v, term[1..|term| - 1])
    else if HasPrefix(term, "*") then HasSuffix(v, term[1..])
    else if HasSuffix(term, "*") then HasPrefix(v, term[..|term| - 1])
    else v == term
  }

  /** `v` is `core` with anything before it if `before`, and anything after it if `after`. */
  ghost predicate Surrounds(v: string, core: string, before: bool, after: bool) {
    exists i: nat :: IsAt(v, core, i) && (i == 0 || before) && (i + |core| == |v| || after)
  }

  predicate IsAt(v: string, core: string, i: nat) {
    i + |core| <= |v| && v[i..i + |core|] == core
  }

  lemma IsAtShifted(s: string, p: string, i: nat)
    requires s != []
    ensures IsAt(s, p, i + 1) <==> IsAt(s[1..], p, i)
  {
    if i + 1 + |p| <= |s| {
      assert s[1..][i..i + |p|] == s[i + 1..i + 1 + |p|];
    }
  }

  lemma {:induction false} ContainsExactly(s: string, p: string)
    ensures Contains(s, p) <==> exists i: nat :: IsAt(s, p, i)
    decreases |s|
  {
    if p <= s {
      assert IsAt(s, p, 0);
    } else if s != [] {
      ContainsExactly(s[1..], p);
      if i: nat :| IsAt(s[1..], p, i) {
        IsAtShifted(s, p, i);
      }
      if i: nat :| IsAt(s, p, i) {
        assert i > 0;
        IsAtShifted(s, p, i - 1);
      }
    }
  }

  /** `core` is what is left of a term when its stars, as `before` and `after` say, are taken off. */
  predicate Unstarred(core: string, before: bool, after: bool) {
    core != [] ==> (core[0] == '*' ==> before) && (core[|core| - 1] == '*' ==> after)
  }

  lemma StarsOf(term: string)
    requires term != []
    ensures HasPrefix(term, "*") <==> term[0] == '*'
    ensures HasSuffix(term, "*") <==> term[|term| - 1] == '*'
  {
    assert term[..1] == [term[0]];
    assert term[|term| - 1..] == [term[|term| - 1]];
  }

  lemma MatchAnywhere(v: string, core: string)
    ensures MatchString(v, "*" + core + "*") <==> Surrounds(v, core, true, true)
  {
    var term := "*" + core + "*";
    StarsOf(term);
    assert term[1..|term| - 1] == core;
    ContainsExactly(v, core);
  }

  lemma MatchAtEnd(v: string, core: string)
    requires Unstarred(core, true, false)
    ensures MatchString(v, "*" + core) <==> Surrounds(v, core, true, false)
  {
    var term := "*" + core;
    StarsOf(term);
    assert term[1..] == core;
    if |core| <= |v| {
      assert v[|v| - |core|..|v|] == v[|v| - |core|..];
      assert HasSuffix(v, core) <==> IsAt(v, core, |v| - |core|);
    }
  }

  lemma MatchAtStart(v: string, core: string)
    requires Unstarred(core, false, true)
    ensures MatchString(v, core + "*") <==> Surrounds(v, core, false, true)
  {
    var term := core + "*";
    StarsOf(term);
    assert core != [] ==> term[0] == core[0];
    assert term[..|term| - 1] == core;
    assert HasPrefix(v, core) <==> IsAt(v, core, 0);
  }

  lemma MatchWhole(v: string, core: string)
    requires Unstarred(core, false, false)
    ensures MatchString(v, core) <==> Surrounds(v, core, false, false)
  {
    if core != [] {
      StarsOf(core);
    }
    if v == core {
      assert IsAt(v, core, 0);
    }
  }

  /** A term is its text, with a star at either end, or both, standing for anything. */
  lemma MatchStringExactly(v: string, core: string, before: bool, after: bool)
    requires Unstarred(core, before, after)
    ensures MatchString(v, (if before then "*" else "") + core + (if after then "*" else "")) <==> Surrounds(v, core, before, after)
  {
    assert "" + core == core && core + "" == core && ("*" + core) + "" == "*" + core;
    if before && after {
      MatchAnywhere(v, core);
    } else if before {
      MatchAtEnd(v, core);
    } else if after {
      MatchAtStart(v, core);
    } else {
      MatchWhole(v, core);
    }
  }

  /** Strips the mark of a key to rewrite with. */
  function Unmarked(term: string): string {
    if HasPrefix(term, "#") then term[1..] else term
  }

  predicate MatchText(data: Data, term: string, includeNils: bool) {
    var term := Unmarked(term);
    if term == "*" then true
    else if data.Null? then includeNils
    else data.Scalar? && data.text.Some? && MatchString(data.text.value, term)
  }

  function Lookup(entries: Entries, key: string): Option<Data> {
    match entries
    case NoEntries => None
    case Entries(k, v, rest) => if k == key then Some(v) else Lookup(rest, key)
  }

  predicate SomeEntryMatches(entries: Entries, key: string, value: string, includeNils: bool) {
    match entries
    case NoEntries => false
    case Entries(k, v, rest) =>
      (MatchString(k, key) && MatchText(v, value, includeNils)) || SomeEntryMatches(rest, key, value, includeNils)
  }

  /** The parts of `term` around the first "=>", if there is one. */
  function SplitArrow(term: string): (r: Option<(string, string)>)
    ensures r.Some? ==> term == r.value.0 + "=>" + r.value.1
  {
    if |term| < 2 then None
    else if term[..2] == "=>" then Some(("", term[2..]))
    else
      var r := SplitArrow(term[1..]);
      if r.None? then None else Some(([term[0]] + r.value.0, r.value.1))
  }

  function BeforeArrow(term: string): string {
    var r := SplitArrow(term);
    if r.Some? then r.value.0 else term
  }

  predicate MatchElement(data: Data, idx: nat, term: string, includeNils: bool) {
    var term := Unmarked(term);
    if term == "*" then true
    else if Atoi(term).Some? then Atoi(term).value == idx
    else
      match data
      case List(_) => false
      case Map(entries) =>
        var kv := SplitArrow(term);
        if kv.None? then Lookup(entries, term).Some?
        else SomeEntryMatches(entries, kv.value.0, kv.value.1, includeNils)
      case MapList(_) => MatchText(data, term, includeNils)
      case Null => MatchText(data, term, includeNils)
      case Scalar(_, _) => MatchText(data, term, includeNils)
  }

  /** A term that is an index picks that element, whatever it is. */
  lemma IndexPicksElement(data: Data, idx: nat, n: nat, includeNils: bool)
    requires n <= MaxInt
    ensures MatchElement(data, idx, Itoa(n), includeNils) <==> idx == n
  {
    var s := Itoa(n);
    assert '0' <= s[0] <= '9';
    DecimalValueOfItoa(n);
    assert Unmarked(s) == s && s != "*";
  }

  // ----- the query

  function Term(o: Options, depth: nat): string {
    if depth >= |o.query| then "*" else o.query[depth]
  }

  predicate KeyMatches(o: Options, depth: nat, key: string) {
    Term(o, depth) == "*" || MatchString(key, Term(o, depth))
  }

  /** What an array element is called in the path: its index, or what the query rewrites that to. None drops it. */
  function ElementName(o: Options, depth: nat, idx: nat, data: Data): Option<string> {
    var term := Term(o, depth);
    if HasPrefix(term, "#") then
      var v := if data.Map? then Lookup(data.entries, BeforeArrow(term[1..])) else None;
      if v.Some? && v.value.Scalar? then v.value.str else None
    else Some(Itoa(idx))
  }

  function ElementKey(o: Options, depth: nat, idx: nat, data: Data): Option<string> {
    var name := ElementName(o, depth, idx, data);
    if name.Some? && (Term(o, depth) == "*" || MatchElement(data, idx, Term(o, depth), o.includeNils)) then name else None
  }

  // ----- descending and filtering at once

  function Then(a: Out, b: Out): Out {
    if a.Fail? || b.Fail? then Fail else Done(a.rows + b.rows)
  }

  /** Where a descent ends: at a null, or at something that can be made text or not. */
  datatype End = NullEnd | TextEnd(text: Option<string>)

  function AtEnd(o: Options, path: seq<string>, end: End, depth: nat): Out {
    if end.NullEnd? then Done(if o.includeNils then [Row(path, "")] else [])
    else if end.text.None? then Fail
    else Done(if KeyMatches(o, depth, end.text.value) then [Row(path, end.text.value)] else [])
  }

  function Descend(o: Options, path: seq<string>, data: Data, depth: nat): Out
    decreases data, 0
  {
    match data
    case List(items) => DescendItems(o, path, items, 0, depth)
    case Map(entries) => DescendEntries(o, path, entries, depth)
    case MapList(maps) => DescendMaps(o, path, maps, 0, depth)
    case Null => AtEnd(o, path, NullEnd, depth)
    case Scalar(_, text) => AtEnd(o, path, TextEnd(text), depth)
  }

  function DescendElement(o: Options, path: seq<string>, idx: nat, data: Data, depth: nat): Out
    decreases data, 1
  {
    var key := ElementKey(o, depth, idx, data);
    if key.None? then Done([]) else Descend(o, path + [key.value], data, depth + 1)
  }

  function DescendItems(o: Options, path: seq<string>, items: Items, idx: nat, depth: nat): Out
    decreases items, 0
  {
    match items
    case NoItems => Done([])
    case Items(head, tail) =>
      Then(DescendElement(o, path, idx, head, depth), DescendItems(o, path, tail, idx + 1, depth))
  }

  function DescendEntries(o: Options, path: seq<string>, entries: Entries, depth: nat): Out
    decreases entries, 0
  {
    match entries
    case NoEntries => Done([])
    case Entries(key, value, rest) =>
      var one := if KeyMatches(o, depth, key) then Descend(o, path + [key], value, depth + 1) else Done([]);
      Then(one, DescendEntries(o, path, rest, depth))
  }

  function DescendMaps(o: Options, path: seq<string>, maps: Maps, idx: nat, depth: nat): Out
    decreases maps, 0
  {
    match maps
    case NoMaps => Done([])
    case Maps(first, others) =>
      Then(DescendEntries(o, path + [Itoa(idx)], first, depth + 1), DescendMaps(o, path, others, idx + 1, depth))
  }

  // ----- the reference: all leaves, then the query

  datatype Step = Key(name: string) | Element(idx: nat, data: Data) | MapAt(idx: nat)

  /** A leaf and the way down to it. */
  datatype Leaf = Leaf(way: seq<Step>, end: End)

  function Leaves(data: Data, way: seq<Step>): seq<Leaf>
    decreases data, 0
  {
    match data
    case List(items) => LeavesOfItems(items, 0, way)
    case Map(entries) => LeavesOfEntries(entries, way)
    case MapList(maps) => LeavesOfMaps(maps, 0, way)
    case Null => [Leaf(way, NullEnd)]
    case Scalar(_, text) => [Leaf(way, TextEnd(text))]
  }

  function LeavesOfItems(items: Items, idx: nat, way: seq<Step>): seq<Leaf>
    decreases items, 0
  {
    match items
    case NoItems => []
    case Items(head, tail) => Leaves(head, way + [Element(idx, head)]) + LeavesOfItems(tail, idx + 1, way)
  }

  function LeavesOfEntries(entries: Entries, way: seq<Step>): seq<Leaf>
    decreases entries, 0
  {
    match entries
    case NoEntries => []
    case Entries(key, value, rest) => Leaves(value, way + [Key(key)]) + LeavesOfEntries(rest, way)
  }

  function LeavesOfMaps(maps: Maps, idx: nat, way: seq<Step>): seq<Leaf>
    decreases maps, 0
  {
    match maps
    case NoMaps => []
    case Maps(first, others) => LeavesOfEntries(first, way + [MapAt(idx)]) + LeavesOfMaps(others, idx + 1, way)
  }

  /** What one step is called in the path; None when the query does not let it pass. */
  function StepName(o: Options, depth: nat, step: Step): Option<string> {
    match step
    case Key(name) => if KeyMatches(o, depth, name) then Some(name) else None
    case Element(idx, data) => ElementKey(o, depth, idx, data)
    case MapAt(idx) => Some(Itoa(idx))
  }

  function PathOf(o: Options, way: seq<Step>): (r: Option<seq<string>>)
    ensures r.Some? ==> |r.value| == |way|
  {
    if way == [] then Some([])
    else
      var n := |way| - 1;
      var path := PathOf(o, way[..n]);
      var name := StepName(o, n, way[n]);
      if path.None? || name.None? then None else Some(path.value + [name.value])
  }

  function Selected(o: Options, l: Leaf): Out {
    var path := PathOf(o, l.way);
    if path.None? then Done([]) else AtEnd(o, path.value, l.end, |l.way|)
  }

  function Select(o: Options, leaves: seq<Leaf>): Out {
    if leaves == [] then Done([]) else Then(Selected(o, leaves[0]), Select(o, leaves[1..]))
  }

  lemma ThenAssociates(a: Out, b: Out, c: Out)
    ensures Then(Then(a, b), c) == Then(a, Then(b, c))
  {
    if a.Done? && b.Done? && c.Done? {
      assert (a.rows + b.rows) + c.rows == a.rows + (b.rows + c.rows);
    }
  }

  lemma ThenNothing(a: Out)
    ensures Then(Done([]), a) == a == Then(a, Done([]))
  {
    if a.Done? {
      assert [] + a.rows == a.rows == a.rows + [];
    }
  }

  lemma {:induction false} SelectConcat(o: Options, a: seq<Leaf>, b: seq<Leaf>)
    ensures Select(o, a + b) == Then(Select(o, a), Select(o, b))
    decreases |a|
  {
    if a == [] {
      assert a + b == b;
      ThenNothing(Select(o, b));
    } else {
      assert (a + b)[1..] == a[1..] + b;
      SelectConcat(o, a[1..], b);
      ThenAssociates(Selected(o, a[0]), Select(o, a[1..]), Select(o, b));
    }
  }

  /** The way so far, and the path it gives; `Done([])` is all that comes of a way the query has dropped. */
  function Given(o: Options, way: seq<Step>, out: Out): Out {
    if PathOf(o, way).Some? then out else Done([])
  }

  lemma PathExtended(o: Options, way: seq<Step>, step: Step)
    ensures PathOf(o, way + [step])
         == if PathOf(o, way).Some? && StepName(o, |way|, step).Some?
            then Some(PathOf(o, way).value + [StepName(o, |way|, step).value]) else None
  {
    assert (way + [step])[..|way + [step]| - 1] == way;
  }

  function PathSoFar(o: Options, way: seq<Step>): seq<string> {
    if PathOf(o, way).Some? then PathOf(o, way).value else []
  }

  lemma {:induction false} DescendSelects(o: Options, data: Data, way: seq<Step>)
    ensures Select(o, Leaves(data, way)) == Given(o, way, Descend(o, PathSoFar(o, way), data, |way|))
    decreases data, 0
  {
    match data
    case List(items) => ItemsSelect(o, items, 0, way);
    case Map(entries) => EntriesSelect(o, entries, way);
    case MapList(maps) => MapsSelect(o, maps, 0, way);
    case Null => EndSelects(o, NullEnd, way);
    case Scalar(_, text) => EndSelects(o, TextEnd(text), way);
  }

  lemma EndSelects(o: Options, end: End, way: seq<Step>)
    ensures Select(o, [Leaf(way, end)]) == Given(o, way, AtEnd(o, PathSoFar(o, way), end, |way|))
  {
    var leaves := [Leaf(way, end)];
    assert leaves[1..] == [];
    ThenNothing(Selected(o, leaves[0]));
  }

  lemma {:induction false} ItemsSelect(o: Options, items: Items, idx: nat, way: seq<Step>)
    ensures Select(o, LeavesOfItems(items, idx, way)) == Given(o, way, DescendItems(o, PathSoFar(o, way), items, idx, |way|))
    decreases items, 0
  {
    if items.Items? {
      var step := Element(idx, items.head);
      SelectConcat(o, Leaves(items.head, way + [step]), LeavesOfItems(items.tail, idx + 1, way));
      DescendSelects(o, items.head, way + [step]);
      PathExtended(o, way, step);
      ItemsSelect(o, items.tail, idx + 1, way);
      ThenNothing(Done([]));
    }
  }

  lemma {:induction false} EntriesSelect(o: Options, entries: Entries, way: seq<Step>)
    ensures Select(o, LeavesOfEntries(entries, way)) == Given(o, way, DescendEntries(o, PathSoFar(o, way), entries, |way|))
    decreases entries, 0
  {
    if entries.Entries? {
      var step := Key(entries.key);
      SelectConcat(o, Leaves(entries.value, way + [step]), LeavesOfEntries(entries.rest, way));
      DescendSelects(o, entries.value, way + [step]);
      PathExtended(o, way, step);
      EntriesSelect(o, entries.rest, way);
      ThenNothing(Done([]));
    }
  }

  lemma MapPath(o: Options, way: seq<Step>, idx: nat)
    ensures PathOf(o, way + [MapAt(idx)]).Some? == PathOf(o, way).Some?
    ensures PathOf(o, way).Some? ==> PathSoFar(o, way + [MapAt(idx)]) == PathSoFar(o, way) + [Itoa(idx)]
  {
    PathExtended(o, way, MapAt(idx));
  }

  lemma GivenThen(o: Options, way: seq<Step>, a: Out, b: Out)
    ensures Then(Given(o, way, a), Given(o, way, b)) == Given(o, way, Then(a, b))
  {
    ThenNothing(Done([]));
  }

  lemma {:induction false} MapsSelect(o: Options, maps: Maps, idx: nat, way: seq<Step>)
    ensures Select(o, LeavesOfMaps(maps, idx, way)) == Given(o, way, DescendMaps(o, PathSoFar(o, way), maps, idx, |way|))
    decreases maps, 0
  {
    if maps.Maps? {
      var step := MapAt(idx);
      SelectConcat(o, LeavesOfEntries(maps.first, way + [step]), LeavesOfMaps(maps.others, idx + 1, way));
      EntriesSelect(o, maps.first, way + [step]);
      MapPath(o, way, idx);
      MapsSelect(o, maps.others, idx + 1, way);
      var path := PathSoFar(o, way);
      GivenThen(o, way, DescendEntries(o, path + [Itoa(idx)], maps.first, |way| + 1),
                DescendMaps(o, path, maps.others, idx + 1, |way|));
    }
  }

  /** Flattening with a query gives what picking from all the leaves gives. */
  lemma FlattenIsSelect(o: Options, data: Data)
    ensures Descend(o, [], data, 0) == Select(o, Leaves(data, []))
  {
    DescendSelects(o, data, []);
  }

  // ----- longer queries

  ghost predicate Subsequence<T>(a: seq<T>, b: seq<T>)
    decreases |b|
  {
    a == [] || (b != [] && ((a[0] == b[0] && Subsequence(a[1..], b[1..])) || Subsequence(a, b[1..])))
  }

  function Values(rows: seq<Row>): seq<string> {
    seq(|rows|, i requires 0 <= i < |rows| => rows[i].value)
  }

  function Longer(o: Options, term: string): Options {
    o.(query := o.query + [term])
  }

  lemma {:induction false} LongerPath(o: Options, term: string, way: seq<Step>)
    requires PathOf(Longer(o, term), way).Some?
    ensures PathOf(o, way).Some?
    decreases |way|
  {
    if way != [] {
      var n := |way| - 1;
      LongerPath(o, term, way[..n]);
      LongerStep(o, term, n, way[n]);
    }
  }

  lemma StarPasses(o: Options, depth: nat, step: Step)
    requires Term(o, depth) == "*"
    ensures StepName(o, depth, step).Some?
  {
    assert !HasPrefix("*", "#") by {
      assert "*"[0] != "#"[0];
    }
  }

  lemma SameTerm(o: Options, term: string, depth: nat)
    ensures Term(o, depth) == "*" || Term(Longer(o, term), depth) == Term(o, depth)
  {
  }

  lemma LongerStep(o: Options, term: string, depth: nat, step: Step)
    requires StepName(Longer(o, term), depth, step).Some?
    ensures StepName(o, depth, step).Some?
  {
    SameTerm(o, term, depth);
    if Term(o, depth) == "*" {
      StarPasses(o, depth, step);
    }
  }

  /** No term renames array elements. */
  predicate NoRewrites(o: Options) {
    forall i :: 0 <= i < |o.query| ==> !HasPrefix(o.query[i], "#")
  }

  lemma PlainName(o: Options, depth: nat, idx: nat, data: Data)
    requires NoRewrites(o)
    ensures ElementKey(o, depth, idx, data) == None || ElementKey(o, depth, idx, data) == Some(Itoa(idx))
  {
    assert !HasPrefix(Term(o, depth), "#") by {
      assert depth >= |o.query| ==> Term(o, depth)[0] == '*';
    }
  }

  lemma SameStep(o: Options, term: string, depth: nat, step: Step)
    requires NoRewrites(Longer(o, term)) && StepName(Longer(o, term), depth, step).Some?
    ensures StepName(o, depth, step) == StepName(Longer(o, term), depth, step)
  {
    LongerStep(o, term, depth, step);
    if step.Element? {
      PlainQuery(o, term);
      PlainName(o, depth, step.idx, step.data);
      PlainName(Longer(o, term), depth, step.idx, step.data);
    }
  }

  lemma PlainQuery(o: Options, term: string)
    requires NoRewrites(Longer(o, term))
    ensures NoRewrites(o)
  {
    forall i | 0 <= i < |o.query| ensures !HasPrefix(o.query[i], "#") {
      assert Longer(o, term).query[i] == o.query[i];
    }
  }

  lemma {:induction false} SamePath(o: Options, term: string, way: seq<Step>)
    requires NoRewrites(Longer(o, term)) && PathOf(Longer(o, term), way).Some?
    ensures PathOf(o, way) == PathOf(Longer(o, term), way)
    decreases |way|
  {
    if way != [] {
      var n := |way| - 1;
      SamePath(o, term, way[..n]);
      SameStep(o, term, n, way[n]);
    }
  }

  lemma LongerSelected(o: Options, term: string, l: Leaf)
    requires Selected(o, l).Done?
    ensures var a := Selected(Longer(o, term), l); var b := Selected(o, l);
      && a.Done? && |b.rows| <= 1
      && (a.rows == [] || Values(a.rows) == Values(b.rows))
      && (NoRewrites(Longer(o, term)) ==> a.rows == [] || a.rows == b.rows)
  {
    if PathOf(Longer(o, term), l.way).Some? {
      LongerPath(o, term, l.way);
      SameTerm(o, term, |l.way|);
      if NoRewrites(Longer(o, term)) {
        SamePath(o, term, l.way);
      }
    }
  }

  lemma SubsequenceThen<T>(a: seq<T>, more: seq<T>, b: seq<T>, all: seq<T>)
    requires Subsequence(more, all) && |b| <= 1 && (a == [] || a == b)
    ensures Subsequence(a + more, b + all)
  {
    if b == [] {
      assert a + more == more && b + all == all;
    } else {
      assert (b + all)[1..] == all;
      if a == [] {
        assert a + more == more;
      } else {
        assert (a + more)[1..] == more;
      }
    }
  }

  lemma ValuesConcat(a: seq<Row>, b: seq<Row>)
    ensures Values(a + b) == Values(a) + Values(b)
  {
  }

  /** A term more keeps some of the rows, in the same order, and adds no error. */
  lemma {:induction false} LongerQueryNarrows(o: Options, term: string, leaves: seq<Leaf>)
    requires Select(o, leaves).Done?
    ensures Select(Longer(o, term), leaves).Done?
    ensures Subsequence(Values(Select(Longer(o, term), leaves).rows), Values(Select(o, leaves).rows))
    ensures NoRewrites(Longer(o, term)) ==> Subsequence(Select(Longer(o, term), leaves).rows, Select(o, leaves).rows)
    decreases |leaves|
  {
    if leaves != [] {
      var rest := leaves[1..];
      LongerSelected(o, term, leaves[0]);
      LongerQueryNarrows(o, term, rest);
      var a, b := Selected(Longer(o, term), leaves[0]).rows, Selected(o, leaves[0]).rows;
      var more, all := Select(Longer(o, term), rest).rows, Select(o, rest).rows;
      ValuesConcat(a, more);
      ValuesConcat(b, all);
      SubsequenceThen(Values(a), Values(more), Values(b), Values(all));
      if NoRewrites(Longer(o, term)) {
        SubsequenceThen(a, more, b, all);
      }
    }
  }

  /**
   * So flattening with it gives some of the rows, in the same order; with a term that renames array
   * elements, in the query or as the one more, some of the values.
   */
  lemma LongerQueryFlattens(o: Options, term: string, data: Data)
    requires Descend(o, [], data, 0).Done?
    ensures var a := Descend(Longer(o, term), [], data, 0); var b := Descend(o, [], data, 0);
      && a.Done?
      && (NoRewrites(Longer(o, term)) ==> Subsequence(a.rows, b.rows))
      && Subsequence(Values(a.rows), Values(b.rows))
  {
    FlattenIsSelect(o, data);
    FlattenIsSelect(Longer(o, term), data);
    LongerQueryNarrows(o, term, Leaves(data, []));
  }

  // ----- distinct paths

  /** No map has a key twice. */
  predicate KeysDistinct(data: Data)
    decreases data, 0
  {
    match data
    case List(items) => ItemsDistinct(items)
    case Map(entries) => EntriesDistinct(entries)
    case MapList(maps) => MapsDistinct(maps)
    case Null => true
    case Scalar(_, _) => true
  }

  predicate ItemsDistinct(items: Items)
    decreases items, 0
  {
    items.Items? ==> KeysDistinct(items.head) && ItemsDistinct(items.tail)
  }

  predicate EntriesDistinct(entries: Entries)
    decreases entries, 0
  {
    entries.Entries? ==>
      Lookup(entries.rest, entries.key).None? && KeysDistinct(entries.value) && EntriesDistinct(entries.rest)
  }

  predicate MapsDistinct(maps: Maps)
    decreases maps, 0
  {
    maps.Maps? ==> EntriesDistinct(maps.first) && MapsDistinct(maps.others)
  }

  predicate Under(path: seq<string>, r: Row) {
    path <= r.path
  }

  predicate AllUnder(path: seq<string>, out: Out) {
    out.Done? ==> forall i :: 0 <= i < |out.rows| ==> Under(path, out.rows[i])
  }

  predicate DistinctPaths(out: Out) {
    out.Done? ==> forall i, j :: 0 <= i < j < |out.rows| ==> out.rows[i].path != out.rows[j].path
  }

  /** Rows under one name first, and then rows not under it. */
  lemma DistinctThen(path: seq<string>, name: string, a: Out, b: Out)
    requires DistinctPaths(a) && DistinctPaths(b)
    requires AllUnder(path + [name], a) && AllUnder(path, b)
    requires b.Done? ==> forall i :: 0 <= i < |b.rows| ==> !Under(path + [name], b.rows[i])
    ensures DistinctPaths(Then(a, b)) && AllUnder(path, Then(a, b))
  {
    if a.Done? && b.Done? {
      var rows := a.rows + b.rows;
      forall i | 0 <= i < |rows| ensures Under(path, rows[i]) {
        if i < |a.rows| {
          assert Under(path + [name], a.rows[i]);
          assert path <= path + [name];
        } else {
          assert Under(path, b.rows[i - |a.rows|]);
        }
      }
      forall i, j | 0 <= i < j < |rows| ensures rows[i].path != rows[j].path {
        if i < |a.rows| <= j {
          assert Under(path + [name], a.rows[i]);
          assert !Under(path + [name], b.rows[j - |a.rows|]);
        } else if j < |a.rows| {
          assert a.rows[i].path != a.rows[j].path;
        } else {
          assert b.rows[i - |a.rows|].path != b.rows[j - |a.rows|].path;
        }
      }
    }
  }

  lemma {:induction false} Distinct(o: Options, path: seq<string>, data: Data, depth: nat)
    requires NoRewrites(o) && KeysDistinct(data)
    ensures DistinctPaths(Descend(o, path, data, depth)) && AllUnder(path, Descend(o, path, data, depth))
    decreases data, 0
  {
    match data
    case List(items) => DistinctItems(o, path, items, 0, depth);
    case Map(entries) => DistinctEntries(o, path, entries, depth);
    case MapList(maps) => DistinctMaps(o, path, maps, 0, depth);
    case Null =>
    case Scalar(_, _) =>
  }

  /** Names the next parts of paths below `path` may have. */
  ghost predicate Named(path: seq<string>, out: Out, names: iset<string>) {
    out.Done? ==> forall i :: 0 <= i < |out.rows| ==> |path| < |out.rows[i].path| && out.rows[i].path[|path|] in names
  }

  ghost function From(idx: nat): iset<string> {
    iset i | idx <= i :: Itoa(i)
  }

  lemma UnderNamed(path: seq<string>, name: string, out: Out, names: iset<string>)
    requires AllUnder(path + [name], out) && name in names
    ensures Named(path, out, names)
  {
    if out.Done? {
      forall i | 0 <= i < |out.rows| ensures |path| < |out.rows[i].path| && out.rows[i].path[|path|] in names {
        assert Under(path + [name], out.rows[i]);
        assert (path + [name])[|path|] == name;
      }
    }
  }

  lemma NamedThen(path: seq<string>, a: Out, b: Out, names: iset<string>)
    requires Named(path, a, names) && Named(path, b, names)
    ensures Named(path, Then(a, b), names)
  {
  }

  lemma NotUnder(path: seq<string>, name: string, b: Out, names: iset<string>)
    requires Named(path, b, names) && name !in names
    ensures b.Done? ==> forall i :: 0 <= i < |b.rows| ==> !Under(path + [name], b.rows[i])
  {
    if b.Done? {
      forall i | 0 <= i < |b.rows| ensures !Under(path + [name], b.rows[i]) {
        assert (path + [name])[|path|] == name;
      }
    }
  }

  lemma {:induction false} DistinctItems(o: Options, path: seq<string>, items: Items, idx: nat, depth: nat)
    requires NoRewrites(o) && ItemsDistinct(items)
    ensures var out := DescendItems(o, path, items, idx, depth);
      DistinctPaths(out) && AllUnder(path, out) && Named(path, out, From(idx))
    decreases items, 0
  {
    if items.Items? {
      var a := DescendElement(o, path, idx, items.head, depth);
      var b := DescendItems(o, path, items.tail, idx + 1, depth);
      var name := Itoa(idx);
      Distinct(o, path + [name], items.head, depth + 1);
      PlainName(o, depth, idx, items.head);
      DistinctItems(o, path, items.tail, idx + 1, depth);
      NotFrom(idx);
      NotUnder(path, name, b, From(idx + 1));
      DistinctThen(path, name, a, b);
      UnderNamed(path, name, a, From(idx));
      assert Named(path, b, From(idx));
      NamedThen(path, a, b, From(idx));
    }
  }

  lemma NotFrom(idx: nat)
    ensures Itoa(idx) in From(idx) && Itoa(idx) !in From(idx + 1)
  {
    if Itoa(idx) in From(idx + 1) {
      var i :| idx + 1 <= i && Itoa(i) == Itoa(idx);
      ItoaInjective(i, idx);
    }
  }

  ghost function KeysOf(entries: Entries): iset<string> {
    iset k | Lookup(entries, k).Some?
  }

  lemma {:induction false} DistinctEntries(o: Options, path: seq<string>, entries: Entries, depth: nat)
    requires NoRewrites(o) && EntriesDistinct(entries)
    ensures var out := DescendEntries(o, path, entries, depth);
      DistinctPaths(out) && AllUnder(path, out) && Named(path, out, KeysOf(entries))
    decreases entries, 0
  {
    if entries.Entries? {
      var name := entries.key;
      var a := if KeyMatches(o, depth, name) then Descend(o, path + [name], entries.value, depth + 1) else Done([]);
      var b := DescendEntries(o, path, entries.rest, depth);
      Distinct(o, path + [name], entries.value, depth + 1);
      DistinctEntries(o, path, entries.rest, depth);
      NotUnder(path, name, b, KeysOf(entries.rest));
      DistinctThen(path, name, a, b);
      UnderNamed(path, name, a, KeysOf(entries));
      assert Named(path, b, KeysOf(entries));
      NamedThen(path, a, b, KeysOf(entries));
    }
  }

  lemma {:induction false} DistinctMaps(o: Options, path: seq<string>, maps: Maps, idx: nat, depth: nat)
    requires NoRewrites(o) && MapsDistinct(maps)
    ensures var out := DescendMaps(o, path, maps, idx, depth);
      DistinctPaths(out) && AllUnder(path, out) && Named(path, out, From(idx))
    decreases maps, 0
  {
    if maps.Maps? {
      var name := Itoa(idx);
      var a := DescendEntries(o, path + [name], maps.first, depth + 1);
      var b := DescendMaps(o, path, maps.others, idx + 1, depth);
      DistinctEntries(o, path + [name], maps.first, depth + 1);
      DistinctMaps(o, path, maps.others, idx + 1, depth);
      NotFrom(idx);
      NotUnder(path, name, b, From(idx + 1));
      DistinctThen(path, name, a, b);
      UnderNamed(path, name, a, From(idx));
      assert Named(path, b, From(idx));
      NamedThen(path, a, b, From(idx));
    }
  }

  /** Without rewriting no two rows have the same path: nothing is lost by flattening. */
  lemma RowsHaveDistinctPaths(o: Options, data: Data)
    requires NoRewrites(o) && KeysDistinct(data)
    ensures DistinctPaths(Descend(o, [], data, 0))
  {
    Distinct(o, [], data, 0);
  }

  // ----- the source's descent, over one growing path slice

  function Size(data: Data): (n: nat)
    ensures n > 0
  {
    match data
    case List(items) => 1 + SizeItems(items)
    case Map(entries) => 1 + SizeEntries(entries)
    case MapList(maps) => 1 + SizeMaps(maps)
    case Null => 1
    case Scalar(_, _) => 1
  }

  function SizeItems(items: Items): nat {
    if items.NoItems? then 0 else Size(items.head) + SizeItems(items.tail)
  }

  function SizeEntries(entries: Entries): nat {
    if entries.NoEntries? then 0 else Size(entries.value) + SizeEntries(entries.rest)
  }

  function SizeMaps(maps: Maps): nat {
    if maps.NoMaps? then 0 else 1 + SizeEntries(maps.first) + SizeMaps(maps.others)
  }

  /** Go's append: in place when the backing array has room, else into a bigger copy. */
  method Append(path: array<string>, len: nat, key: string) returns (longer: array<string>)
    requires len <= path.Length
    modifies path
    ensures longer == path || fresh(longer)
    ensures len < longer.Length && longer[..len + 1] == old(path[..len]) + [key]
    ensures path[..len] == old(path[..len])
  {
    if len < path.Length {
      longer := path;
    } else {
      longer := new string[2 * len + 1];
      forall i | 0 <= i < len {
        longer[i] := path[i];
      }
      assert longer[..len] == path[..len];
    }
    longer[len] := key;
    assert longer[..len + 1] == longer[..len] + [key];
  }

  class Flattener {
    const o: Options
    var rows: seq<Row>

    constructor (o: Options)
      ensures this.o == o && rows == []
    {
      this.o, rows := o, [];
    }

    /** Adds the rows of `data` and leaves the path as it was. */
    method DescendInto(path: array<string>, len: nat, data: Data, depth: nat) returns (ok: bool)
      requires len <= path.Length
      modifies this, path
      ensures path[..len] == old(path[..len])
      ensures ok == Descend(o, old(path[..len]), data, depth).Done?
      ensures ok ==> rows == old(rows) + Descend(o, old(path[..len]), data, depth).rows
      decreases Size(data), 0
    {
      match data
      case List(items) =>
        ok := DescendList(path, len, items, depth);
      case Map(entries) =>
        ok := DescendMap(path, len, entries, depth);
      case MapList(maps) =>
        ok := DescendMapList(path, len, maps, depth);
      case Null =>
        if o.includeNils {
          rows := rows + [Row(path[..len], "")];
        }
        ok := true;
      case Scalar(_, text) =>
        if text.None? {
          return false;
        }
        if KeyMatches(o, depth, text.value) {
          rows := rows + [Row(path[..len], text.value)];
        }
        ok := true;
    }

    method DescendArrayElement(path: array<string>, len: nat, idx: nat, data: Data, depth: nat) returns (ok: bool)
      requires len <= path.Length
      modifies this, path
      ensures path[..len] == old(path[..len])
      ensures ok == DescendElement(o, old(path[..len]), idx, data, depth).Done?
      ensures ok ==> rows == old(rows) + DescendElement(o, old(path[..len]), idx, data, depth).rows
      decreases Size(data), 1
    {
      var key := ElementKey(o, depth, idx, data);
      if key.None? {
        return true;
      }
      var longer := Append(path, len, key.value);
      ok := DescendInto(longer, len + 1, data, depth + 1);
      assert longer[..len] == longer[..len + 1][..len];
    }

    method DescendList(path: array<string>, len: nat, items: Items, depth: nat) returns (ok: bool)
      requires len <= path.Length
      modifies this, path
      ensures path[..len] == old(path[..len])
      ensures ok == DescendItems(o, old(path[..len]), items, 0, depth).Done?
      ensures ok ==> rows == old(rows) + DescendItems(o, old(path[..len]), items, 0, depth).rows
      decreases SizeItems(items), 2
    {
      ghost var at := path[..len];
      var i, rest := 0, items;
      while rest.Items?
        invariant path[..len] == at
        invariant SizeItems(rest) <= SizeItems(items)
        invariant Then(Done(rows), DescendItems(o, at, rest, i, depth)) == Then(Done(old(rows)), DescendItems(o, at, items, 0, depth))
        decreases rest
      {
        ghost var before := rows;
        ThenAssociates(Done(before), DescendElement(o, at, i, rest.head, depth), DescendItems(o, at, rest.tail, i + 1, depth));
        ok := DescendArrayElement(path, len, i, rest.head, depth);
        if !ok {
          return false;
        }
        i, rest := i + 1, rest.tail;
      }
      ok := true;
      ThenNothing(Done(rows));
    }

    method DescendMap(path: array<string>, len: nat, entries: Entries, depth: nat) returns (ok: bool)
      requires len <= path.Length
      modifies this, path
      ensures path[..len] == old(path[..len])
      ensures ok == DescendEntries(o, old(path[..len]), entries, depth).Done?
      ensures ok ==> rows == old(rows) + DescendEntries(o, old(path[..len]), entries, depth).rows
      decreases SizeEntries(entries), 2
    {
      ghost var at := path[..len];
      var rest := entries;
      while rest.Entries?
        invariant path[..len] == at
        invariant SizeEntries(rest) <= SizeEntries(entries)
        invariant Then(Done(rows), DescendEntries(o, at, rest, depth)) == Then(Done(old(rows)), DescendEntries(o, at, entries, depth))
        decreases rest
      {
        ghost var before := rows;
        ghost var all := DescendEntries(o, at, rest.rest, depth);
        if KeyMatches(o, depth, rest.key) {
          ThenAssociates(Done(before), Descend(o, at + [rest.key], rest.value, depth + 1), all);
          var longer := Append(path, len, rest.key);
          ok := DescendInto(longer, len + 1, rest.value, depth + 1);
          assert longer[..len] == longer[..len + 1][..len];
          if !ok {
            return false;
          }
        } else {
          ThenNothing(all);
        }
        rest := rest.rest;
      }
      ok := true;
      ThenNothing(Done(rows));
    }

    method DescendMapList(path: array<string>, len: nat, maps: Maps, depth: nat) returns (ok: bool)
      requires len <= path.Length
      modifies this, path
      ensures path[..len] == old(path[..len])
      ensures ok == DescendMaps(o, old(path[..len]), maps, 0, depth).Done?
      ensures ok ==> rows == old(rows) + DescendMaps(o, old(path[..len]), maps, 0, depth).rows
      decreases SizeMaps(maps), 3
    {
      ghost var at := path[..len];
      var i, rest := 0, maps;
      while rest.Maps?
        invariant path[..len] == at
        invariant SizeMaps(rest) <= SizeMaps(maps)
        invariant Then(Done(rows), DescendMaps(o, at, rest, i, depth)) == Then(Done(old(rows)), DescendMaps(o, at, maps, 0, depth))
        decreases rest
      {
        ghost var before := rows;
        ThenAssociates(Done(before), DescendEntries(o, at + [Itoa(i)], rest.first, depth + 1), DescendMaps(o, at, rest.others, i + 1, depth));
        var longer := Append(path, len, Itoa(i));
        ok := DescendMap(longer, len + 1, rest.first, depth + 1);
        assert longer[..len] == longer[..len + 1][..len];
        if !ok {
          return false;
        }
        i, rest := i + 1, rest.others;
      }
      ok := true;
      ThenNothing(Done(rows));
    }
  }

  /** Flatten: the rows the query picks from the leaves, or the error. */
  method FlattenData(data: Data, o: Options) returns (out: Out)
    ensures out == Select(o, Leaves(data, []))
  {
    var fl := new Flattener(o);
    var path := new string[0];
    var ok := fl.DescendInto(path, 0, data, 0);
    FlattenIsSelect(o, data);
    if !ok {
      return Fail;
    }
    return Done(fl.rows);
  }
}
