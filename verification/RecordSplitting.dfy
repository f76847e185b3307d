/**
 * Grouping key/value lines into records by the duplicate-key strategy
 * (ee/dataflatten/string_delimited.go): a record ends where a key would repeat. Shown here: the
 * records are consecutive runs of the pairs, no pair is lost, and no grouping into consecutive runs
 * with distinct keys has fewer records.
 */
module RecordSplitting {
  import opened Bytes

  datatype Pair = Pair(key: string, value: string)
  type Record = map<string, string>

  /** The records still to come when `row` is being filled; the last one is stored even if it is empty. */
  function Split(pairs: seq<Pair>, row: Record): seq<Record> {
    if pairs == [] then [row]
    else if pairs[0].key in row then [row] + Split(pairs[1..], map[pairs[0].key := pairs[0].value])
    else Split(pairs[1..], row[pairs[0].key := pairs[0].value])
  }

  /** The lines with a delimiter, as pairs. */
  function Pairs(parse: string -> Option<Pair>, lines: seq<string>): seq<Pair> {
    if lines == [] then []
    else match parse(lines[0])
      case None => Pairs(parse, lines[1..])
      case Some(pair) => [pair] + Pairs(parse, lines[1..])
  }

  /** The loop over the lines; `parse` splits a line at the delimiter and trims both sides. */
  method SplitRecords(parse: string -> Option<Pair>, lines: seq<string>) returns (results: seq<Record>)
    ensures results == Split(Pairs(parse, lines), map[])
  {
    results := [];
    var row: Record := map[];
    for i := 0 to |lines|
      invariant results + Split(Pairs(parse, lines[i..]), row) == Split(Pairs(parse, lines), map[])
    {
      assert lines[i..][1..] == lines[i + 1..];
      var parts := parse(lines[i]);
      if parts.None? {
        continue;
      }
      var pair := parts.value;
      ghost var rest := Pairs(parse, lines[i + 1..]);
      assert Pairs(parse, lines[i..])[1..] == rest;
      if pair.key in row {
        assert results + ([row] + Split(rest, map[pair.key := pair.value])) == results + [row] + Split(rest, map[pair.key := pair.value]);
        results := results + [row];
        row := map[];
      }
      row := row[pair.key := pair.value];
    }
    results := results + [row];
  }

  // ----- records are runs

  function Concat(runs: seq<seq<Pair>>): seq<Pair> {
    if runs == [] then [] else runs[0] + Concat(runs[1..])
  }

  /** No key twice. */
  predicate Distinct(run: seq<Pair>) {
    forall i, j :: 0 <= i < j < |run| ==> run[i].key != run[j].key
  }

  function Keys(run: seq<Pair>): set<string> {
    set i | 0 <= i < |run| :: run[i].key
  }

  function AsRecord(run: seq<Pair>): Record {
    if run == [] then map[] else AsRecord(run[..|run| - 1])[run[|run| - 1].key := run[|run| - 1].value]
  }

  lemma KeysSnoc(run: seq<Pair>, x: Pair)
    ensures Keys(run + [x]) == Keys(run) + {x.key}
  {
    var longer := run + [x];
    assert longer[|run|].key == x.key;
    forall k | k in Keys(run)
      ensures k in Keys(longer)
    {
      var i :| 0 <= i < |run| && run[i].key == k;
      assert longer[i].key == k;
    }
  }

  lemma DistinctSnoc(run: seq<Pair>, x: Pair)
    ensures Distinct(run + [x]) <==> Distinct(run) && x.key !in Keys(run)
  {
    var longer := run + [x];
    if Distinct(longer) {
      forall i, j | 0 <= i < j < |run|
        ensures run[i].key != run[j].key
      {
        assert longer[i].key != longer[j].key;
      }
      forall i | 0 <= i < |run|
        ensures run[i].key != x.key
      {
        assert longer[i].key != longer[|run|].key;
      }
    }
    if Distinct(run) && x.key !in Keys(run) {
      forall i, j | 0 <= i < j < |longer|
        ensures longer[i].key != longer[j].key
      {
        assert run[i].key in Keys(run);
      }
    }
  }

  lemma RecordSnoc(run: seq<Pair>, x: Pair)
    ensures AsRecord(run + [x]) == AsRecord(run)[x.key := x.value]
  {
    assert (run + [x])[..|run|] == run;
  }

  /** A record has the keys of its run, and as many. */
  lemma {:induction false} RecordKeys(run: seq<Pair>)
    ensures AsRecord(run).Keys == Keys(run)
    ensures Distinct(run) ==> |AsRecord(run)| == |run|
    decreases |run|
  {
    if run != [] {
      var front, x := run[..|run| - 1], run[|run| - 1];
      assert run == front + [x];
      RecordKeys(front);
      KeysSnoc(front, x);
      DistinctSnoc(front, x);
      var m := AsRecord(front);
      assert m[x.key := x.value].Keys == m.Keys + {x.key};
      assert |m[x.key := x.value]| == |m[x.key := x.value].Keys| && |m| == |m.Keys|;
    }
  }

  /** A record holds exactly the pairs of its run: as many, and each with its own value. */
  lemma {:induction false} RecordOfRun(run: seq<Pair>, i: nat)
    requires Distinct(run) && i < |run|
    ensures |AsRecord(run)| == |run|
    ensures run[i].key in AsRecord(run) && AsRecord(run)[run[i].key] == run[i].value
    decreases |run|
  {
    var front, x := run[..|run| - 1], run[|run| - 1];
    assert run == front + [x];
    RecordKeys(run);
    if i < |front| {
      DistinctSnoc(front, x);
      RecordOfRun(front, i);
      assert run[i].key != x.key;
    }
  }

  /** Each record is that of the run at its place. */
  ghost predicate AreRuns(records: seq<Record>, runs: seq<seq<Pair>>) {
    if runs == [] then records == []
    else
      && records != []
      && Distinct(runs[0]) && records[0] == AsRecord(runs[0])
      && AreRuns(records[1..], runs[1..])
  }

  lemma AreRunsCons(run: seq<Pair>, records: seq<Record>, runs: seq<seq<Pair>>)
    requires Distinct(run) && AreRuns(records, runs)
    ensures AreRuns([AsRecord(run)] + records, [run] + runs)
  {
    assert ([AsRecord(run)] + records)[1..] == records;
    assert ([run] + runs)[1..] == runs;
  }

  /** The runs of pairs behind the records. */
  function Runs(pairs: seq<Pair>, current: seq<Pair>): seq<seq<Pair>> {
    if pairs == [] then [current]
    else if pairs[0].key in Keys(current) then [current] + Runs(pairs[1..], [pairs[0]])
    else Runs(pairs[1..], current + [pairs[0]])
  }

  /** The runs, one after the other, are the pairs. */
  lemma {:induction false} RunsAreConsecutive(pairs: seq<Pair>, current: seq<Pair>)
    ensures Concat(Runs(pairs, current)) == current + pairs
    decreases |pairs|
  {
    if pairs == [] {
      assert Concat([current]) == current + Concat([current][1..]);
    } else {
      var x, rest := pairs[0], pairs[1..];
      if x.key in Keys(current) {
        RunsAreConsecutive(rest, [x]);
        assert ([current] + Runs(rest, [x]))[1..] == Runs(rest, [x]);
        assert current + ([x] + rest) == current + pairs;
      } else {
        RunsAreConsecutive(rest, current + [x]);
        assert current + [x] + rest == current + pairs;
      }
    }
  }

  lemma SplitCut(pairs: seq<Pair>, current: seq<Pair>)
    requires pairs != []
    ensures pairs[0].key in Keys(current) ==>
      Split(pairs, AsRecord(current)) == [AsRecord(current)] + Split(pairs[1..], AsRecord([pairs[0]]))
    ensures pairs[0].key !in Keys(current) ==>
      Split(pairs, AsRecord(current)) == Split(pairs[1..], AsRecord(current + [pairs[0]]))
  {
    RecordKeys(current);
    RecordSnoc(current, pairs[0]);
    RecordSnoc([], pairs[0]);
    assert [] + [pairs[0]] == [pairs[0]];
  }

  /** The runs have distinct keys, and the records are theirs. */
  lemma {:induction false} RecordsAreRuns(pairs: seq<Pair>, current: seq<Pair>)
    requires Distinct(current)
    ensures AreRuns(Split(pairs, AsRecord(current)), Runs(pairs, current))
    decreases |pairs|
  {
    if pairs == [] {
      AreRunsCons(current, [], []);
      assert [AsRecord(current)] + [] == [AsRecord(current)] && [current] + [] == [current];
    } else {
      var x, rest := pairs[0], pairs[1..];
      SplitCut(pairs, current);
      if x.key in Keys(current) {
        RecordsAreRuns(rest, [x]);
        AreRunsCons(current, Split(rest, AsRecord([x])), Runs(rest, [x]));
      } else {
        DistinctSnoc(current, x);
        RecordsAreRuns(rest, current + [x]);
      }
    }
  }

  // ----- no grouping has fewer

  /** The number of records, given the keys of the record being filled. */
  function Count(pairs: seq<Pair>, keys: set<string>): nat {
    if pairs == [] then 1
    else if pairs[0].key in keys then 1 + Count(pairs[1..], {pairs[0].key})
    else Count(pairs[1..], keys + {pairs[0].key})
  }

  lemma {:induction false} CountsRecords(pairs: seq<Pair>, row: Record)
    ensures |Split(pairs, row)| == Count(pairs, row.Keys)
    decreases |pairs|
  {
    if pairs != [] {
      var x := pairs[0];
      if x.key in row {
        assert map[x.key := x.value].Keys == {x.key};
        CountsRecords(pairs[1..], map[x.key := x.value]);
      } else {
        assert row[x.key := x.value].Keys == row.Keys + {x.key};
        CountsRecords(pairs[1..], row[x.key := x.value]);
      }
    }
  }

  /** Having seen more keys can cost a record, but never more than one. */
  lemma {:induction false} CountMonotone(pairs: seq<Pair>, fewer: set<string>, more: set<string>)
    requires fewer <= more
    ensures Count(pairs, fewer) <= Count(pairs, more) <= 1 + Count(pairs, fewer)
    decreases |pairs|
  {
    if pairs != [] {
      var x := pairs[0].key;
      if x in fewer {
      } else if x in more {
        CountMonotone(pairs[1..], {x}, fewer + {x});
      } else {
        CountMonotone(pairs[1..], fewer + {x}, more + {x});
      }
    }
  }

  /** A run with distinct, unseen keys does not end a record. */
  lemma {:induction false} CountRun(run: seq<Pair>, rest: seq<Pair>, keys: set<string>)
    requires Distinct(run) && Keys(run) !! keys
    ensures Count(run + rest, keys) == Count(rest, keys + Keys(run))
    decreases |run|
  {
    if run == [] {
      assert run + rest == rest && keys + Keys(run) == keys;
    } else {
      var x := run[0].key;
      assert x in Keys(run);
      assert (run + rest)[1..] == run[1..] + rest;
      assert forall i :: 0 <= i < |run[1..]| ==> run[1..][i] == run[i + 1];
      assert Keys(run) == {x} + Keys(run[1..]) by {
        forall k | k in Keys(run)
          ensures k in {x} + Keys(run[1..])
        {
          var i :| 0 <= i < |run| && run[i].key == k;
          if i > 0 {
            assert run[1..][i - 1].key == k;
          }
        }
      }
      assert x !in Keys(run[1..]);
      CountRun(run[1..], rest, keys + {x});
      assert keys + {x} + Keys(run[1..]) == keys + Keys(run);
    }
  }

  /** Greedy splitting is optimal among all groupings into consecutive runs with distinct keys. */
  lemma {:induction false} FewestRecords(pairs: seq<Pair>, runs: seq<seq<Pair>>)
    requires pairs != []
    requires Concat(runs) == pairs
    requires forall i :: 0 <= i < |runs| ==> Distinct(runs[i])
    ensures |Split(pairs, map[])| <= |runs|
    decreases |runs|
  {
    var none: Record := map[];
    assert none.Keys == {};
    CountsRecords(pairs, none);
    var rest := Concat(runs[1..]);
    CountRun(runs[0], rest, {});
    CountMonotone(rest, {}, {} + Keys(runs[0]));
    if rest != [] {
      FewestRecords(rest, runs[1..]);
      CountsRecords(rest, none);
    }
  }
}
