/**
 * Flagging of usernames without an explorer process (ee/consoleuser/consoleuser_windows.go). Only the
 * last three failure times of a username are kept. Shown here: that watches the same usernames as the
 * whole history would exactly until a failure whose window holds three, but fewer than three among it
 * and the three before it; and there is none as long as the clock does not go back between failures of
 * one username.
 */
module InvalidUsernames {
  const MaxFailures := 3

  datatype Failure = Failure(username: string, time: int, window: int)

  /** Failure times by username, and the usernames flagged. */
  datatype State = State(potential: map<string, seq<int>>, known: set<string>)

  /** How many times are in the window that begins at `start`. */
  function Recent(times: seq<int>, start: int): nat {
    if times == [] then 0 else (if times[0] >= start then 1 else 0) + Recent(times[1..], start)
  }

  function LastThree(times: seq<int>): seq<int> {
    if |times| > MaxFailures then times[|times| - MaxFailures..] else times
  }

  /** The usernames and times after a failure, keeping the last three times only. */
  function Fail(st: State, f: Failure): State {
    if f.username !in st.potential then st.(potential := st.potential[f.username := [f.time]])
    else
      var times := st.potential[f.username] + [f.time];
      if Recent(times, f.time - f.window) >= MaxFailures
      then State(st.potential - {f.username}, st.known + {f.username})
      else st.(potential := st.potential[f.username := LastThree(times)])
  }

  /** The same with every time since the username was last flagged. */
  function FailRemembering(st: State, f: Failure): State {
    var times := (if f.username in st.potential then st.potential[f.username] else []) + [f.time];
    if Recent(times, f.time - f.window) >= MaxFailures
    then State(st.potential - {f.username}, st.known + {f.username})
    else st.(potential := st.potential[f.username := times])
  }

  /** The package-level maps, updated in place. */
  class Usernames {
    var potential: map<string, seq<int>>
    var known: set<string>

    ghost function Now(): State
      reads this
    {
      State(potential, known)
    }

    constructor ()
      ensures Now() == State(map[], {})
    {
      potential, known := map[], {};
    }

    method UpdateInvalidUsernameMaps(username: string, window: int, now: int)
      modifies this
      ensures Now() == Fail(old(Now()), Failure(username, now, window))
    {
      if username !in potential {
        potential := potential[username := [now]];
        return;
      }
      potential := potential[username := potential[username] + [now]];
      var times := potential[username];
      var start := now - window;
      var failures := 0;
      for i := 0 to |times|
        invariant failures + Recent(times[i..], start) == Recent(times, start)
      {
        assert times[i..][1..] == times[i + 1..];
        if times[i] >= start {
          failures := failures + 1;
        }
      }
      assert potential - {username} == old(potential) - {username};
      if failures >= MaxFailures {
        known := known + {username};
        potential := potential - {username};
        return;
      }
      if |times| > MaxFailures {
        potential := potential[username := times[|times| - MaxFailures..]];
      }
    }
  }

  // ----- three times are enough

  predicate Sorted(times: seq<int>) {
    forall i, j :: 0 <= i < j < |times| ==> times[i] <= times[j]
  }

  lemma {:induction false} RecentAppend(a: seq<int>, b: seq<int>, start: int)
    ensures Recent(a + b, start) == Recent(a, start) + Recent(b, start)
    decreases |a|
  {
    if a == [] {
      assert a + b == b;
    } else {
      assert (a + b)[1..] == a[1..] + b;
      RecentAppend(a[1..], b, start);
    }
  }

  lemma {:induction false} RecentNone(times: seq<int>, start: int)
    requires forall i :: 0 <= i < |times| ==> times[i] < start
    ensures Recent(times, start) == 0
    decreases |times|
  {
    if times != [] {
      RecentNone(times[1..], start);
    }
  }

  lemma {:induction false} RecentAtMost(times: seq<int>, start: int)
    ensures Recent(times, start) <= |times|
    decreases |times|
  {
    if times != [] {
      RecentAtMost(times[1..], start);
    }
  }

  lemma RecentOfThree(times: seq<int>, start: int)
    requires |times| == 3 && Sorted(times)
    ensures Recent(times, start) >= 3 <==> times[0] >= start
  {
    assert Recent(times, start) == (if times[0] >= start then 1 else 0) + Recent(times[1..], start);
    RecentAtMost(times[1..], start);
    if times[0] >= start {
      assert times[1] >= start && times[2] >= start;
      assert times[1..][1..] == [times[2]];
      assert Recent([times[2]], start) == 1;
    }
  }

  /** In sorted times, three are recent exactly when the third last is. */
  lemma ThreeRecent(times: seq<int>, start: int)
    requires Sorted(times)
    ensures Recent(times, start) >= 3 <==> |times| >= 3 && times[|times| - 3] >= start
  {
    if |times| < 3 {
      RecentAtMost(times, start);
    } else {
      var n := |times| - 3;
      var old_, last := times[..n], times[n..];
      assert times == old_ + last;
      RecentAppend(old_, last, start);
      RecentOfThree(last, start);
      if times[n] < start {
        RecentNone(old_, start);
        RecentAtMost(last, start);
      }
    }
  }

  /** The same usernames are flagged and watched, and the kept times are the last three of all of them. */
  ghost predicate Agrees(kept: State, full: State) {
    && kept.known == full.known
    && kept.potential.Keys == full.potential.Keys
    && forall u :: u in full.potential ==> kept.potential[u] == LastThree(full.potential[u])
  }

  function TimesOf(st: State, username: string): seq<int> {
    if username in st.potential then st.potential[username] else []
  }

  /** Three failures are in the window, but fewer among this one and the three before it. */
  predicate Overlooks(full: State, f: Failure) {
    var times, start := TimesOf(full, f.username), f.time - f.window;
    Recent(times + [f.time], start) >= MaxFailures > Recent(LastThree(times) + [f.time], start)
  }

  lemma LastThreeSnoc(full: seq<int>, time: int)
    ensures LastThree(LastThree(full) + [time]) == LastThree(full + [time])
  {
    if |full| > MaxFailures {
      var kept := LastThree(full);
      assert (kept + [time])[1..] == (full + [time])[|full| - 2..];
    }
  }

  lemma SortedSnoc(times: seq<int>, time: int)
    requires Sorted(times) && AllUpTo(times, time)
    ensures Sorted(times + [time])
  {}

  lemma RecentOfLastThree(full: seq<int>, time: int, start: int)
    ensures Recent(LastThree(full) + [time], start) <= Recent(full + [time], start)
  {
    if |full| > MaxFailures {
      var old_ := full[..|full| - MaxFailures];
      assert full + [time] == old_ + (LastThree(full) + [time]);
      RecentAppend(old_, LastThree(full) + [time], start);
    }
  }

  /** A failure keeps the two in agreement, or it is overlooked, and then one is still watched that should be flagged. */
  lemma StepAgrees(kept: State, full: State, f: Failure)
    requires Agrees(kept, full)
    ensures !Overlooks(full, f) ==> Agrees(Fail(kept, f), FailRemembering(full, f))
    ensures Overlooks(full, f) ==> Fail(kept, f).potential.Keys != FailRemembering(full, f).potential.Keys
  {
    var times, start := TimesOf(full, f.username), f.time - f.window;
    RecentOfLastThree(times, f.time, start);
    if f.username in full.potential {
      LastThreeSnoc(times, f.time);
    } else {
      assert [] + [f.time] == [f.time];
      RecentAtMost([f.time], start);
    }
    if Overlooks(full, f) {
      assert f.username in Fail(kept, f).potential && f.username !in FailRemembering(full, f).potential;
    }
  }

  function Run(st: State, failures: seq<Failure>): State
    decreases |failures|
  {
    if failures == [] then st else Run(Fail(st, failures[0]), failures[1..])
  }

  function RunRemembering(st: State, failures: seq<Failure>): State
    decreases |failures|
  {
    if failures == [] then st else RunRemembering(FailRemembering(st, failures[0]), failures[1..])
  }

  /** The same usernames are watched after every failure. */
  predicate SameWatched(kept: State, full: State, failures: seq<Failure>)
    decreases |failures|
  {
    && kept.potential.Keys == full.potential.Keys
    && (failures != [] ==> SameWatched(Fail(kept, failures[0]), FailRemembering(full, failures[0]), failures[1..]))
  }

  predicate NoneOverlooked(full: State, failures: seq<Failure>)
    decreases |failures|
  {
    failures != [] ==> !Overlooks(full, failures[0]) && NoneOverlooked(FailRemembering(full, failures[0]), failures[1..])
  }

  lemma {:induction false} RunAgrees(kept: State, full: State, failures: seq<Failure>)
    requires Agrees(kept, full)
    ensures SameWatched(kept, full, failures) <==> NoneOverlooked(full, failures)
    ensures NoneOverlooked(full, failures) ==> Agrees(Run(kept, failures), RunRemembering(full, failures))
    decreases |failures|
  {
    if failures != [] {
      StepAgrees(kept, full, failures[0]);
      if !Overlooks(full, failures[0]) {
        RunAgrees(Fail(kept, failures[0]), FailRemembering(full, failures[0]), failures[1..]);
      }
    }
  }

  /**
   * Whatever the clock does, the same usernames are watched all along as if every time had been kept
   * exactly when no failure is overlooked; and then the same are flagged.
   */
  lemma LosslessExactly(failures: seq<Failure>)
    ensures SameWatched(NoFailures, NoFailures, failures) <==> NoneOverlooked(NoFailures, failures)
    ensures NoneOverlooked(NoFailures, failures) ==> Run(NoFailures, failures).known == RunRemembering(NoFailures, failures).known
  {
    RunAgrees(NoFailures, NoFailures, failures);
  }

  // ----- when the clock does not go back

  ghost predicate AllUpTo(times: seq<int>, time: int) {
    forall i :: 0 <= i < |times| ==> times[i] <= time
  }

  /** The times of each username are sorted. */
  ghost predicate InOrder(full: State) {
    forall u :: u in full.potential ==> Sorted(full.potential[u])
  }

  ghost predicate NotBefore(full: State, f: Failure) {
    AllUpTo(TimesOf(full, f.username), f.time)
  }

  /** Whether three of the times are recent can be told from the last three and the new one. */
  lemma RecentFromLastThree(full: seq<int>, time: int, start: int)
    requires Sorted(full) && AllUpTo(full, time)
    ensures Recent(LastThree(full) + [time], start) >= 3 <==> Recent(full + [time], start) >= 3
  {
    var kept := LastThree(full);
    assert Sorted(kept);
    SortedSnoc(full, time);
    SortedSnoc(kept, time);
    ThreeRecent(full + [time], start);
    ThreeRecent(kept + [time], start);
  }

  lemma StepInOrder(full: State, f: Failure)
    requires InOrder(full) && NotBefore(full, f)
    ensures !Overlooks(full, f) && InOrder(FailRemembering(full, f))
  {
    var times := TimesOf(full, f.username);
    SortedSnoc(times, f.time);
    RecentFromLastThree(times, f.time, f.time - f.window);
  }

  /** The clock does not go back between failures of one username. */
  predicate OwnClocksGoOn(failures: seq<Failure>) {
    forall i, j :: 0 <= i < j < |failures| && failures[i].username == failures[j].username ==>
      failures[i].time <= failures[j].time
  }

  lemma LaterNotBefore(full: State, f: Failure, later: Failure)
    requires NotBefore(full, later) && (f.username == later.username ==> f.time <= later.time)
    ensures NotBefore(FailRemembering(full, f), later)
  {
  }

  lemma {:induction false} OrderedOverlooksNone(full: State, failures: seq<Failure>)
    requires InOrder(full) && OwnClocksGoOn(failures)
    requires forall i :: 0 <= i < |failures| ==> NotBefore(full, failures[i])
    ensures NoneOverlooked(full, failures)
    decreases |failures|
  {
    if failures != [] {
      var f, rest := failures[0], failures[1..];
      StepInOrder(full, f);
      forall i | 0 <= i < |rest| ensures NotBefore(FailRemembering(full, f), rest[i]) {
        assert rest[i] == failures[i + 1];
        LaterNotBefore(full, f, rest[i]);
      }
      OrderedOverlooksNone(FailRemembering(full, f), rest);
    }
  }

  const NoFailures := State(map[], {})

  /**
   * After each of any number of failures, those of each username in the order of the clock, the same
   * usernames are flagged, and the same are under watch, as if every time had been kept: every
   * username is flagged at the same failure.
   */
  lemma TruncationIsLossless(failures: seq<Failure>, n: nat)
    requires OwnClocksGoOn(failures) && n <= |failures|
    ensures Run(NoFailures, failures[..n]).known == RunRemembering(NoFailures, failures[..n]).known
    ensures Run(NoFailures, failures[..n]).potential.Keys == RunRemembering(NoFailures, failures[..n]).potential.Keys
  {
    OrderedOverlooksNone(NoFailures, failures[..n]);
    RunAgrees(NoFailures, NoFailures, failures[..n]);
  }

  lemma RecentSnoc(times: seq<int>, t: int, start: int)
    ensures Recent(times + [t], start) == Recent(times, start) + (if t >= start then 1 else 0)
  {
    RecentAppend(times, [t], start);
    assert Recent([t], start) == (if t >= start then 1 else 0) + Recent([t][1..], start);
  }

  function Watched(times: seq<int>): State {
    State(map["u" := times], {})
  }

  /** A failure that leaves fewer than three recent ones adds a time to both. */
  lemma NotYet(kept: seq<int>, full: seq<int>, t: int)
    requires Recent(kept + [t], t - 60) < 3 && Recent(full + [t], t - 60) < 3
    ensures Fail(Watched(kept), Failure("u", t, 60)) == Watched(LastThree(kept + [t]))
    ensures FailRemembering(Watched(full), Failure("u", t, 60)) == Watched(full + [t])
  {}

  lemma AllRecent(start: int)
    ensures Recent([1000, 0], start) <= 2
    ensures Recent([1000, 0, 500], start) == (if 1000 >= start then 1 else 0) + (if 0 >= start then 1 else 0) + (if 500 >= start then 1 else 0)
    ensures Recent([1000, 0, 500, 2000], start) == Recent([1000, 0, 500], start) + (if 2000 >= start then 1 else 0)
    ensures Recent([1000, 0, 500, 2000, 1000], start) == Recent([1000, 0, 500, 2000], start) + (if 1000 >= start then 1 else 0)
    ensures Recent([0, 500, 2000, 1000], start) <= (if 0 >= start then 1 else 0) + (if 500 >= start then 1 else 0) + 2
  {
    RecentAtMost([1000, 0], start);
    RecentSnoc([], 1000, start);
    RecentSnoc([1000], 0, start);
    RecentSnoc([1000, 0], 500, start);
    RecentSnoc([1000, 0, 500], 2000, start);
    RecentSnoc([1000, 0, 500, 2000], 1000, start);
    RecentSnoc([], 0, start);
    RecentSnoc([0], 500, start);
    RecentSnoc([0, 500], 2000, start);
    RecentSnoc([0, 500, 2000], 1000, start);
    assert [] + [1000] == [1000] && [1000] + [0] == [1000, 0] && [1000, 0] + [500] == [1000, 0, 500];
    assert [1000, 0, 500] + [2000] == [1000, 0, 500, 2000] && [1000, 0, 500, 2000] + [1000] == [1000, 0, 500, 2000, 1000];
    assert [] + [0] == [0] && [0] + [500] == [0, 500] && [0, 500] + [2000] == [0, 500, 2000] && [0, 500, 2000] + [1000] == [0, 500, 2000, 1000];
  }

  /** A clock that is set back makes a difference: a failure that is recent again has been forgotten. */
  lemma ClockMustNotGoBack(times: seq<int>)
    requires times == [1000, 0, 500, 2000]
    ensures var f := Failure("u", 1000, 60);
      && Fail(Watched(LastThree(times)), f).known == {}
      && FailRemembering(Watched(times), f).known == {"u"}
  {
    AllRecent(940);
    assert LastThree(times) == [0, 500, 2000];
    assert LastThree(times) + [1000] == [0, 500, 2000, 1000];
    assert times + [1000] == [1000, 0, 500, 2000, 1000];
  }

  /** Those times are reached without a flag. */
  lemma ClockSetBackReachable(f0: Failure, f1: Failure, f2: Failure, f3: Failure)
    requires f0 == Failure("u", 1000, 60) && f1 == Failure("u", 0, 60) && f2 == Failure("u", 500, 60) && f3 == Failure("u", 2000, 60)
    ensures Fail(Fail(Fail(Fail(NoFailures, f0), f1), f2), f3) == Watched(LastThree([1000, 0, 500, 2000]))
    ensures FailRemembering(FailRemembering(FailRemembering(FailRemembering(NoFailures, f0), f1), f2), f3) == Watched([1000, 0, 500, 2000])
  {
    AllRecent(-60);
    AllRecent(440);
    AllRecent(1940);
    RecentAtMost([1000], 940);
    assert [] + [1000] == [1000] && [1000] + [0] == [1000, 0] && [1000, 0] + [500] == [1000, 0, 500];
    assert [1000, 0, 500] + [2000] == [1000, 0, 500, 2000];
    assert Fail(NoFailures, f0) == Watched([1000]) && FailRemembering(NoFailures, f0) == Watched([1000]);
    NotYet([1000], [1000], 0);
    NotYet([1000, 0], [1000, 0], 500);
    NotYet([1000, 0, 500], [1000, 0, 500], 2000);
  }
}
