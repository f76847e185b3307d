/**
 * The control service (ee/control/control.go): it asks the control server for the hash of every
 * subsystem, fetches the data of those whose hash it has not recorded, and hands the data to the
 * subsystem's consumer. Hashes are recorded in memory and, where there is a store, across restarts.
 * Shown here over whole runs: what a recorded hash says about what the consumer was given, when a
 * subsystem is skipped although its consumer is out of date, that consumers catch up, and that a
 * request for a full fetch reaches every subsystem.
 */
module ControlService {
  import opened Bytes

  /** What the world did while one listed subsystem was handled. */
  datatype Outcome = Outcome(
    force: bool,     // all subsystems are being forced
    readable: bool,  // the stored hash could be read
    fetched: bool,   // the server gave the subsystem's data
    accepted: bool,  // the consumer took it
    full: bool,      // the data was an action that asks for a full fetch
    saved: bool)     // the new hash could be stored

  /** One entry of the server's map from subsystems to hashes. */
  datatype Listing = Listing(subsystem: string, hash: string, outcome: Outcome)

  /** A consumer was given data, or subscribers were pinged; `saved` when the hash reached the store. */
  datatype Delivery = Delivery(subsystem: string, hash: string, saved: bool)

  datatype State = State(
    lastFetched: map<string, string>,
    store: Option<map<string, string>>,
    fetchFull: bool,
    consumers: set<string>,
    subscribers: set<string>,
    log: seq<Delivery>)

  /** A call of Fetch. `config` is the server's map in the order it is gone through; None when it could not be had. */
  datatype Request = Request(standby: bool, locked: bool, config: Option<seq<Listing>>)

  datatype Event = Fetching(request: Request) | FullRequested | Restarted

  predicate Known(st: State, subsystem: string) {
    subsystem in st.consumers || subsystem in st.subscribers
  }

  function LastHash(st: State, subsystem: string, readable: bool): string {
    if subsystem in st.lastFetched then st.lastFetched[subsystem]
    else if st.store.Some? && readable && subsystem in st.store.value then st.store.value[subsystem]
    else ""
  }

  predicate Succeeds(st: State, l: Listing) {
    l.outcome.fetched && (l.subsystem in st.consumers ==> l.outcome.accepted)
  }

  /** fetchAndUpdate. */
  function Attempt(st: State, l: Listing): State {
    var asked := l.outcome.fetched && l.subsystem in st.consumers && l.outcome.full;
    var st := st.(fetchFull := st.fetchFull || asked);
    if !Succeeds(st, l) then st
    else
      var saved := st.store.Some? && l.outcome.saved;
      st.(lastFetched := st.lastFetched[l.subsystem := l.hash],
          store := if saved then Some(st.store.value[l.subsystem := l.hash]) else st.store,
          log := st.log + [Delivery(l.subsystem, l.hash, saved)])
  }

  predicate Skips(st: State, l: Listing, full: bool) {
    l.hash == LastHash(st, l.subsystem, l.outcome.readable) && !l.outcome.force && !full
  }

  function FetchOne(st: State, l: Listing, full: bool): State {
    if !Known(st, l.subsystem) || Skips(st, l, full) then st else Attempt(st, l)
  }

  function FetchAll(st: State, config: seq<Listing>, full: bool): State
    decreases |config|
  {
    if config == [] then st else FetchAll(FetchOne(st, config[0], full), config[1..], full)
  }

  /** The fetch gets as far as going through the subsystems. */
  predicate Effective(r: Request) {
    !r.standby && !r.locked && r.config.Some?
  }

  function Fetched(st: State, r: Request): State {
    if !Effective(r) then st else FetchAll(st.(fetchFull := false), r.config.value, st.fetchFull)
  }

  function Step(st: State, e: Event): State {
    match e
    case Fetching(r) => Fetched(st, r)
    case FullRequested => st.(fetchFull := true)
    case Restarted => st.(lastFetched := map[], fetchFull := false)
  }

  function Run(st: State, events: seq<Event>): State
    decreases |events|
  {
    if events == [] then st else Run(Step(st, events[0]), events[1..])
  }

  // ----- what the records say

  /** The hash of what `subsystem` was last given. */
  function LastGiven(log: seq<Delivery>, subsystem: string): Option<string>
    decreases |log|
  {
    if log == [] then None
    else if log[|log| - 1].subsystem == subsystem then Some(log[|log| - 1].hash)
    else LastGiven(log[..|log| - 1], subsystem)
  }

  /** The hash of what it was last given of which the hash was stored. */
  function LastSaved(log: seq<Delivery>, subsystem: string): Option<string>
    decreases |log|
  {
    if log == [] then None
    else if log[|log| - 1].subsystem == subsystem && log[|log| - 1].saved then Some(log[|log| - 1].hash)
    else LastSaved(log[..|log| - 1], subsystem)
  }

  function Stored(st: State, subsystem: string): Option<string> {
    if st.store.Some? && subsystem in st.store.value then Some(st.store.value[subsystem]) else None
  }

  /** The records of one subsystem are true: in memory of what it was last given, in the store of what was last saved. */
  predicate RecordTrue(st: State, subsystem: string) {
    && (subsystem in st.lastFetched ==> LastGiven(st.log, subsystem) == Some(st.lastFetched[subsystem]))
    && (st.store.Some? ==> Stored(st, subsystem) == LastSaved(st.log, subsystem))
  }

  ghost predicate Inv(st: State) {
    forall s :: RecordTrue(st, s)
  }

  lemma LastOfAppended(log: seq<Delivery>, d: Delivery, s: string)
    ensures LastGiven(log + [d], s) == if d.subsystem == s then Some(d.hash) else LastGiven(log, s)
    ensures LastSaved(log + [d], s) == if d.subsystem == s && d.saved then Some(d.hash) else LastSaved(log, s)
  {
    assert (log + [d])[..|log + [d]| - 1] == log;
  }

  lemma FetchOneRecord(st: State, l: Listing, full: bool, s: string)
    requires RecordTrue(st, s)
    ensures RecordTrue(FetchOne(st, l, full), s)
  {
    LastOfAppended(st.log, Delivery(l.subsystem, l.hash, st.store.Some? && l.outcome.saved), s);
  }

  lemma {:induction false} FetchAllRecord(st: State, config: seq<Listing>, full: bool, s: string)
    requires RecordTrue(st, s)
    ensures RecordTrue(FetchAll(st, config, full), s)
    decreases |config|
  {
    if config != [] {
      FetchOneRecord(st, config[0], full, s);
      FetchAllRecord(FetchOne(st, config[0], full), config[1..], full, s);
    }
  }

  lemma {:induction false} RunRecord(st: State, events: seq<Event>, s: string)
    requires RecordTrue(st, s)
    ensures RecordTrue(Run(st, events), s)
    decreases |events|
  {
    if events != [] {
      if events[0].Fetching? && Effective(events[0].request) {
        FetchAllRecord(st.(fetchFull := false), events[0].request.config.value, st.fetchFull, s);
      }
      RunRecord(Step(st, events[0]), events[1..], s);
    }
  }

  /** Whatever happens, a recorded hash is that of what the subsystem was last given, a stored one of what was last saved. */
  lemma RecordsAreTrue(st: State, events: seq<Event>)
    requires Inv(st)
    ensures Inv(Run(st, events))
  {
    forall s ensures RecordTrue(Run(st, events), s) {
      assert RecordTrue(st, s);
      RunRecord(st, events, s);
    }
  }

  // ----- when a subsystem is skipped although it is out of date

  predicate Current(st: State, s: string, hash: string) {
    LastGiven(st.log, s) == Some(hash)
  }

  /** The hash of what `s` was last given is recorded somewhere. */
  predicate Recorded(st: State, s: string) {
    s in st.lastFetched || LastGiven(st.log, s) == LastSaved(st.log, s)
  }

  /** No record in memory, and the stored one is of something older, or there is none and the hash is empty. */
  predicate RecordMisleads(st: State, l: Listing) {
    && l.subsystem !in st.lastFetched
    && if l.outcome.readable && Stored(st, l.subsystem).Some?
       then LastSaved(st.log, l.subsystem) == Some(l.hash) && !Recorded(st, l.subsystem)
       else l.hash == "" && LastGiven(st.log, l.subsystem) != Some("")
  }

  /**
   * In any run, an out of date subsystem is skipped in two cases only: the server lists it with an
   * empty hash and there is no record of it; or, after a restart, what it was given last could not be
   * stored, and the server is back at the hash stored before that.
   */
  lemma SkippedOutOfDate(start: State, events: seq<Event>, st: State, l: Listing)
    requires Inv(start) && st == Run(start, events)
    ensures Skips(st, l, false) && !Current(st, l.subsystem, l.hash)
       <==> RecordMisleads(st, l) && !l.outcome.force
  {
    RecordsAreTrue(start, events);
    assert RecordTrue(st, l.subsystem);
  }

  /** Where neither can be, a subsystem is skipped exactly when it is up to date and its record can be read. */
  lemma SkippedUpToDate(start: State, events: seq<Event>, st: State, l: Listing)
    requires Inv(start) && st == Run(start, events) && Recorded(st, l.subsystem) && l.hash != ""
    ensures Skips(st, l, false)
       <==> && Current(st, l.subsystem, l.hash) && !l.outcome.force
            && (l.subsystem in st.lastFetched || (l.outcome.readable && st.store.Some?))
  {
    RecordsAreTrue(start, events);
    assert RecordTrue(st, l.subsystem);
  }

  function Fresh(store: bool): State {
    State(map[], if store then Some(map[]) else None, false, {"flags"}, {}, [])
  }

  const Fine := Outcome(false, true, true, true, false, true)

  function Listed(hash: string, o: Outcome): Event {
    Fetching(Request(false, false, Some([Listing("flags", hash, o)])))
  }

  lemma FetchListed(st: State, hash: string, o: Outcome)
    ensures Step(st, Listed(hash, o)) == FetchOne(st.(fetchFull := false), Listing("flags", hash, o), st.fetchFull)
  {
    var config := [Listing("flags", hash, o)];
    assert config[1..] == [];
    assert FetchAll(FetchOne(st.(fetchFull := false), config[0], st.fetchFull), [], st.fetchFull)
        == FetchOne(st.(fetchFull := false), config[0], st.fetchFull);
  }

  /** The second case happens: one store failure, a restart, and a server that goes back to an older hash. */
  lemma RevertAfterLostSave()
    ensures var st := Run(Fresh(true), [Listed("a", Fine), Listed("b", Fine.(saved := false)), Restarted, Listed("a", Fine)]);
      Current(st, "flags", "b") && !Current(st, "flags", "a")
  {
    var events := [Listed("a", Fine), Listed("b", Fine.(saved := false)), Restarted, Listed("a", Fine)];
    var st0 := Fresh(true);
    FetchListed(st0, "a", Fine);
    var st1 := Step(st0, events[0]);
    assert st1.log == [Delivery("flags", "a", true)];
    FetchListed(st1, "b", Fine.(saved := false));
    var st2 := Step(st1, events[1]);
    assert st2.log == [Delivery("flags", "a", true), Delivery("flags", "b", false)];
    var st3 := Step(st2, Restarted);
    FetchListed(st3, "a", Fine);
    var st4 := Step(st3, events[3]);
    assert st4.log == st2.log;
    assert events[1..] == [events[1], events[2], events[3]];
    assert events[1..][1..] == [events[2], events[3]];
    assert events[1..][1..][1..] == [events[3]];
    assert events[1..][1..][1..][1..] == [];
    assert Run(st4, []) == st4;
    assert Run(st3, [events[3]]) == st4;
    assert Run(st2, [events[2], events[3]]) == st4;
  }

  /** So does the first: a subsystem listed with an empty hash is never given anything. */
  lemma EmptyHashNotDelivered(store: bool)
    ensures Run(Fresh(store), [Listed("", Fine)]).log == []
  {
    FetchListed(Fresh(store), "", Fine);
    var events := [Listed("", Fine)];
    assert events[1..] == [];
    assert Run(Step(Fresh(store), events[0]), []) == Step(Fresh(store), events[0]);
  }

  // ----- consumers catch up

  lemma FetchOneOther(st: State, l: Listing, full: bool, s: string)
    requires l.subsystem != s
    ensures var st' := FetchOne(st, l, full);
      && LastGiven(st'.log, s) == LastGiven(st.log, s) && LastSaved(st'.log, s) == LastSaved(st.log, s)
      && (s in st'.lastFetched <==> s in st.lastFetched)
      && (s in st.lastFetched ==> st'.lastFetched[s] == st.lastFetched[s])
      && Stored(st', s) == Stored(st, s)
      && st'.consumers == st.consumers && st'.subscribers == st.subscribers
  {
    LastOfAppended(st.log, Delivery(l.subsystem, l.hash, st.store.Some? && l.outcome.saved), s);
  }

  /** A listing of `s` brings it up to date, or leaves its records and what it has alone. */
  lemma FetchOneSelf(st: State, l: Listing, full: bool)
    requires RecordTrue(st, l.subsystem)
    ensures var st' := FetchOne(st, l, full); var s := l.subsystem;
      && (Recorded(st, s) ==> Recorded(st', s))
      && (Current(st, s, l.hash) ==> Current(st', s, l.hash))
      && (Recorded(st, s) && l.hash != "" && Known(st, s) && Succeeds(st, l) ==> Current(st', s, l.hash))
  {
    LastOfAppended(st.log, Delivery(l.subsystem, l.hash, st.store.Some? && l.outcome.saved), l.subsystem);
  }

  predicate Serves(st: State, config: seq<Listing>, s: string) {
    exists i :: 0 <= i < |config| && config[i].subsystem == s && Succeeds(st, config[i])
  }

  /** Every listing of `s` has `hash`. */
  predicate Steady(config: seq<Listing>, s: string, hash: string) {
    forall i :: 0 <= i < |config| && config[i].subsystem == s ==> config[i].hash == hash
  }

  lemma {:induction false} FetchAllCurrent(st: State, config: seq<Listing>, full: bool, s: string, hash: string)
    requires RecordTrue(st, s) && Recorded(st, s) && hash != "" && Known(st, s) && Steady(config, s, hash)
    ensures var st' := FetchAll(st, config, full);
      && RecordTrue(st', s) && Recorded(st', s)
      && st'.consumers == st.consumers && st'.subscribers == st.subscribers
      && (Current(st, s, hash) || Serves(st, config, s) ==> Current(st', s, hash))
    decreases |config|
  {
    if config != [] {
      var l := config[0];
      var mid := FetchOne(st, l, full);
      FetchOneRecord(st, l, full, s);
      if l.subsystem == s {
        FetchOneSelf(st, l, full);
      } else {
        FetchOneOther(st, l, full, s);
      }
      assert Steady(config[1..], s, hash) by {
        forall i | 0 <= i < |config[1..]| && config[1..][i].subsystem == s ensures config[1..][i].hash == hash {
          assert config[1..][i] == config[i + 1];
        }
      }
      if Serves(st, config, s) && !(l.subsystem == s && Succeeds(st, l)) {
        var i :| 0 <= i < |config| && config[i].subsystem == s && Succeeds(st, config[i]);
        assert config[1..][i - 1] == config[i];
        assert Succeeds(mid, config[i]);
        assert Serves(mid, config[1..], s);
      }
      FetchAllCurrent(mid, config[1..], full, s, hash);
    }
  }

  predicate SteadyEvent(e: Event, s: string, hash: string) {
    match e
    case Fetching(r) => Effective(r) ==> Steady(r.config.value, s, hash)
    case FullRequested => true
    case Restarted => true
  }

  /** The server stays at `hash` for `s`, and what `s` was last given is saved whenever there is a restart. */
  predicate SteadyRun(st: State, events: seq<Event>, s: string, hash: string)
    decreases |events|
  {
    events == [] ||
    (&& SteadyEvent(events[0], s, hash)
     && (events[0].Restarted? ==> LastGiven(st.log, s) == LastSaved(st.log, s))
     && SteadyRun(Step(st, events[0]), events[1..], s, hash))
  }

  predicate ServingEvent(st: State, e: Event, s: string) {
    e.Fetching? && Effective(e.request) && Serves(st, e.request.config.value, s)
  }

  /**
   * While the server stays at one hash for a subsystem, one fetch in which the data is had and taken
   * is enough, however many failed before or after it and whatever restarts there are once it is
   * saved: from then on the subsystem is up to date.
   */
  lemma {:induction false} CatchesUp(st: State, events: seq<Event>, s: string, hash: string)
    requires RecordTrue(st, s) && Recorded(st, s) && hash != "" && Known(st, s)
    requires SteadyRun(st, events, s, hash)
    ensures Current(st, s, hash) || (exists e :: e in events && ServingEvent(st, e, s)) ==> Current(Run(st, events), s, hash)
    decreases |events|
  {
    if events != [] {
      var e := events[0];
      assert SteadyEvent(e, s, hash);
      var mid := Step(st, e);
      if e.Fetching? && Effective(e.request) {
        var config := e.request.config.value;
        var st0 := st.(fetchFull := false);
        FetchAllCurrent(st0, config, st.fetchFull, s, hash);
        if Serves(st, config, s) {
          var i :| 0 <= i < |config| && config[i].subsystem == s && Succeeds(st, config[i]);
          assert Succeeds(st0, config[i]);
          assert Serves(st0, config, s);
        }
      }
      assert mid.consumers == st.consumers && mid.subscribers == st.subscribers;
      forall e' | e' in events[1..] ensures ServingEvent(st, e', s) == ServingEvent(mid, e', s) {
        SameServing(st, mid, e', s);
      }
      CatchesUp(mid, events[1..], s, hash);
    }
  }

  lemma SameServing(st: State, mid: State, e: Event, s: string)
    requires mid.consumers == st.consumers
    ensures ServingEvent(st, e, s) == ServingEvent(mid, e, s)
  {
    if e.Fetching? && Effective(e.request) {
      var config := e.request.config.value;
      assert forall i :: 0 <= i < |config| ==> Succeeds(st, config[i]) == Succeeds(mid, config[i]);
    }
  }

  // ----- full fetches

  /** What a fetch of every subsystem gives out: each known subsystem whose data is had and taken, in order. */
  function Deliveries(st: State, config: seq<Listing>): seq<Delivery>
    decreases |config|
  {
    if config == [] then []
    else
      var l := config[0];
      (if Known(st, l.subsystem) && Succeeds(st, l) then [Delivery(l.subsystem, l.hash, st.store.Some? && l.outcome.saved)] else [])
      + Deliveries(st, config[1..])
  }

  lemma {:induction false} DeliveriesSame(st: State, mid: State, config: seq<Listing>)
    requires mid.consumers == st.consumers && mid.subscribers == st.subscribers && mid.store.Some? == st.store.Some?
    ensures Deliveries(mid, config) == Deliveries(st, config)
    decreases |config|
  {
    if config != [] {
      DeliveriesSame(st, mid, config[1..]);
    }
  }

  lemma {:induction false} FullFetchGives(st: State, config: seq<Listing>)
    ensures FetchAll(st, config, true).log == st.log + Deliveries(st, config)
    decreases |config|
  {
    if config != [] {
      var mid := FetchOne(st, config[0], true);
      FullFetchGives(mid, config[1..]);
      DeliveriesSame(st, mid, config[1..]);
    }
  }

  /** Fetches that do not get as far as the subsystems. */
  predicate Waiting(events: seq<Event>) {
    forall e :: e in events ==> e.FullRequested? || (e.Fetching? && !Effective(e.request))
  }

  lemma {:induction false} WaitingKeeps(st: State, events: seq<Event>)
    requires Waiting(events)
    ensures Run(st, events) == st.(fetchFull := st.fetchFull || FullRequested in events)
    decreases |events|
  {
    if events != [] {
      assert events[0] in events;
      WaitingKeeps(Step(st, events[0]), events[1..]);
      assert events == [events[0]] + events[1..];
    }
  }

  /**
   * A request for a full fetch is not lost to fetches that are skipped or fail: the first fetch that
   * gets a list of subsystems goes through all of them, whatever is recorded.
   */
  lemma FullRequestHonoured(st: State, events: seq<Event>, config: seq<Listing>)
    requires Waiting(events)
    ensures Step(Run(Step(st, FullRequested), events), Fetching(Request(false, false, Some(config)))).log
         == st.log + Deliveries(st, config)
  {
    var asked := Step(st, FullRequested);
    WaitingKeeps(asked, events);
    var st0 := Run(asked, events).(fetchFull := false);
    FullFetchGives(st0, config);
    DeliveriesSame(st, st0, config);
  }

  // ----- the service itself

  class Service {
    var lastFetched: map<string, string>
    var store: Option<map<string, string>>
    var fetchFull: bool
    var consumers: set<string>
    var subscribers: set<string>
    var log: seq<Delivery>

    ghost function Contents(): State
      reads this
    {
      State(lastFetched, store, fetchFull, consumers, subscribers, log)
    }

    constructor (kept: Option<map<string, string>>, consumers: set<string>, subscribers: set<string>, log: seq<Delivery>)
      ensures Contents() == State(map[], kept, false, consumers, subscribers, log)
    {
      this.lastFetched, this.store, this.fetchFull := map[], kept, false;
      this.consumers, this.subscribers, this.log := consumers, subscribers, log;
    }

    /** The force_full_control_data_fetch action. */
    method Do()
      modifies this
      ensures Contents() == Step(old(Contents()), FullRequested)
    {
      fetchFull := true;
    }

    /** Gives data to the consumer, which may turn out to be the action above, and then pings the subscribers. */
    method Update(l: Listing) returns (ok: bool)
      requires l.outcome.fetched
      modifies this
      ensures ok == Succeeds(old(Contents()), l)
      ensures Contents() == old(Contents()).(fetchFull := old(fetchFull) || (l.subsystem in consumers && l.outcome.full))
    {
      if l.subsystem in consumers {
        if l.outcome.full {
          Do();
        }
        if !l.outcome.accepted {
          return false;
        }
      }
      return true;
    }

    method FetchAndUpdate(l: Listing) returns (ok: bool)
      modifies this
      ensures ok == Succeeds(old(Contents()), l)
      ensures Contents() == Attempt(old(Contents()), l)
    {
      if !l.outcome.fetched {
        return false;
      }
      ok := Update(l);
      if !ok {
        return;
      }
      lastFetched := lastFetched[l.subsystem := l.hash];
      var saved := false;
      if store.Some? && l.outcome.saved {
        store := Some(store.value[l.subsystem := l.hash]);
        saved := true;
      }
      log := log + [Delivery(l.subsystem, l.hash, saved)];
    }

    method Fetch(r: Request) returns (ok: bool)
      modifies this
      ensures Contents() == Fetched(old(Contents()), r)
      ensures ok == (r.standby || (!r.locked && r.config.Some?))
    {
      if r.standby {
        return true;
      }
      if r.locked || r.config.None? {
        return false;
      }
      var full := false;
      if fetchFull {
        full := true;
        fetchFull := false;
      }
      var config := r.config.value;
      var i := 0;
      while i < |config|
        invariant 0 <= i <= |config|
        invariant FetchAll(Contents(), config[i..], full) == Fetched(old(Contents()), r)
      {
        var l := config[i];
        assert config[i..][0] == l && config[i..][1..] == config[i + 1..];
        i := i + 1;
        if !(l.subsystem in consumers || l.subsystem in subscribers) {
          continue;
        }
        var lastHash := "";
        if l.subsystem in lastFetched {
          lastHash := lastFetched[l.subsystem];
        } else if store.Some? && l.outcome.readable && l.subsystem in store.value {
          lastHash := store.value[l.subsystem];
        }
        if l.hash == lastHash && !l.outcome.force && !full {
          continue;
        }
        var _ := FetchAndUpdate(l);
      }
      ok := true;
    }
  }
}
