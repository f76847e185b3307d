/**
 * When the autoupdater restarts things (ee/tuf/autoupdate.go). During the initial delay updates are
 * downloaded but restarts are put off until a timer says the delay is over; the control server may
 * move the end of the delay, and may ask for checks that do not wait for it. The run loop, such
 * checks and changes of the delay interleave, and time passes in between. Shown here over all runs:
 * exactly when something is restarted before the end of the delay without being asked for, and exactly
 * when a restart is put off with no timer to come; after the end of the delay that stays so. Both come of
 * a timer out of step with the end.
 */
module Autoupdater {
  import opened Bytes

  /** The timer set for the end of the initial delay. */
  datatype Timer = Unset | Armed(deadline: nat) | Handled(deadline: nat)

  /** Where the run loop is. `Gated` is past the look at the clock that decides whether restarts are put off. */
  datatype Loop = NotStarted | Checking | Gated(deferring: bool) | Selecting | Returned

  /** A check asked for from outside the run loop. */
  datatype Check = Admitted(bypass: bool) | Deciding(bypass: bool, deferring: bool)

  datatype Binary = Launcher | Osqueryd

  /** A restart, or the signal to reload launcher; `deferred` when it had been put off until the timer fired. */
  datatype Restart = Restart(binary: Binary, version: string, at: nat, bypass: bool, deferred: bool)

  datatype State = State(
    now: nat,
    delayStart: nat,
    delayEnd: nat,
    timer: Timer,
    resets: seq<nat>,            // ends that calls of FlagsChanged have stored and have yet to set the timer to
    pendingLauncher: string,     // empty if none
    pendingOsqueryd: string,
    canRestartOsqueryd: bool,    // a restart function was registered
    loop: Loop,
    checks: seq<Check>,
    signals: seq<string>,
    restarts: seq<Restart>)

  /** What a check downloaded; `localDev` when launcher runs from a development path. */
  datatype Downloads = Downloads(launcher: Option<string>, osqueryd: Option<string>, localDev: bool)

  datatype Event =
    | TimePasses(span: nat)
    | Start
    | Gate
    | Finish(downloads: Downloads)
    | Ticked
    | Interrupted
    | Signalled
    | TimerFired
    | Ask(bypass: bool)
    | GateAsked(i: nat)
    | FinishAsked(i: nat, downloads: Downloads)
    | StoreEnd(delay: nat)
    | ResetTimer(i: nat)

  const SignalBuffer := 10

  predicate Before(st: State) {
    st.now < st.delayEnd
  }

  predicate Fits(st: State, d: Downloads, deferring: bool) {
    d.launcher.Some? && !d.localDev && !deferring ==> |st.signals| < SignalBuffer
  }

  predicate Enabled(st: State, e: Event) {
    match e
    case TimePasses(_) => true
    case Start => st.loop.NotStarted?
    case Gate => st.loop.Checking?
    case Finish(d) => st.loop.Gated? && Fits(st, d, st.loop.deferring)
    case Ticked => st.loop.Selecting?
    case Interrupted => st.loop.Selecting?
    case Signalled => st.loop.Selecting? && st.signals != []
    case TimerFired => st.loop.Selecting? && st.timer.Armed? && st.timer.deadline <= st.now
    case Ask(bypass) => bypass || !Before(st)
    case GateAsked(i) => i < |st.checks| && st.checks[i].Admitted?
    case FinishAsked(i, d) => i < |st.checks| && st.checks[i].Deciding? && Fits(st, d, st.checks[i].deferring)
    case StoreEnd(_) => Before(st)
    case ResetTimer(i) => i < |st.resets|
  }

  /** What a check does with what it downloaded. */
  function Applied(st: State, d: Downloads, deferring: bool, bypass: bool): State {
    if d.launcher.Some? && !d.localDev then
      if deferring then st.(pendingLauncher := d.launcher.value)
      else st.(signals := st.signals + [d.launcher.value],
               restarts := st.restarts + [Restart(Launcher, d.launcher.value, st.now, bypass, false)])
    else if d.osqueryd.Some? then
      if deferring then st.(pendingOsqueryd := d.osqueryd.value)
      else if st.canRestartOsqueryd then
        st.(restarts := st.restarts + [Restart(Osqueryd, d.osqueryd.value, st.now, bypass, false)])
      else st
    else st
  }

  /** The restarts that were put off, when the timer has fired. */
  function RestartedPending(st: State): State {
    if st.pendingLauncher != "" then
      st.(pendingLauncher := "", loop := Returned,
          restarts := st.restarts + [Restart(Launcher, st.pendingLauncher, st.now, false, true)])
    else if st.pendingOsqueryd != "" && st.canRestartOsqueryd then
      st.(pendingOsqueryd := "", loop := Checking,
          restarts := st.restarts + [Restart(Osqueryd, st.pendingOsqueryd, st.now, false, true)])
    else st.(loop := Checking)
  }

  function Step(st: State, e: Event): State
    requires Enabled(st, e)
  {
    match e
    case TimePasses(span) => st.(now := st.now + span)
    case Start => st.(loop := Checking, timer := Armed(st.delayEnd))
    case Gate => st.(loop := Gated(Before(st)))
    case Finish(d) => Applied(st, d, st.loop.deferring, false).(loop := Selecting)
    case Ticked => st.(loop := Checking)
    case Interrupted => st.(loop := Returned)
    case Signalled => st.(loop := Returned, signals := st.signals[1..])
    case TimerFired => RestartedPending(st.(timer := Handled(st.timer.deadline)))
    case Ask(bypass) => st.(checks := st.checks + [Admitted(bypass)])
    case GateAsked(i) =>
      var bypass := st.checks[i].bypass;
      st.(checks := st.checks[i := Deciding(bypass, !bypass && Before(st))])
    case FinishAsked(i, d) =>
      var c := st.checks[i];
      Applied(st, d, c.deferring, c.bypass).(checks := st.checks[..i] + st.checks[i + 1..])
    case StoreEnd(delay) =>
      var end := st.delayStart + delay;
      st.(delayEnd := end, resets := st.resets + [end])
    case ResetTimer(i) =>
      st.(timer := if st.timer.Unset? then Unset else Armed(st.resets[i]), resets := st.resets[..i] + st.resets[i + 1..])
  }

  predicate CanRun(st: State, events: seq<Event>)
    decreases |events|
  {
    events == [] || (Enabled(st, events[0]) && CanRun(Step(st, events[0]), events[1..]))
  }

  function Run(st: State, events: seq<Event>): State
    requires CanRun(st, events)
    decreases |events|
  {
    if events == [] then st else Run(Step(st, events[0]), events[1..])
  }

  /** A new autoupdater. */
  function Created(at: nat, delay: nat, canRestartOsqueryd: bool): State {
    State(at, at, at + delay, Unset, [], "", "", canRestartOsqueryd, NotStarted, [], [], [])
  }

  // ----- what every step keeps

  predicate TimerInv(st: State) {
    && (st.timer.Unset? <==> st.loop.NotStarted?)
    && (st.timer.Handled? ==> st.timer.deadline <= st.now)
  }

  /** A check from outside never puts off a restart; one that does not bypass the delay is past it. */
  predicate CheckInv(st: State, c: Check) {
    && (c.Deciding? ==> !c.deferring)
    && (!c.bypass ==> !Before(st))
  }

  predicate ChecksInv(st: State) {
    forall i :: 0 <= i < |st.checks| ==> CheckInv(st, st.checks[i])
  }

  /** A restart is put off that will be done when the timer fires. */
  predicate Deferred(st: State) {
    st.pendingLauncher != "" || (st.canRestartOsqueryd && st.pendingOsqueryd != "")
  }

  /** The timer has fired, and no call has yet to set it again. */
  predicate TimerDone(st: State) {
    st.timer.Handled? && st.resets == []
  }

  /** It fired before the end of the delay. */
  predicate DoneTooSoon(st: State) {
    TimerDone(st) && st.timer.deadline < st.delayEnd
  }

  predicate LoopInv(st: State) {
    && (st.loop.Gated? ==> if st.loop.deferring then TimerDone(st) ==> DoneTooSoon(st) else !Before(st))
    && (Deferred(st) && !st.loop.Returned? && TimerDone(st) ==> DoneTooSoon(st))
    && (st.loop.NotStarted? ==> st.pendingLauncher == "" == st.pendingOsqueryd)
  }

  predicate Inv(st: State) {
    TimerInv(st) && ChecksInv(st) && LoopInv(st)
  }

  lemma ChecksKept(st: State, st': State)
    requires ChecksInv(st) && st'.checks == st.checks && (Before(st') ==> Before(st))
    ensures ChecksInv(st')
  {
    forall i | 0 <= i < |st'.checks| ensures CheckInv(st', st'.checks[i]) {
      assert CheckInv(st, st.checks[i]);
    }
  }

  lemma AskedInv(st: State, e: Event)
    requires Inv(st) && Enabled(st, e) && (e.Ask? || e.GateAsked?)
    ensures Inv(Step(st, e))
  {
    var st' := Step(st, e);
    forall i | 0 <= i < |st'.checks| ensures CheckInv(st', st'.checks[i]) {
      assert i < |st.checks| ==> CheckInv(st, st.checks[i]);
    }
  }

  lemma FinishAskedInv(st: State, i: nat, d: Downloads)
    requires Inv(st) && Enabled(st, FinishAsked(i, d))
    ensures Inv(Step(st, FinishAsked(i, d)))
  {
    var st' := Step(st, FinishAsked(i, d));
    assert CheckInv(st, st.checks[i]);
    forall j | 0 <= j < |st'.checks| ensures CheckInv(st', st'.checks[j]) {
      assert CheckInv(st, if j < i then st.checks[j] else st.checks[j + 1]);
    }
  }

  lemma StoreEndInv(st: State, delay: nat)
    requires Inv(st) && Enabled(st, StoreEnd(delay))
    ensures Inv(Step(st, StoreEnd(delay)))
  {
    var st' := Step(st, StoreEnd(delay));
    ChecksKept(st, st');
    assert st'.resets != [];
  }

  lemma OtherInv(st: State, e: Event)
    requires Inv(st) && Enabled(st, e)
    requires !e.Ask? && !e.GateAsked? && !e.FinishAsked? && !e.StoreEnd?
    ensures Inv(Step(st, e))
  {
    ChecksKept(st, Step(st, e));
  }

  lemma StepInv(st: State, e: Event)
    requires Inv(st) && Enabled(st, e)
    ensures Inv(Step(st, e))
  {
    match e
    case StoreEnd(delay) => StoreEndInv(st, delay);
    case FinishAsked(i, d) => FinishAskedInv(st, i, d);
    case Ask(_) => AskedInv(st, e);
    case GateAsked(_) => AskedInv(st, e);
    case TimePasses(_) => OtherInv(st, e);
    case Start => OtherInv(st, e);
    case Gate => OtherInv(st, e);
    case Finish(_) => OtherInv(st, e);
    case Ticked => OtherInv(st, e);
    case Interrupted => OtherInv(st, e);
    case Signalled => OtherInv(st, e);
    case TimerFired => OtherInv(st, e);
    case ResetTimer(_) => OtherInv(st, e);
  }

  lemma {:induction false} RunInv(st: State, events: seq<Event>)
    requires Inv(st) && CanRun(st, events)
    ensures Inv(Run(st, events))
    decreases |events|
  {
    if events != [] {
      StepInv(st, events[0]);
      RunInv(Step(st, events[0]), events[1..]);
    }
  }

  /** The end of the delay stays where it is once it has passed. */
  lemma {:induction false} EndStays(st: State, events: seq<Event>)
    requires CanRun(st, events) && !Before(st)
    ensures Run(st, events).delayEnd == st.delayEnd
    decreases |events|
  {
    if events != [] {
      EndStays(Step(st, events[0]), events[1..]);
    }
  }

  /** A check asked for from outside never puts a restart off: it is refused during the delay, or bypasses it. */
  lemma OnlyTheLoopDefers(at: nat, delay: nat, canRestart: bool, events: seq<Event>, i: nat, d: Downloads)
    requires CanRun(Created(at, delay, canRestart), events)
    requires Enabled(Run(Created(at, delay, canRestart), events), FinishAsked(i, d))
    ensures var st := Run(Created(at, delay, canRestart), events);
      var st' := Step(st, FinishAsked(i, d));
      st'.pendingLauncher == st.pendingLauncher && st'.pendingOsqueryd == st.pendingOsqueryd
  {
    var st := Run(Created(at, delay, canRestart), events);
    RunInv(Created(at, delay, canRestart), events);
    assert CheckInv(st, st.checks[i]);
  }

  // ----- restarts before the end of the delay

  /** Something was restarted before `end` without being asked for. */
  predicate RestartedBefore(st: State, end: nat) {
    exists i :: 0 <= i < |st.restarts| && IsEarly(st.restarts[i], end)
  }

  predicate IsEarly(r: Restart, end: nat) {
    !r.bypass && r.at < end
  }

  /** The timer fires before `end` while a restart is put off. */
  predicate FiresBefore(st: State, e: Event, end: nat) {
    e.TimerFired? && Deferred(st) && st.now < end
  }

  predicate SomeFiresBefore(st: State, events: seq<Event>, end: nat)
    requires CanRun(st, events)
    decreases |events|
  {
    events != [] && (FiresBefore(st, events[0], end) || SomeFiresBefore(Step(st, events[0]), events[1..], end))
  }

  lemma AddedRestart(st: State, st': State, r: Restart, end: nat)
    requires st'.restarts == st.restarts + [r]
    ensures RestartedBefore(st', end) <==> RestartedBefore(st, end) || IsEarly(r, end)
  {
    if RestartedBefore(st, end) {
      var i :| 0 <= i < |st.restarts| && IsEarly(st.restarts[i], end);
      assert IsEarly(st'.restarts[i], end);
    }
    if IsEarly(r, end) {
      assert IsEarly(st'.restarts[|st.restarts|], end);
    }
    if RestartedBefore(st', end) {
      var i :| 0 <= i < |st'.restarts| && IsEarly(st'.restarts[i], end);
      assert i < |st.restarts| ==> IsEarly(st.restarts[i], end);
    }
  }

  /** What a check restarts by itself is asked for, or past the end. */
  lemma AppliedTimely(st: State, d: Downloads, deferring: bool, bypass: bool, end: nat)
    requires !deferring && !bypass ==> end <= st.now
    ensures RestartedBefore(Applied(st, d, deferring, bypass), end) <==> RestartedBefore(st, end)
  {
    var st' := Applied(st, d, deferring, bypass);
    if st'.restarts != st.restarts {
      AddedRestart(st, st', st'.restarts[|st.restarts|], end);
    }
  }

  lemma SameRestarts(st: State, st': State, end: nat)
    requires st'.restarts == st.restarts
    ensures RestartedBefore(st', end) <==> RestartedBefore(st, end)
  {
  }

  lemma StepRestarts(st: State, e: Event, end: nat)
    requires Inv(st) && Enabled(st, e)
    requires !Before(st) ==> end == st.delayEnd
    ensures RestartedBefore(Step(st, e), end) <==> RestartedBefore(st, end) || FiresBefore(st, e, end)
  {
    var st' := Step(st, e);
    if e.Finish? {
      AppliedTimely(st, e.downloads, st.loop.deferring, false, end);
      SameRestarts(Applied(st, e.downloads, st.loop.deferring, false), st', end);
    } else if e.FinishAsked? {
      var c := st.checks[e.i];
      assert CheckInv(st, c);
      AppliedTimely(st, e.downloads, c.deferring, c.bypass, end);
      SameRestarts(Applied(st, e.downloads, c.deferring, c.bypass), st', end);
    } else if e.TimerFired? && Deferred(st) {
      AddedRestart(st, st', st'.restarts[|st.restarts|], end);
    } else {
      SameRestarts(st, st', end);
    }
  }

  lemma {:induction false} RunRestarts(st: State, events: seq<Event>, end: nat)
    requires Inv(st) && CanRun(st, events) && Run(st, events).delayEnd == end
    ensures RestartedBefore(Run(st, events), end) <==> RestartedBefore(st, end) || SomeFiresBefore(st, events, end)
    decreases |events|
  {
    if events != [] {
      if !Before(st) {
        EndStays(st, events);
      }
      StepRestarts(st, events[0], end);
      StepInv(st, events[0]);
      RunRestarts(Step(st, events[0]), events[1..], end);
    }
  }

  /**
   * In any run, something is restarted before the end of the delay, as it stands when the run is
   * over, without being asked for exactly when the timer fires before that end while a restart is
   * put off.
   */
  lemma RestartsEarlyExactly(at: nat, delay: nat, canRestart: bool, events: seq<Event>)
    requires CanRun(Created(at, delay, canRestart), events)
    ensures var st := Created(at, delay, canRestart); var end := Run(st, events).delayEnd;
      RestartedBefore(Run(st, events), end) <==> SomeFiresBefore(st, events, end)
  {
    var st := Created(at, delay, canRestart);
    RunRestarts(st, events, Run(st, events).delayEnd);
  }

  /** A timer that fires before the final end fires before the end as it stands then: it is set too early. */
  lemma FiresOutOfStep(st: State, e: Event, later: seq<Event>)
    requires Enabled(st, e) && CanRun(Step(st, e), later)
    requires FiresBefore(st, e, Run(Step(st, e), later).delayEnd)
    ensures st.timer.deadline < st.delayEnd
  {
    if !Before(st) {
      EndStays(Step(st, e), later);
    }
  }

  // ----- when calls of FlagsChanged do not overlap

  /** No call of FlagsChanged stores a new end while another has yet to reset the timer. */
  predicate OneAtATime(st: State, events: seq<Event>)
    requires CanRun(st, events)
    decreases |events|
  {
    events == [] || ((events[0].StoreEnd? ==> st.resets == []) && OneAtATime(Step(st, events[0]), events[1..]))
  }

  /** The timer is set for the end of the delay, or about to be. */
  predicate InStep(st: State) {
    if st.resets == [] then st.timer.Unset? || st.timer.deadline == st.delayEnd else st.resets == [st.delayEnd]
  }

  lemma StepInStep(st: State, e: Event)
    requires Enabled(st, e) && TimerInv(st) && InStep(st) && (e.StoreEnd? ==> st.resets == [])
    ensures InStep(Step(st, e))
  {
    if e.ResetTimer? {
      assert e.i == 0;
      assert st.resets[..0] + st.resets[1..] == [];
    }
  }

  lemma {:induction false} StaysInStep(st: State, events: seq<Event>)
    requires CanRun(st, events) && Inv(st) && InStep(st) && OneAtATime(st, events)
    ensures InStep(Run(st, events))
    decreases |events|
  {
    if events != [] {
      StepInv(st, events[0]);
      StepInStep(st, events[0]);
      StaysInStep(Step(st, events[0]), events[1..]);
    }
  }

  /** The timer does not fire between the change of the end and its reset. */
  predicate TimerWaits(st: State, events: seq<Event>)
    requires CanRun(st, events)
    decreases |events|
  {
    events == [] || ((events[0].TimerFired? ==> st.resets == []) && TimerWaits(Step(st, events[0]), events[1..]))
  }

  lemma {:induction false} NoneFiresBefore(st: State, events: seq<Event>, end: nat)
    requires CanRun(st, events) && Inv(st) && InStep(st) && OneAtATime(st, events) && TimerWaits(st, events)
    requires Run(st, events).delayEnd == end
    ensures !SomeFiresBefore(st, events, end)
    decreases |events|
  {
    if events != [] {
      if !Before(st) {
        EndStays(st, events);
      }
      StepInv(st, events[0]);
      StepInStep(st, events[0]);
      NoneFiresBefore(Step(st, events[0]), events[1..], end);
    }
  }

  /**
   * When calls of FlagsChanged do not overlap and the timer does not fire inside one, nothing is
   * restarted before the end of the delay but at the request of the control server.
   */
  lemma OnlyBypassRestartsEarly(at: nat, delay: nat, canRestart: bool, events: seq<Event>)
    requires var st := Created(at, delay, canRestart);
      CanRun(st, events) && OneAtATime(st, events) && TimerWaits(st, events)
    ensures var end := Run(Created(at, delay, canRestart), events).delayEnd;
      !RestartedBefore(Run(Created(at, delay, canRestart), events), end)
  {
    var st := Created(at, delay, canRestart);
    NoneFiresBefore(st, events, Run(st, events).delayEnd);
    RestartsEarlyExactly(at, delay, canRestart, events);
  }

  // ----- restarts put off with no timer to come

  /** A restart is put off, and the timer has fired with no call to set it again. */
  predicate Stranded(st: State) {
    PutOffAlone(st) && !st.loop.Returned?
  }

  predicate PutOffAlone(st: State) {
    Deferred(st) && TimerDone(st)
  }

  /** What was downloaded leads to a restart. */
  predicate Restarts(st: State, d: Downloads) {
    (d.launcher.Some? && !d.localDev) || (d.osqueryd.Some? && st.canRestartOsqueryd)
  }

  /** The run loop puts a restart off when the timer has fired with no call to set it again. */
  predicate DefersTooLate(st: State, e: Event) {
    e.Finish? && st.loop.Gated? && st.loop.deferring && TimerDone(st) && Restarts(st, e.downloads)
  }

  predicate NoStore(events: seq<Event>) {
    forall e :: e in events ==> !e.StoreEnd?
  }

  /** The run loop does so, and the end of the delay is not changed after that. */
  predicate StrandsIn(st: State, events: seq<Event>)
    requires CanRun(st, events)
    decreases |events|
  {
    && events != []
    && ((DefersTooLate(st, events[0]) && NoStore(events[1..])) || StrandsIn(Step(st, events[0]), events[1..]))
  }

  /** Versions are not empty; an empty one would stand for no pending restart. */
  predicate Versioned(events: seq<Event>) {
    forall e :: e in events && e.Finish? ==> e.downloads.launcher != Some("") && e.downloads.osqueryd != Some("")
  }

  lemma {:induction false} ReturnedStays(st: State, events: seq<Event>)
    requires CanRun(st, events) && st.loop.Returned?
    ensures Run(st, events).loop.Returned?
    decreases |events|
  {
    if events != [] {
      ReturnedStays(Step(st, events[0]), events[1..]);
    }
  }

  lemma StepStrands(st: State, e: Event)
    requires Inv(st) && Enabled(st, e) && Versioned([e]) && !Step(st, e).loop.Returned?
    ensures PutOffAlone(Step(st, e)) <==> (PutOffAlone(st) && !e.StoreEnd?) || DefersTooLate(st, e)
  {
    assert e in [e];
    if e.FinishAsked? {
      assert CheckInv(st, st.checks[e.i]);
    }
  }

  lemma {:induction false} StrandedIn(st: State, events: seq<Event>)
    requires Inv(st) && CanRun(st, events) && Versioned(events) && !Run(st, events).loop.Returned?
    ensures PutOffAlone(Run(st, events)) <==> (PutOffAlone(st) && NoStore(events)) || StrandsIn(st, events)
    decreases |events|
  {
    if events != [] {
      var e, rest := events[0], events[1..];
      var st' := Step(st, e);
      if st'.loop.Returned? {
        ReturnedStays(st', rest);
      }
      assert e in events;
      StepStrands(st, e);
      StepInv(st, e);
      StrandedIn(st', rest);
      assert NoStore(events) <==> !e.StoreEnd? && NoStore(rest) by {
        assert events == [e] + rest;
      }
    }
  }

  /**
   * In any run, a restart ends up put off with no timer to come exactly when the loop still runs and
   * had put one off after the timer fired, with no call to set it again, and the end of the delay was
   * not changed after that.
   */
  lemma StrandedExactly(at: nat, delay: nat, canRestart: bool, events: seq<Event>)
    requires CanRun(Created(at, delay, canRestart), events) && Versioned(events)
    ensures var st := Created(at, delay, canRestart);
      Stranded(Run(st, events)) <==> !Run(st, events).loop.Returned? && StrandsIn(st, events)
  {
    if !Run(Created(at, delay, canRestart), events).loop.Returned? {
      StrandedIn(Created(at, delay, canRestart), events);
    }
  }

  lemma StrandedStep(st: State, e: Event)
    requires Inv(st) && Enabled(st, e)
    requires TimerDone(st) && !Before(st) && st.loop != Gated(true)
    ensures var st' := Step(st, e);
      && st'.pendingLauncher == st.pendingLauncher && st'.pendingOsqueryd == st.pendingOsqueryd
      && TimerDone(st') && st'.delayEnd == st.delayEnd && !Before(st') && st'.loop != Gated(true)
  {
    if e.FinishAsked? {
      assert CheckInv(st, st.checks[e.i]);
    }
  }

  /** After the end of the delay that stays so: what was put off is never taken up; only a check that finds the update again restarts it. */
  lemma {:induction false} StrandedStays(st: State, events: seq<Event>)
    requires Inv(st) && CanRun(st, events)
    requires TimerDone(st) && !Before(st) && st.loop != Gated(true)
    ensures var st' := Run(st, events);
      && st'.pendingLauncher == st.pendingLauncher && st'.pendingOsqueryd == st.pendingOsqueryd
      && TimerDone(st') && st'.delayEnd == st.delayEnd
    decreases |events|
  {
    if events != [] {
      StrandedStep(st, events[0]);
      StepInv(st, events[0]);
      StrandedStays(Step(st, events[0]), events[1..]);
    }
  }

  /** Before it, a change of the end that is followed by its reset makes up for it. */
  lemma StrandedMadeUpFor(st: State, delay: nat)
    requires Inv(st) && Stranded(st) && Before(st) && st.loop.Selecting?
    ensures var stored := Step(st, StoreEnd(delay));
      var reset := Step(stored, ResetTimer(0));
      var later := Step(reset, TimePasses(st.delayStart + delay));
      && Enabled(stored, ResetTimer(0)) && Enabled(later, TimerFired)
      && (st.pendingLauncher == "" ==> Step(later, TimerFired).pendingOsqueryd == "")
      && (st.pendingLauncher != "" ==> Step(later, TimerFired).loop.Returned?)
  {
    assert Step(st, StoreEnd(delay)).resets == [st.delayStart + delay];
  }

  /**
   * A restart put off with no timer to come means that the timer fired too soon, which it does not
   * when calls of FlagsChanged do not overlap: then, once it has fired and no call has yet to set it
   * again, none is left put off and the delay is over.
   */
  lemma NothingIsForgotten(at: nat, delay: nat, canRestart: bool, events: seq<Event>)
    requires CanRun(Created(at, delay, canRestart), events)
    ensures var st := Run(Created(at, delay, canRestart), events);
      && (Stranded(st) ==> DoneTooSoon(st))
      && (OneAtATime(Created(at, delay, canRestart), events) && TimerDone(st) ==>
            !Before(st) && (st.loop.Returned? || !Deferred(st)))
  {
    var st := Created(at, delay, canRestart);
    RunInv(st, events);
    if OneAtATime(st, events) {
      StaysInStep(st, events);
    }
  }

  // ----- runs that show it

  lemma Extend(st: State, e: Event, events: seq<Event>)
    requires Enabled(st, e) && CanRun(Step(st, e), events)
    ensures CanRun(st, [e] + events) && Run(st, [e] + events) == Run(Step(st, e), events)
  {
    assert ([e] + events)[1..] == events;
  }

  function Osquery(version: string): Downloads {
    Downloads(None, Some(version), false)
  }

  /** An update of osqueryd is downloaded, the delay is lengthened, and the timer fires before it is reset. */
  function FireBeforeReset(short: nat, long: nat, version: string): seq<Event> {
    [Start] + ([Gate] + ([Finish(Osquery(version))] + ([StoreEnd(long)] + ([TimePasses(short)] + ([TimerFired] + [])))))
  }

  /** The window between the change of the end and the reset of the timer is real, for every lengthening of the delay. */
  lemma UnsyncedTimerRestartsEarly(short: nat, long: nat, version: string)
    requires 0 < short < long && version != ""
    ensures CanRun(Created(0, short, true), FireBeforeReset(short, long, version))
    ensures Run(Created(0, short, true), FireBeforeReset(short, long, version))
         == State(short, 0, long, Handled(short), [long], "", "", true, Checking, [], [],
                  [Restart(Osqueryd, version, short, false, true)])
  {
    var d := Osquery(version);
    var st0 := Created(0, short, true);
    var st2 := Step(Step(st0, Start), Gate);
    assert st2 == State(0, 0, short, Armed(short), [], "", "", true, Gated(true), [], [], []);
    var st3 := Step(st2, Finish(d));
    assert st3 == State(0, 0, short, Armed(short), [], "", version, true, Selecting, [], [], []);
    var st5 := Step(Step(st3, StoreEnd(long)), TimePasses(short));
    assert st5 == State(short, 0, long, Armed(short), [long], "", version, true, Selecting, [], [], []);
    var last := [TimerFired] + [];
    Extend(st5, TimerFired, []);
    Extend(Step(st3, StoreEnd(long)), TimePasses(short), last);
    Extend(st3, StoreEnd(long), [TimePasses(short)] + last);
    var rest := [StoreEnd(long)] + ([TimePasses(short)] + last);
    Extend(st2, Finish(d), rest);
    Extend(Step(st0, Start), Gate, [Finish(d)] + rest);
    Extend(st0, Start, [Gate] + ([Finish(d)] + rest));
  }

  /**
   * The run loop puts off an update of osqueryd; two calls of FlagsChanged overlap and reset the timer
   * in the wrong order; the timer fires, and the next update is put off; then the delay ends.
   */
  function Overlap(first: nat, second: nat, version: string, next: string): seq<Event> {
    [Start] + ([Gate] + ([Finish(Osquery(version))] + OverlappingCalls(first, second, next)))
  }

  function OverlappingCalls(first: nat, second: nat, next: string): seq<Event> {
    [StoreEnd(first)] + ([StoreEnd(second)] + ([ResetTimer(1)] + ([ResetTimer(0)] + AfterCalls(first, second, next))))
  }

  function AfterCalls(first: nat, second: nat, next: string): seq<Event> {
    [TimePasses(first)] + ([TimerFired] + ([Gate] + ([Finish(Osquery(next))] + ([TimePasses(second)] + []))))
  }

  /** What is left of it: one update restarted at `first`, and the next put off. */
  function OverlapEnd(first: nat, second: nat, version: string, next: string): State {
    State(first + second, 0, second, Handled(first), [], "", next, true, Selecting, [], [],
          [Restart(Osqueryd, version, first, false, true)])
  }

  lemma AfterCallsRun(st: State, first: nat, second: nat, version: string, next: string)
    requires 0 < first < second && version != "" && next != ""
    requires st == State(0, 0, second, Armed(first), [], "", version, true, Selecting, [], [], [])
    ensures CanRun(st, AfterCalls(first, second, next))
    ensures Run(st, AfterCalls(first, second, next)) == OverlapEnd(first, second, version, next)
  {
    var st1 := Step(st, TimePasses(first));
    var st2 := Step(st1, TimerFired);
    assert st2 == State(first, 0, second, Handled(first), [], "", "", true, Checking, [], [],
                        [Restart(Osqueryd, version, first, false, true)]);
    var st3 := Step(st2, Gate);
    var st4 := Step(st3, Finish(Osquery(next)));
    assert st4 == OverlapEnd(first, second, version, next).(now := first);
    var last := [TimePasses(second)] + [];
    Extend(st4, TimePasses(second), []);
    Extend(st3, Finish(Osquery(next)), last);
    Extend(st2, Gate, [Finish(Osquery(next))] + last);
    Extend(st1, TimerFired, [Gate] + ([Finish(Osquery(next))] + last));
    Extend(st, TimePasses(first), [TimerFired] + ([Gate] + ([Finish(Osquery(next))] + last)));
  }

  lemma OverlappingCallsRun(st: State, short: nat, first: nat, second: nat, version: string, next: string)
    requires 0 < short && 0 < first < second && version != "" && next != ""
    requires st == State(0, 0, short, Armed(short), [], "", version, true, Selecting, [], [], [])
    ensures CanRun(st, OverlappingCalls(first, second, next))
    ensures Run(st, OverlappingCalls(first, second, next)) == OverlapEnd(first, second, version, next)
  {
    var st2 := Step(Step(st, StoreEnd(first)), StoreEnd(second));
    assert st2 == st.(delayEnd := second, resets := [first, second]);
    var st3 := Step(st2, ResetTimer(1));
    assert st3 == st.(delayEnd := second, resets := [first], timer := Armed(second));
    var st4 := Step(st3, ResetTimer(0));
    assert st4 == st.(delayEnd := second, timer := Armed(first));
    AfterCallsRun(st4, first, second, version, next);
    var rest := AfterCalls(first, second, next);
    Extend(st3, ResetTimer(0), rest);
    Extend(st2, ResetTimer(1), [ResetTimer(0)] + rest);
    Extend(Step(st, StoreEnd(first)), StoreEnd(second), [ResetTimer(1)] + ([ResetTimer(0)] + rest));
    Extend(st, StoreEnd(first), [StoreEnd(second)] + ([ResetTimer(1)] + ([ResetTimer(0)] + rest)));
  }

  lemma OverlapRuns(short: nat, first: nat, second: nat, version: string, next: string)
    requires 0 < short && 0 < first < second && version != "" && next != ""
    ensures CanRun(Created(0, short, true), Overlap(first, second, version, next))
    ensures Run(Created(0, short, true), Overlap(first, second, version, next)) == OverlapEnd(first, second, version, next)
  {
    var st0 := Created(0, short, true);
    var st2 := Step(Step(st0, Start), Gate);
    assert st2 == State(0, 0, short, Armed(short), [], "", "", true, Gated(true), [], [], []);
    var st3 := Step(st2, Finish(Osquery(version)));
    OverlappingCallsRun(st3, short, first, second, version, next);
    var rest := OverlappingCalls(first, second, next);
    Extend(st2, Finish(Osquery(version)), rest);
    Extend(Step(st0, Start), Gate, [Finish(Osquery(version))] + rest);
    Extend(st0, Start, [Gate] + ([Finish(Osquery(version))] + rest));
  }

  /**
   * So with every reset done one update is restarted before the end of the delay, and the next is put
   * off past it, where it stays put off whatever happens later.
   */
  lemma OverlapRestartsEarlyAndStrands(short: nat, first: nat, second: nat, version: string, next: string, later: seq<Event>)
    requires 0 < short && 0 < first < second && version != "" && next != ""
    requires CanRun(OverlapEnd(first, second, version, next), later)
    ensures CanRun(Created(0, short, true), Overlap(first, second, version, next))
    ensures var st := Run(Created(0, short, true), Overlap(first, second, version, next));
      && st == OverlapEnd(first, second, version, next)
      && RestartedBefore(st, st.delayEnd) && Stranded(st) && !Before(st)
      && Run(st, later).pendingOsqueryd == next && TimerDone(Run(st, later))
  {
    OverlapRuns(short, first, second, version, next);
    var st := OverlapEnd(first, second, version, next);
    assert IsEarly(st.restarts[0], st.delayEnd);
    StrandedStays(st, later);
  }

  // ----- the source's methods

  class TufAutoupdater {
    var delayStart: nat
    var delayEnd: nat
    var timer: Timer
    var pendingLauncher: string
    var pendingOsqueryd: string
    var canRestartOsqueryd: bool
    var signals: seq<string>
    var restarts: seq<Restart>

    /** The autoupdater at `now`, with the run loop and the checks under way as given. */
    ghost function At(now: nat, resets: seq<nat>, loop: Loop, checks: seq<Check>): State
      reads this
    {
      State(now, delayStart, delayEnd, timer, resets, pendingLauncher, pendingOsqueryd, canRestartOsqueryd,
            loop, checks, signals, restarts)
    }

    /** The end of checkForUpdate: what is done with what was downloaded. */
    method Apply(d: Downloads, deferring: bool, bypass: bool, now: nat)
      modifies this
      ensures forall resets, loop, checks ::
        At(now, resets, loop, checks) == Applied(old(At(now, resets, loop, checks)), d, deferring, bypass)
    {
      if d.launcher.Some? && !d.localDev {
        if deferring {
          pendingLauncher := d.launcher.value;
          return;
        }
        signals := signals + [d.launcher.value];
        restarts := restarts + [Restart(Launcher, d.launcher.value, now, bypass, false)];
        return;
      }
      if d.osqueryd.Some? {
        if deferring {
          pendingOsqueryd := d.osqueryd.value;
        } else if canRestartOsqueryd {
          restarts := restarts + [Restart(Osqueryd, d.osqueryd.value, now, bypass, false)];
        }
      }
    }

    /** Returns the version of launcher to reload, which ends the run loop. */
    method RestartIfPending(now: nat) returns (reload: Option<string>)
      modifies this
      ensures forall resets, loop, checks ::
        At(now, resets, if reload.Some? then Returned else Checking, checks)
        == RestartedPending(old(At(now, resets, loop, checks)))
      ensures reload == if old(pendingLauncher) != "" then Some(old(pendingLauncher)) else None
    {
      if pendingLauncher != "" {
        reload := Some(pendingLauncher);
        restarts := restarts + [Restart(Launcher, pendingLauncher, now, false, true)];
        pendingLauncher := "";
        return;
      }
      reload := None;
      if pendingOsqueryd != "" {
        if !canRestartOsqueryd {
          return;
        }
        restarts := restarts + [Restart(Osqueryd, pendingOsqueryd, now, false, true)];
        pendingOsqueryd := "";
      }
    }

    /** FlagsChanged for the initial delay, when nothing comes between the change of the end and its own reset. */
    method InitialDelayChanged(delay: nat, now: nat, ghost resets: seq<nat>, ghost loop: Loop, ghost checks: seq<Check>)
      modifies this
      ensures var was := old(At(now, resets, loop, checks));
        At(now, resets, loop, checks)
        == if !Before(was) then was
           else Step(Step(was, StoreEnd(delay)), ResetTimer(|resets|))
      ensures resets == [] && old(InStep(At(now, resets, loop, checks))) ==> InStep(At(now, resets, loop, checks))
    {
      if now < delayEnd {
        delayEnd := delayStart + delay;
        if !timer.Unset? {
          timer := Armed(delayEnd);
        }
        assert (resets + [delayEnd])[..|resets|] + (resets + [delayEnd])[|resets| + 1..] == resets;
      }
    }
  }
}
