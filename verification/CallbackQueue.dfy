/**
 * The queue between the senders of callbacks and the one worker that delivers them
 * (ee/localserver/krypto-ec-middleware.go). A sender looks at the length of the queue, perhaps drops
 * the oldest callback, and then sends; senders and the worker interleave between these three steps.
 * Shown here: how long the queue can get, and that sending can never block exactly when there are at
 * most 91 senders at a time.
 */
module CallbackQueue {
  const DesiredSize := 10
  const Capacity := 100

  type Request = nat

  /** Where a sender is in sendCallback. */
  datatype Sender = Idle | Purging(req: Request) | Ready(req: Request)

  datatype Removed = Delivered(req: Request) | Dropped(req: Request)

  /** `entered` and `left` record what was ever sent to the queue and taken from it, in order. */
  datatype State = State(queue: seq<Request>, senders: seq<Sender>, entered: seq<Request>, left: seq<Removed>)

  datatype Event =
    | Check(i: nat, req: Request)
    | Purge(i: nat)
    | Send(i: nat)
    | Work

  predicate Enabled(st: State, e: Event) {
    match e
    case Check(i, _) => i < |st.senders| && st.senders[i].Idle?
    case Purge(i) => i < |st.senders| && st.senders[i].Purging?
    case Send(i) => i < |st.senders| && st.senders[i].Ready? && |st.queue| < Capacity
    case Work => st.queue != []
  }

  function Step(st: State, e: Event): State
    requires Enabled(st, e)
  {
    match e
    case Check(i, req) =>
      st.(senders := st.senders[i := if |st.queue| >= DesiredSize then Purging(req) else Ready(req)])
    case Purge(i) =>
      var st := st.(senders := st.senders[i := Ready(st.senders[i].req)]);
      if st.queue == [] then st
      else st.(queue := st.queue[1..], left := st.left + [Dropped(st.queue[0])])
    case Send(i) =>
      var req := st.senders[i].req;
      st.(queue := st.queue + [req], senders := st.senders[i := Idle], entered := st.entered + [req])
    case Work =>
      st.(queue := st.queue[1..], left := st.left + [Delivered(st.queue[0])])
  }

  /** Whether `events` can happen one after the other, and the state they lead to. */
  predicate CanRun(st: State, events: seq<Event>)
    decreases |events|
  {
    events == [] || (Enabled(st, events[0]) && CanRun(Step(st, events[0]), events[1..]))
  }

  function Run(st: State, events: seq<Event>): State
    requires CanRun(st, events)
    decreases |events|
  {
    if events == [] then st else Run(Step(st, events[0]), events[1..])
  }

  function Init(n: nat): State {
    State([], seq(n, _ => Idle), [], [])
  }

  /** Some interleaving of `n` senders and the worker leads to `st`. */
  ghost predicate Reachable(n: nat, st: State) {
    exists events :: CanRun(Init(n), events) && Run(Init(n), events) == st
  }

  // ----- how long the queue gets

  /** Senders past their purge. */
  function ReadyCount(senders: seq<Sender>): nat {
    if senders == [] then 0 else (if senders[0].Ready? then 1 else 0) + ReadyCount(senders[1..])
  }

  lemma {:induction false} ReadyUpdate(senders: seq<Sender>, i: nat, s: Sender)
    requires i < |senders|
    ensures ReadyCount(senders[i := s])
         == ReadyCount(senders) - (if senders[i].Ready? then 1 else 0) + (if s.Ready? then 1 else 0)
    decreases |senders|
  {
    if i == 0 {
      assert senders[i := s][1..] == senders[1..];
    } else {
      assert senders[i := s][1..] == senders[1..][i - 1 := s];
      ReadyUpdate(senders[1..], i - 1, s);
    }
  }

  lemma {:induction false} ReadyAtMost(senders: seq<Sender>)
    ensures ReadyCount(senders) <= |senders|
    decreases |senders|
  {
    if senders != [] {
      ReadyAtMost(senders[1..]);
    }
  }

  function Gone(left: seq<Removed>): seq<Request> {
    seq(|left|, i requires 0 <= i < |left| => left[i].req)
  }

  /**
   * The queue and the senders about to add to it stay within the desired size and the number of
   * senders; and the queue is first in, first out: what has left it, and then what is in it, is what
   * has entered it, in order.
   */
  ghost predicate Inv(n: nat, st: State) {
    && |st.senders| == n
    && |st.queue| + ReadyCount(st.senders) <= DesiredSize - 1 + n
    && |st.queue| <= Capacity
    && Gone(st.left) + st.queue == st.entered
  }

  lemma {:induction false} NoneReady(n: nat)
    ensures ReadyCount(seq(n, _ => Idle)) == 0
    decreases n
  {
    if n > 0 {
      var s: seq<Sender> := seq(n, _ => Idle);
      assert s[1..] == seq(n - 1, _ => Idle);
      NoneReady(n - 1);
    }
  }

  lemma TakeOldest(queue: seq<Request>, left: seq<Removed>, entered: seq<Request>, r: Removed)
    requires queue != [] && r.req == queue[0] && Gone(left) + queue == entered
    ensures Gone(left + [r]) + queue[1..] == entered
  {
    assert Gone(left + [r]) == Gone(left) + [r.req];
    assert queue == [queue[0]] + queue[1..];
  }

  lemma StepInv(n: nat, st: State, e: Event)
    requires Inv(n, st) && Enabled(st, e)
    ensures Inv(n, Step(st, e))
  {
    match e
    case Check(i, req) =>
      var s := if |st.queue| >= DesiredSize then Purging(req) else Ready(req);
      ReadyUpdate(st.senders, i, s);
      ReadyAtMost(st.senders[i := s]);
    case Purge(i) =>
      var s := Ready(st.senders[i].req);
      ReadyUpdate(st.senders, i, s);
      ReadyAtMost(st.senders[i := s]);
      if st.queue != [] {
        TakeOldest(st.queue, st.left, st.entered, Dropped(st.queue[0]));
      }
    case Send(i) =>
      ReadyUpdate(st.senders, i, Idle);
      var req := st.senders[i].req;
      assert Gone(st.left) + (st.queue + [req]) == st.entered + [req];
    case Work =>
      TakeOldest(st.queue, st.left, st.entered, Delivered(st.queue[0]));
  }

  lemma {:induction false} RunInv(n: nat, st: State, events: seq<Event>)
    requires Inv(n, st) && CanRun(st, events)
    ensures Inv(n, Run(st, events))
    decreases |events|
  {
    if events != [] {
      StepInv(n, st, events[0]);
      RunInv(n, Step(st, events[0]), events[1..]);
    }
  }

  lemma ReachableInv(n: nat, st: State)
    requires Reachable(n, st)
    ensures Inv(n, st)
  {
    var events :| CanRun(Init(n), events) && Run(Init(n), events) == st;
    NoneReady(n);
    RunInv(n, Init(n), events);
  }

  /** With one sender at a time the desired size is never exceeded; each further sender can add one. */
  lemma QueueBound(n: nat, st: State)
    requires Reachable(n, st)
    ensures |st.queue| <= DesiredSize - 1 + n
    ensures Gone(st.left) + st.queue == st.entered
  {
    ReachableInv(n, st);
  }

  // ----- when sending can block

  /** A sender is about to send and there is no room. */
  predicate Blocked(st: State) {
    |st.queue| >= Capacity && exists i :: 0 <= i < |st.senders| && st.senders[i].Ready?
  }

  lemma {:induction false} ReadyCounted(senders: seq<Sender>, i: nat)
    requires i < |senders| && senders[i].Ready?
    ensures ReadyCount(senders) >= 1
    decreases |senders|
  {
    if i > 0 {
      ReadyCounted(senders[1..], i - 1);
    }
  }

  lemma NeverBlocks(n: nat, st: State)
    requires n <= Capacity - DesiredSize + 1 && Reachable(n, st)
    ensures !Blocked(st)
  {
    ReachableInv(n, st);
    if Blocked(st) {
      var i :| 0 <= i < |st.senders| && st.senders[i].Ready?;
      ReadyCounted(st.senders, i);
    }
  }

  lemma {:induction false} RunConcat(st: State, a: seq<Event>, b: seq<Event>)
    requires CanRun(st, a) && CanRun(Run(st, a), b)
    ensures CanRun(st, a + b) && Run(st, a + b) == Run(Run(st, a), b)
    decreases |a|
  {
    if a == [] {
      assert a + b == b;
    } else {
      assert (a + b)[1..] == a[1..] + b;
      RunConcat(Step(st, a[0]), a[1..], b);
    }
  }

  lemma ReachableStep(n: nat, st: State, e: Event)
    requires Reachable(n, st) && Enabled(st, e)
    ensures Reachable(n, Step(st, e))
  {
    var events :| CanRun(Init(n), events) && Run(Init(n), events) == st;
    assert CanRun(st, [e]) && Run(st, [e]) == Step(st, e) by {
      assert [e][1..] == [];
      assert CanRun(Step(st, e), []);
    }
    RunConcat(Init(n), events, [e]);
  }

  predicate AllIdle(st: State) {
    forall i :: 0 <= i < |st.senders| ==> st.senders[i].Idle?
  }

  /** One sender fills the queue up to the desired size. */
  lemma {:induction false} Filled(n: nat, k: nat) returns (st: State)
    requires n > 0 && k < DesiredSize
    ensures Reachable(n, st) && |st.senders| == n && |st.queue| == k && AllIdle(st)
    decreases k
  {
    if k == 0 {
      st := Init(n);
      assert CanRun(Init(n), []) && Run(Init(n), []) == st;
    } else {
      var before := Filled(n, k - 1);
      ReachableStep(n, before, Check(0, 0));
      var checked := Step(before, Check(0, 0));
      ReachableStep(n, checked, Send(0));
      st := Step(checked, Send(0));
    }
  }

  /** Then `k` senders look at its length before any of them sends. */
  lemma {:induction false} Checked(n: nat, k: nat) returns (st: State)
    requires 0 < n && k <= n
    ensures Reachable(n, st) && |st.senders| == n && |st.queue| == DesiredSize - 1
    ensures forall i :: 0 <= i < n ==> if i < k then st.senders[i].Ready? else st.senders[i].Idle?
    decreases k
  {
    if k == 0 {
      st := Filled(n, DesiredSize - 1);
    } else {
      var before := Checked(n, k - 1);
      ReachableStep(n, before, Check(k - 1, 0));
      st := Step(before, Check(k - 1, 0));
    }
  }

  /** And then `k` of them send. */
  lemma {:induction false} Sent(n: nat, k: nat) returns (st: State)
    requires 0 < n && k <= n && k <= Capacity - DesiredSize + 1
    ensures Reachable(n, st) && |st.senders| == n && |st.queue| == DesiredSize - 1 + k
    ensures forall i :: k <= i < n ==> st.senders[i].Ready?
    decreases k
  {
    if k == 0 {
      st := Checked(n, n);
    } else {
      var before := Sent(n, k - 1);
      ReachableStep(n, before, Send(k - 1));
      st := Step(before, Send(k - 1));
    }
  }

  /** Sending can block exactly when more than 91 senders can be in sendCallback at a time. */
  lemma BlocksExactlyAbove91(n: nat)
    ensures (exists st :: Reachable(n, st) && Blocked(st)) <==> n > 91
  {
    forall st | Reachable(n, st) && n <= 91
      ensures !Blocked(st)
    {
      NeverBlocks(n, st);
    }
    if n > 91 {
      var st := Sent(n, 91);
      assert st.senders[91].Ready?;
      assert Blocked(st);
    }
  }

  // ----- the source's methods, when nothing interleaves

  class Middleware {
    var callbackQueue: seq<Request>

    /** Sends one callback, dropping the oldest when the queue is long enough; so a full queue has room. */
    method SendCallback(req: Request) returns (dropped: seq<Request>)
      requires |callbackQueue| <= Capacity
      modifies this
      ensures |callbackQueue| <= Capacity
      ensures dropped + callbackQueue == old(callbackQueue) + [req]
      ensures |dropped| == if |old(callbackQueue)| >= DesiredSize then 1 else 0
    {
      dropped := [];
      if |callbackQueue| >= DesiredSize {
        dropped := callbackQueue[..1];
        callbackQueue := callbackQueue[1..];
      }
      callbackQueue := callbackQueue + [req];
    }
  }
}
