/**
  The delivery lanes. Each destination has a queue and at most one pump that empties it. The methods
  are what runs between two awaits, so every interleaving is some order of their calls; each keeps
  `Valid()`, and needs no more than that and its own turn.
 */
module Delivery {
  import opened Wrappers

  /** Where a pump is between two of its turns. Out of the loop, it has still to reach its `finally`. */
  datatype Pump = Scheduled | Sending(alert: nat) | Leaving

  /** An alert is its place in the order of all alerts enqueued. */
  datatype Lane = Lane(name: string, queue: seq<nat>, pump: Option<Pump>, inFlight: bool)

  /** What became of every alert ever enqueued, and what the drains have reported. */
  datatype Book = Book(
    names: seq<string>,
    taken: seq<nat>,
    evicted: set<nat>,
    drained: set<nat>,
    cut: set<nat>,
    reported: nat,
    doubled: nat
  )

  predicate Gone(b: Book, i: nat) {
    i in b.taken || i in b.evicted || i in b.drained || i in b.cut
  }

  // ---- The lanes ---------------------------------------------------------------------

  /** A lane that works or waits is the one its name finds, so no name has two pumps. */
  predicate Wired(lanes: map<string, nat>, lane: map<nat, Lane>, stopped: bool) {
    && (forall n :: n in lanes ==> lanes[n] in lane && lane[lanes[n]].name == n)
    && (forall l :: l in lane && (lane[l].pump.Some? || lane[l].queue != []) ==> Found(lanes, lane[l].name, l))
    && (forall l :: l in lane ==> (lane[l].inFlight <==> lane[l].pump.Some? && lane[l].pump.value.Sending?))
  }

  predicate Found(lanes: map<string, nat>, name: string, l: nat) {
    name in lanes && lanes[name] == l
  }

  /** No wakeup is lost: until the stop, what is queued has a pump; after it, nothing is queued. */
  predicate Awake(lane: map<nat, Lane>, stopped: bool) {
    forall l :: l in lane && lane[l].queue != [] ==> !stopped && lane[l].pump.Some?
  }

  // ---- The queues --------------------------------------------------------------------

  predicate Increasing(q: seq<nat>) {
    forall i, j :: 0 <= i < j < |q| ==> q[i] < q[j]
  }

  /** A lane's queue: alerts of its name that are not gone, in enqueue order. */
  predicate Queued(b: Book, l: Lane) {
    && Increasing(l.queue)
    && forall k :: 0 <= k < |l.queue| ==> Waits(b, l.name, l.queue[k])
  }

  predicate Waits(b: Book, name: string, i: nat) {
    i < |b.names| && b.names[i] == name && !Gone(b, i)
  }

  /** The lane a name finds has nothing queued. */
  predicate Idle(lanes: map<string, nat>, lane: map<nat, Lane>, name: string) {
    name in lanes && lanes[name] in lane && lane[lanes[name]].queue == []
  }

  predicate Short(lane: map<nat, Lane>, cap: nat) {
    forall l :: l in lane ==> |lane[l].queue| <= cap
  }

  predicate InQueue(lanes: map<string, nat>, lane: map<nat, Lane>, name: string, i: nat) {
    name in lanes && lanes[name] in lane && i in lane[lanes[name]].queue
  }

  /** Every alert that is not gone is in its name's queue. */
  predicate NoneMissing(b: Book, lanes: map<string, nat>, lane: map<nat, Lane>) {
    forall i: nat :: i < |b.names| && !Gone(b, i) ==> InQueue(lanes, lane, b.names[i], i)
  }

  /** Of one name's alerts, the ones still queued are the newest. */
  predicate NewestWait(b: Book) {
    forall i: nat, j: nat :: i < j < |b.names| && b.names[i] == b.names[j] && Gone(b, j) ==> Gone(b, i)
  }

  // ---- The accounts ------------------------------------------------------------------

  /** How many alerts of a name were enqueued from the `from`-th on. */
  function CountFrom(names: seq<string>, name: string, from: nat): nat
    decreases |names|
  {
    if |names| <= from then 0
    else CountFrom(names[..|names| - 1], name, from) + if names[|names| - 1] == name then 1 else 0
  }

  /** Each alert has at most one end; one is evicted only for as many newer ones as the cap; drops are all counted. */
  ghost predicate Balanced(b: Book, maxQueue: nat, dropped: nat) {
    && (forall i :: i in b.taken || i in b.evicted || i in b.drained || i in b.cut ==> i < |b.names|)
    && (forall i :: i in b.taken ==> i !in b.evicted && i !in b.drained && i !in b.cut)
    && b.evicted !! b.drained && b.evicted !! b.cut && b.drained !! b.cut
    && (forall i :: i in b.evicted && i < |b.names| ==> CountFrom(b.names, b.names[i], i + 1) >= maxQueue)
    && dropped + b.reported == |b.evicted| + |b.drained| + b.doubled
  }

  /** Alerts of one name are taken in the order they were enqueued. */
  predicate TakenInOrder(b: Book) {
    && (forall p :: 0 <= p < |b.taken| ==> b.taken[p] < |b.names|)
    && (forall p, q :: 0 <= p < q < |b.taken| && b.names[b.taken[p]] == b.names[b.taken[q]] ==> b.taken[p] < b.taken[q])
  }

  lemma {:induction false} CountQueue(names: seq<string>, name: string, from: nat, q: seq<nat>)
    requires Increasing(q) && forall k :: 0 <= k < |q| ==> from <= q[k] < |names| && names[q[k]] == name
    ensures CountFrom(names, name, from) >= |q|
    decreases |names|
  {
    if q != [] {
      var n, last := |names| - 1, q[|q| - 1];
      var init := if last == n then q[..|q| - 1] else q;
      forall k | 0 <= k < |init| ensures from <= init[k] < n && names[..n][init[k]] == name {
        assert init[k] == q[k];
        if last != n && k < |q| - 1 { assert q[k] < last; }
      }
      CountQueue(names[..n], name, from, init);
    }
  }

  // ---- One state, and what each step keeps -------------------------------------------

  datatype State = State(lanes: map<string, nat>, lane: map<nat, Lane>, stopped: bool, dropped: nat, book: Book)

  ghost predicate Inv(s: State, maxQueue: nat) {
    && Wired(s.lanes, s.lane, s.stopped) && Awake(s.lane, s.stopped)
    && Tidy(s, maxQueue)
  }

  /** The queues and the accounts. */
  ghost predicate Tidy(s: State, maxQueue: nat) {
    Lined(s) && Short(s.lane, maxQueue) && Balanced(s.book, maxQueue, s.dropped) && TakenInOrder(s.book)
  }

  predicate Lined(s: State) {
    && (forall l :: l in s.lane ==> Queued(s.book, s.lane[l]))
    && NoneMissing(s.book, s.lanes, s.lane) && NewestWait(s.book)
  }

  function WithPump(s: State, l: nat, pump: Option<Pump>): State
    requires l in s.lane
  {
    s.(lane := s.lane[l := s.lane[l].(pump := pump, inFlight := pump.Some? && pump.value.Sending?)])
  }

  /** Moving a pump touches no queue. */
  lemma PumpKeepsTidy(s: State, maxQueue: nat, l: nat, pump: Option<Pump>)
    requires Tidy(s, maxQueue) && l in s.lane
    ensures Tidy(WithPump(s, l, pump), maxQueue)
  {
    var t := WithPump(s, l, pump);
    forall k | k in t.lane ensures Queued(t.book, t.lane[k]) {
      assert Queued(s.book, s.lane[k]);
    }
    forall i: nat | i < |t.book.names| && !Gone(t.book, i) ensures InQueue(t.lanes, t.lane, t.book.names[i], i) {
      assert InQueue(s.lanes, s.lane, s.book.names[i], i);
    }
  }

  // ---- The first of a queue leaves ---------------------------------------------------

  lemma FirstIsOldest(s: State, l: nat, i: nat)
    requires Wired(s.lanes, s.lane, s.stopped) && Lined(s) && l in s.lane && s.lane[l].queue != []
    requires i < |s.book.names| && s.book.names[i] == s.lane[l].name
    ensures !Gone(s.book, i) ==> i >= s.lane[l].queue[0]
  {
    var q := s.lane[l].queue;
    assert Queued(s.book, s.lane[l]);
    if !Gone(s.book, i) {
      assert InQueue(s.lanes, s.lane, s.book.names[i], i);
      var k :| 0 <= k < |q| && q[k] == i;
    }
  }

  lemma LaterStillWait(s: State, l: nat, j: nat)
    requires Lined(s) && l in s.lane && s.lane[l].queue != []
    requires j < |s.book.names| && s.book.names[j] == s.lane[l].name
    ensures s.lane[l].queue[0] <= j ==> !Gone(s.book, j)
  {
    assert Queued(s.book, s.lane[l]);
    assert Waits(s.book, s.lane[l].name, s.lane[l].queue[0]);
  }

  function Shifted(lane: map<nat, Lane>, l: nat): map<nat, Lane>
    requires l in lane && lane[l].queue != []
  {
    lane[l := lane[l].(queue := lane[l].queue[1..])]
  }

  /** Whatever becomes of the first of a queue, the other queues and the order are as they were. */
  lemma FirstLeaves(s: State, t: State, l: nat)
    requires Wired(s.lanes, s.lane, s.stopped) && Lined(s) && l in s.lane && s.lane[l].queue != []
    requires t.lanes == s.lanes && t.lane == Shifted(s.lane, l) && t.book.names == s.book.names
    requires forall i: nat :: Gone(t.book, i) <==> Gone(s.book, i) || i == s.lane[l].queue[0]
    ensures Lined(t)
  {
    var x, first := s.lane[l], s.lane[l].queue[0];
    assert Queued(s.book, x) && Waits(s.book, x.name, first);
    assert Found(s.lanes, x.name, l);
    assert forall j :: 0 <= j < |x.queue[1..]| ==> x.queue[1..][j] == x.queue[j + 1];
    assert Queued(t.book, t.lane[l]);
    forall k | k in t.lane && k != l ensures Queued(t.book, t.lane[k]) {
      assert Queued(s.book, s.lane[k]);
      assert s.lane[k].queue != [] ==> Found(s.lanes, s.lane[k].name, k);
      forall j | 0 <= j < |s.lane[k].queue| ensures Waits(t.book, s.lane[k].name, s.lane[k].queue[j]) {
        assert Waits(s.book, s.lane[k].name, s.lane[k].queue[j]);
      }
    }
    forall i: nat | i < |t.book.names| && !Gone(t.book, i) ensures InQueue(t.lanes, t.lane, t.book.names[i], i) {
      assert InQueue(s.lanes, s.lane, s.book.names[i], i);
    }
    forall i: nat, j: nat | i < j < |t.book.names| && t.book.names[i] == t.book.names[j] && Gone(t.book, j) ensures Gone(t.book, i) {
      if j == first { FirstIsOldest(s, l, i); }
    }
  }

  /** The lane's first alert is taken for sending. */
  function Take(s: State, l: nat): State
    requires l in s.lane && s.lane[l].queue != []
  {
    s.(lane := Shifted(s.lane, l), book := s.book.(taken := s.book.taken + [s.lane[l].queue[0]]))
  }

  lemma TakeKeepsTidy(s: State, maxQueue: nat, l: nat)
    requires Wired(s.lanes, s.lane, s.stopped) && Tidy(s, maxQueue) && l in s.lane && s.lane[l].queue != []
    ensures Tidy(Take(s, l), maxQueue)
  {
    var t, x, first := Take(s, l), s.lane[l], s.lane[l].queue[0];
    assert Queued(s.book, x) && Waits(s.book, x.name, first);
    FirstLeaves(s, t, l);
    forall p | 0 <= p < |s.book.taken| && s.book.names[s.book.taken[p]] == x.name ensures s.book.taken[p] < first {
      LaterStillWait(s, l, s.book.taken[p]);
    }
  }

  /** The lane's first alert gives way to newer ones. */
  function Evict(s: State, l: nat): State
    requires l in s.lane && s.lane[l].queue != []
  {
    s.(lane := Shifted(s.lane, l), dropped := s.dropped + 1, book := s.book.(evicted := s.book.evicted + {s.lane[l].queue[0]}))
  }

  /** As many newer alerts of its name as the rest of the queue. */
  lemma NewerInQueue(s: State, l: nat)
    requires Lined(s) && l in s.lane && s.lane[l].queue != []
    ensures var q := s.lane[l].queue;
      q[0] < |s.book.names| && s.book.names[q[0]] == s.lane[l].name
      && CountFrom(s.book.names, s.lane[l].name, q[0] + 1) >= |q| - 1
  {
    var x := s.lane[l];
    assert Queued(s.book, x) && Waits(s.book, x.name, x.queue[0]);
    var first, rest := x.queue[0], x.queue[1..];
    forall k | 0 <= k < |rest| ensures first + 1 <= rest[k] < |s.book.names| && s.book.names[rest[k]] == x.name {
      assert Waits(s.book, x.name, x.queue[k + 1]);
    }
    CountQueue(s.book.names, x.name, first + 1, rest);
  }

  /** One more eviction, with as many newer alerts as the cap, is counted. */
  lemma {:induction false} EvictionIsCounted(b: Book, maxQueue: nat, dropped: nat, i: nat)
    requires Balanced(b, maxQueue, dropped) && i < |b.names| && !Gone(b, i)
    requires CountFrom(b.names, b.names[i], i + 1) >= maxQueue
    ensures Balanced(b.(evicted := b.evicted + {i}), maxQueue, dropped + 1)
  {
    hide CountFrom;
  }

  lemma EvictKeepsLined(s: State, l: nat)
    requires Wired(s.lanes, s.lane, s.stopped) && Lined(s) && l in s.lane && s.lane[l].queue != []
    ensures Lined(Evict(s, l)) && !Gone(s.book, s.lane[l].queue[0])
  {
    hide Wired, Lined;
    FirstLeaves(s, Evict(s, l), l);
    QueueIsWaiting(s, l);
  }

  lemma TakenAlike(a: Book, b: Book)
    requires TakenInOrder(a) && a.names == b.names && a.taken == b.taken
    ensures TakenInOrder(b)
  {
  }

  lemma EvictKeepsTidy(s: State, maxQueue: nat, l: nat)
    requires Wired(s.lanes, s.lane, s.stopped) && Lined(s) && Balanced(s.book, maxQueue, s.dropped)
    requires TakenInOrder(s.book) && l in s.lane && |s.lane[l].queue| == maxQueue + 1
    requires forall k :: k in s.lane && k != l ==> |s.lane[k].queue| <= maxQueue
    ensures Tidy(Evict(s, l), maxQueue)
  {
    hide Wired, Lined, Balanced, CountFrom, TakenInOrder;
    EvictKeepsLined(s, l);
    NewerInQueue(s, l);
    EvictionIsCounted(s.book, maxQueue, s.dropped, s.lane[l].queue[0]);
    TakenAlike(s.book, Evict(s, l).book);
  }

  // ---- A new alert -------------------------------------------------------------------

  function Opened(s: State, name: string, l: nat): State {
    s.(lanes := s.lanes[name := l], lane := s.lane[l := Lane(name, [], None, false)])
  }

  lemma OpenIsLined(s: State, name: string, l: nat)
    requires Lined(s) && name !in s.lanes && l !in s.lane
    ensures Lined(Opened(s, name, l))
  {
    var t := Opened(s, name, l);
    hide Gone;
    forall k | k in t.lane ensures Queued(t.book, t.lane[k]) {
      assert k != l ==> Queued(s.book, s.lane[k]);
    }
    forall i: nat | i < |t.book.names| && !Gone(t.book, i) ensures InQueue(t.lanes, t.lane, t.book.names[i], i) {
      assert InQueue(s.lanes, s.lane, s.book.names[i], i);
    }
  }

  lemma OpenKeepsInv(s: State, maxQueue: nat, name: string, l: nat)
    requires Inv(s, maxQueue) && name !in s.lanes && l !in s.lane
    ensures Inv(Opened(s, name, l), maxQueue)
  {
    hide Lined, Balanced, TakenInOrder;
    OpenIsLined(s, name, l);
    OpenIsWired(s, name, l);
    hide Wired;
  }

  lemma OpenIsWired(s: State, name: string, l: nat)
    requires Wired(s.lanes, s.lane, s.stopped) && name !in s.lanes && l !in s.lane
    ensures var t := Opened(s, name, l); Wired(t.lanes, t.lane, t.stopped)
  {
    var t := Opened(s, name, l);
    forall k | k in t.lane && (t.lane[k].pump.Some? || t.lane[k].queue != []) ensures Found(t.lanes, t.lane[k].name, k) {
      assert Found(s.lanes, s.lane[k].name, k);
    }
  }

  function Pushed(s: State, l: nat): State
    requires l in s.lane
  {
    var x := s.lane[l];
    s.(lane := s.lane[l := x.(queue := x.queue + [|s.book.names|])], book := s.book.(names := s.book.names + [x.name]))
  }

  /** What waited waits still, and the new alert waits too. */
  lemma PushedWaits(s: State, l: nat, name: string, i: nat)
    requires l in s.lane && forall g: nat :: Gone(s.book, g) ==> g < |s.book.names|
    ensures Waits(s.book, name, i) ==> Waits(Pushed(s, l).book, name, i)
    ensures Waits(Pushed(s, l).book, s.lane[l].name, |s.book.names|)
  {
    assert !Gone(s.book, |s.book.names|);
  }

  lemma PushKeepsQueue(s: State, l: nat, k: nat)
    requires l in s.lane && k in s.lane && Queued(s.book, s.lane[k])
    requires forall g: nat :: Gone(s.book, g) ==> g < |s.book.names|
    ensures Queued(Pushed(s, l).book, Pushed(s, l).lane[k])
  {
    var q, name := s.lane[k].queue, s.lane[k].name;
    PushedWaits(s, l, name, 0);
    forall j | 0 <= j < |q| ensures Waits(s.book, name, q[j]) && Waits(Pushed(s, l).book, name, q[j]) {
      PushedWaits(s, l, name, q[j]);
    }
  }

  lemma PushLosesNone(s: State, l: nat, i: nat)
    requires l in s.lane && Found(s.lanes, s.lane[l].name, l) && i <= |s.book.names|
    requires i < |s.book.names| ==> InQueue(s.lanes, s.lane, s.book.names[i], i)
    ensures var t := Pushed(s, l); InQueue(t.lanes, t.lane, t.book.names[i], i)
  {
    var t, q := Pushed(s, l), s.lane[l].queue;
    if i == |s.book.names| { assert t.lane[l].queue[|q|] == i; }
  }

  lemma PushKeepsNewest(s: State, l: nat)
    requires l in s.lane && NewestWait(s.book) && !Gone(s.book, |s.book.names|)
    ensures NewestWait(Pushed(s, l).book)
  {
    var names := Pushed(s, l).book.names;
    assert forall i: nat :: Gone(Pushed(s, l).book, i) <==> Gone(s.book, i);
    hide Gone;
    assert forall i :: 0 <= i < |s.book.names| ==> names[i] == s.book.names[i];
  }

  lemma PushKeepsLined(s: State, l: nat)
    requires Lined(s) && l in s.lane && Found(s.lanes, s.lane[l].name, l)
    requires forall g: nat :: Gone(s.book, g) ==> g < |s.book.names|
    ensures Lined(Pushed(s, l))
  {
    hide Queued, InQueue, NewestWait, Found;
    var t := Pushed(s, l);
    PushKeepsNewest(s, l);
    forall k | k in t.lane ensures Queued(t.book, t.lane[k]) {
      PushKeepsQueue(s, l, k);
    }
    forall i: nat | i < |t.book.names| && !Gone(t.book, i) ensures InQueue(t.lanes, t.lane, t.book.names[i], i) {
      assert i < |s.book.names| ==> !Gone(s.book, i);
      PushLosesNone(s, l, i);
    }
  }

  lemma {:induction false} CountGrows(names: seq<string>, name: string, from: nat, more: string)
    ensures CountFrom(names + [more], name, from) >= CountFrom(names, name, from)
  {
    assert (names + [more])[..|names|] == names;
  }

  lemma PushKeepsAccounts(s: State, maxQueue: nat, l: nat)
    requires Balanced(s.book, maxQueue, s.dropped) && TakenInOrder(s.book) && l in s.lane
    ensures Balanced(Pushed(s, l).book, maxQueue, s.dropped) && TakenInOrder(Pushed(s, l).book)
  {
    var b := s.book;
    forall i | i in b.evicted ensures CountFrom(Pushed(s, l).book.names, b.names[i], i + 1) >= maxQueue {
      CountGrows(b.names, b.names[i], i + 1, s.lane[l].name);
    }
  }

  lemma PushedIsWired(s: State, l: nat)
    requires Wired(s.lanes, s.lane, s.stopped) && l in s.lane && Found(s.lanes, s.lane[l].name, l)
    ensures var t := Pushed(s, l); Wired(t.lanes, t.lane, t.stopped)
  {
  }

  lemma GoneAreNamed(b: Book, maxQueue: nat, dropped: nat)
    requires Balanced(b, maxQueue, dropped)
    ensures forall g: nat :: Gone(b, g) ==> g < |b.names|
  {
    hide CountFrom;
  }

  /** The lane once the new alert is in it and the cap is met. */
  function Settled(s: State, maxQueue: nat, l: nat): State
    requires l in s.lane
  {
    var t := Pushed(s, l);
    if |t.lane[l].queue| > maxQueue then Evict(t, l) else t
  }

  lemma SettledIsTidy(s: State, maxQueue: nat, l: nat)
    requires Inv(s, maxQueue) && l in s.lane && Found(s.lanes, s.lane[l].name, l)
    ensures Tidy(Settled(s, maxQueue, l), maxQueue)
  {
    hide Wired, Lined, Balanced, TakenInOrder, Evict, Found;
    var t := Pushed(s, l);
    GoneAreNamed(s.book, maxQueue, s.dropped);
    PushKeepsLined(s, l);
    PushKeepsAccounts(s, maxQueue, l);
    PushedIsWired(s, l);
    if |t.lane[l].queue| > maxQueue { EvictKeepsTidy(t, maxQueue, l); }
  }

  /** The lane with the new alert in it and a pump to send it. */
  function Joined(s: State, maxQueue: nat, l: nat): State
    requires l in s.lane
  {
    var t := Settled(s, maxQueue, l);
    if t.lane[l].pump.Some? then t else WithPump(t, l, Some(Scheduled))
  }

  /** The lane its name finds stays wired and awake with a pump, whatever its queue is while nothing has stopped. */
  lemma PumpIsWired(s: State, t: State, l: nat)
    requires Wired(s.lanes, s.lane, s.stopped) && Awake(s.lane, s.stopped) && l in s.lane && Found(s.lanes, s.lane[l].name, l)
    requires t.lanes == s.lanes && t.stopped == s.stopped && t.lane.Keys == s.lane.Keys
    requires forall k :: k in s.lane && k != l ==> t.lane[k] == s.lane[k]
    requires t.lane[l].name == s.lane[l].name && t.lane[l].pump.Some?
    requires t.lane[l].inFlight <==> t.lane[l].pump.value.Sending?
    requires t.stopped ==> t.lane[l].queue == []
    ensures Wired(t.lanes, t.lane, t.stopped) && Awake(t.lane, t.stopped)
  {
  }

  lemma WiredFlight(s: State, l: nat)
    requires Wired(s.lanes, s.lane, s.stopped) && l in s.lane && s.lane[l].pump.Some?
    ensures Found(s.lanes, s.lane[l].name, l)
    ensures s.lane[l].inFlight <==> s.lane[l].pump.value.Sending?
  {
  }

  lemma JoinedIsAwake(s: State, maxQueue: nat, l: nat)
    requires Wired(s.lanes, s.lane, s.stopped) && Awake(s.lane, s.stopped)
    requires !s.stopped && l in s.lane && Found(s.lanes, s.lane[l].name, l)
    ensures var t := Joined(s, maxQueue, l); Wired(t.lanes, t.lane, t.stopped) && Awake(t.lane, t.stopped)
  {
    hide Wired, Awake, Found;
    var t := Joined(s, maxQueue, l);
    if s.lane[l].pump.Some? { WiredFlight(s, l); }
    PumpIsWired(s, t, l);
  }

  lemma JoinedKeepsInv(s: State, maxQueue: nat, l: nat)
    requires Inv(s, maxQueue) && !s.stopped && l in s.lane && Found(s.lanes, s.lane[l].name, l)
    ensures Inv(Joined(s, maxQueue, l), maxQueue)
  {
    JoinedIsAwake(s, maxQueue, l);
    SettledIsTidy(s, maxQueue, l);
    PumpKeepsTidy(Settled(s, maxQueue, l), maxQueue, l, Some(Scheduled));
  }

  lemma InvIsShort(s: State, maxQueue: nat, l: nat)
    requires Inv(s, maxQueue) && l in s.lane
    ensures |s.lane[l].queue| <= maxQueue
  {
  }

  /** What joining changes of the rest. */
  lemma JoinedRest(s: State, maxQueue: nat, l: nat)
    requires l in s.lane
    ensures var t := Joined(s, maxQueue, l);
      && t.lane.Keys == s.lane.Keys && t.stopped == s.stopped
      && t.book.names == s.book.names + [s.lane[l].name] && t.book.taken == s.book.taken
  {
  }

  lemma NewestIsQueued(s: State, maxQueue: nat, l: nat)
    requires l in s.lane && maxQueue > 0 && Found(s.lanes, s.lane[l].name, l)
    ensures var t := Joined(s, maxQueue, l); InQueue(t.lanes, t.lane, s.lane[l].name, |s.book.names|)
  {
    var t := Joined(s, maxQueue, l);
    assert t.lane[l].queue[|t.lane[l].queue| - 1] == |s.book.names|;
  }

  // ---- A whole queue leaves ----------------------------------------------------------

  function Ids(q: seq<nat>): (r: set<nat>)
    ensures forall i :: i in r <==> i in q
  {
    set i | i in q
  }

  lemma {:induction false} IdsCount(q: seq<nat>)
    requires Increasing(q)
    ensures |Ids(q)| == |q|
  {
    if q != [] {
      var init, last := q[..|q| - 1], q[|q| - 1];
      IdsCount(init);
      assert last !in init;
      assert Ids(q) == Ids(init) + {last};
    } else {
      assert Ids(q) == {};
    }
  }

  /** Whatever becomes of a whole queue, the others and the order are as they were. */
  lemma AllLeave(s: State, t: State, l: nat)
    requires Wired(s.lanes, s.lane, s.stopped) && Lined(s) && l in s.lane
    requires t.lanes == s.lanes && t.lane == s.lane[l := s.lane[l].(queue := [])] && t.book.names == s.book.names
    requires forall i: nat :: Gone(t.book, i) <==> Gone(s.book, i) || i in s.lane[l].queue
    ensures Lined(t)
  {
    var x := s.lane[l];
    assert Queued(s.book, x);
    assert forall i :: i in x.queue ==> Waits(s.book, x.name, i);
    forall k | k in t.lane && k != l ensures Queued(t.book, t.lane[k]) {
      assert Queued(s.book, s.lane[k]);
      assert x.queue != [] ==> Found(s.lanes, x.name, l);
      assert s.lane[k].queue != [] ==> Found(s.lanes, s.lane[k].name, k);
      forall j | 0 <= j < |s.lane[k].queue| ensures Waits(t.book, s.lane[k].name, s.lane[k].queue[j]) {
        assert Waits(s.book, s.lane[k].name, s.lane[k].queue[j]);
      }
    }
    forall i: nat | i < |t.book.names| && !Gone(t.book, i) ensures InQueue(t.lanes, t.lane, t.book.names[i], i) {
      assert InQueue(s.lanes, s.lane, s.book.names[i], i);
    }
    forall i: nat, j: nat | i < j < |t.book.names| && t.book.names[i] == t.book.names[j] && Gone(t.book, j) ensures Gone(t.book, i) {
      if j in x.queue && !Gone(s.book, i) {
        assert InQueue(s.lanes, s.lane, s.book.names[i], i);
        assert Found(s.lanes, x.name, l);
      }
    }
  }

  /** A late drain gives up a lane: its queue, and the alert it is sending, are counted as dropped. */
  function Drained(s: State, l: nat): State
    requires l in s.lane
  {
    var x := s.lane[l];
    var sending := if x.inFlight then 1 else 0;
    s.(lane := s.lane[l := x.(queue := [])], dropped := s.dropped + |x.queue| + sending,
       book := s.book.(drained := s.book.drained + Ids(x.queue), doubled := s.book.doubled + sending))
  }

  /** The drops a late drain makes are all counted. */
  lemma DrainIsCounted(b: Book, maxQueue: nat, dropped: nat, q: seq<nat>, sending: nat)
    requires Balanced(b, maxQueue, dropped) && Increasing(q) && forall i :: i in q ==> i < |b.names| && !Gone(b, i)
    ensures Balanced(b.(drained := b.drained + Ids(q), doubled := b.doubled + sending), maxQueue, dropped + |q| + sending)
  {
    hide CountFrom, Increasing;
    IdsCount(q);
    assert b.drained !! Ids(q);
  }

  lemma QueueIsWaiting(s: State, l: nat)
    requires Lined(s) && l in s.lane
    ensures Increasing(s.lane[l].queue)
    ensures forall i :: i in s.lane[l].queue ==> i < |s.book.names| && !Gone(s.book, i)
  {
    assert Queued(s.book, s.lane[l]);
    assert forall i :: i in s.lane[l].queue ==> Waits(s.book, s.lane[l].name, i);
  }

  lemma DrainKeepsTidy(s: State, maxQueue: nat, l: nat)
    requires Wired(s.lanes, s.lane, s.stopped) && Tidy(s, maxQueue) && l in s.lane
    ensures Tidy(Drained(s, l), maxQueue)
  {
    hide Balanced, Lined, Wired;
    QueueIsWaiting(s, l);
    AllLeave(s, Drained(s, l), l);
    DrainIsCounted(s.book, maxQueue, s.dropped, s.lane[l].queue, if s.lane[l].inFlight then 1 else 0);
  }

  /** The stop cuts a lane's queue off. */
  function Cut(s: State, l: nat): State
    requires l in s.lane
  {
    s.(lane := s.lane[l := s.lane[l].(queue := [])], book := s.book.(cut := s.book.cut + Ids(s.lane[l].queue)))
  }

  lemma CutKeepsTidy(s: State, maxQueue: nat, l: nat)
    requires Wired(s.lanes, s.lane, s.stopped) && Tidy(s, maxQueue) && l in s.lane
    ensures Tidy(Cut(s, l), maxQueue)
  {
    var q := s.lane[l].queue;
    assert Queued(s.book, s.lane[l]);
    assert forall i :: i in q ==> Waits(s.book, s.lane[l].name, i);
    AllLeave(s, Cut(s, l), l);
  }

  // ---- A pump's turn -----------------------------------------------------------------

  /** The pump's loop condition and its next alert, if it goes on. */
  function NextAlert(s: State, l: nat): State
    requires l in s.lane
  {
    if s.stopped || s.lane[l].queue == [] then WithPump(s, l, Some(Leaving))
    else WithPump(Take(s, l), l, Some(Sending(s.lane[l].queue[0])))
  }

  lemma NextAlertKeepsInv(s: State, maxQueue: nat, l: nat)
    requires Inv(s, maxQueue) && l in s.lane && s.lane[l].pump.Some?
    ensures Inv(NextAlert(s, l), maxQueue)
  {
    hide Wired, Awake, Tidy, Found;
    var t := NextAlert(s, l);
    WiredFlight(s, l);
    if s.lane[l].queue != [] { InvIsAwake(s, maxQueue, l); }
    if s.stopped || s.lane[l].queue == [] {
      PumpKeepsTidy(s, maxQueue, l, Some(Leaving));
    } else {
      TakeKeepsTidy(s, maxQueue, l);
      PumpKeepsTidy(Take(s, l), maxQueue, l, Some(Sending(s.lane[l].queue[0])));
    }
    PumpIsWired(s, t, l);
  }

  /** The pump's end: a new one if something was queued meanwhile, and otherwise the lane is let go. */
  function Left(s: State, l: nat): State
    requires l in s.lane
  {
    if s.lane[l].queue != [] then
      if s.stopped then WithPump(s, l, None) else WithPump(s, l, Some(Scheduled))
    else
      var t := WithPump(s, l, None);
      if Found(s.lanes, s.lane[l].name, l) then t.(lanes := t.lanes - {s.lane[l].name}) else t
  }

  lemma LeftKeepsInv(s: State, maxQueue: nat, l: nat)
    requires Inv(s, maxQueue) && l in s.lane && s.lane[l].pump.Some?
    ensures Inv(Left(s, l), maxQueue)
  {
    assert Found(s.lanes, s.lane[l].name, l);
    if s.lane[l].queue != [] {
      PumpKeepsTidy(s, maxQueue, l, Some(Scheduled));
      InvIsAwake(s, maxQueue, l);
      PumpIsWired(s, Left(s, l), l);
    } else {
      LaneLetGo(s, maxQueue, l);
    }
  }

  lemma LaneLetGo(s: State, maxQueue: nat, l: nat)
    requires Inv(s, maxQueue) && l in s.lane && s.lane[l].queue == [] && Found(s.lanes, s.lane[l].name, l)
    ensures Inv(WithPump(s, l, None).(lanes := s.lanes - {s.lane[l].name}), maxQueue)
  {
    hide Balanced, TakenInOrder, Lined, Wired, Found;
    PumpKeepsTidy(s, maxQueue, l, None);
    LetGoIsLined(WithPump(s, l, None), l);
    LetGoIsWired(s, l);
  }

  /** A lane with nothing queued can be let go without losing an alert. */
  lemma LetGoIsLined(t: State, l: nat)
    requires Lined(t) && l in t.lane && t.lane[l].queue == [] && Found(t.lanes, t.lane[l].name, l)
    ensures Lined(t.(lanes := t.lanes - {t.lane[l].name}))
  {
    hide Queued, Gone, NewestWait;
    var u := t.(lanes := t.lanes - {t.lane[l].name});
    forall i: nat | i < |u.book.names| && !Gone(u.book, i) ensures InQueue(u.lanes, u.lane, u.book.names[i], i) {
      assert InQueue(t.lanes, t.lane, t.book.names[i], i);
    }
  }

  lemma LetGoIsWired(s: State, l: nat)
    requires Wired(s.lanes, s.lane, s.stopped) && l in s.lane && s.lane[l].queue == [] && Found(s.lanes, s.lane[l].name, l)
    ensures var t := WithPump(s, l, None); Wired(s.lanes - {s.lane[l].name}, t.lane, t.stopped)
  {
    var u := WithPump(s, l, None).(lanes := s.lanes - {s.lane[l].name});
    forall k | k in u.lane && (u.lane[k].pump.Some? || u.lane[k].queue != []) ensures Found(u.lanes, u.lane[k].name, k) {
      assert Found(s.lanes, s.lane[k].name, k);
    }
  }

  // ---- What the invariant says -------------------------------------------------------

  /** Every alert is exactly one of taken, evicted, drained, cut off by the stop, or queued. */
  lemma EachAlertHasOneFate(s: State, maxQueue: nat, i: nat)
    requires Inv(s, maxQueue) && i < |s.book.names|
    ensures var fates := multiset{i in s.book.taken, i in s.book.evicted, i in s.book.drained, i in s.book.cut,
                                  InQueue(s.lanes, s.lane, s.book.names[i], i)};
      fates[true] == 1
  {
    hide Increasing, CountFrom;
    if InQueue(s.lanes, s.lane, s.book.names[i], i) {
      QueueIsWaiting(s, s.lanes[s.book.names[i]]);
    } else {
      assert Gone(s.book, i);
    }
  }

  lemma OnePumpPerName(s: State, maxQueue: nat, k: nat, l: nat)
    requires Inv(s, maxQueue) && k in s.lane && l in s.lane
    requires s.lane[k].pump.Some? && s.lane[l].pump.Some? && s.lane[k].name == s.lane[l].name
    ensures k == l
  {
    assert Found(s.lanes, s.lane[k].name, k) && Found(s.lanes, s.lane[l].name, l);
  }

  // ---- The deliverer -----------------------------------------------------------------

  class Deliverer {
    const maxQueue: nat
    var lanes: map<string, nat>
    var lane: map<nat, Lane>
    var stopped: bool
    var dropped: nat
    /** The next lane's identity, and the next alert's. */
    var next: nat
    var alerts: nat
    ghost var book: Book

    constructor (maxQueue: nat)
      ensures Valid() && this.maxQueue == maxQueue && !stopped && lanes == map[]
      ensures book == Book([], [], {}, {}, {}, 0, 0)
    {
      this.maxQueue := maxQueue;
      lanes, lane, stopped, dropped, next, alerts := map[], map[], false, 0, 0, 0;
      book := Book([], [], {}, {}, {}, 0, 0);
    }

    ghost function S(): State
      reads this
    {
      State(lanes, lane, stopped, dropped, book)
    }

    ghost predicate Valid()
      reads this
    {
      Inv(S(), maxQueue) && |book.names| == alerts && forall l :: l in lane ==> l < next
    }

    method StartPump(l: nat)
      requires l in lane
      modifies `lane
      ensures S() == if old(lane[l].pump.Some?) || stopped then old(S()) else WithPump(old(S()), l, Some(Scheduled))
    {
      if lane[l].pump.Some? || stopped { return; }
      lane := lane[l := lane[l].(pump := Some(Scheduled), inFlight := false)];
    }

    /** The lane a name finds, opened if there is none. */
    method LaneOf(name: string) returns (l: nat)
      requires Valid()
      modifies `lanes, `lane, `next
      ensures Valid() && l in lane && Found(lanes, name, l) && lane[l].name == name
      ensures S() == if name in old(lanes) then old(S()) else Opened(old(S()), name, l)
    {
      hide Wired, Awake, Tidy;
      if name in lanes {
        LaneIsFound(S(), maxQueue, name);
      } else {
        OpenKeepsInv(S(), maxQueue, name, next);
        lanes, lane, next := lanes[name := next], lane[next := Lane(name, [], None, false)], next + 1;
      }
      l := lanes[name];
    }

    /** Push, then let the oldest go while there are too many. */
    method Push(l: nat)
      requires l in lane && |lane[l].queue| <= maxQueue && |book.names| == alerts
      modifies `lane, `alerts, `dropped, `book
      ensures |book.names| == alerts && S() == Settled(old(S()), maxQueue, l)
    {
      lane := lane[l := lane[l].(queue := lane[l].queue + [alerts])];
      alerts := alerts + 1;
      book := book.(names := book.names + [lane[l].name]);
      ghost var pushed := S();
      while |lane[l].queue| > maxQueue
        invariant l in lane && |book.names| == alerts
        invariant S() == pushed || (|pushed.lane[l].queue| > maxQueue && S() == Evict(pushed, l))
        decreases |lane[l].queue|
      {
        book := book.(evicted := book.evicted + {lane[l].queue[0]});
        lane := Shifted(lane, l);
        dropped := dropped + 1;
      }
    }

    /** The alert joins its lane, which has a pump when this returns; only the lane's oldest can be dropped for it. */
    method Enqueue(name: string)
      requires Valid()
      modifies this
      ensures Valid() && stopped == old(stopped) && book.taken == old(book.taken)
      ensures stopped ==> S() == old(S())
      ensures !stopped ==> book.names == old(book.names) + [name]
      ensures !stopped && maxQueue > 0 ==> InQueue(lanes, lane, name, |old(book.names)|)
    {
      hide Inv, WithPump, InQueue, Found;
      if stopped { return; }
      var l := LaneOf(name);
      ghost var before := S();
      assert |lane[l].queue| <= maxQueue by { InvIsShort(before, maxQueue, l); }
      JoinedKeepsInv(before, maxQueue, l);
      JoinedRest(before, maxQueue, l);
      if maxQueue > 0 { NewestIsQueued(before, maxQueue, l); }
      Push(l);
      StartPump(l);
      assert S() == Joined(before, maxQueue, l);
    }

    /** The pump's next turn: nothing new is taken after the stop. */
    method Turn(l: nat)
      requires Valid() && l in lane && lane[l].pump.Some?
      modifies `lane, `book
      ensures Valid() && S() == NextAlert(old(S()), l)
      ensures stopped ==> book == old(book)
    {
      hide Wired, Awake, Tidy;
      NextAlertKeepsInv(S(), maxQueue, l);
      var x := lane[l];
      if stopped || x.queue == [] {
        lane := lane[l := x.(pump := Some(Leaving), inFlight := false)];
        return;
      }
      var alert := x.queue[0];
      book := book.(taken := book.taken + [alert]);
      lane := lane[l := x.(queue := x.queue[1..], pump := Some(Sending(alert)), inFlight := true)];
      assert S() == NextAlert(old(S()), l);
    }

    /** A scheduled pump runs. */
    method Begin(l: nat)
      requires Valid() && l in lane && lane[l].pump == Some(Scheduled)
      modifies `lane, `book
      ensures Valid() && S() == NextAlert(old(S()), l)
    {
      Turn(l);
    }

    /** A delivery has ended, however it went. */
    method DeliveryEnded(l: nat)
      requires Valid() && l in lane && lane[l].pump.Some? && lane[l].pump.value.Sending?
      modifies `lane, `book
      ensures Valid() && S() == NextAlert(old(S()), l)
    {
      Turn(l);
    }

    /** A pump that left its loop gets to its `finally`. What came in between is not stranded. */
    method Leave(l: nat)
      requires Valid() && l in lane && lane[l].pump == Some(Leaving)
      modifies `lane, `lanes
      ensures Valid() && S() == Left(old(S()), l)
      ensures old(lane[l].queue) != [] ==> lane[l].pump == Some(Scheduled)
    {
      hide Wired, Awake, Tidy;
      LeftKeepsInv(S(), maxQueue, l);
      if lane[l].queue != [] { InvIsAwake(S(), maxQueue, l); }
      var x := lane[l];
      lane := lane[l := x.(pump := None, inFlight := false)];
      if x.queue != [] {
        StartPump(l);
      } else if x.name in lanes && lanes[x.name] == l {
        lanes := lanes - {x.name};
      }
      assert S() == Left(old(S()), l);
    }

    /** What a late drain does to one lane. */
    method GiveUp(l: nat)
      requires Valid() && l in lane
      modifies `lane, `dropped, `book
      ensures Valid() && S() == Drained(old(S()), l)
    {
      hide Wired, Awake, Tidy;
      DrainKeepsInv(S(), maxQueue, l);
      var sending := if lane[l].inFlight then 1 else 0;
      dropped := dropped + |lane[l].queue| + sending;
      book := book.(drained := book.drained + Ids(lane[l].queue), doubled := book.doubled + sending);
      lane := lane[l := lane[l].(queue := [])];
    }

    /** A drain that is late gives up everything that waits, and counts what is being sent too. */
    method DrainLate()
      requires Valid()
      modifies `lane, `dropped, `book
      ensures Valid() && lanes == old(lanes) && book.names == old(book.names) && book.taken == old(book.taken)
      ensures forall n :: n in lanes ==> Idle(lanes, lane, n)
      ensures lane.Keys == old(lane.Keys) && forall l :: l in lane ==> lane[l].pump == old(lane[l].pump)
      ensures forall i: nat :: i < |book.names| ==> Gone(book, i)
    {
      hide Inv, Gone, Ids;
      var names := lanes.Keys;
      while names != {}
        invariant Valid() && names <= lanes.Keys && lanes == old(lanes)
        invariant book.names == old(book.names) && book.taken == old(book.taken)
        invariant forall n :: n in lanes && n !in names ==> Idle(lanes, lane, n)
        invariant lane.Keys == old(lane.Keys) && forall l :: l in lane ==> lane[l].pump == old(lane[l].pump)
        decreases |names|
      {
        var n :| n in names;
        LaneIsFound(S(), maxQueue, n);
        GiveUp(lanes[n]);
        names := names - {n};
      }
      EmptyMeansGone(S(), maxQueue);
    }

    /** A drain reports every drop since the last one. */
    method DrainEnd() returns (count: nat)
      requires Valid()
      modifies `dropped, `book
      ensures Valid() && count == old(dropped) && dropped == 0
      ensures book == old(book).(reported := old(book.reported) + count)
    {
      hide Wired, Awake, Tidy;
      count := dropped;
      dropped := 0;
      book := book.(reported := book.reported + count);
      ReportKeepsTidy(old(S()), maxQueue);
    }

    /** The stop: no queue is left, and nothing is taken or queued ever after. */
    method Stop()
      requires Valid()
      modifies this
      ensures Valid() && stopped && book.names == old(book.names) && book.taken == old(book.taken)
      ensures forall l :: l in lane ==> lane[l].queue == []
      ensures forall i: nat :: i < |book.names| ==> Gone(book, i)
    {
      hide Inv, Gone, Ids;
      var names := lanes.Keys;
      while names != {}
        invariant Valid() && names <= lanes.Keys && lanes == old(lanes)
        invariant book.names == old(book.names) && book.taken == old(book.taken)
        invariant forall n :: n in lanes && n !in names ==> Idle(lanes, lane, n)
        decreases |names|
      {
        var n :| n in names;
        LaneIsFound(S(), maxQueue, n);
        var l := lanes[n];
        CutKeepsInv(S(), maxQueue, l);
        book := book.(cut := book.cut + Ids(lane[l].queue));
        lane := lane[l := lane[l].(queue := [])];
        names := names - {n};
      }
      EmptyMeansGone(S(), maxQueue);
      StopKeepsInv(S(), maxQueue);
      stopped := true;
    }
  }

  lemma InvIsAwake(s: State, maxQueue: nat, l: nat)
    requires Inv(s, maxQueue) && l in s.lane && s.lane[l].queue != []
    ensures !s.stopped && s.lane[l].pump.Some?
  {
  }

  lemma LaneIsFound(s: State, maxQueue: nat, name: string)
    requires Inv(s, maxQueue) && name in s.lanes
    ensures s.lanes[name] in s.lane && s.lane[s.lanes[name]].name == name
  {
  }

  lemma QueuedIsFound(s: State, maxQueue: nat, l: nat)
    requires Inv(s, maxQueue) && l in s.lane
    ensures s.lane[l].queue != [] ==> Found(s.lanes, s.lane[l].name, l)
  {
  }

  lemma WaitingIsQueued(s: State, maxQueue: nat, i: nat)
    requires Inv(s, maxQueue) && i < |s.book.names|
    ensures !Gone(s.book, i) ==> InQueue(s.lanes, s.lane, s.book.names[i], i)
  {
  }

  lemma EmptyMeansGone(s: State, maxQueue: nat)
    requires Inv(s, maxQueue) && forall n :: n in s.lanes ==> Idle(s.lanes, s.lane, n)
    ensures forall l :: l in s.lane ==> s.lane[l].queue == []
    ensures forall i: nat :: i < |s.book.names| ==> Gone(s.book, i)
  {
    forall l | l in s.lane ensures s.lane[l].queue == [] {
      QueuedIsFound(s, maxQueue, l);
    }
    forall i: nat | i < |s.book.names| ensures Gone(s.book, i) {
      WaitingIsQueued(s, maxQueue, i);
    }
  }

  lemma StopKeepsInv(s: State, maxQueue: nat)
    requires Inv(s, maxQueue) && forall l :: l in s.lane ==> s.lane[l].queue == []
    ensures Inv(s.(stopped := true), maxQueue)
  {
    var t := s.(stopped := true);
    forall l | l in t.lane ensures Queued(t.book, t.lane[l]) {
      assert Queued(s.book, s.lane[l]);
    }
    forall i: nat | i < |t.book.names| && !Gone(t.book, i) ensures InQueue(t.lanes, t.lane, t.book.names[i], i) {
      assert InQueue(s.lanes, s.lane, s.book.names[i], i);
    }
  }

  lemma DrainKeepsInv(s: State, maxQueue: nat, l: nat)
    requires Inv(s, maxQueue) && l in s.lane
    ensures Inv(Drained(s, l), maxQueue)
  {
    DrainKeepsTidy(s, maxQueue, l);
  }

  lemma CutKeepsInv(s: State, maxQueue: nat, l: nat)
    requires Inv(s, maxQueue) && l in s.lane
    ensures Inv(Cut(s, l), maxQueue)
  {
    CutKeepsTidy(s, maxQueue, l);
  }

  lemma ReportKeepsTidy(s: State, maxQueue: nat)
    requires Tidy(s, maxQueue)
    ensures Tidy(s.(dropped := 0, book := s.book.(reported := s.book.reported + s.dropped)), maxQueue)
  {
    var t := s.(dropped := 0, book := s.book.(reported := s.book.reported + s.dropped));
    assert forall i: nat :: Gone(t.book, i) <==> Gone(s.book, i);
    forall l | l in t.lane ensures Queued(t.book, t.lane[l]) {
      assert Queued(s.book, s.lane[l]);
    }
    forall i: nat | i < |t.book.names| && !Gone(t.book, i) ensures InQueue(t.lanes, t.lane, t.book.names[i], i) {
      assert InQueue(s.lanes, s.lane, s.book.names[i], i);
    }
  }
}
