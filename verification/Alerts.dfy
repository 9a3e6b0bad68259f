/**
  The coalescer that keeps one outage from becoming thousands of messages. Per event and scope it
  announces new causes up to a cap, counts the rest, and reports the count when a window closes.
 */
module Alerts {
  import opened Wrappers

  // ---- Events and groups -------------------------------------------------------------

  datatype AlertEvent =
    | FileFailed | FileNotConverging
    | NodeOffline | LibraryRootMissing | ScanAborted | LibraryPaused | HardwareCheckFailed

  predicate IsOutage(e: AlertEvent) {
    !e.FileFailed? && !e.FileNotConverging?
  }

  /** What can be offered: the seven daemon events coalesce; recoveries and deliberate messages never do. */
  datatype EventName = Daemon(event: AlertEvent) | Recovered(event: AlertEvent) | FlowMessage | Test

  datatype Key = Key(event: AlertEvent, scope: string)

  datatype Phase = Window | Repeat

  datatype Group = Group(
    windowEnd: int,
    phase: Phase,
    noticeAt: int,
    causes: set<string>,
    seen: set<string>,
    sent: nat,
    overflow: set<string>,
    pending: nat,
    examples: seq<string>
  )

  datatype Options = Options(windowMs: nat, cap: nat, repeatMs: nat)

  const MAX_EXAMPLES: nat := 3

  datatype ReportKind = Summary | StillDown

  datatype Report = Report(kind: ReportKind, count: nat, otherCauses: nat, examples: seq<string>)

  datatype FollowUp = FollowUp(key: Key, report: Report)

  // ---- One group ---------------------------------------------------------------------

  datatype What = SentNow | KnownOutage | CountedIn

  function Opened(o: Options, cause: string, now: int): Group {
    Group(now + o.windowMs, Window, now, {cause}, {cause}, 1, {}, 0, [])
  }

  function Announce(g: Group, cause: string): Group {
    g.(causes := g.causes + {cause}, seen := g.seen + {cause}, sent := g.sent + 1)
  }

  function Count(g: Group, cause: string, example: Option<string>): Group {
    g.(overflow := if cause in g.causes then g.overflow else g.overflow + {cause},
       pending := g.pending + 1,
       seen := if cause in g.causes then g.seen + {cause} else g.seen,
       examples := if example.Some? && |g.examples| < MAX_EXAMPLES && example.value !in g.examples
                   then g.examples + [example.value] else g.examples)
  }

  function WhatOf(o: Options, outage: bool, g: Group, cause: string): What {
    if cause !in g.causes then (if g.sent < o.cap then SentNow else CountedIn)
    else if outage && g.phase == Window then KnownOutage
    else CountedIn
  }

  function OnOffer(o: Options, outage: bool, g: Group, cause: string, example: Option<string>): Group {
    match WhatOf(o, outage, g, cause)
    case SentNow => Announce(g, cause)
    case KnownOutage => g
    case CountedIn => Count(g, cause, example)
  }

  function Taken(g: Group): Group {
    g.(pending := 0, sent := 0, overflow := {}, examples := [])
  }

  predicate HasNews(g: Group) {
    g.pending > 0 || |g.overflow| > 0
  }

  predicate IsDue(o: Options, g: Group, now: int) {
    if g.phase == Window then now >= g.windowEnd else now >= g.noticeAt + o.repeatMs
  }

  /** The group after its flush; `None` when the flush ends it. */
  function AfterFlush(o: Options, outage: bool, g: Group, now: int): Option<Group> {
    if g.phase == Repeat then
      if g.pending == 0 then None else Some(Taken(g).(noticeAt := now))
    else if outage then
      Some(Taken(g).(phase := Repeat, noticeAt := if g.pending > 0 then now else g.windowEnd - o.windowMs))
    else if HasNews(g) then
      Some(Taken(g).(windowEnd := now + o.windowMs, causes := g.seen, seen := {}))
    else None
  }

  function ReportOf(g: Group): Option<Report> {
    if g.phase == Repeat then
      if g.pending == 0 then None else Some(Report(StillDown, g.pending, |g.overflow|, g.examples))
    else if HasNews(g) then Some(Report(Summary, g.pending, |g.overflow|, g.examples))
    else None
  }

  // ---- One key's history -------------------------------------------------------------

  datatype Call =
    | Offer(name: EventName, scope: string, cause: string, example: Option<string>, at: int)
    | Due(at: int)
    | Clear(event: AlertEvent, scope: string)

  /** What a call did to one key. */
  datatype Entry =
    | Sent(cause: string, at: int)
    | Suppressed
    | Counted
    | Flushed(at: int, report: Option<Report>, alive: bool)
    | Cleared(pending: nat)

  datatype Step = Step(group: Option<Group>, entries: seq<Entry>)

  function OfferStep(o: Options, k: Key, g: Option<Group>, cause: string, example: Option<string>, at: int): Step {
    if g.None? then Step(Some(Opened(o, cause, at)), [Sent(cause, at)])
    else
      var outage := IsOutage(k.event);
      Step(Some(OnOffer(o, outage, g.value, cause, example)),
           match WhatOf(o, outage, g.value, cause)
           case SentNow => [Sent(cause, at)]
           case KnownOutage => [Suppressed]
           case CountedIn => [Counted])
  }

  function KeyStep(o: Options, k: Key, g: Option<Group>, c: Call): Step {
    match c
    case Offer(name, scope, cause, example, at) =>
      if name == Daemon(k.event) && scope == k.scope then OfferStep(o, k, g, cause, example, at) else Step(g, [])
    case Due(at) =>
      if g.None? || !IsDue(o, g.value, at) then Step(g, [])
      else
        var next := AfterFlush(o, IsOutage(k.event), g.value, at);
        Step(next, [Flushed(at, ReportOf(g.value), next.Some?)])
    case Clear(event, scope) =>
      if g.Some? && event == k.event && scope == k.scope then Step(None, [Cleared(g.value.pending)]) else Step(g, [])
  }

  // ---- The coalescer -----------------------------------------------------------------

  function At(groups: map<Key, Group>, k: Key): Option<Group> {
    if k in groups then Some(groups[k]) else None
  }

  /** The follow-ups a flush makes, in the order the groups were opened. */
  function FollowUps(o: Options, order: seq<Key>, groups: map<Key, Group>, now: int): seq<FollowUp> {
    if order == [] then []
    else
      var k := order[|order| - 1];
      FollowUps(o, order[..|order| - 1], groups, now) +
      if k in groups && IsDue(o, groups[k], now) && ReportOf(groups[k]).Some?
      then [FollowUp(k, ReportOf(groups[k]).value)] else []
  }

  predicate Unique(order: seq<Key>) {
    forall i, j :: 0 <= i < j < |order| ==> order[i] != order[j]
  }

  function Without(order: seq<Key>, k: Key): (r: seq<Key>)
    ensures forall j :: j in r <==> j in order && j != k
  {
    if order == [] then []
    else if order[0] == k then Without(order[1..], k)
    else [order[0]] + Without(order[1..], k)
  }

  lemma {:induction false} WithoutUnique(order: seq<Key>, k: Key)
    requires Unique(order)
    ensures Unique(Without(order, k))
  {
    if order != [] {
      WithoutUnique(order[1..], k);
      assert order[0] !in order[1..];
    }
  }

  lemma OneMoreKey(order: seq<Key>, k: Key)
    requires Unique(order) && k !in order
    ensures Unique(order + [k])
  {
  }

  lemma NothingToFlush(o: Options, k: Key, now: int)
    ensures KeyStep(o, k, None, Call.Due(now)).group == None
  {
  }

  class Coalescer {
    const o: Options
    var groups: map<Key, Group>
    /** The keys, in the order their groups were opened. */
    var order: seq<Key>

    ghost predicate Valid()
      reads this
    {
      && (forall k :: k in order <==> k in groups)
      && Unique(order)
    }

    constructor (o: Options)
      ensures Valid() && this.o == o && groups == map[]
    {
      this.o := o;
      groups, order := map[], [];
    }

    /** A call for one key leaves every other as it was. */
    static lemma OnlyItsKey(o: Options, was: map<Key, Group>, k: Key, c: Call, g: Group)
      requires c.Offer? && c.name == Daemon(k.event) && c.scope == k.scope
      requires OfferStep(o, k, At(was, k), c.cause, c.example, c.at).group == Some(g)
      ensures forall j :: At(was[k := g], j) == KeyStep(o, j, At(was, j), c).group
    {
      hide OfferStep;
    }

    /** The offer reaches its own key's group and no other; what is not sent is suppressed or counted there. */
    method Offer(name: EventName, scope: string, cause: string, example: Option<string>, now: int) returns (send: bool)
      requires Valid()
      modifies this
      ensures Valid()
      ensures forall k :: At(groups, k) == KeyStep(o, k, old(At(groups, k)), Call.Offer(name, scope, cause, example, now)).group
      ensures send <==> !name.Daemon? || KeyStep(o, Key(name.event, scope), old(At(groups, Key(name.event, scope))),
                                                 Call.Offer(name, scope, cause, example, now)).entries == [Sent(cause, now)]
    {
      if !name.Daemon? { return true; }
      var k := Key(name.event, scope);
      ghost var was, call := groups, Call.Offer(name, scope, cause, example, now);
      assert KeyStep(o, k, At(was, k), call) == OfferStep(o, k, At(was, k), cause, example, now);
      assert At(was, k) == if k in was then Some(was[k]) else None;
      hide KeyStep, At, Unique;
      if k !in groups {
        groups := groups[k := Opened(o, cause, now)];
        order := order + [k];
        assert Unique(order) by { OneMoreKey(old(order), k); }
        OnlyItsKey(o, was, k, call, groups[k]);
        return true;
      }
      var g := groups[k];
      var known := cause in g.causes;
      if !known {
        if g.sent < o.cap {
          groups := groups[k := Announce(g, cause)];
          OnlyItsKey(o, was, k, call, groups[k]);
          return true;
        }
        g := g.(overflow := g.overflow + {cause});
      } else if IsOutage(name.event) && g.phase == Window {
        OnlyItsKey(o, was, k, call, g);
        assert groups == was[k := g];
        return false;
      }
      g := g.(pending := g.pending + 1);
      if known { g := g.(seen := g.seen + {cause}); }
      if example.Some? && |g.examples| < MAX_EXAMPLES && example.value !in g.examples {
        g := g.(examples := g.examples + [example.value]);
      }
      groups := groups[k := g];
      OnlyItsKey(o, was, k, call, g);
      send := false;
    }

    /** One group's turn in a flush. */
    method FlushGroup(k: Key, now: int) returns (report: Option<Report>)
      requires Valid() && k in groups
      modifies this
      ensures Valid()
      ensures At(groups, k) == KeyStep(o, k, Some(old(groups[k])), Call.Due(now)).group
      ensures forall j :: j != k ==> At(groups, j) == old(At(groups, j))
      ensures report == if IsDue(o, old(groups[k]), now) then ReportOf(old(groups[k])) else None
    {
      var g := groups[k];
      report := None;
      if IsDue(o, g, now) {
        report := ReportOf(g);
        var next := AfterFlush(o, IsOutage(k.event), g, now);
        if next.Some? {
          groups := groups[k := next.value];
        } else {
          WithoutUnique(order, k);
          groups, order := groups - {k}, Without(order, k);
        }
      }
    }

    static lemma {:induction false} NoGroups(o: Options, groups: map<Key, Group>, now: int)
      ensures FollowUps(o, [], groups, now) == []
    {
    }

    static lemma {:induction false} OneMoreGroup(o: Options, order: seq<Key>, groups: map<Key, Group>, now: int, i: nat)
      requires i < |order| && order[i] in groups
      ensures var g := groups[order[i]]; var report := if IsDue(o, g, now) then ReportOf(g) else None;
        FollowUps(o, order[..i + 1], groups, now)
        == FollowUps(o, order[..i], groups, now) + if report.Some? then [FollowUp(order[i], report.value)] else []
    {
      hide IsDue, ReportOf;
      assert order[..i + 1][..i] == order[..i];
    }

    /** Every group's turn has come: each key has stepped once. */
    static lemma AllFlushed(o: Options, keys: seq<Key>, was: map<Key, Group>, after: map<Key, Group>, now: int)
      requires forall k :: k in was ==> k in keys
      requires forall j :: 0 <= j < |keys| ==> At(after, keys[j]) == KeyStep(o, keys[j], At(was, keys[j]), Call.Due(now)).group
      requires forall k :: k !in keys ==> At(after, k) == None
      ensures forall k :: At(after, k) == KeyStep(o, k, At(was, k), Call.Due(now)).group
    {
      hide KeyStep;
      forall k ensures At(after, k) == KeyStep(o, k, At(was, k), Call.Due(now)).group {
        if k in keys {
          var j :| 0 <= j < |keys| && keys[j] == k;
        } else {
          NothingToFlush(o, k, now);
        }
      }
    }

    /** Every group whose time has come is flushed, once, in the order the groups were opened. */
    method Due(now: int) returns (out: seq<FollowUp>)
      requires Valid()
      modifies this
      ensures Valid()
      ensures forall k :: At(groups, k) == KeyStep(o, k, old(At(groups, k)), Call.Due(now)).group
      ensures out == FollowUps(o, old(order), old(groups), now)
    {
      hide KeyStep, ReportOf, IsDue, AfterFlush, FollowUps;
      out := [];
      var keys := order;
      ghost var was := groups;
      NoGroups(o, was, now);
      for i := 0 to |keys|
        invariant Valid() && keys == old(order) && was == old(groups)
        invariant out == FollowUps(o, keys[..i], was, now)
        invariant forall j :: 0 <= j < i ==> At(groups, keys[j]) == KeyStep(o, keys[j], At(was, keys[j]), Call.Due(now)).group
        invariant forall j :: i <= j < |keys| ==> At(groups, keys[j]) == At(was, keys[j])
        invariant forall k :: k !in keys ==> At(groups, k) == None
      {
        assert keys[i] in was;
        OneMoreGroup(o, keys, was, now, i);
        var report := FlushGroup(keys[i], now);
        if report.Some? { out := out + [FollowUp(keys[i], report.value)]; }
      }
      assert keys[..|keys|] == keys;
      AllFlushed(o, keys, was, groups, now);
    }

    /** A cleared group goes with whatever it had pending. */
    method Clear(event: AlertEvent, scope: string)
      requires Valid()
      modifies this
      ensures Valid()
      ensures forall k :: At(groups, k) == KeyStep(o, k, old(At(groups, k)), Call.Clear(event, scope)).group
    {
      var k := Key(event, scope);
      WithoutUnique(order, k);
      groups, order := groups - {k}, Without(order, k);
    }
  }

  // ---- One key over any run ----------------------------------------------------------

  datatype History = History(group: Option<Group>, log: seq<Entry>)

  /** What any run of calls leaves of a key, and what it did to it. */
  function KeyRun(o: Options, k: Key, calls: seq<Call>): History {
    if calls == [] then History(None, [])
    else
      var h := KeyRun(o, k, calls[..|calls| - 1]);
      var s := KeyStep(o, k, h.group, calls[|calls| - 1]);
      History(s.group, h.log + s.entries)
  }

  // ---- Nothing is lost ---------------------------------------------------------------

  /** A group never has more overflowed causes or examples than it has pending. */
  predicate Bounded(g: Option<Group>) {
    g.Some? ==> |g.value.overflow| <= g.value.pending && |g.value.examples| <= g.value.pending
                && |g.value.examples| <= MAX_EXAMPLES
  }

  lemma StepStaysBounded(o: Options, k: Key, g: Option<Group>, c: Call)
    requires Bounded(g)
    ensures Bounded(KeyStep(o, k, g, c).group)
  {
  }

  lemma {:induction false} RunStaysBounded(o: Options, k: Key, calls: seq<Call>)
    ensures Bounded(KeyRun(o, k, calls).group)
  {
    if calls != [] {
      RunStaysBounded(o, k, calls[..|calls| - 1]);
      StepStaysBounded(o, k, KeyRun(o, k, calls[..|calls| - 1]).group, calls[|calls| - 1]);
    }
  }

  /** How often the key was offered. */
  function Offers(k: Key, calls: seq<Call>): nat {
    if calls == [] then 0
    else
      var c := calls[|calls| - 1];
      Offers(k, calls[..|calls| - 1]) + if c.Offer? && c.name == Daemon(k.event) && c.scope == k.scope then 1 else 0
  }

  /** The messages an entry accounts for. */
  function Accounted(e: Entry): nat {
    match e
    case Sent(_, _) => 1
    case Suppressed => 1
    case Counted => 0
    case Flushed(_, report, _) => if report.Some? then report.value.count else 0
    case Cleared(pending) => pending
  }

  function AccountedIn(log: seq<Entry>): nat {
    if log == [] then 0 else AccountedIn(log[..|log| - 1]) + Accounted(log[|log| - 1])
  }

  function PendingIn(g: Option<Group>): nat {
    if g.Some? then g.value.pending else 0
  }

  lemma {:induction false} AccountedOneMore(log: seq<Entry>, e: Entry)
    ensures AccountedIn(log + [e]) == AccountedIn(log) + Accounted(e)
  {
    assert (log + [e])[..|log|] == log;
  }

  lemma {:induction false} StepConserves(o: Options, k: Key, g: Option<Group>, c: Call)
    requires Bounded(g)
    ensures var s := KeyStep(o, k, g, c);
      && |s.entries| <= 1
      && PendingIn(g) + Offers(k, [c]) == PendingIn(s.group) + if s.entries == [] then 0 else Accounted(s.entries[0])
  {
    assert [c][..0] == [];
  }

  /** Every offer of a key was sent, suppressed, counted once in a report, is pending, or went with a cleared group. */
  lemma {:induction false} NothingIsLost(o: Options, k: Key, calls: seq<Call>)
    ensures var h := KeyRun(o, k, calls); Offers(k, calls) == AccountedIn(h.log) + PendingIn(h.group)
  {
    if calls != [] {
      var init, c := calls[..|calls| - 1], calls[|calls| - 1];
      var h := KeyRun(o, k, init);
      NothingIsLost(o, k, init);
      RunStaysBounded(o, k, init);
      StepConserves(o, k, h.group, c);
      assert [c][..0] == [] && Offers(k, []) == 0;
      assert Offers(k, calls) == Offers(k, init) + Offers(k, [c]);
      var s := KeyStep(o, k, h.group, c);
      if s.entries == [] {
        assert h.log + [] == h.log;
      } else {
        assert s.entries == [s.entries[0]];
        AccountedOneMore(h.log, s.entries[0]);
      }
    }
  }

  /** A flush ends a group only when nothing is pending. */
  lemma {:induction false} FlushEndsOnlyIdleGroups(o: Options, k: Key, calls: seq<Call>, at: int)
    requires KeyRun(o, k, calls).group.Some? && KeyStep(o, k, KeyRun(o, k, calls).group, Call.Due(at)).group.None?
    ensures PendingIn(KeyRun(o, k, calls).group) == 0
  {
  }

  // ---- Nothing is repeated -----------------------------------------------------------

  /** Individual messages since the last flush or clear. */
  function SentSince(log: seq<Entry>): nat {
    if log == [] then 0
    else match log[|log| - 1]
         case Flushed(_, _, _) => 0
         case Cleared(_) => 0
         case Sent(_, _) => SentSince(log[..|log| - 1]) + 1
         case _ => SentSince(log[..|log| - 1])
  }

  function SentIn(g: Option<Group>): nat {
    if g.Some? then g.value.sent else 0
  }

  lemma StepKeepsCap(o: Options, k: Key, h: History, c: Call)
    requires o.cap >= 1 && SentSince(h.log) == SentIn(h.group) <= o.cap
    ensures var s := KeyStep(o, k, h.group, c); SentSince(h.log + s.entries) == SentIn(s.group) <= o.cap
  {
    hide SentSince;
    var s := KeyStep(o, k, h.group, c);
    if s.entries == [] {
      assert h.log + [] == h.log;
    } else {
      assert s.entries == [s.entries[0]];
      SentSinceMore(h.log, s.entries[0]);
    }
  }

  lemma {:induction false} SentSinceMore(log: seq<Entry>, e: Entry)
    ensures SentSince(log + [e]) == if e.Flushed? || e.Cleared? then 0 else SentSince(log) + if e.Sent? then 1 else 0
  {
    assert (log + [e])[..|log|] == log;
  }

  /** At most the cap goes out individually between two flushes, at every point of every run. */
  lemma {:induction false} CapHolds(o: Options, k: Key, calls: seq<Call>)
    requires o.cap >= 1
    ensures var h := KeyRun(o, k, calls); SentSince(h.log) == SentIn(h.group) <= o.cap
  {
    hide KeyStep, SentIn, SentSince;
    if calls == [] {
      NothingSentYet();
    } else {
      CapHolds(o, k, calls[..|calls| - 1]);
      StepKeepsCap(o, k, KeyRun(o, k, calls[..|calls| - 1]), calls[|calls| - 1]);
    }
  }

  lemma NothingSentYet()
    ensures SentSince([]) == SentIn(None) == 0
  {
  }

  predicate EndsGroup(e: Entry) {
    e.Cleared? || (e.Flushed? && !e.alive)
  }

  predicate EndedBetween(log: seq<Entry>, p: nat, q: nat) {
    exists r :: p < r < q && r < |log| && EndsGroup(log[r])
  }

  /** Every cause sent since the group was opened is still known to it. */
  predicate SentAreKnown(h: History) {
    forall p: nat :: p < |h.log| && h.log[p].Sent? ==>
      || EndedBetween(h.log, p, |h.log|)
      || (h.group.Some? && h.log[p].cause in h.group.value.causes)
  }

  lemma EndedStays(log: seq<Entry>, e: Entry, p: nat, q: nat)
    requires EndedBetween(log, p, q) && q <= |log|
    ensures EndedBetween(log + [e], p, q) && EndedBetween(log + [e], p, |log| + 1)
  {
    var r :| p < r < q && r < |log| && EndsGroup(log[r]);
    assert (log + [e])[r] == log[r];
  }

  lemma {:induction false} OutageCausesStayKnown(o: Options, k: Key, calls: seq<Call>)
    requires IsOutage(k.event)
    ensures SentAreKnown(KeyRun(o, k, calls))
  {
    if calls != [] {
      var h, c := KeyRun(o, k, calls[..|calls| - 1]), calls[|calls| - 1];
      OutageCausesStayKnown(o, k, calls[..|calls| - 1]);
      KnownAfterStep(o, k, h, c);
    }
  }

  lemma KnownAfterStep(o: Options, k: Key, h: History, c: Call)
    requires IsOutage(k.event) && SentAreKnown(h)
    ensures var s := KeyStep(o, k, h.group, c); SentAreKnown(History(s.group, h.log + s.entries))
  {
    var s := KeyStep(o, k, h.group, c);
    if s.entries == [] {
      assert h.log + [] == h.log;
    } else {
      var e := s.entries[0];
      assert s.entries == [e];
      var log := h.log + [e];
      forall p: nat | p < |log| && log[p].Sent?
        ensures EndedBetween(log, p, |log|) || (s.group.Some? && log[p].cause in s.group.value.causes)
      {
        if p < |h.log| {
          if EndedBetween(h.log, p, |h.log|) {
            EndedStays(h.log, e, p, |h.log|);
          } else if s.group.None? {
            assert EndsGroup(log[|h.log|]);
          }
        }
      }
    }
  }

  /** A cause of an outage is announced once in the life of its group: two announcements have the group's end between them. */
  lemma {:induction false} OutageCauseSentOnce(o: Options, k: Key, calls: seq<Call>, p: nat, q: nat)
    requires IsOutage(k.event)
    requires var log := KeyRun(o, k, calls).log;
      p < q < |log| && log[p].Sent? && log[q].Sent? && log[p].cause == log[q].cause
    ensures EndedBetween(KeyRun(o, k, calls).log, p, q)
  {
    var init, c := calls[..|calls| - 1], calls[|calls| - 1];
    var h := KeyRun(o, k, init);
    var s := KeyStep(o, k, h.group, c);
    if q < |h.log| {
      OutageCauseSentOnce(o, k, init, p, q);
      if s.entries == [] {
        assert h.log + [] == h.log;
      } else {
        assert s.entries == [s.entries[0]];
        EndedStays(h.log, s.entries[0], p, q);
      }
    } else {
      OutageCausesStayKnown(o, k, init);
      assert s.entries == [s.entries[0]];
      assert EndedBetween(h.log, p, |h.log|);
      EndedStays(h.log, s.entries[0], p, |h.log|);
    }
  }

  // ---- Reports keep their distance ---------------------------------------------------

  /** The clock the calls carry, as far as they have gone. */
  function Clock(calls: seq<Call>): Option<int> {
    if calls == [] then None
    else
      var c := calls[|calls| - 1];
      if c.Clear? then Clock(calls[..|calls| - 1]) else Some(c.at)
  }

  predicate Nondecreasing(calls: seq<Call>) {
    calls == [] ||
    (var init, c := calls[..|calls| - 1], calls[|calls| - 1];
     Nondecreasing(init) && (!c.Clear? && Clock(init).Some? ==> Clock(init).value <= c.at))
  }

  /** How far apart two reports of a key must be: the repeat interval for an outage, the window for file events. */
  function Gap(o: Options, k: Key): nat {
    if IsOutage(k.event) then o.repeatMs else o.windowMs
  }

  predicate Reports(e: Entry) {
    e.Flushed? && e.report.Some?
  }

  /** The last report with no clear since. */
  function LastReport(log: seq<Entry>): Option<int> {
    if log == [] then None
    else
      var e := log[|log| - 1];
      if e.Cleared? then None else if Reports(e) then Some(e.at) else LastReport(log[..|log| - 1])
  }

  /** The next report cannot come before this. */
  predicate HoldsOff(o: Options, k: Key, g: Option<Group>, until: int) {
    g.Some? && if IsOutage(k.event) then g.value.phase == Repeat && g.value.noticeAt + o.repeatMs >= until
               else g.value.windowEnd >= until
  }

  predicate Spaced(o: Options, k: Key, h: History, clock: Option<int>) {
    LastReport(h.log).Some? ==>
      || HoldsOff(o, k, h.group, LastReport(h.log).value + Gap(o, k))
      || (clock.Some? && LastReport(h.log).value + Gap(o, k) <= clock.value)
  }

  /** File-event groups never leave their first phase; an open window of an outage has its start a window before its end. */
  predicate PhaseFits(k: Key, g: Option<Group>) {
    g.Some? && !IsOutage(k.event) ==> g.value.phase == Window
  }

  lemma StepIsOneEntry(o: Options, k: Key, g: Option<Group>, c: Call)
    ensures |KeyStep(o, k, g, c).entries| <= 1
  {
  }

  lemma {:induction false} LastReportMore(log: seq<Entry>, e: Entry)
    ensures LastReport(log + [e]) == if e.Cleared? then None else if Reports(e) then Some(e.at) else LastReport(log)
    ensures Reports(e) ==> e.Flushed?
  {
    assert (log + [e])[..|log|] == log;
  }

  lemma SpacedAfterStep(o: Options, k: Key, h: History, c: Call, clock: Option<int>)
    requires Spaced(o, k, h, clock) && PhaseFits(k, h.group) && Bounded(h.group)
    requires !c.Clear? && clock.Some? ==> clock.value <= c.at
    ensures var s := KeyStep(o, k, h.group, c); var now := if c.Clear? then clock else Some(c.at);
      Spaced(o, k, History(s.group, h.log + s.entries), now) && PhaseFits(k, s.group)
    ensures var s := KeyStep(o, k, h.group, c);
      s.entries != [] && Reports(s.entries[0]) && LastReport(h.log).Some?
      ==> s.entries[0].at >= LastReport(h.log).value + Gap(o, k)
  {
    var s := KeyStep(o, k, h.group, c);
    hide LastReport;
    if s.entries == [] {
      assert h.log + [] == h.log;
    } else {
      assert s.entries == [s.entries[0]];
      LastReportMore(h.log, s.entries[0]);
    }
    if c.Offer? {
      hide Opened, OnOffer, WhatOf;
      if h.group.Some? { OfferKeepsTimes(o, IsOutage(k.event), h.group.value, c.cause, c.example); } else { OpensInWindow(o, c.cause, c.at); }
    }
  }

  lemma OpensInWindow(o: Options, cause: string, now: int)
    ensures Opened(o, cause, now).phase == Window && Opened(o, cause, now).windowEnd == now + o.windowMs
  {
  }

  lemma OfferKeepsTimes(o: Options, outage: bool, g: Group, cause: string, example: Option<string>)
    ensures var n := OnOffer(o, outage, g, cause, example);
      n.phase == g.phase && n.windowEnd == g.windowEnd && n.noticeAt == g.noticeAt
  {
  }

  lemma {:induction false} RunStaysSpaced(o: Options, k: Key, calls: seq<Call>)
    requires Nondecreasing(calls)
    ensures Spaced(o, k, KeyRun(o, k, calls), Clock(calls)) && PhaseFits(k, KeyRun(o, k, calls).group)
  {
    if calls != [] {
      var init, c := calls[..|calls| - 1], calls[|calls| - 1];
      RunStaysSpaced(o, k, init);
      RunStaysBounded(o, k, init);
      SpacedAfterStep(o, k, KeyRun(o, k, init), c, Clock(init));
    }
  }

  predicate ClearedBetween(log: seq<Entry>, p: nat, q: nat) {
    exists r :: p < r < q && r < |log| && log[r].Cleared?
  }

  lemma ClearedStays(log: seq<Entry>, more: seq<Entry>, p: nat, q: nat, q': nat)
    requires ClearedBetween(log, p, q) && q <= q'
    ensures ClearedBetween(log + more, p, q')
  {
    var r :| p < r < q && r < |log| && log[r].Cleared?;
    assert (log + more)[r].Cleared?;
  }

  /** With no clear after it, a report is not later than the last one. */
  lemma {:induction false} LastReportIsLatest(o: Options, k: Key, calls: seq<Call>, p: nat)
    requires Nondecreasing(calls)
    requires var log := KeyRun(o, k, calls).log; p < |log| && Reports(log[p]) && !ClearedBetween(log, p, |log|)
    ensures var log := KeyRun(o, k, calls).log; LastReport(log).Some? && log[p].at <= LastReport(log).value
  {
    var init, c := calls[..|calls| - 1], calls[|calls| - 1];
    var h := KeyRun(o, k, init);
    var s := KeyStep(o, k, h.group, c);
    var log := h.log + s.entries;
    StepIsOneEntry(o, k, h.group, c);
    hide KeyStep, Reports, Spaced, LastReport, Bounded, PhaseFits;
    if p < |h.log| {
      assert log[p] == h.log[p];
      if ClearedBetween(h.log, p, |h.log|) { ClearedStays(h.log, s.entries, p, |h.log|, |log|); }
      LastReportIsLatest(o, k, init, p);
      RunStaysSpaced(o, k, init);
      RunStaysBounded(o, k, init);
      SpacedAfterStep(o, k, h, c, Clock(init));
    }
    if s.entries == [] {
      assert log == h.log;
    } else {
      assert log[|h.log|] == s.entries[0] && s.entries == [s.entries[0]];
      LastReportMore(h.log, s.entries[0]);
    }
  }

  /**
    On a nondecreasing clock, two reports of one key are at least the repeat interval apart for an
    outage, and at least the window apart for file events, even across a group that ended in between;
    only a clear lifts this.
   */
  lemma {:induction false} ReportsKeepTheirDistance(o: Options, k: Key, calls: seq<Call>, p: nat, q: nat)
    requires Nondecreasing(calls)
    requires var log := KeyRun(o, k, calls).log;
      p < q < |log| && Reports(log[p]) && Reports(log[q]) && !ClearedBetween(log, p, q)
    ensures var log := KeyRun(o, k, calls).log; log[q].at >= log[p].at + Gap(o, k)
  {
    var init, c := calls[..|calls| - 1], calls[|calls| - 1];
    var h := KeyRun(o, k, init);
    var s := KeyStep(o, k, h.group, c);
    var log := h.log + s.entries;
    assert log[p] == h.log[p];
    if ClearedBetween(h.log, p, q) { ClearedStays(h.log, s.entries, p, q, q); }
    if q < |h.log| {
      assert log[q] == h.log[q];
      ReportsKeepTheirDistance(o, k, init, p, q);
    } else {
      RunStaysSpaced(o, k, init);
      RunStaysBounded(o, k, init);
      LastReportIsLatest(o, k, init, p);
      SpacedAfterStep(o, k, h, c, Clock(init));
    }
  }
}
