/**
  Daemon events as alerts. Outages stand until they clear; a recovery is news only for an outage that
  was announced, nothing that was already wrong at boot is announced before the startup delay, and a
  node is an outage only once it has been away for a whole grace.
 */
module DaemonAlerts {
  import opened Wrappers

  /** The ids the server gives its nodes. */
  predicate IsNodeId(id: string) {
    |id| == 17 && NODE_ID_PREFIX <= id && forall i :: 5 <= i < 17 ==> id[i] in NODE_ID_ALPHABET
  }

  type NodeId = id: string | IsNodeId(id) witness "node-aaaaaaaaaaaa"

  datatype Outage = NodeOffline | LibraryRootMissing | ScanAborted | LibraryPaused | HardwareCheckFailed

  datatype Key = Key(event: Outage, scope: string)

  datatype Standing = Standing(notBefore: int, raised: bool)

  datatype Config = Config(boot: int, startupDelay: nat, nodeGrace: nat)

  /** What the service is told, and the connections seen, in order. */
  datatype Signal =
    | Raise(keys: set<Key>, at: int)
    | Recovery(key: Key, at: int)
    | Forgot(gone: set<Key>)
    | Notice(at: int)
    | Online(node: NodeId, at: int)

  datatype Event =
    | JobFinished(alerts: bool)
    | ScanFinished(library: string, rootsUnavailable: nat)
    | ScanStopped(library: string)
    | Paused(library: string, byOperator: bool)
    | LibraryRemoved(library: string)
    | Resumed(library: string)
    | HardwareFailed
    | NodesChanged(node: NodeId, online: bool)
    | Refused(who: Option<NodeId>, authenticated: bool)
    | NodeRemoved(node: NodeId)
    | OtherEvent

  const NODE_ID_PREFIX := "node-"
  const NODE_ID_ALPHABET := "abcdefghijklmnopqrstuvwxyz234567"
  const HARDWARE_SCOPE := "hardware"
  const REFUSED_PREFIX := "refused:"
  const REFUSALS_TO_ALERT: nat := 3
  const REFUSAL_WINDOW: int := 600000
  const MAX_REMOVED_NODES: nat := 1000

  function RefusedScope(node: NodeId): string {
    REFUSED_PREFIX + node
  }

  function Own(scope: string): Key {
    Key(NodeOffline, scope)
  }

  datatype State = State(
    standing: map<Key, Standing>,
    refusals: map<NodeId, seq<int>>,
    removed: seq<NodeId>,
    log: seq<Signal>
  )

  // ---- Steps -------------------------------------------------------------------------

  function Tell(s: State, signal: Signal): State {
    s.(log := s.log + [signal])
  }

  function Max(a: int, b: int): int {
    if a >= b then a else b
  }

  /** The entry an outage stands by: a repeat keeps the schedule and the flag it has. */
  function Entry(c: Config, s: State, k: Key, extra: nat, now: int): Standing {
    if k in s.standing then s.standing[k] else Standing(Max(c.boot + c.startupDelay, now + extra), false)
  }

  function Begin(c: Config, s: State, k: Key, extra: nat, now: int): State {
    var e := Entry(c, s, k, extra, now);
    if !e.raised && now >= e.notBefore
    then Tell(s.(standing := s.standing[k := e.(raised := true)]), Raise({k}, now))
    else s.(standing := s.standing[k := e])
  }

  function Recover(s: State, k: Key, now: int): State {
    if k !in s.standing then s
    else
      var t := s.(standing := s.standing - {k});
      if s.standing[k].raised then Tell(t, Recovery(k, now)) else t
  }

  function Forget(s: State, k: Key): State {
    Tell(s.(standing := s.standing - {k}), Forgot({k}))
  }

  function BeginPaused(c: Config, s: State, library: string, byOperator: bool, now: int): State {
    if byOperator then Forget(s, Key(LibraryPaused, library)) else Begin(c, s, Key(LibraryPaused, library), 0, now)
  }

  function Remembered(removed: seq<NodeId>, node: NodeId): seq<NodeId> {
    var more := if node in removed then removed else removed + [node];
    if |more| > MAX_REMOVED_NODES then more[1..] else more
  }

  function OnNodeRemoved(s: State, node: NodeId): State {
    var t := Forget(Forget(s, Own(node)), Own(RefusedScope(node)));
    t.(refusals := s.refusals - {node}, removed := Remembered(s.removed, node))
  }

  function BeginNodeOffline(c: Config, s: State, node: NodeId, now: int): State {
    if node in s.removed then s else Begin(c, s, Own(node), c.nodeGrace, now)
  }

  /** Those of the times that are still inside the window. */
  function Recent(times: seq<int>, now: int): (r: seq<int>)
    ensures forall t :: t in r <==> t in times && now - t <= REFUSAL_WINDOW
  {
    if times == [] then []
    else
      var init := Recent(times[..|times| - 1], now);
      if now - times[|times| - 1] <= REFUSAL_WINDOW then init + [times[|times| - 1]] else init
  }

  function LastOf(times: seq<int>, n: nat): seq<int> {
    if |times| > n then times[|times| - n..] else times
  }

  function Refusals(s: State, node: NodeId, now: int): seq<int> {
    LastOf(Recent(if node in s.refusals then s.refusals[node] else [], now) + [now], REFUSALS_TO_ALERT)
  }

  function OnRefused(c: Config, s: State, who: Option<NodeId>, authenticated: bool, now: int): State {
    match who
    case None => Tell(s, Notice(now))
    case Some(node) =>
      if node in s.removed then s
      else if authenticated then Begin(c, s, Own(RefusedScope(node)), 0, now)
      else
        var recent := Refusals(s, node, now);
        var t := s.(refusals := s.refusals[node := recent]);
        if |recent| < REFUSALS_TO_ALERT then t else Begin(c, t, Own(RefusedScope(node)), 0, now)
  }

  function CameOnline(s: State, node: NodeId, now: int): State {
    var t := Recover(Tell(s, Online(node, now)), Own(node), now);
    Recover(t.(refusals := t.refusals - {node}), Own(RefusedScope(node)), now)
  }

  function OnScanFinished(c: Config, s: State, library: string, rootsUnavailable: nat, now: int): State {
    if rootsUnavailable > 0 then
      Begin(c, Forget(s, Key(ScanAborted, library)), Key(LibraryRootMissing, library), 0, now)
    else Recover(Recover(s, Key(ScanAborted, library), now), Key(LibraryRootMissing, library), now)
  }

  function OnEvent(c: Config, s: State, e: Event, now: int): State {
    match e
    case JobFinished(alerts) => if alerts then Tell(s, Notice(now)) else s
    case ScanFinished(library, rootsUnavailable) => OnScanFinished(c, s, library, rootsUnavailable, now)
    case ScanStopped(library) => Begin(c, s, Key(ScanAborted, library), 0, now)
    case Paused(library, byOperator) => BeginPaused(c, s, library, byOperator, now)
    case LibraryRemoved(library) =>
      Forget(Forget(Forget(s, Key(LibraryPaused, library)), Key(LibraryRootMissing, library)), Key(ScanAborted, library))
    case Resumed(library) => Recover(s, Key(LibraryPaused, library), now)
    case HardwareFailed => Begin(c, s, Key(HardwareCheckFailed, HARDWARE_SCOPE), 0, now)
    case NodesChanged(node, online) => if online then CameOnline(s, node, now) else BeginNodeOffline(c, s, node, now)
    case Refused(who, authenticated) => OnRefused(c, s, who, authenticated, now)
    case NodeRemoved(node) => OnNodeRemoved(s, node)
    case OtherEvent => s
  }

  /** The nodes whose refusals have all gone out of the window, and the entries that go with them. */
  function Lapsed(s: State, now: int): set<NodeId> {
    set n | n in s.refusals && Recent(s.refusals[n], now) == []
  }

  function LapsedKeys(s: State, now: int): set<Key> {
    RefusedKeys(Lapsed(s, now))
  }

  function RefusedKeys(nodes: set<NodeId>): set<Key> {
    set n | n in nodes :: Own(RefusedScope(n))
  }

  lemma OneMoreRefused(nodes: set<NodeId>, node: NodeId)
    ensures RefusedKeys(nodes + {node}) == RefusedKeys(nodes) + {Own(RefusedScope(node))}
  {
  }

  function DueKeys(standing: map<Key, Standing>, now: int): set<Key> {
    set k | k in standing && now >= standing[k].notBefore
  }

  /** A refusal entry lasts only while refusals keep arriving. */
  function Expired(s: State, now: int): State {
    State(s.standing - LapsedKeys(s, now),
          map n | n in s.refusals && n !in Lapsed(s, now) :: Recent(s.refusals[n], now),
          s.removed,
          s.log + [Forgot(LapsedKeys(s, now))])
  }

  /** `Expired` as far as the nodes in `done`. */
  function PartlyExpired(s: State, done: set<NodeId>, now: int): State {
    var lapsed := Lapsed(s, now) * done;
    s.(standing := s.standing - RefusedKeys(lapsed),
       refusals := map n | n in s.refusals && n !in lapsed :: if n in done then Recent(s.refusals[n], now) else s.refusals[n])
  }

  function ExpireOne(s: State, node: NodeId, now: int): State
    requires node in s.refusals
  {
    var recent := Recent(s.refusals[node], now);
    if recent != [] then s.(refusals := s.refusals[node := recent])
    else s.(refusals := s.refusals - {node}, standing := s.standing - {Own(RefusedScope(node))})
  }

  lemma ExpireStep(s: State, done: set<NodeId>, node: NodeId, now: int)
    requires node in s.refusals && node !in done
    ensures node in PartlyExpired(s, done, now).refusals
    ensures ExpireOne(PartlyExpired(s, done, now), node, now) == PartlyExpired(s, done + {node}, now)
  {
    var lapsed, t, u := Lapsed(s, now) * done, ExpireOne(PartlyExpired(s, done, now), node, now), PartlyExpired(s, done + {node}, now);
    if node in Lapsed(s, now) {
      assert Lapsed(s, now) * (done + {node}) == lapsed + {node};
      OneMoreRefused(lapsed, node);
    } else {
      assert Lapsed(s, now) * (done + {node}) == lapsed;
    }
    assert t.refusals == u.refusals;
    assert t.standing == u.standing;
  }

  lemma {:induction false} ExpireGone(s: State, nodes: set<NodeId>, node: NodeId, now: int)
    requires node in nodes && node in s.refusals
    ensures RefusedKeys(Lapsed(s, now) - (nodes - {node})) ==
            RefusedKeys(Lapsed(s, now) - nodes) + if Recent(s.refusals[node], now) == [] then {Own(RefusedScope(node))} else {}
    ensures node !in s.refusals.Keys - nodes
    ensures PartlyExpired(s, s.refusals.Keys - nodes, now).refusals[node] == s.refusals[node]
  {
    if node in Lapsed(s, now) {
      assert Lapsed(s, now) - (nodes - {node}) == (Lapsed(s, now) - nodes) + {node};
      OneMoreRefused(Lapsed(s, now) - nodes, node);
    } else {
      assert Lapsed(s, now) - (nodes - {node}) == Lapsed(s, now) - nodes;
    }
  }

  lemma NothingLapsedYet(s: State, now: int)
    ensures s.refusals.Keys - s.refusals.Keys == {} && RefusedKeys(Lapsed(s, now) - s.refusals.Keys) == {}
  {
    assert Lapsed(s, now) - s.refusals.Keys == {};
  }

  lemma ExpireEnds(s: State, now: int)
    ensures PartlyExpired(s, {}, now) == s
    ensures Tell(PartlyExpired(s, s.refusals.Keys, now), Forgot(LapsedKeys(s, now))) == Expired(s, now)
  {
    assert Lapsed(s, now) * {} == {} && RefusedKeys({}) == {};
    assert Lapsed(s, now) * s.refusals.Keys == Lapsed(s, now);
    assert PartlyExpired(s, {}, now).refusals == s.refusals;
    assert PartlyExpired(s, {}, now).standing == s.standing;
    assert PartlyExpired(s, s.refusals.Keys, now).refusals == Expired(s, now).refusals;
  }

  function OfferedDue(s: State, now: int): State {
    var due := DueKeys(s.standing, now);
    Tell(s.(standing := map k | k in s.standing :: if k in due then s.standing[k].(raised := true) else s.standing[k]),
         Raise(due, now))
  }

  function Reraise(s: State, now: int): State {
    OfferedDue(Expired(s, now), now)
  }

  function Unsubscribe(s: State): State {
    Tell(s.(standing := map[]), Forgot(s.standing.Keys))
  }

  // ---- Histories ---------------------------------------------------------------------

  datatype Call = Heard(event: Event, at: int) | Tick(at: int) | Detach

  function Step(c: Config, s: State, call: Call): State {
    match call
    case Heard(e, now) => OnEvent(c, s, e, now)
    case Tick(now) => Reraise(s, now)
    case Detach => Unsubscribe(s)
  }

  function Start(): State {
    State(map[], map[], [], [])
  }

  /** What was already wrong when the daemon started, read at boot. */
  function Booted(c: Config, paused: seq<(string, bool)>, offline: seq<NodeId>): State {
    if offline != [] then BeginNodeOffline(c, Booted(c, paused, offline[..|offline| - 1]), offline[|offline| - 1], c.boot)
    else if paused != [] then
      BeginPaused(c, Booted(c, paused[..|paused| - 1], []), paused[|paused| - 1].0, paused[|paused| - 1].1, c.boot)
    else Start()
  }

  function Run(c: Config, s: State, calls: seq<Call>): State {
    if calls == [] then s else Step(c, Run(c, s, calls[..|calls| - 1]), calls[|calls| - 1])
  }

  /** The time of the last call that read a clock, from `boot` on. */
  function Clock(boot: int, calls: seq<Call>): int {
    if calls == [] then boot
    else if calls[|calls| - 1].Detach? then Clock(boot, calls[..|calls| - 1])
    else calls[|calls| - 1].at
  }

  predicate Nondecreasing(boot: int, calls: seq<Call>) {
    calls == [] ||
    (Nondecreasing(boot, calls[..|calls| - 1]) && Clock(boot, calls[..|calls| - 1]) <= Clock(boot, calls))
  }

  // ---- What a history owes -----------------------------------------------------------

  predicate Ends(x: Signal, k: Key) {
    (x.Recovery? && x.key == k) || (x.Forgot? && k in x.gone)
  }

  predicate Raises(x: Signal, k: Key) {
    x.Raise? && k in x.keys
  }

  /** The outage was raised, and neither recovered nor forgotten since. */
  predicate Announced(log: seq<Signal>, k: Key) {
    exists p :: 0 <= p < |log| && Raises(log[p], k) && Unended(log, p, k)
  }

  predicate Unended(log: seq<Signal>, p: nat, k: Key) {
    forall r :: p < r < |log| ==> !Ends(log[r], k)
  }

  /** The node was not online in the grace before `at`. */
  predicate AwayBefore(c: Config, log: seq<Signal>, node: string, at: int) {
    forall p :: 0 <= p < |log| && log[p].Online? && log[p].node == node ==> log[p].at + c.nodeGrace <= at
  }

  predicate OwnScope(k: Key) {
    k.event == NodeOffline && IsNodeId(k.scope)
  }

  /** A signal as the module owes it, given what came before. */
  predicate Sound(c: Config, before: seq<Signal>, x: Signal) {
    && (x.Recovery? ==> Announced(before, x.key))
    && (x.Raise? && x.keys != {} ==> x.at >= c.boot + c.startupDelay)
    && (x.Raise? ==> forall k :: k in x.keys && OwnScope(k) ==> AwayBefore(c, before, k.scope, x.at))
  }

  predicate AllSound(c: Config, log: seq<Signal>) {
    forall q :: 0 <= q < |log| ==> Sound(c, log[..q], log[q])
  }

  /** A standing entry that can be raised when its time comes. */
  predicate Fits(c: Config, log: seq<Signal>, k: Key, e: Standing) {
    e.notBefore >= c.boot + c.startupDelay && (e.raised ==> Announced(log, k))
  }

  /** `except` may have been online within its grace. */
  predicate Inv(c: Config, s: State, now: int, except: set<Key>) {
    && AllSound(c, s.log)
    && (forall k :: k in s.standing ==> Fits(c, s.log, k, s.standing[k]))
    && (forall k :: k in s.standing && OwnScope(k) && k !in except ==> AwayBefore(c, s.log, k.scope, s.standing[k].notBefore))
    && (forall p :: 0 <= p < |s.log| && s.log[p].Online? ==> s.log[p].at <= now)
  }

  lemma SoundExtends(c: Config, log: seq<Signal>, x: Signal)
    requires AllSound(c, log) && Sound(c, log, x)
    ensures AllSound(c, log + [x])
  {
    var more := log + [x];
    forall q | 0 <= q < |more| ensures Sound(c, more[..q], more[q]) {
      assert more[..q] == log[..q];
      if q == |log| { assert log[..q] == log; }
    }
  }

  lemma AnnouncedExtends(log: seq<Signal>, x: Signal, k: Key)
    requires Announced(log, k) && !Ends(x, k)
    ensures Announced(log + [x], k)
  {
    var p :| 0 <= p < |log| && Raises(log[p], k) && Unended(log, p, k);
    assert Raises((log + [x])[p], k) && Unended(log + [x], p, k);
  }

  lemma JustRaised(log: seq<Signal>, x: Signal, k: Key)
    requires Raises(x, k)
    ensures Announced(log + [x], k)
  {
    assert Raises((log + [x])[|log|], k) && Unended(log + [x], |log|, k);
  }

  /** A sound signal that ends nothing still standing keeps the invariant. */
  lemma TellKeepsInv(c: Config, s: State, x: Signal, now: int, except: set<Key>)
    requires Inv(c, s, now, except) && Sound(c, s.log, x) && (x.Online? ==> x.at <= now)
    requires forall k :: k in s.standing ==> !Ends(x, k)
    requires x.Online? ==> Own(x.node) in except
    ensures Inv(c, Tell(s, x), now, except)
  {
    var t := Tell(s, x);
    SoundExtends(c, s.log, x);
    forall k | k in t.standing ensures Fits(c, t.log, k, t.standing[k]) {
      if t.standing[k].raised { AnnouncedExtends(s.log, x, k); }
    }
  }

  lemma DropKeepsInv(c: Config, s: State, gone: set<Key>, now: int, except: set<Key>)
    requires Inv(c, s, now, except)
    ensures Inv(c, s.(standing := s.standing - gone), now, except - gone)
  {
  }

  lemma RecoverKeepsInv(c: Config, s: State, k: Key, now: int, except: set<Key>)
    requires Inv(c, s, now, except)
    ensures Inv(c, Recover(s, k, now), now, except - {k})
  {
    if k in s.standing {
      DropKeepsInv(c, s, {k}, now, except);
      if s.standing[k].raised {
        assert Fits(c, s.log, k, s.standing[k]);
        TellKeepsInv(c, s.(standing := s.standing - {k}), Recovery(k, now), now, except - {k});
      }
    }
  }

  lemma ForgetKeepsInv(c: Config, s: State, k: Key, now: int)
    requires Inv(c, s, now, {})
    ensures Inv(c, Forget(s, k), now, {})
  {
    DropKeepsInv(c, s, {k}, now, {});
    TellKeepsInv(c, s.(standing := s.standing - {k}), Forgot({k}), now, {});
  }

  lemma BeginKeepsInv(c: Config, s: State, k: Key, extra: nat, now: int)
    requires Inv(c, s, now, {}) && (OwnScope(k) ==> extra == c.nodeGrace)
    ensures Inv(c, Begin(c, s, k, extra, now), now, {})
  {
    var e := Entry(c, s, k, extra, now);
    assert Fits(c, s.log, k, e);
    assert OwnScope(k) ==> AwayBefore(c, s.log, k.scope, e.notBefore);
    if !e.raised && now >= e.notBefore {
      var x := Raise({k}, now);
      var t := s.(standing := s.standing[k := e]);
      assert Inv(c, t, now, {});
      TellKeepsInv(c, t, x, now, {});
      JustRaised(s.log, x, k);
      var u := Begin(c, s, k, extra, now);
      forall j | j in u.standing ensures Fits(c, u.log, j, u.standing[j]) {
        assert Fits(c, Tell(t, x).log, j, t.standing[j]);
      }
    }
  }

  lemma CameOnlineKeepsInv(c: Config, s: State, node: NodeId, now: int)
    requires Inv(c, s, now, {})
    ensures Inv(c, CameOnline(s, node, now), now, {})
  {
    TellKeepsInv(c, s, Online(node, now), now, {Own(node)});
    var t := Recover(Tell(s, Online(node, now)), Own(node), now);
    RecoverKeepsInv(c, Tell(s, Online(node, now)), Own(node), now, {Own(node)});
    assert {Own(node)} - {Own(node)} == {};
    var u := t.(refusals := t.refusals - {node});
    RecoverKeepsInv(c, u, Own(RefusedScope(node)), now, {});
  }

  lemma RefusedIsNotOwn(node: NodeId)
    ensures !OwnScope(Own(RefusedScope(node)))
  {
    assert RefusedScope(node)[0] == REFUSED_PREFIX[0] && REFUSED_PREFIX[0] != NODE_ID_PREFIX[0];
  }

  lemma EventKeepsInv(c: Config, s: State, e: Event, now: int)
    requires Inv(c, s, now, {})
    ensures Inv(c, OnEvent(c, s, e, now), now, {})
  {
    hide Inv, Begin, Forget, Recover, BeginPaused, OnNodeRemoved, OnScanFinished, OnRefused, CameOnline, BeginNodeOffline;
    match e {
      case JobFinished(alerts) => if alerts { TellKeepsInv(c, s, Notice(now), now, {}); }
      case ScanFinished(library, rootsUnavailable) => ScanKeepsInv(c, s, library, rootsUnavailable, now);
      case ScanStopped(library) => BeginKeepsInv(c, s, Key(ScanAborted, library), 0, now);
      case Paused(library, byOperator) => PausedKeepsInv(c, s, library, byOperator, now);
      case LibraryRemoved(library) =>
        var a, b := Key(LibraryPaused, library), Key(LibraryRootMissing, library);
        ForgetKeepsInv(c, s, a, now);
        ForgetKeepsInv(c, Forget(s, a), b, now);
        ForgetKeepsInv(c, Forget(Forget(s, a), b), Key(ScanAborted, library), now);
      case Resumed(library) =>
        RecoverKeepsInv(c, s, Key(LibraryPaused, library), now, {});
        assert {} - {Key(LibraryPaused, library)} == {};
      case HardwareFailed => BeginKeepsInv(c, s, Key(HardwareCheckFailed, HARDWARE_SCOPE), 0, now);
      case NodesChanged(node, online) =>
        if online { CameOnlineKeepsInv(c, s, node, now); } else { OfflineKeepsInv(c, s, node, now); }
      case Refused(who, authenticated) => RefusedKeepsInv(c, s, who, authenticated, now);
      case NodeRemoved(node) => RemovedKeepsInv(c, s, node, now);
      case OtherEvent =>
    }
  }

  lemma ScanKeepsInv(c: Config, s: State, library: string, rootsUnavailable: nat, now: int)
    requires Inv(c, s, now, {})
    ensures Inv(c, OnScanFinished(c, s, library, rootsUnavailable, now), now, {})
  {
    hide Inv, Begin, Forget, Recover;
    var aborted, missing := Key(ScanAborted, library), Key(LibraryRootMissing, library);
    if rootsUnavailable > 0 {
      ForgetKeepsInv(c, s, aborted, now);
      BeginKeepsInv(c, Forget(s, aborted), missing, 0, now);
    } else {
      RecoverKeepsInv(c, s, aborted, now, {});
      assert {} - {aborted} == {};
      RecoverKeepsInv(c, Recover(s, aborted, now), missing, now, {});
      assert {} - {missing} == {};
    }
  }

  /** The invariant does not read the refusals or the removed nodes. */
  lemma OnlyStandingAndLogMatter(c: Config, s: State, t: State, now: int)
    requires Inv(c, s, now, {}) && t.standing == s.standing && t.log == s.log
    ensures Inv(c, t, now, {})
  {
  }

  lemma RemovedKeepsInv(c: Config, s: State, node: NodeId, now: int)
    requires Inv(c, s, now, {})
    ensures Inv(c, OnNodeRemoved(s, node), now, {})
  {
    hide Inv, Forget;
    var t := Forget(Forget(s, Own(node)), Own(RefusedScope(node)));
    ForgetKeepsInv(c, s, Own(node), now);
    ForgetKeepsInv(c, Forget(s, Own(node)), Own(RefusedScope(node)), now);
    OnlyStandingAndLogMatter(c, t, OnNodeRemoved(s, node), now);
  }

  lemma PausedKeepsInv(c: Config, s: State, library: string, byOperator: bool, now: int)
    requires Inv(c, s, now, {})
    ensures Inv(c, BeginPaused(c, s, library, byOperator, now), now, {})
  {
    if byOperator { ForgetKeepsInv(c, s, Key(LibraryPaused, library), now); }
    else { BeginKeepsInv(c, s, Key(LibraryPaused, library), 0, now); }
  }

  lemma OfflineKeepsInv(c: Config, s: State, node: NodeId, now: int)
    requires Inv(c, s, now, {})
    ensures Inv(c, BeginNodeOffline(c, s, node, now), now, {})
  {
    if node !in s.removed { BeginKeepsInv(c, s, Own(node), c.nodeGrace, now); }
  }

  lemma RefusedKeepsInv(c: Config, s: State, who: Option<NodeId>, authenticated: bool, now: int)
    requires Inv(c, s, now, {})
    ensures Inv(c, OnRefused(c, s, who, authenticated, now), now, {})
  {
    match who {
      case None => TellKeepsInv(c, s, Notice(now), now, {});
      case Some(node) =>
        RefusedIsNotOwn(node);
        var t := if authenticated then s else s.(refusals := s.refusals[node := Refusals(s, node, now)]);
        assert Inv(c, t, now, {});
        BeginKeepsInv(c, t, Own(RefusedScope(node)), 0, now);
    }
  }

  lemma ExpiredKeepsInv(c: Config, s: State, now: int)
    requires Inv(c, s, now, {})
    ensures Inv(c, Expired(s, now), now, {})
  {
    var gone := LapsedKeys(s, now);
    DropKeepsInv(c, s, gone, now, {});
    TellKeepsInv(c, s.(standing := s.standing - gone), Forgot(gone), now, {});
  }

  lemma OfferedKeepsInv(c: Config, s: State, now: int)
    requires Inv(c, s, now, {})
    ensures Inv(c, OfferedDue(s, now), now, {})
  {
    var due := DueKeys(s.standing, now);
    var x, t := Raise(due, now), OfferedDue(s, now);
    TellKeepsInv(c, s, x, now, {});
    forall k | k in t.standing ensures Fits(c, t.log, k, t.standing[k]) {
      assert Fits(c, Tell(s, x).log, k, s.standing[k]);
      if k in due { JustRaised(s.log, x, k); }
    }
  }

  lemma ReraiseKeepsInv(c: Config, s: State, now: int)
    requires Inv(c, s, now, {})
    ensures Inv(c, Reraise(s, now), now, {})
  {
    ExpiredKeepsInv(c, s, now);
    OfferedKeepsInv(c, Expired(s, now), now);
  }

  lemma UnsubscribeKeepsInv(c: Config, s: State, now: int)
    requires Inv(c, s, now, {})
    ensures Inv(c, Unsubscribe(s), now, {})
  {
    DropKeepsInv(c, s, s.standing.Keys, now, {});
    TellKeepsInv(c, s.(standing := map[]), Forgot(s.standing.Keys), now, {});
  }

  lemma {:induction false} BootKeepsInv(c: Config, paused: seq<(string, bool)>, offline: seq<NodeId>)
    ensures Inv(c, Booted(c, paused, offline), c.boot, {})
    decreases |offline|, |paused|
  {
    if offline != [] {
      BootKeepsInv(c, paused, offline[..|offline| - 1]);
      OfflineKeepsInv(c, Booted(c, paused, offline[..|offline| - 1]), offline[|offline| - 1], c.boot);
    } else if paused != [] {
      var init, last := paused[..|paused| - 1], paused[|paused| - 1];
      BootKeepsInv(c, init, []);
      PausedKeepsInv(c, Booted(c, init, []), last.0, last.1, c.boot);
    }
  }

  lemma {:induction false} RunKeepsInv(c: Config, s: State, calls: seq<Call>)
    requires Inv(c, s, c.boot, {}) && Nondecreasing(c.boot, calls)
    ensures Inv(c, Run(c, s, calls), Clock(c.boot, calls), {})
  {
    if calls != [] {
      var init, call := calls[..|calls| - 1], calls[|calls| - 1];
      RunKeepsInv(c, s, init);
      var t, now := Run(c, s, init), Clock(c.boot, calls);
      assert Inv(c, t, now, {});
      match call {
        case Heard(e, at) => EventKeepsInv(c, t, e, at);
        case Tick(at) => ReraiseKeepsInv(c, t, at);
        case Detach => UnsubscribeKeepsInv(c, t, now);
      }
    }
  }

  /**
    Over any history of events and ticks: a recovery is told only of an outage announced since it last
    ended; no standing outage is announced before the startup delay; and a node's own outage only with
    no connection of that node seen in the grace before.
   */
  lemma {:induction false} EverySignalIsSound(c: Config, paused: seq<(string, bool)>, offline: seq<NodeId>, calls: seq<Call>, q: nat)
    requires Nondecreasing(c.boot, calls)
    requires q < |Run(c, Booted(c, paused, offline), calls).log|
    ensures var log := Run(c, Booted(c, paused, offline), calls).log; Sound(c, log[..q], log[q])
  {
    BootKeepsInv(c, paused, offline);
    RunKeepsInv(c, Booted(c, paused, offline), calls);
  }

  // ---- A removed node stays quiet ----------------------------------------------------

  predicate Quiet(s: State) {
    forall n :: n in s.removed ==> Own(n) !in s.standing
  }

  lemma BeginKeepsQuiet(c: Config, s: State, k: Key, extra: nat, now: int)
    requires Quiet(s) && (OwnScope(k) ==> k.scope !in s.removed)
    ensures Quiet(Begin(c, s, k, extra, now))
  {
    hide IsNodeId;
  }

  lemma RefusedKeepsQuiet(c: Config, s: State, who: Option<NodeId>, authenticated: bool, now: int)
    requires Quiet(s)
    ensures Quiet(OnRefused(c, s, who, authenticated, now))
  {
    if who.Some? {
      var node := who.value;
      RefusedIsNotOwn(node);
      hide IsNodeId, Refusals, Quiet, Begin;
      var t := s.(refusals := s.refusals[node := Refusals(s, node, now)]);
      assert Quiet(t) by { OnlyStandingMatters(s, t); }
      BeginKeepsQuiet(c, s, Own(RefusedScope(node)), 0, now);
      BeginKeepsQuiet(c, t, Own(RefusedScope(node)), 0, now);
    } else {
      OnlyStandingMatters(s, Tell(s, Notice(now)));
    }
  }

  lemma OnlyStandingMatters(s: State, t: State)
    requires Quiet(s) && t.removed == s.removed && t.standing.Keys <= s.standing.Keys
    ensures Quiet(t)
  {
    hide IsNodeId;
  }

  lemma EndKeepsQuiet(s: State, k: Key, now: int)
    requires Quiet(s)
    ensures Quiet(Forget(s, k)) && Quiet(Recover(s, k, now))
  {
    OnlyStandingMatters(s, Forget(s, k));
    OnlyStandingMatters(s, Recover(s, k, now));
  }

  lemma ScanKeepsQuiet(c: Config, s: State, library: string, rootsUnavailable: nat, now: int)
    requires Quiet(s)
    ensures Quiet(OnScanFinished(c, s, library, rootsUnavailable, now))
  {
    hide Quiet, Begin, Forget, Recover;
    var aborted, missing := Key(ScanAborted, library), Key(LibraryRootMissing, library);
    EndKeepsQuiet(s, aborted, now);
    BeginKeepsQuiet(c, Forget(s, aborted), missing, 0, now);
    EndKeepsQuiet(Recover(s, aborted, now), missing, now);
  }

  lemma RemovedKeepsQuiet(s: State, node: NodeId)
    requires Quiet(s)
    ensures Quiet(OnNodeRemoved(s, node))
  {
    hide IsNodeId;
    forall n | n in OnNodeRemoved(s, node).removed ensures Own(n) !in OnNodeRemoved(s, node).standing {
      assert n in s.removed || n == node;
    }
  }

  lemma ConnectionKeepsQuiet(c: Config, s: State, node: NodeId, now: int)
    requires Quiet(s)
    ensures Quiet(CameOnline(s, node, now)) && Quiet(BeginNodeOffline(c, s, node, now))
  {
    if node !in s.removed { BeginKeepsQuiet(c, s, Own(node), c.nodeGrace, now); }
    hide IsNodeId;
    OnlyStandingMatters(s, CameOnline(s, node, now));
  }

  lemma EventKeepsQuiet(c: Config, s: State, e: Event, now: int)
    requires Quiet(s)
    ensures Quiet(OnEvent(c, s, e, now))
  {
    hide Quiet, Begin, Forget, Recover, OnNodeRemoved, OnScanFinished, OnRefused, CameOnline, BeginNodeOffline;
    match e {
      case JobFinished(alerts) => OnlyStandingMatters(s, Tell(s, Notice(now)));
      case ScanFinished(library, rootsUnavailable) => ScanKeepsQuiet(c, s, library, rootsUnavailable, now);
      case ScanStopped(library) => BeginKeepsQuiet(c, s, Key(ScanAborted, library), 0, now);
      case Paused(library, byOperator) =>
        BeginKeepsQuiet(c, s, Key(LibraryPaused, library), 0, now);
        EndKeepsQuiet(s, Key(LibraryPaused, library), now);
      case LibraryRemoved(library) =>
        var a, b := Key(LibraryPaused, library), Key(LibraryRootMissing, library);
        EndKeepsQuiet(s, a, now);
        EndKeepsQuiet(Forget(s, a), b, now);
        EndKeepsQuiet(Forget(Forget(s, a), b), Key(ScanAborted, library), now);
      case Resumed(library) => EndKeepsQuiet(s, Key(LibraryPaused, library), now);
      case HardwareFailed => BeginKeepsQuiet(c, s, Key(HardwareCheckFailed, HARDWARE_SCOPE), 0, now);
      case NodesChanged(node, online) => ConnectionKeepsQuiet(c, s, node, now);
      case Refused(who, authenticated) => RefusedKeepsQuiet(c, s, who, authenticated, now);
      case NodeRemoved(node) => RemovedKeepsQuiet(s, node);
      case OtherEvent =>
    }
  }

  lemma StepKeepsQuiet(c: Config, s: State, call: Call)
    requires Quiet(s)
    ensures Quiet(Step(c, s, call))
  {
    match call {
      case Heard(e, now) => EventKeepsQuiet(c, s, e, now);
      case Tick(now) => OnlyStandingMatters(s, Reraise(s, now));
      case Detach => OnlyStandingMatters(s, Unsubscribe(s));
    }
  }

  lemma {:induction false} RunKeepsQuiet(c: Config, s: State, calls: seq<Call>)
    requires Quiet(s)
    ensures Quiet(Run(c, s, calls))
  {
    if calls != [] {
      RunKeepsQuiet(c, s, calls[..|calls| - 1]);
      StepKeepsQuiet(c, Run(c, s, calls[..|calls| - 1]), calls[|calls| - 1]);
    }
  }

  lemma {:induction false} BootKeepsQuiet(c: Config, paused: seq<(string, bool)>, offline: seq<NodeId>)
    ensures Booted(c, paused, offline).removed == []
    decreases |offline|, |paused|
  {
    if offline != [] { BootKeepsQuiet(c, paused, offline[..|offline| - 1]); }
    else if paused != [] { BootKeepsQuiet(c, paused[..|paused| - 1], []); }
  }

  /** Nothing told between the two states announces the outage. */
  predicate Spares(s: State, t: State, k: Key) {
    s.log <= t.log && forall q :: |s.log| <= q < |t.log| ==> !Raises(t.log[q], k)
  }

  lemma ScanSpares(c: Config, s: State, library: string, rootsUnavailable: nat, now: int, k: Key)
    requires k.event == NodeOffline
    ensures Spares(s, OnScanFinished(c, s, library, rootsUnavailable, now), k)
  {
  }

  lemma RefusedSpares(c: Config, s: State, who: Option<NodeId>, authenticated: bool, now: int, k: Key)
    requires OwnScope(k)
    ensures Spares(s, OnRefused(c, s, who, authenticated, now), k)
  {
    if who.Some? { RefusedIsNotOwn(who.value); }
  }

  lemma RecoverSpares(s: State, key: Key, now: int, k: Key)
    ensures Spares(s, Recover(s, key, now), k)
  {
  }

  lemma OnlineSpares(s: State, node: NodeId, now: int, k: Key)
    ensures Spares(s, CameOnline(s, node, now), k)
  {
  }

  lemma EventSpares(c: Config, s: State, e: Event, now: int, node: NodeId)
    requires node in s.removed
    ensures Spares(s, OnEvent(c, s, e, now), Own(node))
  {
    hide IsNodeId, Recover, OnScanFinished, OnRefused, CameOnline;
    match e {
      case ScanFinished(library, rootsUnavailable) => ScanSpares(c, s, library, rootsUnavailable, now, Own(node));
      case Refused(who, authenticated) => RefusedSpares(c, s, who, authenticated, now, Own(node));
      case NodesChanged(other, online) => OnlineSpares(s, other, now, Own(node));
      case Resumed(library) => RecoverSpares(s, Key(LibraryPaused, library), now, Own(node));
      case _ =>
    }
  }

  /** While an operator's removal of a node is remembered, nothing announces that node's own outage. */
  lemma {:induction false} RemovedNodeStaysQuiet(c: Config, paused: seq<(string, bool)>, offline: seq<NodeId>, calls: seq<Call>, call: Call, node: NodeId)
    requires node in Run(c, Booted(c, paused, offline), calls).removed
    ensures var s := Run(c, Booted(c, paused, offline), calls); Spares(s, Step(c, s, call), Own(node))
  {
    BootKeepsQuiet(c, paused, offline);
    RunKeepsQuiet(c, Booted(c, paused, offline), calls);
    var s := Run(c, Booted(c, paused, offline), calls);
    if call.Heard? { EventSpares(c, s, call.event, call.at, node); }
  }

  // ---- The module itself -------------------------------------------------------------

  class DaemonAlerts {
    const c: Config
    var standing: map<Key, Standing>
    var refusals: map<NodeId, seq<int>>
    var removed: seq<NodeId>
    var log: seq<Signal>

    ghost function S(): State
      reads this
    {
      State(standing, refusals, removed, log)
    }

    /** Conditions already true at boot are begun at boot. */
    constructor (c: Config, paused: seq<(string, bool)>, offline: seq<NodeId>)
      ensures this.c == c && S() == Booted(c, paused, offline)
    {
      this.c := c;
      standing, refusals, removed, log := map[], map[], [], [];
      new;
      assert paused[..0] == [];
      for i := 0 to |paused|
        invariant S() == Booted(c, paused[..i], [])
      {
        assert paused[..i + 1][..i] == paused[..i];
        Pause(paused[i].0, paused[i].1, c.boot);
      }
      assert paused[..|paused|] == paused && offline[..0] == [];
      for i := 0 to |offline|
        invariant S() == Booted(c, paused, offline[..i])
      {
        assert offline[..i + 1][..i] == offline[..i];
        NodeWentOffline(offline[i], c.boot);
      }
      assert offline[..|offline|] == offline;
    }

    /** Record an outage, and raise it now unless it must wait. */
    method BeginOutage(k: Key, extra: nat, now: int)
      modifies this
      ensures S() == Begin(c, old(S()), k, extra, now)
    {
      var entry := Standing(Max(c.boot + c.startupDelay, now + extra), false);
      if k in standing { entry := standing[k]; }
      standing := standing[k := entry];
      if !entry.raised && now >= entry.notBefore {
        standing := standing[k := entry.(raised := true)];
        log := log + [Raise({k}, now)];
        assert standing == old(standing)[k := entry.(raised := true)];
      }
    }

    method RecoverOutage(k: Key, now: int)
      modifies this
      ensures S() == Recover(old(S()), k, now)
    {
      if k !in standing { return; }
      var raised := standing[k].raised;
      standing := standing - {k};
      if raised { log := log + [Recovery(k, now)]; }
    }

    method ForgetOutage(k: Key)
      modifies this
      ensures S() == Forget(old(S()), k)
    {
      standing := standing - {k};
      log := log + [Forgot({k})];
    }

    method Pause(library: string, byOperator: bool, now: int)
      modifies this
      ensures S() == BeginPaused(c, old(S()), library, byOperator, now)
    {
      if byOperator {
        ForgetOutage(Key(LibraryPaused, library));
      } else {
        BeginOutage(Key(LibraryPaused, library), 0, now);
      }
    }

    method RemoveNode(node: NodeId)
      modifies this
      ensures S() == OnNodeRemoved(old(S()), node)
    {
      ForgetOutage(Own(node));
      ForgetOutage(Own(RefusedScope(node)));
      refusals := refusals - {node};
      if node !in removed { removed := removed + [node]; }
      if |removed| > MAX_REMOVED_NODES { removed := removed[1..]; }
    }

    method NodeWentOffline(node: NodeId, now: int)
      modifies this
      ensures S() == BeginNodeOffline(c, old(S()), node, now)
    {
      if node in removed { return; }
      BeginOutage(Own(node), c.nodeGrace, now);
    }

    method NodeCameOnline(node: NodeId, now: int)
      modifies this
      ensures S() == CameOnline(old(S()), node, now)
    {
      log := log + [Online(node, now)];
      RecoverOutage(Own(node), now);
      refusals := refusals - {node};
      RecoverOutage(Own(RefusedScope(node)), now);
    }

    method NodeWasRefused(who: Option<NodeId>, authenticated: bool, now: int)
      modifies this
      ensures S() == OnRefused(c, old(S()), who, authenticated, now)
    {
      if who.None? {
        log := log + [Notice(now)];
        return;
      }
      var node := who.value;
      if node in removed { return; }
      if !authenticated {
        var recent := Recent(if node in refusals then refusals[node] else [], now) + [now];
        recent := LastOf(recent, REFUSALS_TO_ALERT);
        refusals := refusals[node := recent];
        if |recent| < REFUSALS_TO_ALERT { return; }
      }
      BeginOutage(Own(RefusedScope(node)), 0, now);
    }

    method ScanEnded(library: string, rootsUnavailable: nat, now: int)
      modifies this
      ensures S() == OnScanFinished(c, old(S()), library, rootsUnavailable, now)
    {
      if rootsUnavailable > 0 {
        ForgetOutage(Key(ScanAborted, library));
        BeginOutage(Key(LibraryRootMissing, library), 0, now);
      } else {
        RecoverOutage(Key(ScanAborted, library), now);
        RecoverOutage(Key(LibraryRootMissing, library), now);
      }
    }

    method Hear(e: Event, now: int)
      modifies this
      ensures S() == OnEvent(c, old(S()), e, now)
    {
      match e {
        case JobFinished(alerts) => if alerts { log := log + [Notice(now)]; }
        case ScanFinished(library, rootsUnavailable) => ScanEnded(library, rootsUnavailable, now);
        case ScanStopped(library) => BeginOutage(Key(ScanAborted, library), 0, now);
        case Paused(library, byOperator) => Pause(library, byOperator, now);
        case LibraryRemoved(library) =>
          ForgetOutage(Key(LibraryPaused, library));
          ForgetOutage(Key(LibraryRootMissing, library));
          ForgetOutage(Key(ScanAborted, library));
        case Resumed(library) => RecoverOutage(Key(LibraryPaused, library), now);
        case HardwareFailed => BeginOutage(Key(HardwareCheckFailed, HARDWARE_SCOPE), 0, now);
        case NodesChanged(node, online) =>
          if online { NodeCameOnline(node, now); } else { NodeWentOffline(node, now); }
        case Refused(who, authenticated) => NodeWasRefused(who, authenticated, now);
        case NodeRemoved(node) => RemoveNode(node);
        case OtherEvent =>
      }
    }

    /** One node's refusals: those out of the window go, and with the last of them its standing entry. */
    method ExpireRefusal(node: NodeId, now: int) returns (lapsed: bool)
      requires node in refusals
      modifies this
      ensures S() == ExpireOne(old(S()), node, now)
      ensures lapsed <==> Recent(old(refusals[node]), now) == []
    {
      var recent := Recent(refusals[node], now);
      lapsed := recent == [];
      if !lapsed {
        refusals := refusals[node := recent];
      } else {
        refusals := refusals - {node};
        standing := standing - {Own(RefusedScope(node))};
      }
    }

    /** Refusal entries last only while refusals keep arriving. */
    method ExpireRefusals(now: int)
      modifies this
      ensures S() == Expired(old(S()), now)
    {
      hide PartlyExpired, ExpireOne, RefusedKeys, Lapsed, Expired;
      ghost var before := S();
      ExpireEnds(before, now);
      var nodes, gone := refusals.Keys, {};
      assert before.refusals.Keys - nodes == {} && RefusedKeys(Lapsed(before, now) - nodes) == {} by { NothingLapsedYet(before, now); }
      while nodes != {}
        invariant nodes <= before.refusals.Keys
        invariant S() == PartlyExpired(before, before.refusals.Keys - nodes, now)
        invariant gone == RefusedKeys(Lapsed(before, now) - nodes)
        decreases |nodes|
      {
        var node :| node in nodes;
        ExpireStep(before, before.refusals.Keys - nodes, node, now);
        assert before.refusals.Keys - (nodes - {node}) == before.refusals.Keys - nodes + {node};
        ExpireGone(before, nodes, node, now);
        var lapsed := ExpireRefusal(node, now);
        gone := gone + if lapsed then {Own(RefusedScope(node))} else {};
        nodes := nodes - {node};
      }
      assert before.refusals.Keys - {} == before.refusals.Keys && Lapsed(before, now) - {} == Lapsed(before, now);
      log := log + [Forgot(gone)];
    }

    /** Every outage whose time has come is offered to the service, again or for the first time. */
    method OfferDue(now: int)
      modifies this
      ensures S() == OfferedDue(old(S()), now)
    {
      ghost var before := standing;
      var keys, due := standing.Keys, {};
      while keys != {}
        invariant keys <= before.Keys && standing.Keys == before.Keys
        invariant forall k :: k in due <==> k in DueKeys(before, now) && k !in keys
        invariant forall k :: k in before ==> standing[k] == if k in due then before[k].(raised := true) else before[k]
        invariant removed == old(removed) && log == old(log) && refusals == old(refusals)
        decreases |keys|
      {
        var k :| k in keys;
        if now >= standing[k].notBefore {
          standing := standing[k := standing[k].(raised := true)];
          due := due + {k};
        }
        keys := keys - {k};
      }
      assert due == DueKeys(before, now);
      log := log + [Raise(due, now)];
    }

    method OfferAgain(now: int)
      modifies this
      ensures S() == Reraise(old(S()), now)
    {
      ExpireRefusals(now);
      OfferDue(now);
    }

    method Detach()
      modifies this
      ensures S() == Unsubscribe(old(S()))
    {
      log := log + [Forgot(standing.Keys)];
      standing := map[];
    }
  }
}
