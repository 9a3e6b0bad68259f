/**
  The lease a remote node holds on a file while it works on it: the transitions, and what any number
  of attempts on one file can do with them. A silent node must lose the file eventually, and once it
  has lost it, it must be unable to install.
 */
module Lease {
  import opened Wrappers

  datatype LeaseState = Connected | Grace | Committing | Expired

  datatype Lease = Lease(state: LeaseState, expiresAtMs: Option<int>)

  datatype CommitKind = Replace | Plugin

  datatype Refusal = NotRunning | Cancelled | NoLongerClaimed | NotLive(state: LeaseState)

  // ---- The transitions ---------------------------------------------------------------

  function OnClaim(): Lease {
    Lease(Connected, None)
  }

  function OnDisconnect(lease: Lease, now: int, graceMs: nat): Lease {
    if lease.state == Connected then Lease(Grace, Some(now + graceMs)) else lease
  }

  function OnDaemonStart(lease: Lease, now: int, graceMs: nat): Lease {
    if lease.state in {Connected, Grace} then Lease(Grace, Some(now + graceMs)) else lease
  }

  predicate IsExpired(lease: Lease, now: int) {
    lease.state == Grace && lease.expiresAtMs.Some? && now >= lease.expiresAtMs.value
  }

  function OnReconnect(lease: Lease, now: int): Lease {
    if lease.state == Expired || IsExpired(lease, now) then Lease(Expired, lease.expiresAtMs)
    else if lease.state == Grace then Lease(Connected, None)
    else lease
  }

  function AfterStep(lease: Lease): Lease {
    if lease.state == Committing then Lease(Connected, None) else lease
  }

  function DecideCommit(lease: Lease, stillClaimed: bool, kind: CommitKind): Result<Lease, Refusal> {
    if !stillClaimed then Failure(NoLongerClaimed)
    else if lease.state !in {Connected, Committing} then Failure(NotLive(lease.state))
    else if kind == Replace then Success(Lease(Committing, None))
    else Success(lease)
  }

  // ---- Attempts on one file ----------------------------------------------------------

  datatype FileState = Unknown | Queued | Held | Running | Good | Failed | NotConverging

  /** The file's row. A file marked for review waits for an explicit requeue, whatever its state. */
  datatype File = File(state: FileState, holdUntilMs: Option<int>, review: bool)

  type IdleFile = file: File | file.state != Running witness File(Queued, None, false)

  /** How an attempt ends: with a result or a failure written to the row, or one that may be none of its business. */
  datatype Ending = Folded(next: IdleFile) | CancelledByHand | Superseded(next: IdleFile) | Unmapped

  datatype Job = Job(lease: Lease, ended: bool, cancelled: bool)

  datatype Entry = Claimed(job: nat) | Granted(job: nat, kind: CommitKind) | Ended(job: nat)

  /** One file and every attempt ever made on it, oldest first. */
  datatype State = State(now: int, file: File, jobs: seq<Job>, log: seq<Entry>)

  /**
    What can happen. A job whose finished report is one check from being applied is `settling`, and
    is not released; `silent` are the jobs nothing has been heard of for a day. `Hold` and `Requeue`
    are an operator's, and look at nothing; `RequeueUnlessClaimed` refuses while an attempt is open.
   */
  datatype Event =
    | Tick(ms: nat)
    | Claim
    | Disconnect(job: nat)
    | DaemonStart
    | Sweep(silent: set<nat>, settlingJobs: set<nat>)
    | Reconnect(job: nat, settling: bool)
    | HeldReport(job: nat)
    | Lost(job: nat, settling: bool)
    | Commit(job: nat, kind: CommitKind)
    | StepEnd(job: nat)
    | Cancel(job: nat)
    | Settle(job: nat, ending: Ending)
    | Rescan
    | Hold(untilMs: int)
    | Requeue
    | RequeueUnlessClaimed

  predicate Open(s: State, i: nat) {
    i < |s.jobs| && !s.jobs[i].ended
  }

  predicate AnyOpen(s: State) {
    exists i: nat :: i < |s.jobs| && Open(s, i)
  }

  predicate Live(s: State, i: nat) {
    Open(s, i) && s.jobs[i].lease.state != Expired
  }

  function WithLease(s: State, i: nat, lease: Lease): State
    requires i < |s.jobs|
  {
    s.(jobs := s.jobs[i := s.jobs[i].(lease := lease)])
  }

  function Released(lease: Lease): Lease {
    Lease(Expired, lease.expiresAtMs)
  }

  /** What the claim statement selects on. It reads the row, and no attempt. */
  predicate Claimable(file: File, now: int) {
    && file.state in {Queued, Held} && !file.review
    && (file.holdUntilMs.Some? ==> file.holdUntilMs.value < now)
  }

  const REQUEUED: IdleFile := File(Queued, None, false)

  /** What a scan does to the row of a file whose signature is not the one it converged under. */
  function Rescanned(file: File): File {
    if file.state in {Failed, NotConverging, Running} || file.review then file else file.(state := Queued)
  }

  /** The claim the gate looks for: this attempt is the file's latest and still open. */
  predicate StillClaimed(s: State, i: nat) {
    s.file.state == Running && Open(s, i) && i == |s.jobs| - 1
  }

  /** The commit gate. */
  function Gate(s: State, i: nat, kind: CommitKind): Result<Lease, Refusal> {
    if !Open(s, i) then Failure(NotRunning)
    else if s.jobs[i].cancelled then Failure(Cancelled)
    else DecideCommit(s.jobs[i].lease, StillClaimed(s, i), kind)
  }

  /** Another attempt holds the file: one that is open, or one that began later. */
  predicate RivalHolds(s: State, i: nat) {
    exists j: nat :: j < |s.jobs| && j != i && (Open(s, j) || j > i)
  }

  /** The row after an attempt's end. A result is written whoever holds the file by then. */
  function SettledFile(s: State, i: nat, ending: Ending): File {
    match ending
    case Folded(next) => next
    case CancelledByHand => if RivalHolds(s, i) then s.file else REQUEUED
    case Superseded(next) => if StillClaimed(s, i) then next else s.file
    case Unmapped => if s.file.state == Running then s.file.(state := Queued) else s.file
  }

  function SweptLease(lease: Lease, now: int, silent: bool, settling: bool): Lease {
    if settling || lease.state == Expired then lease
    else if IsExpired(lease, now) then Released(lease)
    else if lease.state in {Connected, Committing} && silent then Released(lease)
    else lease
  }

  function MapLeases(jobs: seq<Job>, f: (nat, Lease) -> Lease): (r: seq<Job>)
    ensures |r| == |jobs|
    ensures forall i :: 0 <= i < |jobs| ==>
      r[i] == if jobs[i].ended then jobs[i] else jobs[i].(lease := f(i, jobs[i].lease))
  {
    seq(|jobs|, i requires 0 <= i < |jobs| =>
      if jobs[i].ended then jobs[i] else jobs[i].(lease := f(i, jobs[i].lease)))
  }

  function Next(s: State, e: Event, graceMs: nat): State {
    match e
    case Tick(ms) => s.(now := s.now + ms)
    case Claim =>
      if !Claimable(s.file, s.now) then s
      else s.(file := s.file.(state := Running), jobs := s.jobs + [Job(OnClaim(), false, false)],
              log := s.log + [Claimed(|s.jobs|)])
    case Disconnect(i) =>
      if Open(s, i) then WithLease(s, i, OnDisconnect(s.jobs[i].lease, s.now, graceMs)) else s
    case DaemonStart =>
      s.(jobs := MapLeases(s.jobs, (i, lease) => OnDaemonStart(lease, s.now, graceMs)))
    case Sweep(silent, settling) =>
      s.(jobs := MapLeases(s.jobs, (i, lease) => SweptLease(lease, s.now, i in silent, i in settling)))
    case Reconnect(i, settling) =>
      if !Live(s, i) then s
      else
        var next := OnReconnect(s.jobs[i].lease, s.now);
        if next.state == Expired && settling then s else WithLease(s, i, next)
    case HeldReport(i) =>
      if Live(s, i) && s.jobs[i].lease.state == Grace then WithLease(s, i, Lease(Connected, None)) else s
    case Lost(i, settling) =>
      if Live(s, i) && !settling then WithLease(s, i, Released(s.jobs[i].lease)) else s
    case Commit(i, kind) =>
      var decision := Gate(s, i, kind);
      if decision.Failure? then s
      else WithLease(s, i, decision.value).(log := s.log + [Granted(i, kind)])
    case StepEnd(i) =>
      if Open(s, i) then WithLease(s, i, AfterStep(s.jobs[i].lease)) else s
    case Cancel(i) =>
      if Open(s, i) then s.(jobs := s.jobs[i := s.jobs[i].(cancelled := true)]) else s
    case Settle(i, ending) =>
      if Open(s, i) then
        s.(file := SettledFile(s, i, ending), jobs := s.jobs[i := s.jobs[i].(ended := true)], log := s.log + [Ended(i)])
      else s
    case Rescan => s.(file := Rescanned(s.file))
    case Hold(untilMs) => s.(file := s.file.(state := Held, holdUntilMs := Some(untilMs)))
    case Requeue => s.(file := REQUEUED)
    case RequeueUnlessClaimed => if AnyOpen(s) || s.file.state == Running then s else s.(file := REQUEUED)
  }

  function Run(s: State, events: seq<Event>, graceMs: nat): State
    decreases |events|
  {
    if events == [] then s else Run(Next(s, events[0], graceMs), events[1..], graceMs)
  }

  function Start(now: int): State {
    State(now, File(Unknown, None, false), [], [])
  }

  predicate IsCommitting(s: State, i: nat) {
    Open(s, i) && s.jobs[i].lease.state == Committing
  }

  // ---- In every run: the gate ---------------------------------------------------------

  /** A grant was for the attempt claimed last, and who is committing was granted a replacement. */
  ghost predicate GrantsInOrder(s: State) {
    LogInOrder(s) && forall i: nat :: IsCommitting(s, i) ==> Granted(i, Replace) in s.log
  }

  predicate LogInOrder(s: State) {
    && (forall p :: 0 <= p < |s.log| ==> s.log[p].job < |s.jobs|)
    && (forall p, q :: 0 <= p < q < |s.log| && s.log[p].Claimed? && s.log[q].Granted? ==> s.log[p].job <= s.log[q].job)
  }

  lemma NextKeepsLogInOrder(s: State, e: Event, graceMs: nat)
    requires LogInOrder(s)
    ensures LogInOrder(Next(s, e, graceMs))
  {
    hide OnDisconnect, OnReconnect, SweptLease, AfterStep, SettledFile, Rescanned, Claimable;
  }

  lemma NextKeepsGrantsInOrder(s: State, e: Event, graceMs: nat)
    requires GrantsInOrder(s)
    ensures GrantsInOrder(Next(s, e, graceMs))
  {
    NextKeepsLogInOrder(s, e, graceMs);
    hide LogInOrder, SettledFile, Rescanned, Claimable;
    var t := Next(s, e, graceMs);
    forall i: nat | IsCommitting(t, i) ensures Granted(i, Replace) in t.log {
      if IsCommitting(s, i) {
        assert Granted(i, Replace) in s.log;
      } else {
        assert e == Commit(i, Replace) && t.log[|s.log|] == Granted(i, Replace);
      }
    }
  }

  lemma {:induction false} RunKeepsGrantsInOrder(s: State, events: seq<Event>, graceMs: nat)
    requires GrantsInOrder(s)
    ensures GrantsInOrder(Run(s, events, graceMs))
    decreases |events|
  {
    if events != [] {
      NextKeepsGrantsInOrder(s, events[0], graceMs);
      RunKeepsGrantsInOrder(Next(s, events[0], graceMs), events[1..], graceMs);
    }
  }

  /** In every run whatever: once a later attempt has claimed the file, an earlier one is granted nothing. */
  lemma {:induction false} SupersededIsNeverGranted(now: int, events: seq<Event>, graceMs: nat, p: nat, q: nat)
    requires var log := Run(Start(now), events, graceMs).log;
      p < q < |log| && log[p].Claimed? && log[q].Granted?
    ensures var log := Run(Start(now), events, graceMs).log; log[p].job <= log[q].job
  {
    RunKeepsGrantsInOrder(Start(now), events, graceMs);
  }

  /** In every run whatever: an attempt is committing only if the gate granted it a replacement. */
  lemma {:induction false} CommittingWasGranted(now: int, events: seq<Event>, graceMs: nat, i: nat)
    requires IsCommitting(Run(Start(now), events, graceMs), i)
    ensures Granted(i, Replace) in Run(Start(now), events, graceMs).log
  {
    RunKeepsGrantsInOrder(Start(now), events, graceMs);
  }

  // ---- One installer: exactly when nothing strands it ---------------------------------

  /** No claim takes the file before somebody requeues it, or the attempt that runs it ends. */
  predicate Barred(file: File) {
    file.state in {Running, Failed, NotConverging} || file.review
  }

  /** Who is committing is the latest attempt, and no claim takes its file. */
  ghost predicate Sole(s: State) {
    forall i: nat :: IsCommitting(s, i) ==> i == |s.jobs| - 1 && Barred(s.file)
  }

  /** This event would put the file back within reach of a claim. It reads the event and the row. */
  predicate Reopens(s: State, e: Event) {
    match e
    case Hold(_) => !s.file.review
    case Requeue => true
    case Settle(i, Folded(next)) => Open(s, i) && !Barred(next)
    case Settle(i, Unmapped) => Open(s, i) && s.file.state == Running && !s.file.review
    case _ => false
  }

  /** It would do so under an attempt that is committing, and is not that attempt's own end. */
  ghost predicate Strands(s: State, e: Event) {
    Reopens(s, e) && exists i: nat :: IsCommitting(s, i) && !(e.Settle? && e.job == i)
  }

  ghost predicate NeverStrands(s: State, events: seq<Event>, graceMs: nat)
    decreases |events|
  {
    events != [] ==> !Strands(s, events[0]) && NeverStrands(Next(s, events[0], graceMs), events[1..], graceMs)
  }

  ghost predicate TwoCommitting(s: State) {
    exists i: nat, j: nat :: i < j && IsCommitting(s, i) && IsCommitting(s, j)
  }

  lemma SettleKeepsSole(s: State, i: nat, ending: Ending, graceMs: nat)
    requires Sole(s) && !Strands(s, Settle(i, ending))
    ensures Sole(Next(s, Settle(i, ending), graceMs))
  {
    var t := Next(s, Settle(i, ending), graceMs);
    if Open(s, i) {
      forall k: nat | IsCommitting(t, k) ensures k == |t.jobs| - 1 && Barred(t.file) {
        assert IsCommitting(s, k) && k != i;
        assert !Reopens(s, Settle(i, ending));
        assert RivalHolds(s, i);
      }
    }
  }

  lemma NextKeepsSole(s: State, e: Event, graceMs: nat)
    requires Sole(s) && !Strands(s, e)
    ensures Sole(Next(s, e, graceMs))
  {
    var t := Next(s, e, graceMs);
    if e.Settle? {
      SettleKeepsSole(s, e.job, e.ending, graceMs);
    } else {
      forall k: nat | IsCommitting(t, k) ensures k == |t.jobs| - 1 && Barred(t.file) {
        if IsCommitting(s, k) {
          assert !Reopens(s, e);
        } else {
          assert e == Commit(k, Replace) && StillClaimed(s, k);
        }
      }
    }
  }

  lemma {:induction false} RunKeepsSole(s: State, events: seq<Event>, graceMs: nat)
    requires Sole(s) && NeverStrands(s, events, graceMs)
    ensures Sole(Run(s, events, graceMs))
    decreases |events|
  {
    if events != [] {
      NextKeepsSole(s, events[0], graceMs);
      RunKeepsSole(Next(s, events[0], graceMs), events[1..], graceMs);
    }
  }

  /**
    In every run that strands nobody at most one attempt is committing, and while one is, no other can
    claim the file or be granted anything.
   */
  lemma {:induction false} OneCommitter(now: int, events: seq<Event>, graceMs: nat, i: nat)
    requires NeverStrands(Start(now), events, graceMs)
    ensures var s := Run(Start(now), events, graceMs);
      IsCommitting(s, i) ==>
        && (forall j: nat :: IsCommitting(s, j) ==> j == i)
        && Next(s, Claim, graceMs) == s
        && (forall j: nat, kind :: j != i ==> Gate(s, j, kind).Failure?)
  {
    RunKeepsSole(Start(now), events, graceMs);
  }

  /** How long until the row's deadline is past. */
  function Wait(s: State): nat {
    if s.file.holdUntilMs.Some? && s.file.holdUntilMs.value >= s.now then s.file.holdUntilMs.value + 1 - s.now else 0
  }

  /** What gets a second attempt in once the file is within reach: its deadline passes, or a scan queues it. */
  function SecondIn(s: State): seq<Event> {
    [Tick(Wait(s)), Rescan, Claim, Commit(|s.jobs|, Replace)]
  }

  lemma {:induction false} RunFour(s: State, a: Event, b: Event, c: Event, d: Event, graceMs: nat)
    ensures Run(s, [a, b, c, d], graceMs) ==
      Next(Next(Next(Next(s, a, graceMs), b, graceMs), c, graceMs), d, graceMs)
  {
    var s1 := Next(s, a, graceMs);
    var s2 := Next(s1, b, graceMs);
    var s3 := Next(s2, c, graceMs);
    assert [a, b, c, d][1..] == [b, c, d] && [b, c, d][1..] == [c, d] && [c, d][1..] == [d] && [d][1..] == [];
    assert Run(s3, [d], graceMs) == Run(Next(s3, d, graceMs), [], graceMs);
    assert Run(s2, [c, d], graceMs) == Run(s3, [d], graceMs);
    assert Run(s1, [b, c, d], graceMs) == Run(s2, [c, d], graceMs);
  }

  /** Nothing but an end or an operator strands anybody. */
  lemma {:induction false} NobodyActs(s: State, events: seq<Event>, graceMs: nat)
    requires forall k :: 0 <= k < |events| ==> !events[k].Settle? && !Operators(events[k])
    ensures NeverStrands(s, events, graceMs) && Careful(s, events, graceMs)
    decreases |events|
  {
    if events != [] {
      assert !events[0].Settle? && !Operators(events[0]);
      NobodyActs(Next(s, events[0], graceMs), events[1..], graceMs);
    }
  }

  /** A file within reach of a claim gets one, and its attempt a grant, while the others stay as they are. */
  lemma {:induction false} SecondGetsIn(s: State, graceMs: nat)
    requires !Barred(s.file)
    ensures var t := Run(s, SecondIn(s), graceMs);
      && NeverStrands(s, SecondIn(s), graceMs) && Careful(s, SecondIn(s), graceMs)
      && |t.jobs| == |s.jobs| + 1 && IsCommitting(t, |s.jobs|)
      && forall i :: 0 <= i < |s.jobs| ==> t.jobs[i] == s.jobs[i]
  {
    NobodyActs(s, SecondIn(s), graceMs);
    RunFour(s, Tick(Wait(s)), Rescan, Claim, Commit(|s.jobs|, Replace), graceMs);
    var s2 := Next(Next(s, Tick(Wait(s)), graceMs), Rescan, graceMs);
    assert Claimable(s2.file, s2.now);
    var s3 := Next(s2, Claim, graceMs);
    assert Gate(s3, |s.jobs|, Replace) == Success(Lease(Committing, None));
  }

  ghost predicate CanReachTwoCommitting(s: State, graceMs: nat) {
    exists events :: NeverStrands(s, events, graceMs) && TwoCommitting(Run(s, events, graceMs))
  }

  /**
    The condition is exact. After a run that stranded nobody, whatever comes next can lead to two
    attempts committing at once, with nobody stranded from there on, exactly if it strands one now.
   */
  lemma {:induction false} StrandingIsTheDanger(now: int, events: seq<Event>, e: Event, graceMs: nat)
    requires NeverStrands(Start(now), events, graceMs)
    ensures var s := Run(Start(now), events, graceMs);
      CanReachTwoCommitting(Next(s, e, graceMs), graceMs) <==> Strands(s, e)
  {
    RunKeepsSole(Start(now), events, graceMs);
    var s := Run(Start(now), events, graceMs);
    var t := Next(s, e, graceMs);
    if Strands(s, e) {
      var i: nat :| IsCommitting(s, i) && !(e.Settle? && e.job == i);
      assert IsCommitting(t, i) && !Barred(t.file);
      SecondGetsIn(t, graceMs);
      var end := Run(t, SecondIn(t), graceMs);
      assert IsCommitting(end, i) && IsCommitting(end, |t.jobs|);
      assert TwoCommitting(end);
    } else {
      NextKeepsSole(s, e, graceMs);
      forall rest | NeverStrands(t, rest, graceMs) ensures !TwoCommitting(Run(t, rest, graceMs)) {
        RunKeepsSole(t, rest, graceMs);
      }
    }
  }

  // ---- One open attempt: exactly when no operator acts over one -----------------------

  /** What an operator can do to the row without the code looking at the file's attempts. */
  predicate Operators(e: Event) {
    e.Hold? || e.Requeue?
  }

  /** No operator holds or requeues the file while an attempt on it is open. */
  ghost predicate Careful(s: State, events: seq<Event>, graceMs: nat)
    decreases |events|
  {
    events != [] ==>
      !(Operators(events[0]) && AnyOpen(s)) && Careful(Next(s, events[0], graceMs), events[1..], graceMs)
  }

  /** Only the latest attempt can be open, and then the file is running. */
  ghost predicate LatestOnly(s: State) {
    forall i: nat :: Open(s, i) ==> i == |s.jobs| - 1 && s.file.state == Running && !s.file.review
  }

  ghost predicate EndedAfter(s: State, p: nat, i: nat, before: nat) {
    exists r: nat :: p < r < before && r < |s.log| && s.log[r] == Ended(i)
  }

  /** A job that was granted something is either open or has its end on record since. */
  ghost predicate EndsRecorded(s: State) {
    && (forall p :: 0 <= p < |s.log| ==> s.log[p].job < |s.jobs|)
    && (forall p: nat :: p < |s.log| && !Open(s, s.log[p].job) && !s.log[p].Ended? ==> EndedAfter(s, p, s.log[p].job, |s.log|))
  }

  /** Whatever was granted or claimed for one job, the next grant or claim for another waits for its end. */
  ghost predicate EndsBetween(s: State) {
    forall p: nat, q: nat :: p < q < |s.log| && s.log[p].job != s.log[q].job && !s.log[p].Ended? && !s.log[q].Ended?
      ==> EndedAfter(s, p, s.log[p].job, q)
  }

  ghost predicate Inv(s: State) {
    LatestOnly(s) && EndsRecorded(s) && EndsBetween(s)
  }

  predicate SameOpen(s: State, t: State) {
    |s.jobs| == |t.jobs| && forall i :: 0 <= i < |s.jobs| ==> s.jobs[i].ended == t.jobs[i].ended
  }

  /** A step that opens, ends and grants nothing keeps the invariant. */
  lemma QuietKeepsInv(s: State, t: State)
    requires Inv(s) && SameOpen(s, t) && t.log == s.log && (AnyOpen(s) ==> t.file == s.file)
    ensures Inv(t)
  {
    assert forall i: nat :: Open(s, i) <==> Open(t, i);
    forall p: nat | p < |t.log| && !Open(t, t.log[p].job) && !t.log[p].Ended?
      ensures EndedAfter(t, p, t.log[p].job, |t.log|)
    {
      assert EndedAfter(s, p, s.log[p].job, |s.log|);
    }
    forall p: nat, q: nat | p < q < |t.log| && t.log[p].job != t.log[q].job && !t.log[p].Ended? && !t.log[q].Ended?
      ensures EndedAfter(t, p, t.log[p].job, q)
    {
      assert EndedAfter(s, p, s.log[p].job, q);
    }
  }

  /** A claim or a grant for the only job that may be open keeps the records. */
  lemma EntryKeepsRecords(s: State, t: State, e: Entry)
    requires Inv(s) && LatestOnly(t) && t.log == s.log + [e]
    requires e.job < |t.jobs| && Open(t, e.job) && |s.jobs| <= |t.jobs| && !e.Ended?
    requires forall i: nat :: i < |s.jobs| ==> s.jobs[i].ended == t.jobs[i].ended
    ensures Inv(t)
  {
    forall p: nat | p < |t.log| && !Open(t, t.log[p].job) && !t.log[p].Ended?
      ensures EndedAfter(t, p, t.log[p].job, |t.log|)
    {
      EndStays(s, t, p, s.log[p].job, |s.log|);
    }
    forall p: nat, q: nat | p < q < |t.log| && t.log[p].job != t.log[q].job && !t.log[p].Ended? && !t.log[q].Ended?
      ensures EndedAfter(t, p, t.log[p].job, q)
    {
      if q < |s.log| { assert EndedAfter(s, p, s.log[p].job, q); }
      EndStays(s, t, p, s.log[p].job, q);
    }
  }

  lemma EndStays(s: State, t: State, p: nat, i: nat, before: nat)
    requires s.log <= t.log && EndedAfter(s, p, i, before)
    ensures EndedAfter(t, p, i, before) && EndedAfter(t, p, i, |t.log|)
  {
    var r: nat :| p < r < before && r < |s.log| && s.log[r] == Ended(i);
    assert t.log[r] == Ended(i);
  }

  lemma ClaimKeepsInv(s: State, graceMs: nat)
    requires Inv(s)
    ensures Inv(Next(s, Claim, graceMs))
  {
    var t := Next(s, Claim, graceMs);
    if t != s {
      assert Claimable(s.file, s.now);
      assert forall i: nat :: !Open(s, i);
      assert forall i: nat :: i < |s.jobs| ==> t.jobs[i] == s.jobs[i] && (s.jobs[i].ended || Open(s, i));
      EntryKeepsRecords(s, t, Claimed(|s.jobs|));
    }
  }

  lemma CommitKeepsInv(s: State, i: nat, kind: CommitKind, graceMs: nat)
    requires Inv(s)
    ensures Inv(Next(s, Commit(i, kind), graceMs))
  {
    if Gate(s, i, kind).Success? {
      var t := Next(s, Commit(i, kind), graceMs);
      assert forall k: nat :: Open(s, k) <==> Open(t, k);
      EntryKeepsRecords(s, t, Granted(i, kind));
    }
  }

  lemma SettleKeepsInv(s: State, i: nat, ending: Ending, graceMs: nat)
    requires Inv(s)
    ensures Inv(Next(s, Settle(i, ending), graceMs))
  {
    var t := Next(s, Settle(i, ending), graceMs);
    if Open(s, i) {
      assert forall k: nat :: Open(t, k) ==> Open(s, k) && k != i;
      forall p: nat | p < |t.log| && !Open(t, t.log[p].job) && !t.log[p].Ended?
        ensures EndedAfter(t, p, t.log[p].job, |t.log|)
      {
        if t.log[p].job == i {
          assert t.log[|s.log|] == Ended(i);
        } else {
          EndStays(s, t, p, s.log[p].job, |s.log|);
        }
      }
      forall p: nat, q: nat | p < q < |t.log| && t.log[p].job != t.log[q].job && !t.log[p].Ended? && !t.log[q].Ended?
        ensures EndedAfter(t, p, t.log[p].job, q)
      {
        assert EndedAfter(s, p, s.log[p].job, q);
        EndStays(s, t, p, s.log[p].job, q);
      }
    }
  }

  /** Every event keeps the invariant, but an operator's over an open attempt. */
  lemma NextKeepsInv(s: State, e: Event, graceMs: nat)
    requires Inv(s) && !(Operators(e) && AnyOpen(s))
    ensures Inv(Next(s, e, graceMs))
  {
    match e {
      case Claim => ClaimKeepsInv(s, graceMs);
      case Commit(i, kind) => CommitKeepsInv(s, i, kind, graceMs);
      case Settle(i, ending) => SettleKeepsInv(s, i, ending, graceMs);
      case _ => QuietKeepsInv(s, Next(s, e, graceMs));
    }
  }

  lemma {:induction false} RunKeepsInv(s: State, events: seq<Event>, graceMs: nat)
    requires Inv(s) && Careful(s, events, graceMs)
    ensures Inv(Run(s, events, graceMs))
    decreases |events|
  {
    if events != [] {
      NextKeepsInv(s, events[0], graceMs);
      RunKeepsInv(Next(s, events[0], graceMs), events[1..], graceMs);
    }
  }

  /** In every careful run, whatever two attempts were granted, the first had ended before the second was granted its own. */
  lemma {:induction false} GrantsAreSeparated(now: int, events: seq<Event>, graceMs: nat, p: nat, q: nat)
    requires Careful(Start(now), events, graceMs)
    requires var log := Run(Start(now), events, graceMs).log;
      p < q < |log| && log[p].Granted? && (log[q].Granted? || log[q].Claimed?) && log[p].job != log[q].job
    ensures var log := Run(Start(now), events, graceMs).log;
      exists r :: p < r < q && log[r] == Ended(log[p].job)
  {
    RunKeepsInv(Start(now), events, graceMs);
    var s := Run(Start(now), events, graceMs);
    assert EndedAfter(s, p, s.log[p].job, q);
  }

  ghost predicate TwoOpen(s: State) {
    exists i: nat, j: nat :: i < j && Open(s, i) && Open(s, j)
  }

  ghost predicate CanReachTwoOpen(s: State, graceMs: nat) {
    exists events :: Careful(s, events, graceMs) && TwoOpen(Run(s, events, graceMs))
  }

  /**
    This condition is exact too. After a careful run, whatever comes next can lead to two open attempts,
    with every operator careful from there on, exactly if it is a hold or a requeue over an open one.
   */
  lemma {:induction false} CarelessnessIsTheDanger(now: int, events: seq<Event>, e: Event, graceMs: nat)
    requires Careful(Start(now), events, graceMs)
    ensures var s := Run(Start(now), events, graceMs);
      CanReachTwoOpen(Next(s, e, graceMs), graceMs) <==> Operators(e) && AnyOpen(s)
  {
    RunKeepsInv(Start(now), events, graceMs);
    var s := Run(Start(now), events, graceMs);
    var t := Next(s, e, graceMs);
    if Operators(e) && AnyOpen(s) {
      var i: nat :| Open(s, i);
      SecondGetsIn(t, graceMs);
      var end := Run(t, SecondIn(t), graceMs);
      assert Open(t, i) && Open(end, i) && Open(end, |t.jobs|);
      assert TwoOpen(end);
    } else {
      NextKeepsInv(s, e, graceMs);
      forall rest | Careful(t, rest, graceMs) ensures !TwoOpen(Run(t, rest, graceMs)) {
        RunKeepsInv(t, rest, graceMs);
      }
    }
  }

  /** Careful operators strand nobody. */
  lemma {:induction false} CarefulNeverStrands(s: State, events: seq<Event>, graceMs: nat)
    requires Inv(s) && Careful(s, events, graceMs)
    ensures NeverStrands(s, events, graceMs)
    decreases |events|
  {
    if events != [] {
      NextKeepsInv(s, events[0], graceMs);
      CarefulNeverStrands(Next(s, events[0], graceMs), events[1..], graceMs);
    }
  }

  lemma {:induction false} RunConcat(s: State, first: seq<Event>, second: seq<Event>, graceMs: nat)
    ensures Run(s, first + second, graceMs) == Run(Run(s, first, graceMs), second, graceMs)
    decreases |first|
  {
    if first == [] {
      assert first + second == second;
    } else {
      assert (first + second)[1..] == first[1..] + second;
      RunConcat(Next(s, first[0], graceMs), first[1..], second, graceMs);
    }
  }

  /** An attempt is replacing the file when an operator requeues it: a second one is let in beside it. */
  lemma {:induction false} RequeuedOverAnInstall()
    ensures var events := [Rescan, Claim, Commit(0, Replace), Requeue] + [Tick(0), Rescan, Claim, Commit(1, Replace)];
      var s := Run(Start(0), events, 10); IsCommitting(s, 0) && IsCommitting(s, 1)
  {
    var first := [Rescan, Claim, Commit(0, Replace), Requeue];
    RunFour(Start(0), Rescan, Claim, Commit(0, Replace), Requeue, 10);
    var s := Run(Start(0), first, 10);
    var s2 := Next(Next(Start(0), Rescan, 10), Claim, 10);
    assert s2 == State(0, File(Running, None, false), [Job(OnClaim(), false, false)], [Claimed(0)]);
    assert Next(s2, Commit(0, Replace), 10).jobs == [Job(Lease(Committing, None), false, false)];
    assert s.jobs == [Job(Lease(Committing, None), false, false)] && s.file == REQUEUED && s.now == 0;
    assert SecondIn(s) == [Tick(0), Rescan, Claim, Commit(1, Replace)];
    SecondGetsIn(s, 10);
    RunConcat(Start(0), first, SecondIn(s), 10);
  }

  lemma {:induction false} ClaimedTwice()
    ensures var s := Run(Start(0), [Rescan, Claim, Requeue, Claim], 10);
      s.jobs == [Job(OnClaim(), false, false), Job(OnClaim(), false, false)] && s.file.state == Running
  {
    RunFour(Start(0), Rescan, Claim, Requeue, Claim, 10);
    hide Run;
    var s2 := Next(Next(Start(0), Rescan, 10), Claim, 10);
    assert s2.jobs == [Job(OnClaim(), false, false)];
  }

  /** So does the result of an attempt that was requeued over, when it comes while its successor is replacing the file. */
  lemma {:induction false} LateResultStrands(next: IdleFile)
    requires !Barred(next)
    ensures var s := Next(Run(Start(0), [Rescan, Claim, Requeue, Claim], 10), Commit(1, Replace), 10);
      IsCommitting(s, 1) && Sole(s) && Strands(s, Settle(0, Folded(next)))
  {
    var s4 := Run(Start(0), [Rescan, Claim, Requeue, Claim], 10);
    ClaimedTwice();
    hide Run;
    var s := Next(s4, Commit(1, Replace), 10);
    assert s.jobs == [Job(OnClaim(), false, false), Job(Lease(Committing, None), false, false)];
    assert IsCommitting(s, 1) && Open(s, 0);
  }

  // ---- Once released, never again ----------------------------------------------------

  /** Nothing was granted to the attempt since the log was `before`. */
  predicate NoGrantSince(before: seq<Entry>, log: seq<Entry>, i: nat) {
    before <= log && forall p :: |before| <= p < |log| ==> !(log[p].Granted? && log[p].job == i)
  }

  predicate HasExpired(s: State, i: nat) {
    i < |s.jobs| && s.jobs[i].lease.state == Expired
  }

  lemma {:induction false} ExpiredIsFinal(s: State, events: seq<Event>, graceMs: nat, i: nat)
    requires HasExpired(s, i)
    ensures HasExpired(Run(s, events, graceMs), i)
    ensures NoGrantSince(s.log, Run(s, events, graceMs).log, i)
    decreases |events|
  {
    if events != [] {
      var t := Next(s, events[0], graceMs);
      assert HasExpired(t, i) && NoGrantSince(s.log, t.log, i);
      ExpiredIsFinal(t, events[1..], graceMs, i);
    }
  }

  /** The attempt's grace is over by the clock, whether or not the sweep has noticed. */
  predicate RanOut(s: State, i: nat) {
    i < |s.jobs| && (s.jobs[i].ended || s.jobs[i].lease.state == Expired || IsExpired(s.jobs[i].lease, s.now))
  }

  /** What may revive a lease that ran out unnoticed: a restart's fresh clock, or a report held by the node. */
  predicate Revives(e: Event, i: nat) {
    e == DaemonStart || e == HeldReport(i)
  }

  /** A grace that ran out by the clock bars every later grant, short of the two events that revive it. */
  lemma StaysOut(s: State, e: Event, graceMs: nat, i: nat)
    requires RanOut(s, i) && !Revives(e, i)
    ensures RanOut(Next(s, e, graceMs), i) && NoGrantSince(s.log, Next(s, e, graceMs).log, i)
  {
    hide SettledFile, Rescanned, Claimable;
  }

  lemma {:induction false} RanOutBarsGrants(s: State, events: seq<Event>, graceMs: nat, i: nat)
    requires RanOut(s, i)
    requires forall k :: 0 <= k < |events| ==> !Revives(events[k], i)
    ensures RanOut(Run(s, events, graceMs), i)
    ensures NoGrantSince(s.log, Run(s, events, graceMs).log, i)
    decreases |events|
  {
    if events != [] {
      var t := Next(s, events[0], graceMs);
      assert !Revives(events[0], i);
      StaysOut(s, events[0], graceMs, i);
      hide Next, RanOut, Revives;
      RanOutBarsGrants(t, events[1..], graceMs, i);
    }
  }

  /** A job claimed, cut off, and left until its grace is over. */
  const CUT_OFF: seq<Event> := [Rescan, Claim, Disconnect(0), Tick(10)]

  lemma {:induction false} CutOff()
    ensures Run(Start(0), CUT_OFF, 10) ==
            State(10, File(Running, None, false), [Job(Lease(Grace, Some(10)), false, false)], [Claimed(0)])
  {
    RunFour(Start(0), Rescan, Claim, Disconnect(0), Tick(10), 10);
  }

  /** Both events do revive it: after either, the gate grants the attempt an install. */
  lemma RevivedIsGranted()
    ensures var s := Run(Start(0), CUT_OFF, 10);
      && RanOut(s, 0)
      && Gate(Next(s, HeldReport(0), 10), 0, Replace).Success?
      && Gate(Next(Next(s, DaemonStart, 10), Reconnect(0, false), 10), 0, Replace).Success?
  {
    CutOff();
    var s := Run(Start(0), CUT_OFF, 10);
    var t := Next(s, DaemonStart, 10);
    assert t.jobs[0].lease == Lease(Grace, Some(20));
    assert Next(t, Reconnect(0, false), 10).jobs[0].lease == Lease(Connected, None);
  }

  // ---- Neither too soon --------------------------------------------------------------

  /** What can take a committing attempt off its file: its step ends, it ends, it is lost, or a day of silence. */
  predicate TakesCommit(e: Event, i: nat) {
    || e == StepEnd(i) || (e.Settle? && e.job == i) || (e.Lost? && e.job == i)
    || (e.Sweep? && i in e.silent)
  }

  /**
    Disconnects, restarts, clocks, sweeps and operators never take a committing attempt's lease from it;
    and while nothing strands it, nobody else gets in.
   */
  lemma {:induction false} CommittingIsNeverCutShort(s: State, events: seq<Event>, graceMs: nat, i: nat)
    requires IsCommitting(s, i)
    requires forall k :: 0 <= k < |events| ==> !TakesCommit(events[k], i)
    ensures IsCommitting(Run(s, events, graceMs), i)
    ensures Sole(s) && NeverStrands(s, events, graceMs) ==> OnlyGrants(s, Run(s, events, graceMs), i)
    decreases |events|
  {
    if events != [] {
      var t := Next(s, events[0], graceMs);
      assert !TakesCommit(events[0], i);
      CommittingStep(s, events[0], graceMs, i);
      CommittingIsNeverCutShort(t, events[1..], graceMs, i);
      if Sole(s) && NeverStrands(s, events, graceMs) { NextKeepsSole(s, events[0], graceMs); }
    }
  }

  /** From one state to the other no attempt was added, and whatever was granted was granted to this one. */
  predicate OnlyGrants(s: State, t: State, i: nat) {
    && |t.jobs| == |s.jobs| && s.log <= t.log
    && forall p :: |s.log| <= p < |t.log| ==> t.log[p].Ended? || (t.log[p].Granted? && t.log[p].job == i)
  }

  lemma CommittingStep(s: State, e: Event, graceMs: nat, i: nat)
    requires IsCommitting(s, i) && !TakesCommit(e, i)
    ensures IsCommitting(Next(s, e, graceMs), i)
    ensures Sole(s) ==> OnlyGrants(s, Next(s, e, graceMs), i)
  {
  }

  function Elapsed(events: seq<Event>): nat
    decreases |events|
  {
    if events == [] then 0 else (if events[0].Tick? then events[0].ms else 0) + Elapsed(events[1..])
  }

  predicate SafeUntil(s: State, i: nat, deadline: int) {
    && i < |s.jobs| && s.jobs[i].lease.state != Expired
    && (s.jobs[i].lease.state == Grace ==> s.jobs[i].lease.expiresAtMs.Some? && s.jobs[i].lease.expiresAtMs.value >= deadline)
  }

  /** What may release a job whose grace has not run out: the node says it lost it, or a day of silence. */
  predicate ReleasesEarly(e: Event, i: nat) {
    (e.Lost? && e.job == i) || (e.Sweep? && i in e.silent)
  }

  lemma StaysSafe(s: State, e: Event, graceMs: nat, i: nat, deadline: int)
    requires SafeUntil(s, i, deadline) && !ReleasesEarly(e, i)
    requires s.now + (if e.Tick? then e.ms else 0) < deadline <= s.now + graceMs
    ensures SafeUntil(Next(s, e, graceMs), i, deadline)
    ensures Next(s, e, graceMs).now == s.now + if e.Tick? then e.ms else 0
  {
    hide SettledFile, Rescanned, Claimable;
  }

  lemma {:induction false} NotBeforeTheDeadline(s: State, events: seq<Event>, graceMs: nat, i: nat, deadline: int)
    requires SafeUntil(s, i, deadline) && s.now + Elapsed(events) < deadline <= s.now + graceMs
    requires forall k :: 0 <= k < |events| ==> !ReleasesEarly(events[k], i)
    ensures SafeUntil(Run(s, events, graceMs), i, deadline)
    decreases |events|
  {
    if events != [] {
      var t := Next(s, events[0], graceMs);
      assert !ReleasesEarly(events[0], i);
      StaysSafe(s, events[0], graceMs, i, deadline);
      hide Next, SafeUntil, ReleasesEarly;
      NotBeforeTheDeadline(t, events[1..], graceMs, i, deadline);
    }
  }

  /**
    However long the daemon was down, a restart gives every unreleased attempt a whole grace: nothing
    expires it before that much time has passed, unless the node itself gives it up.
   */
  lemma {:induction false} RestartGivesAWholeGrace(s: State, events: seq<Event>, graceMs: nat, i: nat)
    requires Live(s, i) && Elapsed(events) < graceMs
    requires forall k :: 0 <= k < |events| ==> !ReleasesEarly(events[k], i)
    ensures var t := Run(Next(s, DaemonStart, graceMs), events, graceMs);
      i < |t.jobs| && t.jobs[i].lease.state != Expired
  {
    var t := Next(s, DaemonStart, graceMs);
    assert SafeUntil(t, i, s.now + graceMs);
    NotBeforeTheDeadline(t, events, graceMs, i, s.now + graceMs);
  }
}
