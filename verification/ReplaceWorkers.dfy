/**
  Any number of workers, each running Replace Original File on its own file, interleaved at their
  filesystem calls. They share the trash directory and may share destinations. A call may fail at
  any point, and a worker may crash at any point.
 */
module ReplaceWorkers {
  import opened FileSystem

  datatype Job = Job(original: Path, originalIno: Ino, newPath: Path, newIno: Ino, staging: Path, finalPath: Path)

  datatype Config = Config(jobs: seq<Job>, trashDir: string)

  /**
    How far a move has got: by link and unlink, or by rename under a reservation. `Stale(seen)` has
    judged abandoned the reservation whose inode it saw; `Swapped` has since renamed one away.
   */
  datatype Sub = Idle | Linked | Undo | Stale(seen: Ino) | Swapped | Held | Clear | Releasing(moved: bool)

  datatype Pc =
    | Start
    | ToTrash(sub: Sub)
    | AbandonTrash
    | Install(sub: Sub)
    | RemoveNew
    | UndoInstall
    | AbandonInstall
    | Judge
    | Installed
    | Restore(sub: Sub)
    | Done(output: nat)
    | Crashed

  /** `trash` is the trash name being tried or used; `src` is what will be installed. */
  datatype Worker = Worker(pc: Pc, trash: Path, src: Path, viaLink: bool)

  /** `owner` says which worker an inode belongs to. It only grows. */
  datatype State = State(names: map<Path, Ino>, owner: map<Ino, nat>, workers: seq<Worker>)

  datatype Action =
    | StageLink | StageCopy(ino: Ino) | StagePart(ino: Ino) | StageNone | Refuse
    | Pick(t: Path)
    | LinkTo | GiveUp | CopyAcross(ino: Ino)
    | DropFrom(ok: bool) | DropTo(ok: bool)
    | OpenReserve(ino: Ino) | JudgeStale | Displace | Check | RenameTo | RenameFails | Release(ok: bool)
    | DropNew(ok: bool) | DropFinal(ok: bool) | DropStaging(ok: bool)
    | Decide(leftLinked: bool) | Finish(ok: bool)
    | Crash

  /**
    What the filesystem, and the workers' clocks, make of `createExclusively`: whether links work for
    some move, whether some move falls back on a reservation, and whether one is ever judged stale.
   */
  datatype Caps = Caps(links: bool, reserves: bool, reclaims: bool)

  predicate Allowed(caps: Caps, a: Action) {
    match a
    case LinkTo => caps.links
    case OpenReserve(_) => caps.reserves
    case JudgeStale => caps.reserves && caps.reclaims
    case Displace => caps.reserves && caps.reclaims
    case _ => true
  }

  /** Every move takes the one branch, or every move the other. */
  predicate OneBranch(caps: Caps) {
    !(caps.links && caps.reserves)
  }

  predicate InTrash(cfg: Config, p: Path) {
    p.Media? && p.dir == cfg.trashDir
  }

  predicate Moving(pc: Pc) {
    pc.ToTrash? || pc.Install? || pc.Restore?
  }

  function From(job: Job, w: Worker): Path
    requires Moving(w.pc)
  {
    match w.pc
    case ToTrash(_) => job.original
    case Install(_) => w.src
    case Restore(_) => w.trash
  }

  function To(job: Job, w: Worker): Path
    requires Moving(w.pc)
  {
    match w.pc
    case ToTrash(_) => w.trash
    case Install(_) => job.finalPath
    case Restore(_) => job.original
  }

  function WithSub(w: Worker, sub: Sub): Worker
    requires Moving(w.pc)
  {
    match w.pc
    case ToTrash(_) => w.(pc := ToTrash(sub))
    case Install(_) => w.(pc := Install(sub))
    case Restore(_) => w.(pc := Restore(sub))
  }

  /** What follows a move that succeeded. */
  function Moved(job: Job, w: Worker): Worker
    requires Moving(w.pc)
  {
    match w.pc
    case ToTrash(_) => w.(pc := if job.finalPath == job.newPath then Installed else Install(Idle))
    case Install(_) => w.(pc := if w.src == job.newPath then Installed else RemoveNew)
    case Restore(_) => w.(pc := Done(2))
  }

  /** What follows a move that failed. Only a trash name is ever tried again. */
  function Failed(w: Worker, retry: bool): Worker
    requires Moving(w.pc)
  {
    match w.pc
    case ToTrash(_) => w.(pc := if retry then ToTrash(Idle) else AbandonTrash)
    case Install(_) => w.(pc := AbandonInstall)
    case Restore(_) => w.(pc := Done(2))
  }

  function Unbind(names: map<Path, Ino>, p: Path, ok: bool): map<Path, Ino> {
    if ok then names - {p} else names
  }

  predicate Fresh(s: State, ino: Ino) {
    ino !in s.owner && ino !in s.names.Values
  }

  predicate Own(s: State, i: nat, p: Path) {
    p in s.names && s.names[p] in s.owner && s.owner[s.names[p]] == i
  }

  /** Does the destination share an inode with either source it could have come from? */
  predicate Landed(s: State, job: Job) {
    job.finalPath in s.names &&
    ((job.newPath in s.names && s.names[job.newPath] == s.names[job.finalPath]) ||
     (job.staging in s.names && s.names[job.staging] == s.names[job.finalPath]))
  }

  /** The effect of one call on the shared names, the ownership of inodes, and the worker. */
  function Act(s: State, i: nat, job: Job, w: Worker, a: Action): (map<Path, Ino>, map<Ino, nat>, Worker) {
    var same := (s.names, s.owner, w);
    if a.Crash? && !w.pc.Done? then (s.names, s.owner, w.(pc := Crashed)) else
    match w.pc
    case Start =>
      if job.finalPath == job.newPath then
        if a == StageNone then (s.names, s.owner, w.(pc := ToTrash(Idle), src := job.newPath))
        else if a == Refuse then (s.names, s.owner, w.(pc := Done(2)))
        else same
      else
        (match a
         case StageLink =>
           if job.newPath in s.names && job.staging !in s.names then
             (s.names[job.staging := s.names[job.newPath]], s.owner, w.(pc := ToTrash(Idle), src := job.staging, viaLink := true))
           else same
         case StageCopy(ino) =>
           if Fresh(s, ino) && job.staging !in s.names then
             (s.names[job.staging := ino], s.owner[ino := i], w.(pc := ToTrash(Idle), src := job.staging, viaLink := false))
           else same
         case StagePart(ino) =>
           if Fresh(s, ino) && job.staging !in s.names then
             (s.names[job.staging := ino], s.owner[ino := i], w.(pc := AbandonTrash))
           else same
         case StageNone => (s.names, s.owner, w.(pc := ToTrash(Idle), src := job.newPath))
         case Refuse => (s.names, s.owner, w.(pc := Done(2)))
         case _ => same)
    case AbandonTrash =>
      if a.DropStaging? then (Unbind(s.names, job.staging, a.ok), s.owner, w.(pc := Done(2))) else same
    case RemoveNew =>
      if a.DropNew? then
        (Unbind(s.names, job.newPath, a.ok), s.owner, w.(pc := if a.ok || !w.viaLink then Installed else UndoInstall))
      else same
    case UndoInstall =>
      if a.DropFinal? then (Unbind(s.names, job.finalPath, a.ok), s.owner, w.(pc := Judge)) else same
    case AbandonInstall =>
      if a.DropStaging? then (Unbind(s.names, job.staging, a.ok), s.owner, w.(pc := Judge)) else same
    case Judge =>
      if a.Decide? then
        (s.names, s.owner, w.(pc := if !Landed(s, job) then Restore(Idle) else if a.leftLinked then Done(2) else Installed))
      else same
    case Installed =>
      if a.Finish? then (s.names, s.owner, w.(pc := Done(if a.ok then 1 else 2))) else same
    case Done(_) => same
    case Crashed => same
    case _ => ActMove(s, i, job, w, a)
  }

  /** The calls of a move, for whichever of the three moves the worker is making. */
  function ActMove(s: State, i: nat, job: Job, w: Worker, a: Action): (map<Path, Ino>, map<Ino, nat>, Worker)
    requires Moving(w.pc)
  {
    var same := (s.names, s.owner, w);
    var from, to := From(job, w), To(job, w);
    match w.pc.sub
    case Idle =>
      (match a
       case Pick(t) => (s.names, s.owner, if w.pc.ToTrash? then w.(trash := t) else w)
       case LinkTo =>
         if from in s.names && to !in s.names then (s.names[to := s.names[from]], s.owner, WithSub(w, Linked)) else same
       case OpenReserve(ino) =>
         if Fresh(s, ino) && Reserve(to) !in s.names then
           (s.names[Reserve(to) := ino], s.owner[ino := i], WithSub(w, Held))
         else same
       case JudgeStale =>
         if Reserve(to) in s.names then (s.names, s.owner, WithSub(w, Stale(s.names[Reserve(to)]))) else same
       case CopyAcross(ino) =>
         if w.pc.Install? && w.src == job.newPath && Fresh(s, ino) && job.staging !in s.names then
           (s.names[job.staging := ino], s.owner[ino := i], w.(src := job.staging, viaLink := false))
         else same
       case GiveUp => (s.names, s.owner, Failed(w, false))
       case _ => same)
    case Linked =>
      if a.DropFrom? then
        (Unbind(s.names, from, a.ok), s.owner, if a.ok || w.pc.Restore? then Moved(job, w) else WithSub(w, Undo))
      else same
    case Undo =>
      if a.DropTo? then (Unbind(s.names, to, a.ok), s.owner, Failed(w, false)) else same
    case Stale(_) =>
      // The rename is by name: it takes whatever is there by now.
      if a.Displace? then
        if Reserve(to) in s.names then (s.names - {Reserve(to)}, s.owner, WithSub(w, Swapped))
        else (s.names, s.owner, Failed(w, true))
      else same
    case Swapped =>
      (match a
       case OpenReserve(ino) =>
         if Fresh(s, ino) && Reserve(to) !in s.names then
           (s.names[Reserve(to) := ino], s.owner[ino := i], WithSub(w, Held))
         else same
       case GiveUp => (s.names, s.owner, Failed(w, true))
       case _ => same)
    case Held =>
      if a.Check? then (s.names, s.owner, WithSub(w, if to in s.names then Releasing(false) else Clear)) else same
    case Clear =>
      if a.RenameTo? && from in s.names then
        ((s.names - {from})[to := s.names[from]], s.owner, WithSub(w, Releasing(true)))
      else if a.RenameFails? then (s.names, s.owner, WithSub(w, Releasing(false)))
      else same
    case Releasing(moved) =>
      if a.Release? then
        (Unbind(s.names, Reserve(to), a.ok && Own(s, i, Reserve(to))), s.owner, if moved then Moved(job, w) else Failed(w, true))
      else same
  }

  predicate Runs(cfg: Config, s: State) {
    |s.workers| == |cfg.jobs|
  }

  function Next(cfg: Config, s: State, i: nat, a: Action): State
    requires Runs(cfg, s) && i < |cfg.jobs|
  {
    var (names, owner, w) := Act(s, i, cfg.jobs[i], s.workers[i], a);
    if a.Pick? && !InTrash(cfg, a.t) then s else State(names, owner, s.workers[i := w])
  }

  /** Run a schedule: which worker makes which call, in order. */
  function Exec(cfg: Config, s: State, schedule: seq<(nat, Action)>): (s': State)
    requires Runs(cfg, s) && forall k :: 0 <= k < |schedule| ==> schedule[k].0 < |cfg.jobs|
    ensures Runs(cfg, s')
    decreases |schedule|
  {
    if schedule == [] then s else Exec(cfg, Next(cfg, s, schedule[0].0, schedule[0].1), schedule[1..])
  }

  // ---- Initial states ---------------------------------------------------------

  predicate DistinctJobs(cfg: Config) {
    && (forall i :: 0 <= i < |cfg.jobs| ==>
          var job := cfg.jobs[i];
          job.original.Media? && job.newPath.Media? && job.finalPath.Media? && job.staging.Staging?
          && job.original != job.newPath && job.originalIno != job.newIno)
    && (forall i, j :: 0 <= i < j < |cfg.jobs| ==>
          var a, b := cfg.jobs[i], cfg.jobs[j];
          a.staging != b.staging && {a.originalIno, a.newIno} !! {b.originalIno, b.newIno})
  }

  predicate Bound(s: State, p: Path, ino: Ino) {
    p in s.names && s.names[p] == ino
  }

  predicate Init(cfg: Config, s: State) {
    && Runs(cfg, s) && DistinctJobs(cfg)
    && (forall i :: 0 <= i < |cfg.jobs| ==>
          var job := cfg.jobs[i];
          && s.workers[i].pc == Start && InTrash(cfg, s.workers[i].trash)
          && Bound(s, job.original, job.originalIno) && Bound(s, job.newPath, job.newIno)
          && job.staging !in s.names
          && job.originalIno in s.owner && s.owner[job.originalIno] == i
          && job.newIno in s.owner && s.owner[job.newIno] == i)
  }

  // ---- The invariant ----------------------------------------------------------

  predicate SafeOriginal(cfg: Config, s: State, job: Job, w: Worker) {
    Bound(s, job.original, job.originalIno) || (Bound(s, w.trash, job.originalIno) && InTrash(cfg, w.trash))
  }

  /** What holds at each point of a worker's program, said of its own names only. */
  predicate Local(cfg: Config, s: State, job: Job, w: Worker, i: nat) {
    var o, n := job.originalIno, job.newIno;
    && (job.staging in s.names ==> Own(s, i, job.staging))
    && (match w.pc
        case Start => Bound(s, job.original, o) && Bound(s, job.newPath, n) && job.staging !in s.names && InTrash(cfg, w.trash)
        case ToTrash(sub) =>
          && InTrash(cfg, w.trash) && Bound(s, job.newPath, n)
          && (w.src == job.newPath || (w.src == job.staging && job.staging in s.names && job.finalPath != job.newPath))
          && (sub != Releasing(true) ==> Bound(s, job.original, o))
          && (sub in {Linked, Undo} ==> Bound(s, w.trash, o) && w.trash != job.original)
          && (sub == Releasing(true) ==> Bound(s, w.trash, o))
        case AbandonTrash => Bound(s, job.original, o)
        case Install(sub) =>
          && InTrash(cfg, w.trash) && Bound(s, w.trash, o) && job.finalPath != job.newPath
          && (w.src == job.newPath || w.src == job.staging)
          && (w.src != job.newPath || sub != Releasing(true) ==> Bound(s, job.newPath, n))
          && (sub != Releasing(true) ==> Own(s, i, w.src))
          && (sub in {Linked, Undo, Releasing(true)} ==> Own(s, i, job.finalPath) && job.finalPath != w.trash)
        case RemoveNew =>
          && InTrash(cfg, w.trash) && Bound(s, w.trash, o) && Own(s, i, job.finalPath) && Bound(s, job.newPath, n)
          && job.finalPath != job.newPath && job.finalPath != w.trash
        case UndoInstall =>
          && InTrash(cfg, w.trash) && Bound(s, w.trash, o) && Own(s, i, job.finalPath) && Bound(s, job.newPath, n)
          && job.finalPath != job.newPath && job.finalPath != w.trash
        case AbandonInstall => InTrash(cfg, w.trash) && Bound(s, w.trash, o) && Bound(s, job.newPath, n)
        case Judge => InTrash(cfg, w.trash) && Bound(s, w.trash, o) && Bound(s, job.newPath, n)
        case Installed => InTrash(cfg, w.trash) && Bound(s, w.trash, o) && Own(s, i, job.finalPath)
        case Restore(sub) =>
          && InTrash(cfg, w.trash) && sub != Undo
          && (sub != Releasing(true) ==> Bound(s, w.trash, o))
          && (sub == Linked ==> Bound(s, job.original, o) && w.trash != job.original)
          && (sub == Releasing(true) ==> Bound(s, job.original, o))
        case Done(k) =>
          && SafeOriginal(cfg, s, job, w)
          && (k == 1 ==> Own(s, i, job.finalPath) && Bound(s, w.trash, o) && InTrash(cfg, w.trash))
        case Crashed => SafeOriginal(cfg, s, job, w))
  }

  predicate Holding(w: Worker) {
    Moving(w.pc) && (w.pc.sub in {Held, Clear} || w.pc.sub.Releasing?)
  }

  /** A move under way by reservation holds it, and the destination it found free is still free. */
  predicate Locked(s: State, job: Job, w: Worker, i: nat) {
    Holding(w) ==>
      Own(s, i, Reserve(To(job, w))) && (w.pc.sub == Clear ==> To(job, w) !in s.names)
  }

  predicate NoReservations(w: Worker) {
    Moving(w.pc) ==> w.pc.sub in {Idle, Linked, Undo}
  }

  predicate Owners(cfg: Config, s: State) {
    forall i :: 0 <= i < |cfg.jobs| ==>
      var job := cfg.jobs[i];
      && job.originalIno in s.owner && s.owner[job.originalIno] == i
      && job.newIno in s.owner && s.owner[job.newIno] == i
  }

  predicate Good(cfg: Config, caps: Caps, s: State, i: nat)
    requires Runs(cfg, s) && i < |cfg.jobs|
  {
    && Local(cfg, s, cfg.jobs[i], s.workers[i], i)
    && Locked(s, cfg.jobs[i], s.workers[i], i)
    && (!caps.reserves ==> NoReservations(s.workers[i]))
  }

  predicate Inv(cfg: Config, caps: Caps, s: State) {
    && Runs(cfg, s) && DistinctJobs(cfg) && Owners(cfg, s)
    && (forall i :: 0 <= i < |cfg.jobs| ==> Good(cfg, caps, s, i))
  }

  /** The reservation a call renames away, of whoever it is. */
  function Taken(job: Job, w: Worker, a: Action): set<Path> {
    if a.Displace? && Moving(w.pc) && w.pc.sub.Stale? then {Reserve(To(job, w))} else {}
  }

  /** Nobody who is still running holds that reservation. */
  predicate Unheld(cfg: Config, s: State, p: Path)
    requires Runs(cfg, s)
  {
    forall i :: 0 <= i < |cfg.jobs| && Holding(s.workers[i]) ==> Reserve(To(cfg.jobs[i], s.workers[i])) != p
  }

  /** What this call renames away, if anything, is a reservation nobody holds. */
  predicate Considerate(cfg: Config, s: State, j: nat, a: Action)
    requires Runs(cfg, s) && j < |cfg.jobs|
  {
    forall p :: p in Taken(cfg.jobs[j], s.workers[j], a) ==> Unheld(cfg, s, p)
  }

  /** What one worker's call may do to names: remove its own, and create only where nothing is. */
  ghost predicate Courteous(s: State, s': State, j: nat, taken: set<Path>) {
    && (forall p :: p in s.names && !Own(s, j, p) && p !in taken ==> p in s'.names && s'.names[p] == s.names[p])
    && (forall p :: p in s.names && p in s'.names ==> s'.names[p] == s.names[p])
    && (forall p :: p in s'.names && p !in s.names ==> Own(s', j, p))
    && (forall ino :: ino in s.owner ==> ino in s'.owner && s'.owner[ino] == s.owner[ino])
  }

  /** What one worker knows of itself. */
  predicate Self(cfg: Config, s: State, job: Job, w: Worker, i: nat) {
    && Local(cfg, s, job, w, i) && Locked(s, job, w, i)
    && job.original.Media? && job.newPath.Media? && job.finalPath.Media? && job.staging.Staging?
    && job.original != job.newPath && job.originalIno != job.newIno
    && job.originalIno in s.owner && s.owner[job.originalIno] == i
    && job.newIno in s.owner && s.owner[job.newIno] == i
  }

  lemma MoveEnds(cfg: Config, s: State, job: Job, w: Worker, i: nat)
    requires Self(cfg, s, job, w, i) && Moving(w.pc)
    ensures w.pc.sub != Releasing(true) ==> Own(s, i, From(job, w))
    ensures w.pc.sub in {Linked, Undo} ==> Own(s, i, To(job, w)) && From(job, w) != To(job, w)
    ensures w.pc.sub == Clear ==> To(job, w) !in s.names
    ensures !From(job, w).Reserve? && To(job, w).Media?
  {
  }

  /** `Courteous`, on the parts of the state a call changes. */
  ghost predicate CourteousParts(s: State, names: map<Path, Ino>, owner: map<Ino, nat>, j: nat, taken: set<Path>) {
    && (forall p :: p in s.names && !Own(s, j, p) && p !in taken ==> p in names && names[p] == s.names[p])
    && (forall p :: p in s.names && p in names ==> names[p] == s.names[p])
    && (forall p :: p in names && p !in s.names ==> names[p] in owner && owner[names[p]] == j)
    && (forall ino :: ino in s.owner ==> ino in owner && owner[ino] == s.owner[ino])
  }

  lemma MoveIsCourteous(cfg: Config, s: State, job: Job, w: Worker, i: nat, a: Action)
    requires Self(cfg, s, job, w, i) && Moving(w.pc)
    ensures var (names, owner, _) := ActMove(s, i, job, w, a); CourteousParts(s, names, owner, i, Taken(job, w, a))
  {
    MoveEnds(cfg, s, job, w, i);
    hide Self, ActMove, CourteousParts;
    if w.pc.sub in {Idle, Swapped} {
      TakingIsCourteous(s, job, w, i, a);
    } else {
      LeavingIsCourteous(s, job, w, i, a);
    }
  }

  /** A call of a move that only takes names. */
  lemma TakingIsCourteous(s: State, job: Job, w: Worker, i: nat, a: Action)
    requires Moving(w.pc) && w.pc.sub in {Idle, Swapped} && Own(s, i, From(job, w))
    ensures var (names, owner, _) := ActMove(s, i, job, w, a); CourteousParts(s, names, owner, i, Taken(job, w, a))
  {
    hide Moved, Failed, WithSub, CourteousParts, From, To;
    var from, to, taken := From(job, w), To(job, w), Taken(job, w, a);
    SameIsCourteous(s, i, taken);
    if a.LinkTo? && to !in s.names { BoundIsCourteous(s, to, s.names[from], s.owner, i, taken); }
    if a.OpenReserve? && Fresh(s, a.ino) && Reserve(to) !in s.names {
      BoundIsCourteous(s, Reserve(to), a.ino, s.owner[a.ino := i], i, taken);
    }
    if a.CopyAcross? && Fresh(s, a.ino) && job.staging !in s.names {
      BoundIsCourteous(s, job.staging, a.ino, s.owner[a.ino := i], i, taken);
    }
    hide Fresh, Own;
  }

  /** A call of a move that gives a name up, or changes it for another. */
  lemma LeavingIsCourteous(s: State, job: Job, w: Worker, i: nat, a: Action)
    requires Moving(w.pc) && w.pc.sub !in {Idle, Swapped} && (w.pc.sub != Releasing(true) ==> Own(s, i, From(job, w)))
    requires w.pc.sub == Undo ==> Own(s, i, To(job, w))
    requires w.pc.sub == Clear ==> To(job, w) !in s.names
    ensures var (names, owner, _) := ActMove(s, i, job, w, a); CourteousParts(s, names, owner, i, Taken(job, w, a))
  {
    hide Moved, Failed, WithSub, CourteousParts, From, To;
    var from, to, taken := From(job, w), To(job, w), Taken(job, w, a);
    SameIsCourteous(s, i, taken);
    match w.pc.sub {
      case Linked => UnboundIsCourteous(s, from, i, taken);
      case Undo => UnboundIsCourteous(s, to, i, taken);
      case Stale(_) => if a.Displace? { UnboundIsCourteous(s, Reserve(to), i, taken); }
      case Clear => RenamedIsCourteous(s, from, to, i, taken);
      case Releasing(_) => if Own(s, i, Reserve(to)) { UnboundIsCourteous(s, Reserve(to), i, taken); }
      case _ =>
    }
  }

  lemma SameIsCourteous(s: State, j: nat, taken: set<Path>)
    ensures CourteousParts(s, s.names, s.owner, j, taken)
  {
  }

  /** A new name for an inode that is one's own, or new. */
  lemma BoundIsCourteous(s: State, p: Path, ino: Ino, owner: map<Ino, nat>, j: nat, taken: set<Path>)
    requires p !in s.names && ino in owner && owner[ino] == j
    requires owner == s.owner || (ino !in s.owner && owner == s.owner[ino := j])
    ensures CourteousParts(s, s.names[p := ino], owner, j, taken)
  {
  }

  lemma UnboundIsCourteous(s: State, p: Path, j: nat, taken: set<Path>)
    requires p in s.names ==> Own(s, j, p) || p in taken
    ensures CourteousParts(s, s.names - {p}, s.owner, j, taken)
  {
  }

  lemma RenamedIsCourteous(s: State, from: Path, to: Path, j: nat, taken: set<Path>)
    requires Own(s, j, from) && to !in s.names
    ensures CourteousParts(s, (s.names - {from})[to := s.names[from]], s.owner, j, taken)
  {
  }

  lemma StartIsCourteous(cfg: Config, s: State, job: Job, w: Worker, i: nat, a: Action)
    requires Self(cfg, s, job, w, i) && !a.Crash? && w.pc.Start?
    ensures var (names, owner, _) := Act(s, i, job, w, a); CourteousParts(s, names, owner, i, Taken(job, w, a))
  {
    hide ActMove, From, To, WithSub, Moved, Failed, Landed, SafeOriginal, InTrash;
  }

  lemma RestIsCourteous(cfg: Config, s: State, job: Job, w: Worker, i: nat, a: Action)
    requires Self(cfg, s, job, w, i) && (a.Crash? || (!Moving(w.pc) && !w.pc.Start?))
    ensures var (names, owner, _) := Act(s, i, job, w, a); CourteousParts(s, names, owner, i, Taken(job, w, a))
  {
    hide ActMove, From, To, WithSub, Moved, Failed, Landed, SafeOriginal, InTrash;
  }

  lemma ActIsCourteous(cfg: Config, s: State, job: Job, w: Worker, i: nat, a: Action)
    requires Self(cfg, s, job, w, i)
    ensures var (names, owner, _) := Act(s, i, job, w, a); CourteousParts(s, names, owner, i, Taken(job, w, a))
  {
    hide ActMove, From, To, WithSub, Moved, Failed, Landed, Self, CourteousParts, Taken;
    if !a.Crash? && w.pc.Start? {
      StartIsCourteous(cfg, s, job, w, i, a);
    } else if a.Crash? || !Moving(w.pc) {
      RestIsCourteous(cfg, s, job, w, i, a);
    } else {
      MoveIsCourteous(cfg, s, job, w, i, a);
    }
  }

  /** No call of a worker removes or rebinds a name bound to another's file, but the reservation it displaces. */
  lemma StepIsCourteous(cfg: Config, caps: Caps, s: State, j: nat, a: Action)
    requires Inv(cfg, caps, s) && j < |cfg.jobs|
    ensures Courteous(s, Next(cfg, s, j, a), j, Taken(cfg.jobs[j], s.workers[j], a))
  {
    assert Good(cfg, caps, s, j);
    hide Act, ActMove, Local, Locked, InTrash;
    ActIsCourteous(cfg, s, cfg.jobs[j], s.workers[j], j, a);
  }

  lemma TrashMoveBegins(cfg: Config, s: State, job: Job, w: Worker, i: nat, a: Action)
    requires Self(cfg, s, job, w, i) && w.pc.ToTrash? && w.pc.sub.Idle?
    requires a.Pick? ==> InTrash(cfg, a.t)
    ensures var (names, owner, w') := ActMove(s, i, job, w, a); Self(cfg, State(names, owner, s.workers), job, w', i)
  {
    MoveEnds(cfg, s, job, w, i);
  }

  lemma TrashMoveLinked(cfg: Config, s: State, job: Job, w: Worker, i: nat, a: Action)
    requires Self(cfg, s, job, w, i) && w.pc.ToTrash? && w.pc.sub in {Linked, Undo}
    requires a.Pick? ==> InTrash(cfg, a.t)
    ensures var (names, owner, w') := ActMove(s, i, job, w, a); Self(cfg, State(names, owner, s.workers), job, w', i)
  {
    MoveEnds(cfg, s, job, w, i);
  }

  lemma TrashMoveReserves(cfg: Config, s: State, job: Job, w: Worker, i: nat, a: Action)
    requires Self(cfg, s, job, w, i) && w.pc.ToTrash? && (w.pc.sub.Stale? || w.pc.sub in {Swapped, Held})
    requires a.Pick? ==> InTrash(cfg, a.t)
    ensures var (names, owner, w') := ActMove(s, i, job, w, a); Self(cfg, State(names, owner, s.workers), job, w', i)
  {
    MoveEnds(cfg, s, job, w, i);
  }

  lemma TrashMoveRenames(cfg: Config, s: State, job: Job, w: Worker, i: nat, a: Action)
    requires Self(cfg, s, job, w, i) && w.pc.ToTrash? && (w.pc.sub.Clear? || w.pc.sub.Releasing?)
    requires a.Pick? ==> InTrash(cfg, a.t)
    ensures var (names, owner, w') := ActMove(s, i, job, w, a); Self(cfg, State(names, owner, s.workers), job, w', i)
  {
    MoveEnds(cfg, s, job, w, i);
  }

  lemma TrashMoveKeepsSelf(cfg: Config, s: State, job: Job, w: Worker, i: nat, a: Action)
    requires Self(cfg, s, job, w, i) && w.pc.ToTrash?
    requires a.Pick? ==> InTrash(cfg, a.t)
    ensures var (names, owner, w') := ActMove(s, i, job, w, a); Self(cfg, State(names, owner, s.workers), job, w', i)
  {
    hide Self, ActMove;
    match w.pc.sub
    case Idle => TrashMoveBegins(cfg, s, job, w, i, a);
    case Linked => TrashMoveLinked(cfg, s, job, w, i, a);
    case Undo => TrashMoveLinked(cfg, s, job, w, i, a);
    case Stale(_) => TrashMoveReserves(cfg, s, job, w, i, a);
    case Swapped => TrashMoveReserves(cfg, s, job, w, i, a);
    case Held => TrashMoveReserves(cfg, s, job, w, i, a);
    case Clear => TrashMoveRenames(cfg, s, job, w, i, a);
    case Releasing(_) => TrashMoveRenames(cfg, s, job, w, i, a);
  }

  lemma InstallMoveBegins(cfg: Config, s: State, job: Job, w: Worker, i: nat, a: Action)
    requires Self(cfg, s, job, w, i) && w.pc.Install? && w.pc.sub.Idle?
    requires a.Pick? ==> InTrash(cfg, a.t)
    ensures var (names, owner, w') := ActMove(s, i, job, w, a); Self(cfg, State(names, owner, s.workers), job, w', i)
  {
    MoveEnds(cfg, s, job, w, i);
  }

  lemma InstallMoveLinked(cfg: Config, s: State, job: Job, w: Worker, i: nat, a: Action)
    requires Self(cfg, s, job, w, i) && w.pc.Install? && w.pc.sub in {Linked, Undo}
    requires a.Pick? ==> InTrash(cfg, a.t)
    ensures var (names, owner, w') := ActMove(s, i, job, w, a); Self(cfg, State(names, owner, s.workers), job, w', i)
  {
    MoveEnds(cfg, s, job, w, i);
  }

  lemma InstallMoveReserves(cfg: Config, s: State, job: Job, w: Worker, i: nat, a: Action)
    requires Self(cfg, s, job, w, i) && w.pc.Install? && (w.pc.sub.Stale? || w.pc.sub in {Swapped, Held})
    requires a.Pick? ==> InTrash(cfg, a.t)
    ensures var (names, owner, w') := ActMove(s, i, job, w, a); Self(cfg, State(names, owner, s.workers), job, w', i)
  {
    MoveEnds(cfg, s, job, w, i);
  }

  lemma InstallMoveRenames(cfg: Config, s: State, job: Job, w: Worker, i: nat, a: Action)
    requires Self(cfg, s, job, w, i) && w.pc.Install? && (w.pc.sub.Clear? || w.pc.sub.Releasing?)
    requires a.Pick? ==> InTrash(cfg, a.t)
    ensures var (names, owner, w') := ActMove(s, i, job, w, a); Self(cfg, State(names, owner, s.workers), job, w', i)
  {
    MoveEnds(cfg, s, job, w, i);
  }

  lemma InstallMoveKeepsSelf(cfg: Config, s: State, job: Job, w: Worker, i: nat, a: Action)
    requires Self(cfg, s, job, w, i) && w.pc.Install?
    requires a.Pick? ==> InTrash(cfg, a.t)
    ensures var (names, owner, w') := ActMove(s, i, job, w, a); Self(cfg, State(names, owner, s.workers), job, w', i)
  {
    hide Self, ActMove;
    match w.pc.sub
    case Idle => InstallMoveBegins(cfg, s, job, w, i, a);
    case Linked => InstallMoveLinked(cfg, s, job, w, i, a);
    case Undo => InstallMoveLinked(cfg, s, job, w, i, a);
    case Stale(_) => InstallMoveReserves(cfg, s, job, w, i, a);
    case Swapped => InstallMoveReserves(cfg, s, job, w, i, a);
    case Held => InstallMoveReserves(cfg, s, job, w, i, a);
    case Clear => InstallMoveRenames(cfg, s, job, w, i, a);
    case Releasing(_) => InstallMoveRenames(cfg, s, job, w, i, a);
  }

  lemma RestoreMoveGivesUp(cfg: Config, s: State, job: Job, w: Worker, i: nat)
    requires Self(cfg, s, job, w, i) && w.pc.Restore? && w.pc.sub.Idle?
    ensures var (names, owner, w') := ActMove(s, i, job, w, GiveUp); Self(cfg, State(names, owner, s.workers), job, w', i)
  {
  }

  lemma RestoreMoveBegins(cfg: Config, s: State, job: Job, w: Worker, i: nat, a: Action)
    requires Self(cfg, s, job, w, i) && w.pc.Restore? && w.pc.sub.Idle?
    requires a.Pick? ==> InTrash(cfg, a.t)
    ensures var (names, owner, w') := ActMove(s, i, job, w, a); Self(cfg, State(names, owner, s.workers), job, w', i)
  {
    if a.GiveUp? {
      RestoreMoveGivesUp(cfg, s, job, w, i);
    } else {
      hide SafeOriginal, Failed, Moved;
    }
  }

  lemma RestoreMoveLinked(cfg: Config, s: State, job: Job, w: Worker, i: nat, a: Action)
    requires Self(cfg, s, job, w, i) && w.pc.Restore? && w.pc.sub in {Linked, Undo}
    requires a.Pick? ==> InTrash(cfg, a.t)
    ensures var (names, owner, w') := ActMove(s, i, job, w, a); Self(cfg, State(names, owner, s.workers), job, w', i)
  {
    MoveEnds(cfg, s, job, w, i);
  }

  lemma RestoreMoveReserves(cfg: Config, s: State, job: Job, w: Worker, i: nat, a: Action)
    requires Self(cfg, s, job, w, i) && w.pc.Restore? && (w.pc.sub.Stale? || w.pc.sub in {Swapped, Held})
    requires a.Pick? ==> InTrash(cfg, a.t)
    ensures var (names, owner, w') := ActMove(s, i, job, w, a); Self(cfg, State(names, owner, s.workers), job, w', i)
  {
    MoveEnds(cfg, s, job, w, i);
  }

  lemma RestoreMoveRenames(cfg: Config, s: State, job: Job, w: Worker, i: nat, a: Action)
    requires Self(cfg, s, job, w, i) && w.pc.Restore? && (w.pc.sub.Clear? || w.pc.sub.Releasing?)
    requires a.Pick? ==> InTrash(cfg, a.t)
    ensures var (names, owner, w') := ActMove(s, i, job, w, a); Self(cfg, State(names, owner, s.workers), job, w', i)
  {
    MoveEnds(cfg, s, job, w, i);
  }

  lemma RestoreMoveKeepsSelf(cfg: Config, s: State, job: Job, w: Worker, i: nat, a: Action)
    requires Self(cfg, s, job, w, i) && w.pc.Restore?
    requires a.Pick? ==> InTrash(cfg, a.t)
    ensures var (names, owner, w') := ActMove(s, i, job, w, a); Self(cfg, State(names, owner, s.workers), job, w', i)
  {
    hide Self, ActMove;
    match w.pc.sub
    case Idle => RestoreMoveBegins(cfg, s, job, w, i, a);
    case Linked => RestoreMoveLinked(cfg, s, job, w, i, a);
    case Undo => RestoreMoveLinked(cfg, s, job, w, i, a);
    case Stale(_) => RestoreMoveReserves(cfg, s, job, w, i, a);
    case Swapped => RestoreMoveReserves(cfg, s, job, w, i, a);
    case Held => RestoreMoveReserves(cfg, s, job, w, i, a);
    case Clear => RestoreMoveRenames(cfg, s, job, w, i, a);
    case Releasing(_) => RestoreMoveRenames(cfg, s, job, w, i, a);
  }

  /** A crash. */
  lemma CrashKeepsSelf(cfg: Config, s: State, job: Job, w: Worker, i: nat, a: Action)
    requires Self(cfg, s, job, w, i) && a.Crash?
    ensures var (names, owner, w') := Act(s, i, job, w, a); Self(cfg, State(names, owner, s.workers), job, w', i)
  {
    hide ActMove, From, To, WithSub, Moved, Failed;
  }

  /** The calls before the first move. */
  lemma StartKeepsSelf(cfg: Config, s: State, job: Job, w: Worker, i: nat, a: Action)
    requires Self(cfg, s, job, w, i) && !a.Crash? && w.pc.Start?
    ensures var (names, owner, w') := Act(s, i, job, w, a); Self(cfg, State(names, owner, s.workers), job, w', i)
  {
    hide ActMove, From, To, WithSub, Moved, Failed;
  }

  /** The calls that remove a name. */
  lemma DropKeepsSelf(cfg: Config, s: State, job: Job, w: Worker, i: nat, a: Action)
    requires Self(cfg, s, job, w, i) && !a.Crash? && (w.pc.RemoveNew? || w.pc.UndoInstall? || w.pc.AbandonInstall? || w.pc.AbandonTrash?)
    ensures var (names, owner, w') := Act(s, i, job, w, a); Self(cfg, State(names, owner, s.workers), job, w', i)
  {
    hide ActMove, From, To, WithSub, Moved, Failed;
  }

  /** What follows a move, and the end. */
  lemma EndKeepsSelf(cfg: Config, s: State, job: Job, w: Worker, i: nat, a: Action)
    requires Self(cfg, s, job, w, i) && !a.Crash? && (w.pc.Judge? || w.pc.Installed? || w.pc.Done? || w.pc.Crashed?)
    ensures var (names, owner, w') := Act(s, i, job, w, a); Self(cfg, State(names, owner, s.workers), job, w', i)
  {
    hide ActMove, From, To, WithSub, Moved, Failed;
  }

  lemma ActKeepsSelf(cfg: Config, s: State, job: Job, w: Worker, i: nat, a: Action)
    requires Self(cfg, s, job, w, i)
    requires a.Pick? ==> InTrash(cfg, a.t)
    ensures var (names, owner, w') := Act(s, i, job, w, a); Self(cfg, State(names, owner, s.workers), job, w', i)
  {
    hide ActMove, Self, Local, Locked;
    if a.Crash? {
      CrashKeepsSelf(cfg, s, job, w, i, a);
    } else if w.pc.Start? {
      StartKeepsSelf(cfg, s, job, w, i, a);
    } else if w.pc.Judge? || w.pc.Installed? || w.pc.Done? || w.pc.Crashed? {
      EndKeepsSelf(cfg, s, job, w, i, a);
    } else if !Moving(w.pc) {
      DropKeepsSelf(cfg, s, job, w, i, a);
    } else {
      match w.pc
      case ToTrash(_) => TrashMoveKeepsSelf(cfg, s, job, w, i, a);
      case Install(_) => InstallMoveKeepsSelf(cfg, s, job, w, i, a);
      case Restore(_) => RestoreMoveKeepsSelf(cfg, s, job, w, i, a);
    }
  }

  /** A worker's view survives another worker's call, if that call leaves its locked destination alone. */
  lemma OthersKeepSelf(cfg: Config, s: State, s': State, job: Job, w: Worker, i: nat, j: nat, taken: set<Path>)
    requires Self(cfg, s, job, w, i) && i != j && Courteous(s, s', j, taken)
    requires forall p :: p in taken ==> p.Reserve? && (Holding(w) ==> p != Reserve(To(job, w)))
    requires job.staging !in s.names ==> job.staging !in s'.names
    requires Moving(w.pc) && w.pc.sub == Clear && To(job, w) !in s.names ==> To(job, w) !in s'.names
    ensures Self(cfg, s', job, w, i)
  {
  }

  lemma MoveCreates(s: State, job: Job, w: Worker, i: nat, a: Action, p: Path)
    requires Moving(w.pc)
    requires var (names, _, _) := ActMove(s, i, job, w, a); p in names && p !in s.names
    ensures p == job.staging || p.Reserve? || (p == To(job, w) && (a.LinkTo? || (a.RenameTo? && w.pc.sub == Clear)))
  {
    hide From, To, WithSub, Moved, Failed, Fresh, Own;
  }

  /** Where a call can make a name: the worker's staging name, a reservation, or its move's destination. */
  lemma Creates(s: State, job: Job, w: Worker, i: nat, a: Action, p: Path)
    requires var (names, _, _) := Act(s, i, job, w, a); p in names && p !in s.names
    ensures p == job.staging || p.Reserve? ||
            (Moving(w.pc) && p == To(job, w) && (a.LinkTo? || (a.RenameTo? && w.pc.sub == Clear)))
  {
    hide ActMove, From, To, Fresh, Landed;
    if Moving(w.pc) && !a.Crash? { MoveCreates(s, job, w, i, a, p); }
  }

  lemma StepKeepsOther(cfg: Config, caps: Caps, s: State, j: nat, a: Action, i: nat)
    requires Inv(cfg, caps, s) && OneBranch(caps) && i < |cfg.jobs| && j < |cfg.jobs| && i != j
    requires Allowed(caps, a) && Considerate(cfg, s, j, a)
    ensures Good(cfg, caps, Next(cfg, s, j, a), i)
  {
    assert Good(cfg, caps, s, i) && Good(cfg, caps, s, j);
    var s', job, w := Next(cfg, s, j, a), cfg.jobs[i], s.workers[i];
    StepIsCourteous(cfg, caps, s, j, a);
    if job.staging in s'.names && job.staging !in s.names {
      Creates(s, cfg.jobs[j], s.workers[j], j, a, job.staging);
      assert false;
    }
    if Moving(w.pc) && w.pc.sub == Clear && To(job, w) in s'.names {
      MoveEnds(cfg, s, job, w, i);
      Creates(s, cfg.jobs[j], s.workers[j], j, a, To(job, w));
      assert false;
    }
    OthersKeepSelf(cfg, s, s', job, w, i, j, Taken(cfg.jobs[j], s.workers[j], a));
  }

  lemma SelfReadsNamesOnly(cfg: Config, s: State, workers: seq<Worker>, job: Job, w: Worker, i: nat)
    requires Self(cfg, s, job, w, i)
    ensures Self(cfg, s.(workers := workers), job, w, i)
  {
  }

  lemma MoveKeepsNoReservations(s: State, i: nat, job: Job, w: Worker, caps: Caps, a: Action)
    requires Moving(w.pc) && NoReservations(w) && !caps.reserves && Allowed(caps, a)
    ensures NoReservations(ActMove(s, i, job, w, a).2)
  {
    hide From, To, Fresh, Own, Unbind;
  }

  lemma RestTakesNoReservation(s: State, i: nat, job: Job, w: Worker, a: Action)
    requires NoReservations(w) && (a.Crash? || !Moving(w.pc))
    ensures NoReservations(Act(s, i, job, w, a).2)
  {
    hide ActMove, Fresh, Own, Unbind, Landed;
  }

  lemma ActKeepsNoReservations(s: State, i: nat, job: Job, w: Worker, caps: Caps, a: Action)
    requires NoReservations(w) && !caps.reserves && Allowed(caps, a)
    ensures NoReservations(Act(s, i, job, w, a).2)
  {
    hide ActMove, Allowed, From, To, Fresh, Own, Unbind, Landed, NoReservations;
    if a.Crash? || !Moving(w.pc) {
      RestTakesNoReservation(s, i, job, w, a);
    } else {
      MoveKeepsNoReservations(s, i, job, w, caps, a);
    }
  }

  lemma StepKeepsActor(cfg: Config, caps: Caps, s: State, j: nat, a: Action)
    requires Inv(cfg, caps, s) && j < |cfg.jobs| && Allowed(caps, a)
    ensures Good(cfg, caps, Next(cfg, s, j, a), j)
  {
    assert Good(cfg, caps, s, j);
    if !(a.Pick? && !InTrash(cfg, a.t)) {
      var job, w := cfg.jobs[j], s.workers[j];
      var (names, owner, w') := Act(s, j, job, w, a);
      ActKeepsSelf(cfg, s, job, w, j, a);
      SelfReadsNamesOnly(cfg, State(names, owner, s.workers), s.workers[j := w'], job, w', j);
      if !caps.reserves { ActKeepsNoReservations(s, j, job, w, caps, a); }
    }
  }

  /** Every call of every worker keeps the invariant, while moves take one branch and nobody's reservation is displaced. */
  lemma StepKeepsInv(cfg: Config, caps: Caps, s: State, j: nat, a: Action)
    requires Inv(cfg, caps, s) && OneBranch(caps) && j < |cfg.jobs|
    requires Allowed(caps, a) && Considerate(cfg, s, j, a)
    ensures Inv(cfg, caps, Next(cfg, s, j, a))
  {
    var s' := Next(cfg, s, j, a);
    StepIsCourteous(cfg, caps, s, j, a);
    forall i | 0 <= i < |cfg.jobs| ensures Good(cfg, caps, s', i) {
      if i == j { StepKeepsActor(cfg, caps, s, j, a); } else { StepKeepsOther(cfg, caps, s, j, a, i); }
    }
  }

  /** A schedule of calls the filesystem allows. */
  ghost predicate Schedule(cfg: Config, caps: Caps, schedule: seq<(nat, Action)>) {
    forall k :: 0 <= k < |schedule| ==> schedule[k].0 < |cfg.jobs| && Allowed(caps, schedule[k].1)
  }

  /** No call of the schedule displaces a reservation that is held when it comes. */
  ghost predicate Undisplaced(cfg: Config, s: State, schedule: seq<(nat, Action)>)
    requires Runs(cfg, s) && forall k :: 0 <= k < |schedule| ==> schedule[k].0 < |cfg.jobs|
    decreases |schedule|
  {
    schedule != [] ==>
      && Considerate(cfg, s, schedule[0].0, schedule[0].1)
      && Undisplaced(cfg, Next(cfg, s, schedule[0].0, schedule[0].1), schedule[1..])
  }

  lemma {:induction false} RunKeepsInv(cfg: Config, caps: Caps, s: State, schedule: seq<(nat, Action)>)
    requires Inv(cfg, caps, s) && OneBranch(caps) && Schedule(cfg, caps, schedule) && Undisplaced(cfg, s, schedule)
    ensures Inv(cfg, caps, Exec(cfg, s, schedule))
    decreases |schedule|
  {
    if schedule != [] {
      StepKeepsInv(cfg, caps, s, schedule[0].0, schedule[0].1);
      RunKeepsInv(cfg, caps, Next(cfg, s, schedule[0].0, schedule[0].1), schedule[1..]);
    }
  }

  lemma InitIsInv(cfg: Config, caps: Caps, s: State)
    requires Init(cfg, s)
    ensures Inv(cfg, caps, s)
  {
  }

  // ---- The theorems -----------------------------------------------------------

  predicate Reachable(cfg: Config, s: State, i: nat)
    requires i < |cfg.jobs|
  {
    exists p :: p in s.names && s.names[p] == cfg.jobs[i].originalIno && (p == cfg.jobs[i].original || InTrash(cfg, p))
  }

  lemma OriginalIsReachable(cfg: Config, caps: Caps, s: State, i: nat)
    requires Inv(cfg, caps, s) && i < |cfg.jobs|
    ensures Reachable(cfg, s, i)
  {
    assert Good(cfg, caps, s, i);
    assert Bound(s, cfg.jobs[i].original, cfg.jobs[i].originalIno) || Bound(s, s.workers[i].trash, cfg.jobs[i].originalIno);
  }

  lemma WinnersDiffer(cfg: Config, caps: Caps, s: State, i: nat, j: nat)
    requires Inv(cfg, caps, s) && i < j < |cfg.jobs| && cfg.jobs[i].finalPath == cfg.jobs[j].finalPath
    ensures !(s.workers[i].pc == Done(1) && s.workers[j].pc == Done(1))
  {
    assert Good(cfg, caps, s, i) && Good(cfg, caps, s, j);
  }

  /** In every interleaving, stopped anywhere, each original is under its own path or in trash. */
  lemma {:induction false} EveryOriginalIsReachable(cfg: Config, caps: Caps, s: State, schedule: seq<(nat, Action)>, i: nat)
    requires Init(cfg, s) && OneBranch(caps) && Schedule(cfg, caps, schedule) && Undisplaced(cfg, s, schedule)
    requires i < |cfg.jobs|
    ensures Reachable(cfg, Exec(cfg, s, schedule), i)
  {
    InitIsInv(cfg, caps, s);
    RunKeepsInv(cfg, caps, s, schedule);
    hide Inv, Init, Reachable;
    OriginalIsReachable(cfg, caps, Exec(cfg, s, schedule), i);
  }

  /** Of the workers that share a destination, at most one ends on output 1. */
  lemma {:induction false} OneWinnerPerDestination(cfg: Config, caps: Caps, s: State, schedule: seq<(nat, Action)>, i: nat, j: nat)
    requires Init(cfg, s) && OneBranch(caps) && Schedule(cfg, caps, schedule) && Undisplaced(cfg, s, schedule)
    requires i < j < |cfg.jobs| && cfg.jobs[i].finalPath == cfg.jobs[j].finalPath
    ensures var end := Exec(cfg, s, schedule);
      !(end.workers[i].pc == Done(1) && end.workers[j].pc == Done(1))
  {
    InitIsInv(cfg, caps, s);
    RunKeepsInv(cfg, caps, s, schedule);
    hide Inv, Init;
    WinnersDiffer(cfg, caps, Exec(cfg, s, schedule), i, j);
  }

  /**
    A name bound to another worker's file is never removed and never rebound, whoever runs. (A
    reservation is, where reservations are reclaimed: its holder may have crashed.)
   */
  lemma {:induction false} NothingIsOverwritten(
      cfg: Config, caps: Caps, s: State, schedule: seq<(nat, Action)>, p: Path, owner: nat)
    requires Inv(cfg, caps, s) && OneBranch(caps) && Schedule(cfg, caps, schedule) && Undisplaced(cfg, s, schedule)
    requires Own(s, owner, p) && (p.Reserve? ==> !caps.reclaims)
    requires forall k :: 0 <= k < |schedule| ==> schedule[k].0 != owner
    ensures var end := Exec(cfg, s, schedule); p in end.names && end.names[p] == s.names[p]
    decreases |schedule|
  {
    if schedule != [] {
      var (j, a) := schedule[0];
      assert Allowed(caps, a);
      StepIsCourteous(cfg, caps, s, j, a);
      StepKeepsInv(cfg, caps, s, j, a);
      NothingIsOverwritten(cfg, caps, Next(cfg, s, j, a), schedule[1..], p, owner);
    }
  }

  /** A file installed by a worker that ended on output 1 stays installed, whatever runs afterwards. */
  lemma {:induction false} InstalledStays(cfg: Config, caps: Caps, s: State, schedule: seq<(nat, Action)>, i: nat)
    requires Inv(cfg, caps, s) && OneBranch(caps) && Schedule(cfg, caps, schedule) && Undisplaced(cfg, s, schedule)
    requires i < |cfg.jobs| && s.workers[i].pc == Done(1)
    ensures var end := Exec(cfg, s, schedule);
      && end.workers[i].pc == Done(1)
      && cfg.jobs[i].finalPath in s.names && Bound(end, cfg.jobs[i].finalPath, s.names[cfg.jobs[i].finalPath])
    decreases |schedule|
  {
    assert Good(cfg, caps, s, i);
    if schedule != [] {
      var (j, a) := schedule[0];
      StepIsCourteous(cfg, caps, s, j, a);
      StepKeepsInv(cfg, caps, s, j, a);
      InstalledStays(cfg, caps, Next(cfg, s, j, a), schedule[1..], i);
    }
  }

  // ---- Exactly which filesystems are safe -------------------------------------

  /** What the winners had installed by one moment is installed at a later one. */
  ghost predicate InstalledKept(cfg: Config, mid: State, end: State)
    requires Runs(cfg, mid) && Runs(cfg, end)
  {
    forall i: nat :: i < |cfg.jobs| && mid.workers[i].pc == Done(1) ==>
      cfg.jobs[i].finalPath in mid.names && Bound(end, cfg.jobs[i].finalPath, mid.names[cfg.jobs[i].finalPath])
  }

  /** Of the workers that share a destination, at most one has won. */
  ghost predicate OneWinner(cfg: Config, s: State)
    requires Runs(cfg, s)
  {
    forall i: nat, j: nat :: i < j < |cfg.jobs| && cfg.jobs[i].finalPath == cfg.jobs[j].finalPath ==>
      !(s.workers[i].pc == Done(1) && s.workers[j].pc == Done(1))
  }

  /** What is promised: no original is lost, no destination has two winners, and what was installed stays. */
  ghost predicate Safe(cfg: Config, mid: State, end: State)
    requires Runs(cfg, mid) && Runs(cfg, end)
  {
    (forall i: nat :: i < |cfg.jobs| ==> Reachable(cfg, end, i)) && OneWinner(cfg, end) && InstalledKept(cfg, mid, end)
  }

  /** At every moment of every run, and from it to every later moment. */
  ghost predicate AlwaysSafe(caps: Caps) {
    forall cfg, s, first, rest :: Init(cfg, s) && Schedule(cfg, caps, first) && Schedule(cfg, caps, rest) ==>
      Safe(cfg, Exec(cfg, s, first), Exec(cfg, Exec(cfg, s, first), rest))
  }

  /** Where nothing is reclaimed nothing is displaced. */
  lemma {:induction false} NothingReclaimed(cfg: Config, caps: Caps, s: State, schedule: seq<(nat, Action)>)
    requires Runs(cfg, s) && Schedule(cfg, caps, schedule) && !(caps.reserves && caps.reclaims)
    ensures Undisplaced(cfg, s, schedule)
    decreases |schedule|
  {
    if schedule != [] {
      assert Allowed(caps, schedule[0].1);
      NothingReclaimed(cfg, caps, Next(cfg, s, schedule[0].0, schedule[0].1), schedule[1..]);
    }
  }

  lemma {:induction false} ScheduleIsSafe(cfg: Config, caps: Caps, s: State, first: seq<(nat, Action)>, rest: seq<(nat, Action)>)
    requires Init(cfg, s) && OneBranch(caps) && Schedule(cfg, caps, first) && Schedule(cfg, caps, rest)
    requires Undisplaced(cfg, s, first) && Undisplaced(cfg, Exec(cfg, s, first), rest)
    ensures Safe(cfg, Exec(cfg, s, first), Exec(cfg, Exec(cfg, s, first), rest))
  {
    var mid := Exec(cfg, s, first);
    var end := Exec(cfg, mid, rest);
    InitIsInv(cfg, caps, s);
    RunKeepsInv(cfg, caps, s, first);
    RunKeepsInv(cfg, caps, mid, rest);
    hide Init, Inv, Good, Exec, Reachable;
    forall i: nat | i < |cfg.jobs| ensures Reachable(cfg, end, i) { OriginalIsReachable(cfg, caps, end, i); }
    forall i: nat, j: nat | i < j < |cfg.jobs| && cfg.jobs[i].finalPath == cfg.jobs[j].finalPath
      ensures !(end.workers[i].pc == Done(1) && end.workers[j].pc == Done(1))
    {
      WinnersDiffer(cfg, caps, end, i, j);
    }
    forall i: nat | i < |cfg.jobs| && mid.workers[i].pc == Done(1)
      ensures cfg.jobs[i].finalPath in mid.names && Bound(end, cfg.jobs[i].finalPath, mid.names[cfg.jobs[i].finalPath])
    {
      InstalledStays(cfg, caps, mid, rest, i);
    }
  }

  lemma {:induction false} BothWonIsUnsafe(end: State)
    requires BothWonOneLost(end)
    ensures Exec(Rivals(), end, []) == end && !Safe(Rivals(), end, end)
  {
    RivalsApart();
    hide Rivals, Target, TrashOf, Reachable, InstalledKept;
  }

  lemma MoreIsAllowed(cfg: Config, less: Caps, more: Caps, schedule: seq<(nat, Action)>)
    requires Schedule(cfg, less, schedule)
    requires (less.links ==> more.links) && (less.reserves ==> more.reserves) && (less.reclaims ==> more.reclaims)
    ensures Schedule(cfg, more, schedule)
  {
  }

  /**
    Any number of workers, on any files, in every interleaving, keep all three promises exactly on a filesystem where
    no move falls back on a reservation, or every move does and no reservation is ever judged stale.
   */
  lemma {:induction false} SafeExactlyWhen(caps: Caps)
    ensures AlwaysSafe(caps) <==> !caps.reserves || (!caps.links && !caps.reclaims)
  {
    if !caps.reserves || (!caps.links && !caps.reclaims) {
      forall cfg, s, first, rest | Init(cfg, s) && Schedule(cfg, caps, first) && Schedule(cfg, caps, rest)
        ensures Safe(cfg, Exec(cfg, s, first), Exec(cfg, Exec(cfg, s, first), rest))
      {
        NothingReclaimed(cfg, caps, s, first);
        NothingReclaimed(cfg, caps, Exec(cfg, s, first), rest);
        ScheduleIsSafe(cfg, caps, s, first, rest);
      }
    } else {
      var lock := if caps.links then map[] else AbandonedLock();
      var schedule: seq<(nat, Action)>;
      if caps.links {
        schedule := MixedBranchesOverwrite();
        MoreIsAllowed(Rivals(), Caps(true, true, false), caps, schedule);
      } else {
        schedule := ReclaimedTwiceOverwrites();
        MoreIsAllowed(Rivals(), Caps(false, true, true), caps, schedule);
      }
      var end := Exec(Rivals(), RivalsInit(lock), schedule);
      BothWonIsUnsafe(end);
      assert Schedule(Rivals(), caps, []);
      assert !Safe(Rivals(), end, Exec(Rivals(), end, []));
    }
  }

  // ---- Single calls of a move -------------------------------------------------

  /** Where a call of a move takes the state. */
  lemma MoveStep(cfg: Config, s: State, i: nat, a: Action)
    requires Runs(cfg, s) && i < |cfg.jobs| && Moving(s.workers[i].pc) && !a.Crash? && !a.Pick?
    ensures var (names, owner, w) := ActMove(s, i, cfg.jobs[i], s.workers[i], a);
      Next(cfg, s, i, a) == State(names, owner, s.workers[i := w])
  {
    hide ActMove;
  }

  lemma OpenStep(cfg: Config, s: State, i: nat, ino: Ino)
    requires Runs(cfg, s) && i < |cfg.jobs| && Moving(s.workers[i].pc) && s.workers[i].pc.sub in {Idle, Swapped}
    requires Fresh(s, ino) && Reserve(To(cfg.jobs[i], s.workers[i])) !in s.names
    ensures Next(cfg, s, i, OpenReserve(ino)) ==
      State(s.names[Reserve(To(cfg.jobs[i], s.workers[i])) := ino], s.owner[ino := i],
            s.workers[i := WithSub(s.workers[i], Held)])
  {
    MoveStep(cfg, s, i, OpenReserve(ino));
    hide Next, Act, To, From, WithSub, Fresh;
  }

  lemma CheckStep(cfg: Config, s: State, i: nat)
    requires Runs(cfg, s) && i < |cfg.jobs| && Moving(s.workers[i].pc) && s.workers[i].pc.sub == Held
    requires To(cfg.jobs[i], s.workers[i]) !in s.names
    ensures Next(cfg, s, i, Check) == s.(workers := s.workers[i := WithSub(s.workers[i], Clear)])
  {
    MoveStep(cfg, s, i, Check);
    hide Next, Act, To, From, WithSub;
  }

  lemma RenameStep(cfg: Config, s: State, i: nat)
    requires Runs(cfg, s) && i < |cfg.jobs| && Moving(s.workers[i].pc) && s.workers[i].pc.sub == Clear
    requires From(cfg.jobs[i], s.workers[i]) in s.names
    ensures var from, to := From(cfg.jobs[i], s.workers[i]), To(cfg.jobs[i], s.workers[i]);
      Next(cfg, s, i, RenameTo) ==
        State((s.names - {from})[to := s.names[from]], s.owner, s.workers[i := WithSub(s.workers[i], Releasing(true))])
  {
    MoveStep(cfg, s, i, RenameTo);
    hide Next, Act, To, From, WithSub;
  }

  lemma ReleaseStep(cfg: Config, s: State, i: nat)
    requires Runs(cfg, s) && i < |cfg.jobs| && Moving(s.workers[i].pc) && s.workers[i].pc.sub == Releasing(true)
    ensures var lock := Reserve(To(cfg.jobs[i], s.workers[i]));
      Next(cfg, s, i, Release(true)) ==
        State(Unbind(s.names, lock, Own(s, i, lock)), s.owner, s.workers[i := Moved(cfg.jobs[i], s.workers[i])])
  {
    MoveStep(cfg, s, i, Release(true));
    hide Next, Act, To, From, WithSub, Moved, Own, Unbind;
  }

  lemma LinkStep(cfg: Config, s: State, i: nat)
    requires Runs(cfg, s) && i < |cfg.jobs| && Moving(s.workers[i].pc) && s.workers[i].pc.sub == Idle
    requires From(cfg.jobs[i], s.workers[i]) in s.names && To(cfg.jobs[i], s.workers[i]) !in s.names
    ensures Next(cfg, s, i, LinkTo) ==
      State(s.names[To(cfg.jobs[i], s.workers[i]) := s.names[From(cfg.jobs[i], s.workers[i])]], s.owner,
            s.workers[i := WithSub(s.workers[i], Linked)])
  {
    MoveStep(cfg, s, i, LinkTo);
    hide Next, Act, To, From, WithSub;
  }

  lemma DropStep(cfg: Config, s: State, i: nat)
    requires Runs(cfg, s) && i < |cfg.jobs| && Moving(s.workers[i].pc) && s.workers[i].pc.sub == Linked
    ensures Next(cfg, s, i, DropFrom(true)) ==
      State(s.names - {From(cfg.jobs[i], s.workers[i])}, s.owner, s.workers[i := Moved(cfg.jobs[i], s.workers[i])])
  {
    MoveStep(cfg, s, i, DropFrom(true));
    hide Next, Act, To, From, WithSub, Moved;
  }

  lemma JudgeStep(cfg: Config, s: State, i: nat)
    requires Runs(cfg, s) && i < |cfg.jobs| && Moving(s.workers[i].pc) && s.workers[i].pc.sub == Idle
    requires Reserve(To(cfg.jobs[i], s.workers[i])) in s.names
    ensures Next(cfg, s, i, JudgeStale) ==
      s.(workers := s.workers[i := WithSub(s.workers[i], Stale(s.names[Reserve(To(cfg.jobs[i], s.workers[i]))]))])
  {
    MoveStep(cfg, s, i, JudgeStale);
    hide Next, Act, To, From, WithSub;
  }

  lemma DisplaceStep(cfg: Config, s: State, i: nat)
    requires Runs(cfg, s) && i < |cfg.jobs| && Moving(s.workers[i].pc) && s.workers[i].pc.sub.Stale?
    requires Reserve(To(cfg.jobs[i], s.workers[i])) in s.names
    ensures Next(cfg, s, i, Displace) ==
      State(s.names - {Reserve(To(cfg.jobs[i], s.workers[i]))}, s.owner, s.workers[i := WithSub(s.workers[i], Swapped)])
  {
    MoveStep(cfg, s, i, Displace);
    hide Next, Act, To, From, WithSub, Failed;
  }

  lemma FinishStep(cfg: Config, s: State, i: nat)
    requires Runs(cfg, s) && i < |cfg.jobs| && s.workers[i].pc == Installed
    ensures Next(cfg, s, i, Finish(true)) == s.(workers := s.workers[i := s.workers[i].(pc := Done(1))])
  {
    hide ActMove;
  }

  // ---- Two rivals -------------------------------------------------------------

  lemma {:induction false} ExecConcat(cfg: Config, s: State, first: seq<(nat, Action)>, second: seq<(nat, Action)>)
    requires Runs(cfg, s)
    requires forall k :: 0 <= k < |first| ==> first[k].0 < |cfg.jobs|
    requires forall k :: 0 <= k < |second| ==> second[k].0 < |cfg.jobs|
    ensures Exec(cfg, s, first + second) == Exec(cfg, Exec(cfg, s, first), second)
    decreases |first|
  {
    if first == [] {
      assert first + second == second;
    } else {
      assert (first + second)[1..] == first[1..] + second;
      ExecConcat(cfg, Next(cfg, s, first[0].0, first[0].1), first[1..], second);
    }
  }

  lemma {:induction false} ExecTwo(cfg: Config, s: State, x: (nat, Action), y: (nat, Action))
    requires Runs(cfg, s) && x.0 < |cfg.jobs| && y.0 < |cfg.jobs|
    ensures Exec(cfg, s, [x, y]) == Next(cfg, Next(cfg, s, x.0, x.1), y.0, y.1)
  {
    assert [x, y][1..] == [y] && [y][1..] == [];
    var s1 := Next(cfg, s, x.0, x.1);
    assert Exec(cfg, s1, [y]) == Exec(cfg, Next(cfg, s1, y.0, y.1), []);
  }

  lemma {:induction false} ExecThree(cfg: Config, s: State, x: (nat, Action), y: (nat, Action), z: (nat, Action))
    requires Runs(cfg, s) && x.0 < |cfg.jobs| && y.0 < |cfg.jobs| && z.0 < |cfg.jobs|
    ensures Exec(cfg, s, [x, y, z]) == Next(cfg, Next(cfg, Next(cfg, s, x.0, x.1), y.0, y.1), z.0, z.1)
  {
    assert [x, y, z][1..] == [y, z];
    ExecTwo(cfg, Next(cfg, s, x.0, x.1), y, z);
  }

  /** Two files of one name and different containers, both becoming `m.mp4`. */
  function Rivals(): (cfg: Config)
    ensures |cfg.jobs| == 2
  {
    Config([Job(Media("a", "m", "mkv"), 1, Media("s", "x", "mp4"), 2, Staging("a", 0, "mp4"), Media("a", "m", "mp4")),
            Job(Media("a", "m", "avi"), 3, Media("s", "y", "mp4"), 4, Staging("a", 1, "mp4"), Media("a", "m", "mp4"))],
           "trash")
  }

  function Target(): Path {
    Media("a", "m", "mp4")
  }

  function TrashOf(i: nat): Path {
    Media("trash", "m.0", if i == 0 then "mkv" else "avi")
  }

  function RivalsInit(lock: map<Path, Ino>): (s: State)
    ensures Runs(Rivals(), s)
  {
    var a, b := Rivals().jobs[0], Rivals().jobs[1];
    State(map[a.original := 1, a.newPath := 2, b.original := 3, b.newPath := 4] + lock,
          map[1 := 0, 2 := 0, 3 := 1, 4 := 1],
          [Worker(Start, TrashOf(0), a.newPath, false), Worker(Start, TrashOf(1), b.newPath, false)])
  }

  /** What a run that did not finish has left at the destination. */
  function AbandonedLock(): map<Path, Ino> {
    map[Reserve(Target()) := 20]
  }

  /** The names the rivals use are different names. */
  predicate Apart(cfg: Config, i: nat, j: nat)
    requires i < |cfg.jobs| && j < |cfg.jobs|
  {
    var a, b := cfg.jobs[i], cfg.jobs[j];
    && a.finalPath == Target() && Target().Media? && TrashOf(i).Media? && a.newPath.Media? && a.original.Media? && a.staging.Staging?
    && a.originalIno == 2 * i + 1 && a.newIno == 2 * i + 2
    && a.original != b.newPath && Target() !in {a.newPath, a.original}
    && TrashOf(i) !in {Target(), b.original, b.newPath}
    && (i != j ==> TrashOf(i) != TrashOf(j) && a.newPath != b.newPath && a.original != b.original && a.staging != b.staging)
  }

  lemma RivalsApart()
    ensures var cfg := Rivals(); Apart(cfg, 0, 0) && Apart(cfg, 0, 1) && Apart(cfg, 1, 0) && Apart(cfg, 1, 1)
  {
    assert "a"[0] != "s"[0] && "a"[0] != "trash"[0] && "s"[0] != "trash"[0];
    assert "x"[0] != "y"[0] && "mkv"[0] != "avi"[0] && "mkv"[1] != "mp4"[1] && "avi"[0] != "mp4"[0];
  }

  lemma RivalsDistinct()
    ensures DistinctJobs(Rivals())
  {
    RivalsApart();
    hide Rivals, Target, TrashOf;
  }

  lemma RivalsBegin(lock: map<Path, Ino>)
    requires forall p :: p in lock ==> p == Reserve(Target())
    ensures Init(Rivals(), RivalsInit(lock))
  {
    RivalsApart();
    RivalsDistinct();
    assert InTrash(Rivals(), TrashOf(0)) && InTrash(Rivals(), TrashOf(1));
    hide Rivals, Target, TrashOf, InTrash, DistinctJobs;
  }

  /** Worker `i` has yet to begin, and nothing of its trash name is taken. */
  predicate Waiting(s: State, i: nat, ino: Ino) {
    && i < 2 && Runs(Rivals(), s) && Fresh(s, ino)
    && s.workers[i] == Worker(Start, TrashOf(i), Rivals().jobs[i].newPath, false)
    && Bound(s, Rivals().jobs[i].original, Rivals().jobs[i].originalIno)
    && TrashOf(i) !in s.names && Reserve(TrashOf(i)) !in s.names
  }

  function Reserving(i: nat, ino: Ino): seq<(nat, Action)> {
    [(i, StageNone), (i, Pick(TrashOf(i))), (i, OpenReserve(ino))]
  }

  function Renaming(i: nat): seq<(nat, Action)> {
    [(i, Check), (i, RenameTo), (i, Release(true))]
  }

  /** `i` moves its original to trash under a reservation. */
  function TrashIt(i: nat, ino: Ino): seq<(nat, Action)> {
    Reserving(i, ino) + Renaming(i)
  }

  function AfterTrash(s: State, i: nat, ino: Ino): (s': State)
    requires i < 2 && Runs(Rivals(), s)
    ensures Runs(Rivals(), s')
  {
    State((s.names - {Rivals().jobs[i].original})[TrashOf(i) := Rivals().jobs[i].originalIno], s.owner[ino := i],
          s.workers[i := s.workers[i].(pc := Install(Idle))])
  }

  /** A worker that installs under its own name stages nothing, and begins with its trash name. */
  lemma FirstTwo(s: State, i: nat, ino: Ino)
    requires Waiting(s, i, ino)
    ensures Next(Rivals(), Next(Rivals(), s, i, StageNone), i, Pick(TrashOf(i))) ==
      State(s.names, s.owner, s.workers[i := s.workers[i].(pc := ToTrash(Idle))])
  {
    RivalsApart();
    assert InTrash(Rivals(), TrashOf(i));
    hide Rivals, Target, TrashOf, Fresh, Landed;
    var s1 := Next(Rivals(), s, i, StageNone);
    assert s1 == State(s.names, s.owner, s.workers[i := s.workers[i].(pc := ToTrash(Idle))]);
  }

  lemma {:induction false} TrashReserved(s: State, i: nat, ino: Ino)
    requires Waiting(s, i, ino)
    ensures Exec(Rivals(), s, Reserving(i, ino)) ==
      State(s.names[Reserve(TrashOf(i)) := ino], s.owner[ino := i], s.workers[i := s.workers[i].(pc := ToTrash(Held))])
  {
    var cfg, t := Rivals(), TrashOf(i);
    RivalsApart();
    FirstTwo(s, i, ino);
    hide Rivals, Target, TrashOf, Next, Act, ActMove;
    ExecThree(cfg, s, (i, StageNone), (i, Pick(t)), (i, OpenReserve(ino)));
    var s2 := State(s.names, s.owner, s.workers[i := s.workers[i].(pc := ToTrash(Idle))]);
    assert Fresh(s2, ino);
    OpenStep(cfg, s2, i, ino);
  }

  lemma {:induction false} Trashed(s: State, i: nat, ino: Ino)
    requires Waiting(s, i, ino)
    ensures Exec(Rivals(), s, TrashIt(i, ino)) == AfterTrash(s, i, ino)
  {
    hide Exec, Next, Act, ActMove;
    var cfg, t, o := Rivals(), TrashOf(i), Rivals().jobs[i].original;
    RivalsApart();
    hide Rivals, Target, TrashOf;
    TrashReserved(s, i, ino);
    var s3 := Exec(cfg, s, Reserving(i, ino));
    TrashRenamed(s3, i, ino);
    ExecConcat(cfg, s, Reserving(i, ino), Renaming(i));
    assert (s3.names - {o})[t := cfg.jobs[i].originalIno] - {Reserve(t)} == (s.names - {o})[t := cfg.jobs[i].originalIno];
    assert s3.workers[i := s3.workers[i].(pc := Install(Idle))] == s.workers[i := s.workers[i].(pc := Install(Idle))];
  }

  lemma {:induction false} TrashRenamed(s: State, i: nat, ino: Ino)
    requires i < 2 && Runs(Rivals(), s) && s.workers[i].pc == ToTrash(Held) && s.workers[i].trash == TrashOf(i)
    requires Bound(s, Rivals().jobs[i].original, Rivals().jobs[i].originalIno) && TrashOf(i) !in s.names
    requires Bound(s, Reserve(TrashOf(i)), ino) && ino in s.owner && s.owner[ino] == i
    ensures Exec(Rivals(), s, Renaming(i)) ==
      State((s.names - {Rivals().jobs[i].original})[TrashOf(i) := Rivals().jobs[i].originalIno] - {Reserve(TrashOf(i))}, s.owner,
            s.workers[i := s.workers[i].(pc := Install(Idle))])
  {
    var cfg := Rivals();
    RivalsApart();
    hide Rivals, Target, TrashOf, Next, Act, ActMove;
    ExecThree(cfg, s, (i, Check), (i, RenameTo), (i, Release(true)));
    CheckStep(cfg, s, i);
    var s1 := State(s.names, s.owner, s.workers[i := s.workers[i].(pc := ToTrash(Clear))]);
    RenameStep(cfg, s1, i);
    var s2 := State((s.names - {cfg.jobs[i].original})[TrashOf(i) := cfg.jobs[i].originalIno], s.owner,
                    s.workers[i := s.workers[i].(pc := ToTrash(Releasing(true)))]);
    assert Next(cfg, s, i, Check) == s1 && Next(cfg, s1, i, RenameTo) == s2;
    assert Own(s2, i, Reserve(TrashOf(i)));
    ReleaseStep(cfg, s2, i);
  }

  function Prelude(): seq<(nat, Action)> {
    TrashIt(0, 10) + TrashIt(1, 11)
  }

  /** Both originals are in trash, and neither rival has looked at the destination, which is free. */
  predicate BothOut(s: State) {
    var cfg := Rivals();
    && Runs(cfg, s) && Target() !in s.names && Fresh(s, 12) && Fresh(s, 13)
    && (forall i :: 0 <= i < 2 ==>
          && s.workers[i].pc == Install(Idle) && s.workers[i].src == cfg.jobs[i].newPath
          && Bound(s, cfg.jobs[i].newPath, cfg.jobs[i].newIno))
    && (forall p :: p in s.names && s.names[p] == 2 ==> p == cfg.jobs[0].newPath)
  }

  lemma FirstWaits(lock: map<Path, Ino>)
    requires lock == map[] || lock == AbandonedLock()
    ensures Waiting(RivalsInit(lock), 0, 10)
  {
    RivalsApart();
    hide Rivals, Target, TrashOf;
  }

  lemma SecondWaits(lock: map<Path, Ino>)
    requires lock == map[] || lock == AbandonedLock()
    ensures Waiting(AfterTrash(RivalsInit(lock), 0, 10), 1, 11)
  {
    RivalsApart();
    hide Rivals, Target, TrashOf;
  }

  /** These are all the reservations there are. */
  ghost predicate ReservedAs(s: State, lock: map<Path, Ino>) {
    forall p: Path :: p.Reserve? ==> (p in s.names <==> p in lock) && (p in lock ==> s.names[p] == lock[p])
  }

  /** Four media names and perhaps a reservation, one of the four exchanged for another. */
  lemma Exchanged(names: map<Path, Ino>, o: Path, t: Path, n: Path, o': Path, n': Path, lock: map<Path, Ino>)
    requires {o, t, n, o', n'} !! lock.Keys
    requires o !in {t, n, o', n'} && t !in {n, o', n'} && n !in {o', n'} && o' != n'
    requires names == map[o := 1, n := 2, o' := 3, n' := 4] + lock
    ensures (names - {o})[t := 1] == map[t := 1, n := 2, o' := 3, n' := 4] + lock
    ensures (names - {o'})[t := 3] == map[o := 1, n := 2, t := 3, n' := 4] + lock
  {
  }

  lemma TrashedNames(lock: map<Path, Ino>)
    requires lock == map[] || lock == AbandonedLock()
    ensures AfterTrash(AfterTrash(RivalsInit(lock), 0, 10), 1, 11).names ==
      map[TrashOf(0) := 1, Rivals().jobs[0].newPath := 2, TrashOf(1) := 3, Rivals().jobs[1].newPath := 4] + lock
  {
    RivalsApart();
    var a, b := Rivals().jobs[0], Rivals().jobs[1];
    hide Rivals, Target, TrashOf;
    Exchanged(RivalsInit(lock).names, a.original, TrashOf(0), a.newPath, b.original, b.newPath, lock);
    Exchanged(AfterTrash(RivalsInit(lock), 0, 10).names, TrashOf(0), TrashOf(1), a.newPath, b.original, b.newPath, lock);
  }

  lemma FinalNames(names: map<Path, Ino>, t: Path, n: Path, t': Path, n': Path, lock: map<Path, Ino>)
    requires {t, n, t', n'} !! lock.Keys && t !in {n, t', n'} && n !in {t', n'} && t' != n'
    requires names == map[t := 1, n := 2, t' := 3, n' := 4] + lock
    requires forall p :: p in lock ==> lock[p] == 20
    ensures names.Keys == {t, n, t', n'} + lock.Keys
    ensures names[n] == 2 && names[n'] == 4 && forall p :: p in lock ==> names[p] == lock[p]
    ensures forall p :: p in names ==> names[p] in {1, 2, 3, 4, 20} && (names[p] == 2 ==> p == n)
  {
  }

  lemma TrashedWorkers(lock: map<Path, Ino>)
    ensures var s := AfterTrash(AfterTrash(RivalsInit(lock), 0, 10), 1, 11);
      && s.owner == map[1 := 0, 2 := 0, 3 := 1, 4 := 1, 10 := 0, 11 := 1]
      && s.workers == [Worker(Install(Idle), TrashOf(0), Rivals().jobs[0].newPath, false),
                       Worker(Install(Idle), TrashOf(1), Rivals().jobs[1].newPath, false)]
  {
    hide Rivals, Target, TrashOf;
  }

  lemma OutThen(s: State, lock: map<Path, Ino>)
    requires Runs(Rivals(), s) && (forall p :: p in lock ==> p == Reserve(Target()) && lock[p] == 20)
    requires s.names ==
      map[TrashOf(0) := 1, Rivals().jobs[0].newPath := 2, TrashOf(1) := 3, Rivals().jobs[1].newPath := 4] + lock
    requires s.owner == map[1 := 0, 2 := 0, 3 := 1, 4 := 1, 10 := 0, 11 := 1]
    requires s.workers[0] == Worker(Install(Idle), TrashOf(0), Rivals().jobs[0].newPath, false)
    requires s.workers[1] == Worker(Install(Idle), TrashOf(1), Rivals().jobs[1].newPath, false)
    ensures BothOut(s) && ReservedAs(s, lock)
  {
    OutNames(s, lock);
    OutFresh(s);
    RivalsNumbers();
    hide Fresh, ReservedAs, Rivals, Target;
  }

  lemma RivalsNumbers()
    ensures Rivals().jobs[0].newIno == 2 && Rivals().jobs[1].newIno == 4
  {
  }

  lemma OutNames(s: State, lock: map<Path, Ino>)
    requires forall p :: p in lock ==> p == Reserve(Target()) && lock[p] == 20
    requires s.names ==
      map[TrashOf(0) := 1, Rivals().jobs[0].newPath := 2, TrashOf(1) := 3, Rivals().jobs[1].newPath := 4] + lock
    ensures Target() !in s.names && ReservedAs(s, lock)
    ensures Bound(s, Rivals().jobs[0].newPath, 2) && Bound(s, Rivals().jobs[1].newPath, 4)
    ensures forall p :: p in s.names ==> s.names[p] in {1, 2, 3, 4, 20} && (s.names[p] == 2 ==> p == Rivals().jobs[0].newPath)
  {
    RivalsApart();
    var a, b := Rivals().jobs[0], Rivals().jobs[1];
    hide Rivals, Target, TrashOf, ReservedAs;
    FinalNames(s.names, TrashOf(0), a.newPath, TrashOf(1), b.newPath, lock);
    OnlyReserved(s, {TrashOf(0), a.newPath, TrashOf(1), b.newPath}, lock);
  }

  lemma OutFresh(s: State)
    requires forall p :: p in s.names ==> s.names[p] in {1, 2, 3, 4, 20}
    requires s.owner == map[1 := 0, 2 := 0, 3 := 1, 4 := 1, 10 := 0, 11 := 1]
    ensures Fresh(s, 12) && Fresh(s, 13)
  {
  }

  lemma OnlyReserved(s: State, media: set<Path>, lock: map<Path, Ino>)
    requires s.names.Keys == media + lock.Keys && (forall p :: p in media ==> p.Media?)
    requires forall p :: p in lock ==> s.names[p] == lock[p]
    ensures ReservedAs(s, lock)
  {
  }

  lemma BothAreOut(lock: map<Path, Ino>)
    requires lock == map[] || lock == AbandonedLock()
    ensures var s := AfterTrash(AfterTrash(RivalsInit(lock), 0, 10), 1, 11); BothOut(s) && ReservedAs(s, lock)
  {
    TrashedNames(lock);
    TrashedWorkers(lock);
    hide Rivals, Target, TrashOf, AfterTrash, RivalsInit, BothOut, ReservedAs;
    OutThen(AfterTrash(AfterTrash(RivalsInit(lock), 0, 10), 1, 11), lock);
  }

  lemma {:induction false} PreludeRuns(lock: map<Path, Ino>)
    requires lock == map[] || lock == AbandonedLock()
    ensures var s := Exec(Rivals(), RivalsInit(lock), Prelude());
      BothOut(s) && ReservedAs(s, lock)
  {
    hide Exec, Next, Act, ActMove, BothOut, Waiting, RivalsInit, AbandonedLock, AfterTrash;
    var cfg, s := Rivals(), RivalsInit(lock);
    FirstWaits(lock);
    Trashed(s, 0, 10);
    SecondWaits(lock);
    Trashed(Exec(cfg, s, TrashIt(0, 10)), 1, 11);
    BothAreOut(lock);
    ExecConcat(cfg, s, TrashIt(0, 10), TrashIt(1, 11));
  }

  /** From where one rival, or both, have found the destination free: the second install is a rename. */
  predicate BothIn(s: State, pc0: Pc) {
    && Runs(Rivals(), s) && Target() !in s.names
    && s.workers[0].pc == pc0 && s.workers[1].pc == Install(Clear)
    && s.workers[0].src == Rivals().jobs[0].newPath && s.workers[1].src == Rivals().jobs[1].newPath
    && Bound(s, Rivals().jobs[0].newPath, 2) && Bound(s, Rivals().jobs[1].newPath, 4)
    && (forall p :: p in s.names && s.names[p] == 2 ==> p == Rivals().jobs[0].newPath)
  }

  const LinkIn: seq<(nat, Action)> := [(0, LinkTo), (0, DropFrom(true)), (0, Finish(true))]

  function RenameIn(i: nat): seq<(nat, Action)> {
    [(i, RenameTo), (i, Release(true)), (i, Finish(true))]
  }

  /** What a rival has done once it is through: its file is at the destination, and nowhere else. */
  predicate Through(s: State, s': State, i: nat) {
    var cfg := Rivals();
    && Runs(cfg, s) && Runs(cfg, s') && i < 2
    && s'.workers[i].pc == Done(1) && s'.workers[1 - i] == s.workers[1 - i]
    && s'.owner == s.owner
    && cfg.jobs[i].finalPath in s'.names
    && (forall p :: p in s'.names && p.Media? ==>
          s'.names[p] == if p == cfg.jobs[i].finalPath then cfg.jobs[i].newIno else if p in s.names then s.names[p] else 0)
    && (forall p :: p in s'.names ==> p in s.names || p == cfg.jobs[i].finalPath)
    && (forall p :: p in s.names && p.Media? && p != cfg.jobs[i].newPath ==> p in s'.names)
    && cfg.jobs[i].newPath !in s'.names
  }

  lemma {:induction false} InstallByLink(s: State)
    requires Runs(Rivals(), s) && s.workers[0].pc == Install(Idle) && s.workers[0].src == Rivals().jobs[0].newPath
    requires Bound(s, Rivals().jobs[0].newPath, 2) && Rivals().jobs[0].finalPath !in s.names
    ensures Through(s, Exec(Rivals(), s, LinkIn), 0)
  {
    RivalsApart();
    hide Rivals, Target, TrashOf, Next, Act, ActMove;
    var cfg := Rivals();
    var from, to := cfg.jobs[0].newPath, cfg.jobs[0].finalPath;
    ExecThree(cfg, s, (0, LinkTo), (0, DropFrom(true)), (0, Finish(true)));
    LinkStep(cfg, s, 0);
    var s1 := State(s.names[to := s.names[from]], s.owner, s.workers[0 := s.workers[0].(pc := Install(Linked))]);
    DropStep(cfg, s1, 0);
    assert Next(cfg, s, 0, LinkTo) == s1;
    var s2 := State(s.names[to := s.names[from]] - {from}, s.owner, s.workers[0 := s.workers[0].(pc := Installed)]);
    assert Next(cfg, s1, 0, DropFrom(true)) == s2;
    FinishStep(cfg, s2, 0);
  }

  lemma {:induction false} InstallByRename(s: State, i: nat)
    requires Runs(Rivals(), s) && i < 2 && s.workers[i].pc == Install(Clear) && s.workers[i].src == Rivals().jobs[i].newPath
    requires Bound(s, Rivals().jobs[i].newPath, Rivals().jobs[i].newIno)
    ensures Through(s, Exec(Rivals(), s, RenameIn(i)), i)
  {
    RivalsApart();
    hide Rivals, Target, TrashOf, Next, Act, ActMove;
    var cfg := Rivals();
    ExecThree(cfg, s, (i, RenameTo), (i, Release(true)), (i, Finish(true)));
    var from, to := cfg.jobs[i].newPath, cfg.jobs[i].finalPath;
    var names := (s.names - {from})[to := s.names[from]];
    RenameStep(cfg, s, i);
    var s1 := State(names, s.owner, s.workers[i := s.workers[i].(pc := Install(Releasing(true)))]);
    ReleaseStep(cfg, s1, i);
    var s2 := State(Unbind(names, Reserve(to), Own(s1, i, Reserve(to))), s.owner, s.workers[i := s.workers[i].(pc := Installed)]);
    assert Next(cfg, s1, i, Release(true)) == s2;
    FinishStep(cfg, s2, i);
    hide Own, Unbind, Through, Exec;
    ThroughByRename(s, i, Own(s1, i, Reserve(to)));
  }

  lemma ThroughByRename(s: State, i: nat, released: bool)
    requires Runs(Rivals(), s) && i < 2 && Bound(s, Rivals().jobs[i].newPath, Rivals().jobs[i].newIno)
    ensures var from, to := Rivals().jobs[i].newPath, Rivals().jobs[i].finalPath;
      Through(s, State(Unbind((s.names - {from})[to := s.names[from]], Reserve(to), released), s.owner,
                       s.workers[i := s.workers[i].(pc := Done(1))]), i)
  {
    RivalsApart();
    hide Rivals, Target, TrashOf;
  }

  /** Worker 1 renames onto a destination at which worker 0 has just installed its file. */
  lemma SecondOverwritesFirst(s: State, s1: State, s2: State)
    requires Through(s, s1, 0) && Through(s1, s2, 1)
    requires forall p :: p in s.names && s.names[p] == 2 ==> p == Rivals().jobs[0].newPath
    ensures BothWonOneLost(s2)
  {
    forall p | p in s2.names && p.Media? ensures s2.names[p] != 2 {
      assert p in s1.names || p == Rivals().jobs[1].finalPath;
    }
  }

  /** Both rivals end on output 1, and the first one's file has lost its last media name. */
  predicate BothWonOneLost(end: State) {
    && Runs(Rivals(), end) && end.workers[0].pc == Done(1) && end.workers[1].pc == Done(1)
    && forall p :: p in end.names && p.Media? ==> end.names[p] != Rivals().jobs[0].newIno
  }

  lemma {:induction false} FirstByLink(s: State)
    requires BothIn(s, Install(Idle))
    ensures BothWonOneLost(Exec(Rivals(), s, LinkIn + RenameIn(1)))
  {
    RivalsApart();
    hide Exec, Next, Act, ActMove, Rivals;
    InstallByLink(s);
    var s1 := Exec(Rivals(), s, LinkIn);
    InstallByRename(s1, 1);
    SecondOverwritesFirst(s, s1, Exec(Rivals(), s1, RenameIn(1)));
    ExecConcat(Rivals(), s, LinkIn, RenameIn(1));
  }

  lemma {:induction false} FirstByRename(s: State)
    requires BothIn(s, Install(Clear))
    ensures BothWonOneLost(Exec(Rivals(), s, RenameIn(0) + RenameIn(1)))
  {
    RivalsApart();
    hide Exec, Next, Act, ActMove, Rivals;
    InstallByRename(s, 0);
    var s1 := Exec(Rivals(), s, RenameIn(0));
    InstallByRename(s1, 1);
    SecondOverwritesFirst(s, s1, Exec(Rivals(), s1, RenameIn(1)));
    ExecConcat(Rivals(), s, RenameIn(0), RenameIn(1));
  }

  function LockOne(): seq<(nat, Action)> {
    [(1, OpenReserve(12)), (1, Check)]
  }

  /** Worker 1 takes the destination's reservation and finds the destination free. */
  lemma {:induction false} OneLocks(s: State)
    requires BothOut(s) && Reserve(Target()) !in s.names
    ensures BothIn(Exec(Rivals(), s, LockOne()), Install(Idle))
  {
    RivalsApart();
    hide Rivals, Target, TrashOf, Next, Act, ActMove;
    ExecTwo(Rivals(), s, (1, OpenReserve(12)), (1, Check));
    OpenStep(Rivals(), s, 1, 12);
    var s1 := State(s.names[Reserve(Target()) := 12], s.owner[12 := 1], s.workers[1 := s.workers[1].(pc := Install(Held))]);
    CheckStep(Rivals(), s1, 1);
  }

  lemma SchedulesJoin(caps: Caps, first: seq<(nat, Action)>, second: seq<(nat, Action)>)
    requires Schedule(Rivals(), caps, first) && Schedule(Rivals(), caps, second)
    ensures Schedule(Rivals(), caps, first + second)
  {
  }

  lemma PreludeAllowed(caps: Caps)
    requires caps.reserves
    ensures Schedule(Rivals(), caps, Prelude()) && Schedule(Rivals(), caps, RenameIn(0)) && Schedule(Rivals(), caps, RenameIn(1))
  {
    SchedulesJoin(caps, Reserving(0, 10), Renaming(0));
    SchedulesJoin(caps, Reserving(1, 11), Renaming(1));
    SchedulesJoin(caps, TrashIt(0, 10), TrashIt(1, 11));
  }

  /**
    Mixing the branches breaks the promise: a worker that links takes no reservation, so one that
    holds the reservation and has found the destination free renames over what was linked there.
    Nothing is reclaimed in this run.
   */
  lemma {:induction false} MixedBranchesOverwrite() returns (schedule: seq<(nat, Action)>)
    ensures Init(Rivals(), RivalsInit(map[])) && Schedule(Rivals(), Caps(true, true, false), schedule)
    ensures BothWonOneLost(Exec(Rivals(), RivalsInit(map[]), schedule))
  {
    hide Exec, Next, Act, ActMove, BothOut, BothIn, BothWonOneLost, Init, RivalsInit, Rivals, Schedule;
    RivalsBegin(map[]);
    var s := RivalsInit(map[]);
    PreludeRuns(map[]);
    var s1 := Exec(Rivals(), s, Prelude());
    OneLocks(s1);
    FirstByLink(Exec(Rivals(), s1, LockOne()));
    ExecConcat(Rivals(), s1, LockOne(), LinkIn + RenameIn(1));
    ExecConcat(Rivals(), s, Prelude(), LockOne() + (LinkIn + RenameIn(1)));
    schedule := Prelude() + (LockOne() + (LinkIn + RenameIn(1)));
    MixedAllowed();
  }

  lemma MixedAllowed()
    ensures Schedule(Rivals(), Caps(true, true, false), Prelude() + (LockOne() + (LinkIn + RenameIn(1))))
  {
    var caps := Caps(true, true, false);
    PreludeAllowed(caps);
    SchedulesJoin(caps, LinkIn, RenameIn(1));
    SchedulesJoin(caps, LockOne(), LinkIn + RenameIn(1));
    SchedulesJoin(caps, Prelude(), LockOne() + (LinkIn + RenameIn(1)));
  }

  const BothJudge: seq<(nat, Action)> := [(0, JudgeStale), (1, JudgeStale)]

  /** `i` renames away whatever reservation there is now, takes its own, and finds the destination free. */
  function Reclaim(i: nat, ino: Ino): seq<(nat, Action)> {
    [(i, Displace), (i, OpenReserve(ino)), (i, Check)]
  }

  lemma {:induction false} Judged(s: State)
    requires BothOut(s) && Bound(s, Reserve(Target()), 20)
    ensures Exec(Rivals(), s, BothJudge) ==
      s.(workers := [s.workers[0].(pc := Install(Stale(20))), s.workers[1].(pc := Install(Stale(20)))])
  {
    RivalsApart();
    hide Rivals, Target, TrashOf, Next, Act, ActMove;
    ExecTwo(Rivals(), s, (0, JudgeStale), (1, JudgeStale));
    JudgeStep(Rivals(), s, 0);
    var s1 := s.(workers := s.workers[0 := s.workers[0].(pc := Install(Stale(20)))]);
    JudgeStep(Rivals(), s1, 1);
  }

  lemma {:induction false} Reclaimed(s: State, i: nat, ino: Ino)
    requires i < 2 && Runs(Rivals(), s) && s.workers[i].pc == Install(Stale(20)) && Fresh(s, ino)
    requires Reserve(Target()) in s.names && Target() !in s.names
    ensures Exec(Rivals(), s, Reclaim(i, ino)) ==
      State(s.names[Reserve(Target()) := ino], s.owner[ino := i], s.workers[i := s.workers[i].(pc := Install(Clear))])
  {
    var cfg := Rivals();
    RivalsApart();
    hide Rivals, Target, TrashOf, Next, Act, ActMove;
    ExecThree(cfg, s, (i, Displace), (i, OpenReserve(ino)), (i, Check));
    DisplaceStep(cfg, s, i);
    var s1 := State(s.names - {Reserve(Target())}, s.owner, s.workers[i := s.workers[i].(pc := Install(Swapped))]);
    assert Fresh(s1, ino);
    OpenStep(cfg, s1, i, ino);
    var names := s.names[Reserve(Target()) := ino];
    assert s1.names[Reserve(Target()) := ino] == names;
    var s2 := State(names, s.owner[ino := i], s.workers[i := s.workers[i].(pc := Install(Held))]);
    assert s1.workers[i := s1.workers[i].(pc := Install(Held))] == s2.workers;
    hide Fresh;
    CheckStep(cfg, s2, i);
  }

  function ReclaimBoth(): seq<(nat, Action)> {
    BothJudge + (Reclaim(0, 12) + Reclaim(1, 13))
  }

  /** Both judged the same reservation; the second rename takes away the one the first has just created. */
  lemma {:induction false} BothReclaim(s: State)
    requires BothOut(s) && Bound(s, Reserve(Target()), 20)
    ensures BothIn(Exec(Rivals(), s, ReclaimBoth()), Install(Clear))
  {
    RivalsApart();
    hide Exec, Next, Act, ActMove, Rivals;
    Judged(s);
    var s1 := Exec(Rivals(), s, BothJudge);
    Reclaimed(s1, 0, 12);
    var s2 := Exec(Rivals(), s1, Reclaim(0, 12));
    assert Fresh(s2, 13);
    Reclaimed(s2, 1, 13);
    ExecConcat(Rivals(), s1, Reclaim(0, 12), Reclaim(1, 13));
    ExecConcat(Rivals(), s, BothJudge, Reclaim(0, 12) + Reclaim(1, 13));
  }

  /**
    So does reclaiming, with every move by reservation. The judgement and the rename are two calls, and
    the rename is by name: of two workers that judged one abandoned reservation stale, the second takes
    away the live one of the first, and both are in.
   */
  lemma {:induction false} ReclaimedTwiceOverwrites() returns (schedule: seq<(nat, Action)>)
    ensures Init(Rivals(), RivalsInit(AbandonedLock())) && Schedule(Rivals(), Caps(false, true, true), schedule)
    ensures BothWonOneLost(Exec(Rivals(), RivalsInit(AbandonedLock()), schedule))
  {
    hide Exec, Next, Act, ActMove, BothOut, BothIn, BothWonOneLost, Init, RivalsInit, Rivals, Schedule;
    var lock := AbandonedLock();
    RivalsBegin(lock);
    var s := RivalsInit(lock);
    PreludeRuns(lock);
    var s1 := Exec(Rivals(), s, Prelude());
    BothReclaim(s1);
    FirstByRename(Exec(Rivals(), s1, ReclaimBoth()));
    ExecConcat(Rivals(), s1, ReclaimBoth(), RenameIn(0) + RenameIn(1));
    ExecConcat(Rivals(), s, Prelude(), ReclaimBoth() + (RenameIn(0) + RenameIn(1)));
    schedule := Prelude() + (ReclaimBoth() + (RenameIn(0) + RenameIn(1)));
    ReclaimAllowed();
  }

  lemma ReclaimAllowed()
    ensures Schedule(Rivals(), Caps(false, true, true), Prelude() + (ReclaimBoth() + (RenameIn(0) + RenameIn(1))))
  {
    var caps := Caps(false, true, true);
    PreludeAllowed(caps);
    SchedulesJoin(caps, Reclaim(0, 12), Reclaim(1, 13));
    SchedulesJoin(caps, BothJudge, Reclaim(0, 12) + Reclaim(1, 13));
    SchedulesJoin(caps, RenameIn(0), RenameIn(1));
    SchedulesJoin(caps, ReclaimBoth(), RenameIn(0) + RenameIn(1));
    SchedulesJoin(caps, Prelude(), ReclaimBoth() + (RenameIn(0) + RenameIn(1)));
  }
}
