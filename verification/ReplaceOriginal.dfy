/**
  The Replace Original File node: stage the new file beside its destination, move the original
  to trash, install the new file, and restore the original when that fails.
 */
module ReplaceOriginal {
  import opened Wrappers
  import opened FileSystem
  import Text

  datatype Way = Linked | Renamed

  /** A complete copy of the new file beside its destination, or a second name for it. */
  datatype Staged = Staged(path: Path, viaLink: bool)

  /**
    How a run ends: by an output with the path it reports, or by a rejected promise. `guessed` is
    set when only sizes were left to decide whether a failed swap had landed.
   */
  datatype Outcome = Output(number: nat, path: Path, guessed: bool) | Rejected

  function Moved(v: map<Path, Ino>, from: Path, to: Path): map<Path, Ino>
    requires from in v
  {
    (v - {from})[to := v[from]]
  }

  function Doubled(v: map<Path, Ino>, from: Path, to: Path): map<Path, Ino>
    requires from in v
  {
    v[to := v[from]]
  }

  ghost predicate Safe(plan: Plan, p: Path) {
    p == plan.originalPath || InTrash(plan, p)
  }

  /** A move to a free name keeps everything, if the original stays, or arrives, where it is safe. */
  lemma MoveKeeps(plan: Plan, v: map<Path, Ino>, news: set<Ino>, from: Path, to: Path, home: Path)
    requires Kept(plan, v, news) && from in v && to !in v && from !in plan.extras
    requires home in v && v[home] == plan.original && Safe(plan, home)
    requires home == from ==> Safe(plan, to)
    ensures Kept(plan, Moved(v, from, to), news)
  {
    var m := Moved(v, from, to);
    var home' := if home == from then to else home;
    assert home' in m && m[home'] == plan.original;
    var q :| q in v && v[q] in news;
    var q' := if q == from then to else q;
    assert q' in m && m[q'] in news;
  }

  /** Dropping a name keeps everything, if neither the original nor the only new copy is under it. */
  lemma DropKeeps(plan: Plan, v: map<Path, Ino>, news: set<Ino>, p: Path, home: Path, spare: Path)
    requires Kept(plan, v, news) && p !in plan.extras
    requires home in v && v[home] == plan.original && Safe(plan, home) && home != p
    requires spare in v && v[spare] in news && spare != p
    ensures Kept(plan, v - {p}, news)
  {
    var m := v - {p};
    assert home in m && m[home] == plan.original;
    assert spare in m && m[spare] in news;
  }

  method Claim(fs: Fs, dest: Path) returns (r: Result<Ino, Code>)
    requires fs.Valid()
    modifies fs`names, fs`content, fs`own, fs`trace
    ensures fs.Valid() && old(fs.trace) <= fs.trace && fs.Visible() == old(fs.Visible())
    ensures r.Success? ==> fs.Holds(dest) && fs.names[Reserve(dest)] == r.value
  {
    hide SoundIn, Harmless, Recoverable, Rely, VisibleOf;
    var claimed := fs.OpenExclusive(dest);
    if claimed.Failure? { return Failure(claimed.error); }
    var stats := fs.Lstat(Reserve(dest));
    if stats.Failure? { return Failure(stats.error); }
    r := Success(stats.value.ino);
  }

  /**
    Claim a destination without creating a file at it. An abandoned reservation (empty, and not
    touched for long enough) is first renamed away, which one racer alone can do.
   */
  method ReserveDestination(fs: Fs, dest: Path) returns (r: Result<Ino, Code>)
    requires fs.Valid()
    modifies fs`names, fs`content, fs`own, fs`tokens, fs`trace
    ensures fs.Valid() && old(fs.trace) <= fs.trace && old(fs.tokens) <= fs.tokens && fs.Visible() == old(fs.Visible())
    ensures r.Success? ==> fs.Holds(dest) && fs.names[Reserve(dest)] == r.value
  {
    hide SoundIn, Harmless, Recoverable, Rely, VisibleOf;
    r := Claim(fs, dest);
    if r.Success? || r.error != EEXIST { return; }
    var abandoned := fs.Lstat(Reserve(dest));
    var stale: bool, id: nat := *, *;
    if abandoned.Failure? || abandoned.value.size > 0 || !stale { return Failure(EEXIST); }
    var displaced := Displaced(dest, id);
    var drawn := fs.Draw(displaced);
    if !drawn { return Failure(EEXIST); }
    var swapped := fs.DisplaceReservation(dest, displaced);
    if swapped.Failure? { return Failure(EEXIST); }
    var _ := fs.UnlinkHidden(displaced, true);
    r := Claim(fs, dest);
  }

  /** Remove a reservation, but only while the name still holds the inode this worker created. */
  method ReleaseReservation(fs: Fs, dest: Path, ino: Ino)
    requires fs.Valid() && ino in fs.own
    modifies fs`names, fs`content, fs`trace
    ensures fs.Valid() && old(fs.trace) <= fs.trace && fs.Visible() == old(fs.Visible())
  {
    hide SoundIn, Harmless, Recoverable, Rely, VisibleOf;
    var current := fs.Lstat(Reserve(dest));
    if current.Failure? || current.value.ino != ino { return; }
    var _ := fs.UnlinkHidden(Reserve(dest), false);
  }

  /** Rename while the destination's reservation is held, which is what makes it exclusive. */
  method RenameReserved(fs: Fs, from: Path, to: Path) returns (r: Result<(), Code>)
    requires fs.Valid() && from in fs.Visible() && from != to && !Hidden(to) && fs.Holds(to)
    requires to !in fs.Visible() ==> Kept(fs.plan, Moved(fs.Visible(), from, to), fs.news)
    modifies fs`names, fs`content, fs`trace
    ensures fs.Valid() && old(fs.trace) <= fs.trace
    ensures r.Success? ==> to !in old(fs.Visible()) && fs.Visible() == Moved(old(fs.Visible()), from, to)
    ensures r.Failure? ==> fs.Visible() == old(fs.Visible())
  {
    hide SoundIn, Harmless, Recoverable, Rely, VisibleOf;
    var there := fs.Lstat(to);
    if there.Success? { return Failure(EEXIST); }
    if there.error != ENOENT { return Failure(there.error); }
    VisibleHas(fs.names, fs.own, to);
    r := fs.Rename(from, to);
  }

  /** Give `from` the name `to`, failing if `to` is taken: by a link, or by a rename under a lock. */
  method CreateExclusively(fs: Fs, from: Path, to: Path) returns (r: Result<Way, Code>)
    requires fs.Valid() && from in fs.Visible() && from != to && !Hidden(to)
    requires to !in fs.Visible() ==> Kept(fs.plan, Moved(fs.Visible(), from, to), fs.news)
    modifies fs`names, fs`content, fs`own, fs`tokens, fs`trace
    ensures fs.Valid() && old(fs.trace) <= fs.trace && old(fs.tokens) <= fs.tokens
    ensures r.Success? ==> to !in old(fs.Visible())
    ensures r == Success(Linked) ==> fs.Visible() == Doubled(old(fs.Visible()), from, to)
    ensures r == Success(Renamed) ==> fs.Visible() == Moved(old(fs.Visible()), from, to)
    ensures r.Failure? ==> fs.Visible() == old(fs.Visible())
  {
    hide SoundIn, Harmless, Recoverable, Rely, VisibleOf;
    var linked := fs.Link(from, to);
    if linked.Success? { return Success(Linked); }
    if linked.error != LinkUnsupported { return Failure(linked.error); }
    var reservation := ReserveDestination(fs, to);
    if reservation.Failure? { return Failure(reservation.error); }
    var renamed := RenameReserved(fs, from, to);
    ReleaseReservation(fs, to, reservation.value);
    r := if renamed.Success? then Success(Renamed) else Failure(renamed.error);
  }

  /**
    Move without overwriting. When the old name cannot be removed, either the new one is taken
    back, or (`keep`) both stay.
   */
  method MoveExclusively(fs: Fs, from: Path, to: Path, keep: bool) returns (r: Result<(), Code>)
    requires fs.Valid() && from in fs.Visible() && from != to && !Hidden(to)
    requires to !in fs.Visible() ==> Kept(fs.plan, Moved(fs.Visible(), from, to), fs.news)
    modifies fs`names, fs`content, fs`own, fs`tokens, fs`trace
    ensures fs.Valid() && old(fs.trace) <= fs.trace && old(fs.tokens) <= fs.tokens
    ensures r.Success? ==> to !in old(fs.Visible())
    ensures r.Success? && !keep ==> fs.Visible() == Moved(old(fs.Visible()), from, to)
    ensures r.Success? && keep ==> fs.Visible() in {Moved(old(fs.Visible()), from, to), Doubled(old(fs.Visible()), from, to)}
    ensures r.Failure? && (keep || r.error != NoCode || to in old(fs.Visible())) ==> fs.Visible() == old(fs.Visible())
    ensures r.Failure? ==> fs.Visible() in {old(fs.Visible()), Doubled(old(fs.Visible()), from, to)}
  {
    hide SoundIn, Harmless, Recoverable, Rely, VisibleOf;
    ghost var v := fs.Visible();
    var created := CreateExclusively(fs, from, to);
    if created.Failure? { return Failure(created.error); }
    if created.value == Renamed { return Success(()); }
    assert fs.Visible() - {from} == Moved(v, from, to);
    var removed := fs.Unlink(from);
    if removed.Success? || keep { return Success(()); }
    assert fs.Visible() - {to} == v;
    var _ := fs.Unlink(to);
    r := Failure(NoCode);
  }

  function TrashName(plan: Plan, nowMs: nat, attempt: nat): (p: Path)
    requires plan.originalPath.Media?
    ensures InTrash(plan, p) && p.ext == plan.originalPath.ext && |p.stem| > |plan.originalPath.stem|
  {
    var suffix := if attempt == 0 then "" else "-" + Text.Dec(attempt);
    Media(plan.trashDir, plan.originalPath.stem + "." + Text.Dec(nowMs) + suffix, plan.originalPath.ext)
  }

  /** Move the original to the first trash name whose exclusive create does not collide. */
  method MoveToTrash(fs: Fs, plan: Plan, nowMs: nat) returns (r: Result<Path, Code>)
    requires fs.Valid() && plan == fs.plan && plan.originalPath.Media? && plan.originalPath !in plan.extras
    requires plan.originalPath in fs.Visible() && fs.Visible()[plan.originalPath] == plan.original
    modifies fs`names, fs`content, fs`own, fs`tokens, fs`trace
    ensures fs.Valid() && old(fs.trace) <= fs.trace && old(fs.tokens) <= fs.tokens
    ensures r.Success? ==> InTrash(plan, r.value) && |r.value.stem| > |plan.originalPath.stem|
    ensures r.Success? ==> r.value !in old(fs.Visible())
    ensures r.Success? ==> fs.Visible() == Moved(old(fs.Visible()), plan.originalPath, r.value)
    ensures r.Failure? && fs.Visible() != old(fs.Visible()) ==>
      exists t :: InTrash(plan, t) && t !in old(fs.Visible()) && fs.Visible() == Doubled(old(fs.Visible()), plan.originalPath, t)
  {
    hide SoundIn, Harmless, Recoverable, Rely, VisibleOf;
    ghost var v := fs.Visible();
    var attempt := 0;
    while attempt < 10000
      invariant fs.Valid() && old(fs.trace) <= fs.trace && old(fs.tokens) <= fs.tokens && fs.Visible() == v
    {
      var candidate := TrashName(plan, nowMs, attempt);
      if candidate !in fs.Visible() {
        MoveKeeps(plan, v, fs.news, plan.originalPath, candidate, plan.originalPath);
      }
      var moved := MoveExclusively(fs, plan.originalPath, candidate, false);
      if moved.Success? { return Success(candidate); }
      if moved.error != EEXIST { return Failure(moved.error); }
      attempt := attempt + 1;
    }
    r := Failure(NoCode);
  }

  /** Where the replacement belongs: the original's name with the new file's container. */
  function ReplacementPathFor(original: Path, newPath: Path): (p: Path)
    requires original.Media? && newPath.Media?
  {
    Media(original.dir, original.stem, if newPath.ext == "" then original.ext else newPath.ext)
  }

  /** The original is under a safe name other than the new file's, and the new file has its own. */
  ghost predicate Ready(fs: Fs, plan: Plan, home: Path)
    reads fs
  {
    && fs.Valid() && plan == fs.plan
    && plan.originalPath.Media? && plan.newPath.Media? && plan.originalPath != plan.newPath
    && plan.originalPath !in plan.extras && plan.newPath !in plan.extras
    && home in fs.Visible() && fs.Visible()[home] == plan.original
    && Safe(plan, home) && home.Media? && home != plan.newPath && home !in plan.extras
    && plan.newPath in fs.Visible() && fs.Visible()[plan.newPath] in fs.news
  }

  ghost predicate Extends(v: map<Path, Ino>, v': map<Path, Ino>) {
    forall p :: p in v ==> p in v' && v'[p] == v[p]
  }

  /** Best-effort removal of a staging name. A name that is not there makes `unlink` fail with no effect. */
  method Discard(fs: Fs, staged: Path, plan: Plan, ghost home: Path)
    requires Ready(fs, plan, home) && staged.Staging? && staged !in plan.extras
    modifies fs`names, fs`content, fs`trace
    ensures Ready(fs, plan, home) && old(fs.trace) <= fs.trace
    ensures fs.Visible() in {old(fs.Visible()), old(fs.Visible()) - {staged}}
  {
    hide SoundIn, Harmless, Recoverable, Rely, VisibleOf;
    if staged in fs.Visible() {
      DropKeeps(plan, fs.Visible(), fs.news, staged, home, plan.newPath);
      var _ := fs.Unlink(staged);
    }
  }

  /** Copy the new file under a staging name and check the copy's size. */
  method CopyVerified(fs: Fs, plan: Plan, to: Path, expectedSize: nat, ghost home: Path) returns (r: Result<(), Code>)
    requires Ready(fs, plan, home) && to.Staging? && to in fs.tokens && to !in fs.names
    modifies fs`names, fs`content, fs`own, fs`news, fs`trace
    ensures Ready(fs, plan, home) && old(fs.trace) <= fs.trace && old(fs.news) <= fs.news
    ensures to !in old(fs.Visible()) && to !in plan.extras && Extends(old(fs.Visible()), fs.Visible())
    ensures r.Success? ==> to in fs.Visible() && fs.Visible()[to] in fs.news
                           && fs.Visible() == old(fs.Visible())[to := fs.Visible()[to]]
  {
    hide SoundIn, Harmless, Recoverable, Rely, VisibleOf;
    var copied := fs.Copy(plan.newPath, to);
    if copied.Failure? { return Failure(copied.error); }
    var stats := fs.Lstat(to);
    if stats.Failure? { return Failure(stats.error); }
    r := if stats.value.size == expectedSize then Success(()) else Failure(NoCode);
  }

  /** A verified copy under the staging name, or none: a copy that fails is discarded. */
  method CopyStaged(fs: Fs, plan: Plan, to: Path, expectedSize: nat) returns (r: Result<(), Code>)
    requires Ready(fs, plan, plan.originalPath) && to.Staging? && to in fs.tokens && to !in fs.names
    modifies fs`names, fs`content, fs`own, fs`news, fs`trace
    ensures Ready(fs, plan, plan.originalPath) && old(fs.trace) <= fs.trace && old(fs.news) <= fs.news
    ensures to !in old(fs.Visible()) && to !in plan.extras && Extends(old(fs.Visible()), fs.Visible())
    ensures r.Success? ==> to in fs.Visible() && fs.Visible()[to] in fs.news
                           && fs.Visible() == old(fs.Visible())[to := fs.Visible()[to]]
  {
    hide SoundIn, Harmless, Recoverable, Rely, VisibleOf;
    r := CopyVerified(fs, plan, to, expectedSize, plan.originalPath);
    if r.Failure? { Discard(fs, to, plan, plan.originalPath); }
  }

  /**
    Make a complete copy of the new file beside its destination while the original is still in
    place. `None` means that linking gave no answer this can act on.
   */
  method StageReplacement(fs: Fs, plan: Plan, finalPath: Path, expectedSize: nat, allowCrossDevice: bool)
    returns (r: Result<Option<Staged>, Code>)
    requires Ready(fs, plan, plan.originalPath) && finalPath.Media?
    modifies fs`names, fs`content, fs`own, fs`news, fs`tokens, fs`trace
    ensures Ready(fs, plan, plan.originalPath) && old(fs.trace) <= fs.trace && old(fs.tokens) <= fs.tokens && old(fs.news) <= fs.news
    ensures Extends(old(fs.Visible()), fs.Visible())
    ensures r == Success(None) ==> fs.Visible() == old(fs.Visible())
    ensures r.Success? && r.value.Some? ==>
      var staged := r.value.value.path;
      && staged.Staging? && staged in fs.tokens && staged !in old(fs.Visible()) && staged !in plan.extras
      && staged in fs.Visible() && fs.Visible()[staged] in fs.news
      && fs.Visible() == old(fs.Visible())[staged := fs.Visible()[staged]]
  {
    hide SoundIn, Harmless, Recoverable, Rely, VisibleOf;
    var id: nat := *;
    var staged := Staging(finalPath.dir, id, finalPath.ext);
    var drawn := fs.Draw(staged);
    if !drawn { return Failure(OtherCode); }
    ghost var v := fs.Visible();
    var linked := fs.Link(plan.newPath, staged);
    if linked.Success? { return Success(Some(Staged(staged, true))); }
    if linked.error != EXDEV { return Success(None); }
    if !allowCrossDevice { return Failure(NoCode); }
    var copied := CopyStaged(fs, plan, staged, expectedSize);
    r := if copied.Success? then Success(Some(Staged(staged, false))) else Failure(copied.error);
  }

  /** The state a swap leaves behind, whichever way it ends. */
  ghost predicate AfterSwap(fs: Fs, plan: Plan, home: Path, finalPath: Path, landed: bool)
    reads fs
  {
    && fs.Valid() && plan == fs.plan
    && home in fs.Visible() && fs.Visible()[home] == plan.original
    && (finalPath in fs.Visible() ==> fs.Visible()[finalPath] in fs.news)
    && (landed ==> finalPath in fs.Visible())
    && (!landed ==> Ready(fs, plan, home))
  }

  /**
    Remove the new file's old name after an install. If it is the installed file's second name and
    cannot be removed, the install is undone.
   */
  method RemoveSource(fs: Fs, plan: Plan, finalPath: Path, viaLink: bool, ghost home: Path) returns (r: Result<(), Code>)
    requires Ready(fs, plan, home) && finalPath.Media? && finalPath !in plan.extras
    requires finalPath in fs.Visible() && fs.Visible()[finalPath] in fs.news
    requires finalPath != plan.newPath && finalPath != home
    modifies fs`names, fs`content, fs`trace
    ensures AfterSwap(fs, plan, home, finalPath, r.Success?) && old(fs.trace) <= fs.trace
  {
    hide SoundIn, Harmless, Recoverable, Rely, VisibleOf;
    DropKeeps(plan, fs.Visible(), fs.news, plan.newPath, home, finalPath);
    var removed := fs.Unlink(plan.newPath);
    if removed.Success? || !viaLink { return Success(()); }
    DropKeeps(plan, fs.Visible(), fs.news, finalPath, home, plan.newPath);
    var _ := fs.Unlink(finalPath);
    r := Failure(NoCode);
  }

  /** Install a staged copy: the exclusive create, then the removal of the name it came from. */
  method InstallStaged(fs: Fs, plan: Plan, finalPath: Path, staged: Staged, ghost home: Path) returns (r: Result<(), Code>)
    requires Ready(fs, plan, home) && finalPath.Media? && finalPath !in fs.Visible()
    requires staged.path.Staging? && staged.path !in plan.extras
    requires staged.path in fs.Visible() && fs.Visible()[staged.path] in fs.news
    modifies fs`names, fs`content, fs`own, fs`tokens, fs`trace
    ensures AfterSwap(fs, plan, home, finalPath, r.Success?) && old(fs.trace) <= fs.trace && old(fs.tokens) <= fs.tokens
  {
    hide SoundIn, Harmless, Recoverable, Rely, VisibleOf;
    MoveKeeps(plan, fs.Visible(), fs.news, staged.path, finalPath, home);
    var moved := MoveExclusively(fs, staged.path, finalPath, false);
    if moved.Failure? {
      Discard(fs, staged.path, plan, home);
      return Failure(if moved.error == EEXIST then NoCode else moved.error);
    }
    r := RemoveSource(fs, plan, finalPath, staged.viaLink, home);
  }

  /** The cross-device fallback: copy beside the destination, then install the copy. */
  method CopyAndInstall(fs: Fs, plan: Plan, finalPath: Path, staged: Path, ghost home: Path) returns (r: Result<(), Code>)
    requires Ready(fs, plan, home) && finalPath.Media? && finalPath !in fs.Visible()
    requires staged.Staging? && staged in fs.tokens && staged !in fs.names
    modifies fs`names, fs`content, fs`own, fs`news, fs`tokens, fs`trace
    ensures AfterSwap(fs, plan, home, finalPath, r.Success?)
    ensures old(fs.trace) <= fs.trace && old(fs.tokens) <= fs.tokens
  {
    hide SoundIn, Harmless, Recoverable, Rely, VisibleOf;
    var copied := fs.Copy(plan.newPath, staged);
    if copied.Success? {
      r := InstallStaged(fs, plan, finalPath, Staged(staged, false), home);
    } else {
      Discard(fs, staged, plan, home);
      r := Failure(copied.error);
    }
  }

  /** Install without a staged copy: move the new file itself, or copy it across devices first. */
  method InstallUnstaged(fs: Fs, plan: Plan, finalPath: Path, allowCrossDevice: bool, ghost home: Path)
    returns (r: Result<(), Code>, stagedPath: Option<Path>)
    requires Ready(fs, plan, home) && finalPath.Media? && finalPath !in fs.Visible()
    modifies fs`names, fs`content, fs`own, fs`news, fs`tokens, fs`trace
    ensures AfterSwap(fs, plan, home, finalPath, r.Success?)
    ensures old(fs.trace) <= fs.trace && old(fs.tokens) <= fs.tokens
    ensures stagedPath.Some? ==> stagedPath.value.Staging? && stagedPath.value in fs.tokens
  {
    hide SoundIn, Harmless, Recoverable, Rely, VisibleOf;
    MoveKeeps(plan, fs.Visible(), fs.news, plan.newPath, finalPath, home);
    var moved := MoveExclusively(fs, plan.newPath, finalPath, false);
    if moved.Success? { return Success(()), None; }
    if moved.error != EXDEV || !allowCrossDevice { return Failure(NoCode), None; }
    var id: nat := *;
    var staged := Staging(finalPath.dir, id, finalPath.ext);
    var drawn := fs.Draw(staged);
    if !drawn { return Failure(OtherCode), None; }
    r := CopyAndInstall(fs, plan, finalPath, staged, home);
    stagedPath := Some(staged);
  }

  /** Put the new file at its destination without overwriting what is there. */
  method SwapIntoPlace(fs: Fs, plan: Plan, finalPath: Path, staged: Option<Staged>,
                       allowCrossDevice: bool, ghost home: Path)
    returns (r: Result<(), Code>, stagedPath: Option<Path>)
    requires Ready(fs, plan, home) && finalPath.Media?
    requires finalPath !in fs.Visible() || finalPath == plan.newPath
    requires staged.Some? ==>
      && staged.value.path.Staging? && staged.value.path !in plan.extras && staged.value.path in fs.tokens
      && staged.value.path in fs.Visible() && fs.Visible()[staged.value.path] in fs.news
    modifies fs`names, fs`content, fs`own, fs`news, fs`tokens, fs`trace
    ensures AfterSwap(fs, plan, home, finalPath, r.Success?) && old(fs.trace) <= fs.trace && old(fs.tokens) <= fs.tokens
    ensures finalPath == plan.newPath ==> r.Success?
    ensures stagedPath.Some? ==> stagedPath.value.Staging? && stagedPath.value in fs.tokens
  {
    hide SoundIn, Harmless, Recoverable, Rely, VisibleOf;
    if plan.newPath == finalPath { return Success(()), None; }
    if staged.Some? {
      stagedPath := Some(staged.value.path);
      r := InstallStaged(fs, plan, finalPath, staged.value, home);
    } else {
      r, stagedPath := InstallUnstaged(fs, plan, finalPath, allowCrossDevice, home);
    }
  }

  /** What was said of the destination and of the two sources after a swap that failed. */
  datatype Answers = Answers(destination: Result<Stats, Code>, source: Result<Stats, Code>, staged: Result<Stats, Code>)

  predicate IsSame(a: Result<Stats, Code>, b: Result<Stats, Code>) {
    a.Success? && b.Success? && a.value.ino == b.value.ino
  }

  /** There is a destination, and neither source could be read. */
  predicate SizesDecide(a: Answers) {
    a.destination.Success? && a.source.Failure? && a.staged.Failure?
  }

  /** Decided on identity; only when neither source can be read is it decided on size. */
  predicate ReadsAsLanded(a: Answers, expectedSize: nat) {
    IsSame(a.source, a.destination) || IsSame(a.staged, a.destination)
    || (SizesDecide(a) && a.destination.value.size == expectedSize)
  }

  /**
    Did a swap that reported failure land all the same? It is a guess exactly when sizes decide. The
    new file still has its own name then, so a guess takes an `lstat` that fails on a name that exists.
   */
  method SwapLanded(fs: Fs, plan: Plan, stagedPath: Option<Path>, finalPath: Path, expectedSize: nat, ghost home: Path)
    returns (landed: bool, guessed: bool, answers: Answers)
    requires AfterSwap(fs, plan, home, finalPath, false) && finalPath.Media?
    requires stagedPath.Some? ==> stagedPath.value.Staging? && stagedPath.value in fs.tokens
    modifies fs`names, fs`content
    ensures AfterSwap(fs, plan, home, finalPath, false) && fs.Visible() == old(fs.Visible())
    ensures landed == ReadsAsLanded(answers, expectedSize) && (guessed <==> SizesDecide(answers))
    ensures guessed ==> answers.source.error != ENOENT
    ensures landed && !guessed ==> finalPath in fs.Visible()
  {
    hide SoundIn, Harmless, Recoverable, Rely, VisibleOf;
    var destination := fs.Lstat(finalPath);
    answers := Answers(destination, Failure(OtherCode), Failure(ENOENT));
    if destination.Failure? { return false, false, answers; }
    VisibleHas(fs.names, fs.own, finalPath);
    var source := fs.Lstat(plan.newPath);
    VisibleHas(fs.names, fs.own, plan.newPath);
    answers := answers.(source := source);
    if IsSame(source, destination) { return true, false, answers; }
    if stagedPath.Some? {
      var staged := fs.Lstat(stagedPath.value);
      if staged.Success? { StagingIsOwn(fs, stagedPath.value); }
      answers := answers.(staged := staged);
    }
    landed, guessed := ReadsAsLanded(answers, expectedSize), SizesDecide(answers);
  }

  /** A world as another user may leave it: somebody else's file, of the new file's size, at the destination. */
  function WithStranger(w: World, finalPath: Path, ino: Ino, bytes: string): World {
    World(w.names[finalPath := ino], w.content[ino := bytes])
  }

  /**
    The guess can be wrong. While the destination is free and not reserved, anybody may put a file of
    their own there; if its size is the new file's and neither source can be read, it reads as landed,
    and the new content is not at the destination.
   */
  lemma StrangerReadsAsLanded(plan: Plan, w: World, own: set<Ino>, tokens: set<Path>, finalPath: Path, ino: Ino, bytes: string, code: Code)
    requires finalPath.Media? && finalPath !in w.names && Reserve(finalPath) !in w.names
    requires (forall p :: p in w.names ==> w.names[p] in w.content) && (forall i :: i in own ==> i in w.content)
    requires finalPath !in tokens && ino !in w.content && |bytes| == |plan.newBytes| && bytes != plan.newBytes && code != ENOENT
    ensures var w' := WithStranger(w, finalPath, ino, bytes);
      var answers := Answers(Success(Stats(ino, |bytes|, 1)), Failure(code), Failure(code));
      && Rely(w, w', own, tokens)
      && (forall p :: MayAnswer(w', p, Failure(code))) && MayAnswer(w', finalPath, answers.destination)
      && ReadsAsLanded(answers, |plan.newBytes|) && SizesDecide(answers)
      && w'.content[w'.names[finalPath]] != plan.newBytes
  {
    var w' := WithStranger(w, finalPath, ino, bytes);
    assert (set q | q in w'.names && w'.names[q] == ino) == {finalPath};
  }

  lemma StagingIsOwn(fs: Fs, p: Path)
    requires fs.Valid() && p.Staging? && p in fs.tokens && p in fs.names
    ensures fs.names[p] in fs.own
  {
    hide Kept, Harmless;
  }

  /** Move the original back. Being at its own path matters more than a leftover name in trash. */
  method RestoreOriginal(fs: Fs, plan: Plan, trashPath: Path) returns (restored: bool)
    requires Ready(fs, plan, trashPath) && InTrash(plan, trashPath) && trashPath != plan.originalPath
    modifies fs`names, fs`content, fs`own, fs`tokens, fs`trace
    ensures fs.Valid() && old(fs.trace) <= fs.trace && old(fs.tokens) <= fs.tokens
    ensures restored ==> plan.originalPath in fs.Visible() && fs.Visible()[plan.originalPath] == plan.original
    ensures !restored ==> fs.Visible() == old(fs.Visible())
  {
    hide SoundIn, Harmless, Recoverable, Rely, VisibleOf;
    if plan.originalPath !in fs.Visible() {
      MoveKeeps(plan, fs.Visible(), fs.news, trashPath, plan.originalPath, trashPath);
    }
    var moved := MoveExclusively(fs, trashPath, plan.originalPath, true);
    restored := moved.Success?;
  }

  datatype Decision = Go(newSize: nat) | Refuse | Reject

  /** Every refusal is decided here, before anything moves. */
  method Preflight(fs: Fs, plan: Plan, finalPath: Path, allowHardlinked: bool) returns (d: Decision)
    requires Ready(fs, plan, plan.originalPath) && !Hidden(finalPath)
    modifies fs`names, fs`content
    ensures Ready(fs, plan, plan.originalPath) && fs.Visible() == old(fs.Visible())
    ensures d.Go? && finalPath !in {plan.originalPath, plan.newPath} ==> finalPath !in fs.Visible()
    ensures d.Go? ==> d.newSize == |plan.newBytes| && d.newSize > 0
  {
    hide SoundIn, Harmless, Recoverable, Rely, VisibleOf;
    var newStats := fs.Lstat(plan.newPath);
    VisibleHas(fs.names, fs.own, plan.newPath);
    NewsHold(plan, fs.Now(), fs.own, fs.news, fs.tokens, fs.names[plan.newPath]);
    if newStats.Failure? || newStats.value.size == 0 { return Refuse; }
    var originalStats := fs.Lstat(plan.originalPath);
    if originalStats.Failure? { return Refuse; }
    var probed: bool, durationHolds: bool := *, *;
    if !probed || !durationHolds { return Refuse; }
    if originalStats.value.nlink > 1 && !allowHardlinked { return Refuse; }
    var originalLstat := fs.Lstat(plan.originalPath);
    var symlink: bool := *;
    if originalLstat.Failure? || symlink { return Refuse; }
    if finalPath != plan.originalPath && finalPath != plan.newPath {
      var there := fs.Lstat(finalPath);
      if there.Success? { return Refuse; }
      if there.error != ENOENT { return Reject; }
      VisibleHas(fs.names, fs.own, finalPath);
    }
    var companionsListed: bool := *;
    if !companionsListed { return Refuse; }
    d := Go(newStats.value.size);
  }

  ghost predicate Installed(fs: Fs, plan: Plan, p: Path)
    reads fs
  {
    p in fs.names && fs.names[p] in fs.content && fs.content[fs.names[p]] == plan.newBytes
  }

  ghost predicate IntactInTrash(fs: Fs, plan: Plan)
    reads fs
  {
    exists t :: InTrash(plan, t) && t in fs.names && fs.names[t] == plan.original
  }

  ghost predicate InPlace(fs: Fs, plan: Plan)
    reads fs
  {
    plan.originalPath in fs.names && fs.names[plan.originalPath] == plan.original
  }

  lemma SeenInstalled(fs: Fs, plan: Plan, p: Path)
    requires fs.Valid() && plan == fs.plan && p in fs.Visible() && fs.Visible()[p] in fs.news
    ensures Installed(fs, plan, p)
  {
    hide Kept, Harmless;
  }

  lemma SeenOriginal(fs: Fs, plan: Plan, p: Path)
    requires p in fs.Visible() && fs.Visible()[p] == plan.original
    ensures p == plan.originalPath ==> InPlace(fs, plan)
    ensures InTrash(plan, p) ==> IntactInTrash(fs, plan)
  {
  }

  /** What every outcome after the preflight promises. */
  ghost predicate Settled(fs: Fs, plan: Plan, finalPath: Path, outcome: Outcome)
    reads fs
  {
    && fs.Valid() && plan == fs.plan
    && outcome.Output? && outcome.number in {1, 2}
    && (outcome.number == 1 ==> outcome.path == finalPath)
    && (outcome.number == 1 && !outcome.guessed ==> Installed(fs, plan, finalPath) && IntactInTrash(fs, plan))
    && (outcome.number == 2 ==>
          || (outcome.path == finalPath && IntactInTrash(fs, plan) && (!outcome.guessed ==> Installed(fs, plan, finalPath)))
          || (outcome.path == plan.originalPath && (InPlace(fs, plan) || IntactInTrash(fs, plan))))
  }

  /** It is settled at the destination, with the original in trash. */
  lemma SettledThere(fs: Fs, plan: Plan, finalPath: Path, home: Path, number: nat, guessed: bool)
    requires fs.Valid() && plan == fs.plan && number in {1, 2}
    requires home in fs.Visible() && fs.Visible()[home] == plan.original && InTrash(plan, home)
    requires !guessed ==> finalPath in fs.Visible() && fs.Visible()[finalPath] in fs.news
    ensures Settled(fs, plan, finalPath, Output(number, finalPath, guessed))
  {
    SeenOriginal(fs, plan, home);
    if !guessed { SeenInstalled(fs, plan, finalPath); }
    hide Installed, IntactInTrash, InPlace, VisibleOf;
  }

  /** It is settled on the original's path: the original is there, or in trash. */
  lemma SettledHome(fs: Fs, plan: Plan, finalPath: Path, home: Path)
    requires fs.Valid() && plan == fs.plan
    requires home in fs.Visible() && fs.Visible()[home] == plan.original && Safe(plan, home)
    ensures Settled(fs, plan, finalPath, Output(2, plan.originalPath, false))
  {
    SeenOriginal(fs, plan, home);
    hide Installed, IntactInTrash, InPlace, VisibleOf;
  }

  /** A swap that failed: put the original back, unless it landed all the same. `None` means it landed. */
  method RecoverSwap(fs: Fs, plan: Plan, finalPath: Path, stagedPath: Option<Path>, newSize: nat, trashPath: Path)
    returns (outcome: Option<Outcome>, guessed: bool)
    requires AfterSwap(fs, plan, trashPath, finalPath, false) && finalPath.Media?
    requires InTrash(plan, trashPath) && trashPath != plan.originalPath
    requires stagedPath.Some? ==> stagedPath.value.Staging? && stagedPath.value in fs.tokens
    modifies fs`names, fs`content, fs`own, fs`tokens, fs`trace
    ensures old(fs.trace) <= fs.trace && old(fs.tokens) <= fs.tokens
    ensures outcome.Some? ==> Settled(fs, plan, finalPath, outcome.value)
    ensures outcome.None? ==> AfterSwap(fs, plan, trashPath, finalPath, false) && (!guessed ==> finalPath in fs.Visible())
  {
    hide SoundIn, Harmless, Recoverable, Rely, VisibleOf;
    var landed;
    var answers;
    landed, guessed, answers := SwapLanded(fs, plan, stagedPath, finalPath, newSize, trashPath);
    if !landed {
      var restored := RestoreOriginal(fs, plan, trashPath);
      SettledHome(fs, plan, finalPath, if restored then plan.originalPath else trashPath);
      return Some(Output(2, plan.originalPath, false)), false;
    }
    var linked := fs.Lstat(finalPath);
    SettledThere(fs, plan, finalPath, trashPath, 2, guessed);
    outcome := if linked.Success? && linked.value.nlink > 1 then Some(Output(2, finalPath, guessed)) else None;
  }

  /** The swap, with the original already in trash at `trashPath`. */
  method SwapOrRestore(fs: Fs, plan: Plan, finalPath: Path, staged: Option<Staged>, newSize: nat,
                       allowCrossDevice: bool, trashPath: Path)
    returns (outcome: Outcome)
    requires Ready(fs, plan, trashPath) && InTrash(plan, trashPath) && trashPath != plan.originalPath
    requires finalPath.Media? && (finalPath !in fs.Visible() || finalPath == plan.newPath)
    requires staged.Some? ==>
      && staged.value.path.Staging? && staged.value.path !in plan.extras && staged.value.path in fs.tokens
      && staged.value.path in fs.Visible() && fs.Visible()[staged.value.path] in fs.news
    modifies fs`names, fs`content, fs`own, fs`news, fs`tokens, fs`trace
    ensures Settled(fs, plan, finalPath, outcome) && old(fs.trace) <= fs.trace
  {
    hide SoundIn, Harmless, Recoverable, Rely, VisibleOf;
    var swapped, stagedPath := SwapIntoPlace(fs, plan, finalPath, staged, allowCrossDevice, trashPath);
    var guessed := false;
    if swapped.Failure? {
      var settled;
      settled, guessed := RecoverSwap(fs, plan, finalPath, stagedPath, newSize, trashPath);
      if settled.Some? { return settled.value; }
    }
    var _ := fs.Lstat(finalPath);
    var companionsMoved: bool := *;
    SettledThere(fs, plan, finalPath, trashPath, if companionsMoved then 1 else 2, guessed);
    outcome := Output(if companionsMoved then 1 else 2, finalPath, guessed);
  }

  /** With the new file staged (or not stageable): move the original to trash, then swap. */
  method TrashAndSwap(fs: Fs, plan: Plan, finalPath: Path, staged: Option<Staged>, newSize: nat, nowMs: nat, allowCrossDevice: bool)
    returns (outcome: Outcome)
    requires Ready(fs, plan, plan.originalPath) && finalPath == ReplacementPathFor(plan.originalPath, plan.newPath)
    requires finalPath !in {plan.originalPath, plan.newPath} ==> finalPath !in fs.Visible()
    requires staged.Some? ==>
      && staged.value.path.Staging? && staged.value.path !in plan.extras && staged.value.path in fs.tokens
      && staged.value.path in fs.Visible() && fs.Visible()[staged.value.path] in fs.news
    modifies fs`names, fs`content, fs`own, fs`news, fs`tokens, fs`trace
    ensures Settled(fs, plan, finalPath, outcome) && old(fs.trace) <= fs.trace
  {
    hide SoundIn, Harmless, Recoverable, Rely, VisibleOf;
    var trashed := MoveToTrash(fs, plan, nowMs);
    if trashed.Success? {
      outcome := SwapOrRestore(fs, plan, finalPath, staged, newSize, allowCrossDevice, trashed.value);
    } else {
      assert Ready(fs, plan, plan.originalPath);
      if staged.Some? { Discard(fs, staged.value.path, plan, plan.originalPath); }
      var _ := fs.Lstat(plan.originalPath);
      SettledHome(fs, plan, finalPath, plan.originalPath);
      outcome := Output(2, plan.originalPath, false);
    }
  }

  /** Stage first, then record the swap, then move the original to trash, then swap. */
  method StageAndSwap(fs: Fs, plan: Plan, finalPath: Path, newSize: nat, nowMs: nat, allowCrossDevice: bool)
    returns (outcome: Outcome)
    requires Ready(fs, plan, plan.originalPath) && finalPath == ReplacementPathFor(plan.originalPath, plan.newPath)
    requires finalPath !in {plan.originalPath, plan.newPath} ==> finalPath !in fs.Visible()
    modifies fs`names, fs`content, fs`own, fs`news, fs`tokens, fs`trace
    ensures Settled(fs, plan, finalPath, outcome) && old(fs.trace) <= fs.trace
  {
    hide SoundIn, Harmless, Recoverable, Rely, VisibleOf;
    var staged: Option<Staged> := None;
    if finalPath != plan.newPath {
      var prepared := StageReplacement(fs, plan, finalPath, newSize, allowCrossDevice);
      if prepared.Failure? {
        SettledHome(fs, plan, finalPath, plan.originalPath);
        return Output(2, plan.originalPath, false);
      }
      staged := prepared.value;
    }
    var recorded: bool, trashDirMade: bool := *, *;
    if trashDirMade && (staged.None? || recorded) {
      outcome := TrashAndSwap(fs, plan, finalPath, staged, newSize, nowMs, allowCrossDevice);
    } else {
      if staged.Some? { Discard(fs, staged.value.path, plan, plan.originalPath); }
      SettledHome(fs, plan, finalPath, plan.originalPath);
      outcome := Output(2, plan.originalPath, false);
    }
  }

  /**
    The node. `Valid()` at the end speaks of every call made on the way: each left the original
    under its own path or in trash, lost no replacement, and touched nobody else's name.
   */
  method ReplaceOriginalFile(fs: Fs, plan: Plan, nowMs: nat, allowHardlinked: bool, allowCrossDevice: bool)
    returns (outcome: Outcome)
    requires fs.Valid() && plan == fs.plan && plan.originalPath.Media? && plan.newPath.Media?
    requires plan.originalPath in fs.Visible() && fs.Visible()[plan.originalPath] == plan.original
    requires plan.newPath in fs.Visible() && fs.Visible()[plan.newPath] in fs.news
    requires plan.originalPath !in plan.extras && plan.newPath !in plan.extras
    modifies fs
    ensures fs.Valid() && fs.plan == plan && old(fs.trace) <= fs.trace
    ensures Recoverable(plan, fs.Now())
    ensures outcome.Output? ==> outcome.number in {1, 2}
    ensures outcome.Output? ==> outcome.path in {plan.originalPath, ReplacementPathFor(plan.originalPath, plan.newPath)}
    ensures plan.newPath == plan.originalPath ==>
      outcome == Output(1, plan.originalPath, false) && fs.Now() == old(fs.Now())
    ensures outcome.Output? && outcome.number == 1 && !outcome.guessed && plan.newPath != plan.originalPath ==>
      && outcome.path == ReplacementPathFor(plan.originalPath, plan.newPath)
      && Installed(fs, plan, outcome.path) && IntactInTrash(fs, plan)
    ensures outcome.Output? && outcome.number == 2 && outcome.path == plan.originalPath ==>
      InPlace(fs, plan) || IntactInTrash(fs, plan)
    ensures outcome.Output? && outcome.path != plan.originalPath && !outcome.guessed ==>
      Installed(fs, plan, outcome.path) && IntactInTrash(fs, plan)
  {
    hide SoundIn, Harmless, Recoverable, Rely, VisibleOf;
    SoundIsRecoverable(plan, fs.Now(), fs.own, fs.news, fs.tokens);
    if plan.newPath == plan.originalPath { return Output(1, plan.originalPath, false); }
    var finalPath := ReplacementPathFor(plan.originalPath, plan.newPath);
    var decision := Preflight(fs, plan, finalPath, allowHardlinked);
    SoundIsRecoverable(plan, fs.Now(), fs.own, fs.news, fs.tokens);
    SeenOriginal(fs, plan, plan.originalPath);
    match decision
    case Refuse => outcome := Output(2, plan.originalPath, false);
    case Reject => outcome := Rejected;
    case Go(newSize) =>
      outcome := StageAndSwap(fs, plan, finalPath, newSize, nowMs, allowCrossDevice);
      SoundIsRecoverable(plan, fs.Now(), fs.own, fs.news, fs.tokens);
  }
}
