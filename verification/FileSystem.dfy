/**
  A small filesystem as one worker of the Replace Original File node sees it: names bound to
  inodes, inodes to bytes. Every call may fail with no effect (a copy may also fail half way),
  and before every call the other users of the filesystem may act, within `Rely`.

  Every call this worker makes is recorded in `trace`. `Valid()` says that each recorded call
  left the world recoverable and touched nobody else's name, so a worker that dies after any
  call at all leaves a world with both properties.
 */
module FileSystem {
  import opened Wrappers

  type Ino = nat

  /** Media names are the user's; the other three are trawlarr's own hidden working names. */
  datatype Path =
    | Media(dir: string, stem: string, ext: string)
    | Reserve(dest: Path)
    | Displaced(dest: Path, id: nat)
    | Staging(folder: string, id: nat, suffix: string)

  predicate Hidden(p: Path) {
    p.Reserve? || p.Displaced?
  }

  /** The error codes the node tells apart; `NoCode` is an `Error` it raised itself. */
  datatype Code = EEXIST | ENOENT | EXDEV | LinkUnsupported | OtherCode | NoCode

  datatype World = World(names: map<Path, Ino>, content: map<Ino, string>)

  /** What `lstat` and `stat` say about a name. */
  datatype Stats = Stats(ino: Ino, size: nat, nlink: nat)

  /** One call of this worker: the worlds before and after it, and the inodes that were its own. */
  datatype Call = Call(before: World, after: World, own: set<Ino>, reclaim: bool)

  /** What must survive: which inode is the original, where it was, and every other name of ours. */
  datatype Plan = Plan(
    original: Ino, originalPath: Path, oldBytes: string,
    newPath: Path, newBytes: string,
    trashDir: string,
    extras: map<Path, Ino>)

  predicate InTrash(plan: Plan, p: Path) {
    p.Media? && p.dir == plan.trashDir
  }

  /** The names in `names` that are bound to an inode of `own` and are not hidden. */
  function VisibleOf(names: map<Path, Ino>, own: set<Ino>): (m: map<Path, Ino>) {
    map p | p in names && !Hidden(p) && names[p] in own :: names[p]
  }

  /** The original is under its own path or in trash; the replacement has a name; extras are intact. */
  ghost predicate Recoverable(plan: Plan, w: World) {
    && (exists p :: p in w.names && w.names[p] == plan.original && (p == plan.originalPath || InTrash(plan, p)))
    && plan.original in w.content && w.content[plan.original] == plan.oldBytes
    && (exists p :: p in w.names && w.names[p] in w.content && w.content[w.names[p]] == plan.newBytes)
    && (forall p :: p in plan.extras ==> p in w.names && w.names[p] == plan.extras[p])
  }

  /** `Recoverable`, read off this worker's own visible names. */
  ghost predicate Kept(plan: Plan, visible: map<Path, Ino>, news: set<Ino>) {
    && (exists p :: p in visible && visible[p] == plan.original && (p == plan.originalPath || InTrash(plan, p)))
    && (exists p :: p in visible && visible[p] in news)
    && (forall p :: p in plan.extras ==> p in visible && visible[p] == plan.extras[p])
  }

  /**
    The call neither removed nor rebound a name bound to somebody else's inode. Displacing an
    abandoned reservation is the one exception, and it reaches reservation names only.
   */
  ghost predicate Honest(c: Call) {
    forall p :: p in c.before.names && c.before.names[p] !in c.own && (c.reclaim ==> !Hidden(p)) ==>
      p in c.after.names && c.after.names[p] == c.before.names[p]
  }

  /**
    What everyone else is relied on to respect: the names and bytes of this worker's inodes, a
    destination it holds the reservation of, and the names only it has drawn (random ids).
   */
  predicate Rely(w: World, w': World, own: set<Ino>, tokens: set<Path>) {
    && (forall p :: p in w.names && w.names[p] in own ==> p in w'.names && w'.names[p] == w.names[p])
    && (forall p :: p in w'.names && w'.names[p] in own ==> p in w.names && w.names[p] == w'.names[p])
    && (forall i :: i in own ==> i in w.content && i in w'.content && w'.content[i] == w.content[i])
    && (forall r :: r in w.names && r.Reserve? && w.names[r] in own && r.dest !in w.names ==> r.dest !in w'.names)
    && (forall x :: x in tokens && x !in w.names ==> x !in w'.names)
    && (forall p :: p in w'.names ==> w'.names[p] in w'.content)
  }

  lemma KeptIsRecoverable(plan: Plan, w: World, own: set<Ino>, news: set<Ino>)
    requires Kept(plan, VisibleOf(w.names, own), news)
    requires plan.original in w.content && w.content[plan.original] == plan.oldBytes
    requires forall i :: i in news ==> i in w.content && w.content[i] == plan.newBytes
    ensures Recoverable(plan, w)
  {
    var visible := VisibleOf(w.names, own);
    var p :| p in visible && visible[p] in news;
    assert w.content[w.names[p]] == plan.newBytes;
  }

  /**
    While nobody else acts between this worker's calls, a name that is bound to somebody else's
    inode before the first of them is bound to it after the last.
   */
  lemma {:induction false} BystandersKept(trace: seq<Call>, own: set<Ino>, p: Path)
    requires |trace| > 0 && !Hidden(p)
    requires forall k :: 0 <= k < |trace| ==> Honest(trace[k]) && trace[k].own <= own
    requires forall k :: 0 < k < |trace| ==> trace[k].before == trace[k - 1].after
    requires p in trace[0].before.names && trace[0].before.names[p] !in own
    ensures var last := trace[|trace| - 1].after;
      p in last.names && last.names[p] == trace[0].before.names[p]
  {
    if |trace| > 1 {
      BystandersKept(trace[..|trace| - 1], own, p);
    }
  }

  /** What `lstat` may say of a name: what it is bound to, or a failure; `ENOENT` only of a name that is not there. */
  predicate MayAnswer(w: World, p: Path, r: Result<Stats, Code>) {
    match r
    case Success(stats) =>
      p in w.names && w.names[p] in w.content && stats.ino == w.names[p] && stats.size == |w.content[w.names[p]]|
      && stats.nlink == |set q | q in w.names && w.names[q] == w.names[p]|
    case Failure(code) => code == ENOENT ==> p !in w.names
  }

  // ---- One call's effect on names -----------------------------------------------------

  /** What a worker knows of its own: bytes for every inode, the new content where it says, staging names its own. */
  ghost predicate SoundIn(plan: Plan, w: World, own: set<Ino>, news: set<Ino>, tokens: set<Path>) {
    && (forall i :: i in own ==> i in w.content)
    && (forall p :: p in w.names ==> w.names[p] in w.content)
    && news <= own
    && (forall i :: i in news ==> w.content[i] == plan.newBytes)
    && plan.original in own && w.content[plan.original] == plan.oldBytes
    && (forall t :: t in tokens && t in w.names && t.Staging? ==> w.names[t] in own)
  }

  /** Every recorded call left the world recoverable and touched nobody else's name. */
  ghost predicate Harmless(plan: Plan, trace: seq<Call>) {
    forall c :: c in trace ==> Honest(c) && Recoverable(plan, c.after)
  }

  lemma OneMoreCall(plan: Plan, trace: seq<Call>, c: Call)
    requires Harmless(plan, trace) && Honest(c) && Recoverable(plan, c.after)
    ensures Harmless(plan, trace + [c])
  {
    hide Honest, Recoverable;
  }

  lemma SoundIsRecoverable(plan: Plan, w: World, own: set<Ino>, news: set<Ino>, tokens: set<Path>)
    requires SoundIn(plan, w, own, news, tokens) && Kept(plan, VisibleOf(w.names, own), news)
    ensures Recoverable(plan, w)
  {
    hide Kept, Recoverable, VisibleOf;
    KeptIsRecoverable(plan, w, own, news);
  }

  lemma NewsHold(plan: Plan, w: World, own: set<Ino>, news: set<Ino>, tokens: set<Path>, ino: Ino)
    requires SoundIn(plan, w, own, news, tokens) && ino in news
    ensures ino in w.content && w.content[ino] == plan.newBytes
  {
  }

  function Bind(w: World, p: Path, ino: Ino): World {
    World(w.names[p := ino], w.content)
  }

  function Unbind(w: World, p: Path): World {
    World(w.names - {p}, w.content)
  }

  lemma BindSound(plan: Plan, w: World, own: set<Ino>, news: set<Ino>, tokens: set<Path>, p: Path, ino: Ino)
    requires SoundIn(plan, w, own, news, tokens) && ino in w.content && (p in tokens && p.Staging? ==> ino in own)
    ensures SoundIn(plan, Bind(w, p, ino), own, news, tokens)
  {
  }

  lemma UnbindSound(plan: Plan, w: World, own: set<Ino>, news: set<Ino>, tokens: set<Path>, p: Path)
    requires SoundIn(plan, w, own, news, tokens)
    ensures SoundIn(plan, Unbind(w, p), own, news, tokens)
  {
  }

  /** A new inode of this worker's, whose bytes are the new content if it is counted among `newer`. */
  lemma InodeSound(
      plan: Plan, w: World, own: set<Ino>, news: set<Ino>, tokens: set<Path>, ino: Ino, bytes: string, newer: set<Ino>)
    requires SoundIn(plan, w, own, news, tokens) && ino !in w.content
    requires newer == news || (newer == news + {ino} && bytes == plan.newBytes)
    ensures SoundIn(plan, World(w.names, w.content[ino := bytes]), own + {ino}, newer, tokens)
    ensures VisibleOf(w.names, own + {ino}) == VisibleOf(w.names, own)
  {
  }

  lemma VisibleBind(names: map<Path, Ino>, own: set<Ino>, p: Path, ino: Ino)
    ensures Hidden(p) ==> VisibleOf(names[p := ino], own) == VisibleOf(names, own)
    ensures !Hidden(p) && ino in own ==> VisibleOf(names[p := ino], own) == VisibleOf(names, own)[p := ino]
  {
    hide Hidden;
  }

  lemma VisibleUnbind(names: map<Path, Ino>, own: set<Ino>, p: Path)
    ensures VisibleOf(names - {p}, own) == VisibleOf(names, own) - {p}
    ensures Hidden(p) ==> VisibleOf(names - {p}, own) == VisibleOf(names, own)
  {
    hide Hidden;
  }

  lemma VisibleHas(names: map<Path, Ino>, own: set<Ino>, p: Path)
    ensures p in VisibleOf(names, own) <==> p in names && !Hidden(p) && names[p] in own
    ensures p in VisibleOf(names, own) ==> VisibleOf(names, own)[p] == names[p]
  {
  }

  lemma InodeOf(plan: Plan, w: World, own: set<Ino>, news: set<Ino>, tokens: set<Path>, p: Path)
    requires SoundIn(plan, w, own, news, tokens) && p in w.names
    ensures w.names[p] in w.content
  {
  }

  /** A call that gives a free name to an inode takes nothing from anybody. */
  lemma BindHonest(w: World, w': World, own: set<Ino>, p: Path, ino: Ino, reclaim: bool)
    requires p !in w.names && w'.names == w.names[p := ino]
    ensures Honest(Call(w, w', own, reclaim))
  {
  }

  /** Nor does one that takes away a name of this worker's own, or a hidden name it reclaims. */
  lemma UnbindHonest(w: World, w': World, own: set<Ino>, p: Path, reclaim: bool)
    requires p in w.names && (w.names[p] in own || (reclaim && Hidden(p))) && w'.names == w.names - {p}
    ensures Honest(Call(w, w', own, reclaim))
  {
    hide Hidden;
  }

  /** Nor one that does both. */
  lemma MoveHonest(w: World, w': World, own: set<Ino>, from: Path, to: Path, reclaim: bool)
    requires from in w.names && to !in w.names && (w.names[from] in own || (reclaim && Hidden(from)))
    requires w'.names == (w.names - {from})[to := w.names[from]]
    ensures Honest(Call(w, w', own, reclaim))
  {
    hide Hidden;
  }

  lemma RelySame(plan: Plan, w: World, own: set<Ino>, news: set<Ino>, tokens: set<Path>)
    requires SoundIn(plan, w, own, news, tokens)
    ensures Rely(w, w, own, tokens)
  {
  }

  /** What others do within `Rely` changes nothing a worker sees of its own. */
  lemma RelyKeeps(plan: Plan, w: World, w': World, own: set<Ino>, news: set<Ino>, tokens: set<Path>)
    requires SoundIn(plan, w, own, news, tokens) && Rely(w, w', own, tokens)
    ensures SoundIn(plan, w', own, news, tokens) && VisibleOf(w'.names, own) == VisibleOf(w.names, own)
  {
  }

  /** Within `Rely` a name drawn at random stays free, an own name stays, and so does a free destination that is held. */
  lemma RelySpares(w: World, w': World, own: set<Ino>, tokens: set<Path>, p: Path)
    requires Rely(w, w', own, tokens)
    ensures p in tokens && p !in w.names ==> p !in w'.names
    ensures p in w.names && w.names[p] in own ==> p in w'.names && w'.names[p] == w.names[p]
    ensures Reserve(p) in w.names && w.names[Reserve(p)] in own && p !in w.names ==> p !in w'.names
  {
    if Reserve(p) in w.names && w.names[Reserve(p)] in own && p !in w.names { assert Reserve(p).dest !in w'.names; }
  }

  /** Adding a name loses nothing. */
  lemma KeptByMore(plan: Plan, v: map<Path, Ino>, to: Path, ino: Ino, news: set<Ino>, newer: set<Ino>)
    requires Kept(plan, v, news) && to !in v && news <= newer
    ensures Kept(plan, v[to := ino], newer)
  {
    var v' := v[to := ino];
    var p :| p in v && v[p] == plan.original && (p == plan.originalPath || InTrash(plan, p));
    assert p in v' && v'[p] == plan.original;
    var q :| q in v && v[q] in news;
    assert q in v' && v'[q] in newer;
  }

  class Fs {
    var names: map<Path, Ino>
    var content: map<Ino, string>
    /** The inodes this worker owns: the original, the new file, and what it creates. */
    var own: set<Ino>
    /** Names made from a random id this worker drew. */
    var tokens: set<Path>
    ghost var plan: Plan
    /** The own inodes that hold the whole new content. */
    ghost var news: set<Ino>
    ghost var trace: seq<Call>

    function Now(): World
      reads this
    {
      World(names, content)
    }

    /** This worker's visible names. All contracts below are stated on this map. */
    function Visible(): map<Path, Ino>
      reads this
    {
      VisibleOf(names, own)
    }

    ghost predicate Sound()
      reads this
    {
      SoundIn(plan, Now(), own, news, tokens)
    }

    ghost predicate Valid()
      reads this
    {
      && Sound()
      && Kept(plan, Visible(), news)
      && Harmless(plan, trace)
    }

    /** Whether this worker holds the reservation of `dest`. */
    ghost predicate Holds(dest: Path)
      reads this
    {
      Reserve(dest) in names && names[Reserve(dest)] in own
    }

    /** The others act. A proposed world that breaks `Rely` is not one they can reach. */
    method Interfere()
      requires Valid()
      modifies this`names, this`content
      ensures Valid() && Visible() == old(Visible())
      ensures Rely(old(Now()), Now(), own, tokens)
    {
      hide SoundIn, Kept, Harmless, VisibleOf;
      var w': World := *;
      if Rely(Now(), w', own, tokens) {
        RelyKeeps(plan, Now(), w', own, news, tokens);
        names, content := w'.names, w'.content;
        assert Now() == w';
      } else {
        RelySame(plan, Now(), own, news, tokens);
      }
    }

    /** Record a call that has just taken effect. */
    ghost method Record(before: World, reclaim: bool)
      requires Sound() && Kept(plan, Visible(), news) && Harmless(plan, trace)
      requires Honest(Call(before, Now(), own, reclaim))
      modifies this`trace
      ensures Valid()
      ensures trace == old(trace) + [Call(before, Now(), own, reclaim)]
    {
      hide SoundIn, Kept, Harmless, Honest, Recoverable, VisibleOf;
      SoundIsRecoverable(plan, Now(), own, news, tokens);
      OneMoreCall(plan, trace, Call(before, Now(), own, reclaim));
      trace := trace + [Call(before, Now(), own, reclaim)];
    }

    /** A fresh name from a random id: nobody else has it, and nobody else will draw it. */
    method Draw(p: Path) returns (ok: bool)
      requires Valid()
      modifies this`tokens, this`names, this`content
      ensures Valid() && Visible() == old(Visible())
      ensures old(tokens) <= tokens
      ensures ok ==> p in tokens && p !in names
    {
      hide Kept, Harmless, VisibleOf;
      Interfere();
      ok := p !in names;
      if ok { tokens := tokens + {p}; }
    }

    /** `link(2)`: a second name for an own file, created only where no name is. */
    method Link(from: Path, to: Path) returns (r: Result<(), Code>)
      requires Valid() && from in Visible() && !Hidden(to)
      modifies this`names, this`content, this`trace
      ensures Valid()
      ensures old(trace) <= trace
      ensures r.Success? ==> to !in old(Visible()) && Visible() == old(Visible())[to := old(Visible())[from]]
      ensures r.Failure? ==> Visible() == old(Visible())
      ensures r.Failure? && to in tokens && to !in old(names) ==> to !in names
    {
      hide SoundIn, Kept, Harmless, Honest, VisibleOf, Recoverable, Rely;
      ghost var v := Visible();
      Interfere();
      RelySpares(old(Now()), Now(), own, tokens, to);
      var fails: bool, code: Code := *, *;
      if fails { return Failure(code); }
      if to in names { return Failure(EEXIST); }
      VisibleHas(names, own, from);
      VisibleHas(names, own, to);
      KeptByMore(plan, v, to, v[from], news, news);
      r := BindName(to, from, v);
    }

    /** The effect of a link. */
    method BindName(to: Path, from: Path, ghost v: map<Path, Ino>) returns (r: Result<(), Code>)
      requires Sound() && Harmless(plan, trace) && v == Visible() && from in names && names[from] in own
      requires to !in names && !Hidden(to) && Kept(plan, v[to := names[from]], news)
      modifies this`names, this`trace
      ensures Valid() && old(trace) <= trace && r.Success?
      ensures Visible() == v[to := old(names)[from]]
    {
      hide SoundIn, Kept, Harmless, Honest, VisibleOf, Recoverable, Rely;
      ghost var before := Now();
      var ino := names[from];
      InodeOf(plan, before, own, news, tokens, from);
      BindSound(plan, before, own, news, tokens, to, ino);
      VisibleBind(names, own, to, ino);
      names := names[to := ino];
      assert Now() == Bind(before, to, ino);
      BindHonest(before, Now(), own, to, ino, false);
      Record(before, false);
      r := Success(());
    }

    /** `unlink(2)` of an own visible name. */
    method Unlink(p: Path) returns (r: Result<(), Code>)
      requires Valid() && p in Visible() && Kept(plan, Visible() - {p}, news)
      modifies this`names, this`content, this`trace
      ensures Valid()
      ensures old(trace) <= trace
      ensures Visible() == if r.Success? then old(Visible()) - {p} else old(Visible())
    {
      hide SoundIn, Kept, Harmless, Honest, VisibleOf, Recoverable, Rely;
      ghost var v := Visible();
      Interfere();
      var fails: bool, code: Code := *, *;
      if fails { return Failure(code); }
      VisibleHas(names, own, p);
      VisibleUnbind(names, own, p);
      Remove(p, false);
      r := Success(());
    }

    /** The effect of an unlink: of an own name, or of a hidden one that is reclaimed. */
    method Remove(p: Path, reclaim: bool)
      requires Sound() && Harmless(plan, trace) && Kept(plan, VisibleOf(names - {p}, own), news)
      requires p in names && (names[p] in own || (reclaim && Hidden(p)))
      modifies this`names, this`trace
      ensures Valid() && old(trace) <= trace && names == old(names) - {p}
    {
      hide SoundIn, Kept, Harmless, Honest, VisibleOf, Recoverable, Rely;
      ghost var before := Now();
      UnbindSound(plan, before, own, news, tokens, p);
      names := names - {p};
      assert Now() == Unbind(before, p);
      UnbindHonest(before, Now(), own, p, reclaim);
      Record(before, reclaim);
    }

    /**
      `unlink(2)` of a hidden name. Removing a name of somebody else's is allowed only for a
      reservation this worker has just displaced.
     */
    method UnlinkHidden(p: Path, reclaim: bool) returns (r: Result<(), Code>)
      requires Valid() && Hidden(p)
      requires reclaim || (p in names && names[p] in own)
      modifies this`names, this`content, this`trace
      ensures Valid() && Visible() == old(Visible())
      ensures old(trace) <= trace
    {
      hide SoundIn, Kept, Harmless, Honest, VisibleOf, Recoverable, Rely;
      Interfere();
      RelySpares(old(Now()), Now(), own, tokens, p);
      var fails: bool, code: Code := *, *;
      if fails { return Failure(code); }
      if p !in names { return Failure(ENOENT); }
      VisibleUnbind(names, own, p);
      Remove(p, reclaim);
      r := Success(());
    }

    /**
      `rename(2)` of an own file. It replaces its destination silently, so the caller must know
      that the destination has no name and that nobody else can give it one.
     */
    method Rename(from: Path, to: Path) returns (r: Result<(), Code>)
      requires Valid() && from in Visible() && !Hidden(to) && from != to
      requires to !in names && Holds(to)
      requires Kept(plan, (Visible() - {from})[to := Visible()[from]], news)
      modifies this`names, this`content, this`trace
      ensures Valid()
      ensures old(trace) <= trace
      ensures Visible() ==
        if r.Success? then (old(Visible()) - {from})[to := old(Visible())[from]] else old(Visible())
      ensures forall x :: old(Holds(x)) ==> Reserve(x) in names && names[Reserve(x)] == old(names)[Reserve(x)]
    {
      hide SoundIn, Kept, Harmless, Honest, VisibleOf, Recoverable, Rely;
      ghost var v := Visible();
      Interfere();
      RelySpares(old(Now()), Now(), own, tokens, to);
      forall x | old(Holds(x)) ensures Reserve(x) in names && names[Reserve(x)] == old(names)[Reserve(x)] {
        RelySpares(old(Now()), Now(), own, tokens, Reserve(x));
      }
      var fails: bool, code: Code := *, *;
      if fails { return Failure(code); }
      VisibleHas(names, own, from);
      VisibleUnbind(names, own, from);
      VisibleBind(names - {from}, own, to, names[from]);
      MoveName(from, to, false);
      r := Success(());
    }

    /** The effect of a rename to a free name. */
    method MoveName(from: Path, to: Path, reclaim: bool)
      requires Sound() && Harmless(plan, trace) && from in names && to !in names
      requires Kept(plan, VisibleOf((names - {from})[to := names[from]], own), news)
      requires names[from] in own || (reclaim && Hidden(from) && to.Displaced?)
      modifies this`names, this`trace
      ensures Valid() && old(trace) <= trace && names == (old(names) - {from})[to := old(names)[from]]
    {
      hide SoundIn, Kept, Harmless, Honest, VisibleOf, Recoverable, Rely;
      ghost var before := Now();
      var ino := names[from];
      InodeOf(plan, before, own, news, tokens, from);
      UnbindSound(plan, before, own, news, tokens, from);
      BindSound(plan, Unbind(before, from), own, news, tokens, to, ino);
      names := (names - {from})[to := ino];
      assert Now() == Bind(Unbind(before, from), to, ino);
      MoveHonest(before, Now(), own, from, to, reclaim);
      Record(before, reclaim);
    }

    /** `rename(2)` of an abandoned reservation to a name nobody else has. */
    method DisplaceReservation(dest: Path, to: Path) returns (r: Result<(), Code>)
      requires Valid() && to.Displaced? && to in tokens && to !in names
      modifies this`names, this`content, this`trace
      ensures Valid() && Visible() == old(Visible())
      ensures old(trace) <= trace
    {
      hide SoundIn, Kept, Harmless, Honest, VisibleOf, Recoverable, Rely;
      Interfere();
      RelySpares(old(Now()), Now(), own, tokens, to);
      var fails: bool, code: Code := *, *;
      if fails { return Failure(code); }
      if Reserve(dest) !in names { return Failure(ENOENT); }
      VisibleUnbind(names, own, Reserve(dest));
      VisibleBind(names - {Reserve(dest)}, own, to, names[Reserve(dest)]);
      MoveName(Reserve(dest), to, true);
      r := Success(());
    }

    /** `open(2)` with `O_CREAT|O_EXCL`, for a reservation. */
    method OpenExclusive(dest: Path) returns (r: Result<(), Code>)
      requires Valid()
      modifies this`names, this`content, this`own, this`trace
      ensures Valid() && Visible() == old(Visible())
      ensures old(trace) <= trace
      ensures r.Success? ==> Holds(dest)
    {
      hide SoundIn, Kept, Harmless, Honest, VisibleOf, Recoverable, Rely;
      Interfere();
      var fails: bool, code: Code := *, *;
      var ino: Ino := *;
      if fails || ino in content { return Failure(code); }
      if Reserve(dest) in names { return Failure(EEXIST); }
      InodeSound(plan, Now(), own, news, tokens, ino, "", news);
      VisibleBind(names, own + {ino}, Reserve(dest), ino);
      MakeFile(Reserve(dest), ino, "", news);
      r := Success(());
    }

    /** The effect of creating a file: a new inode of this worker's, and its first name. `was` is `news` before it. */
    method MakeFile(p: Path, ino: Ino, bytes: string, ghost was: set<Ino>)
      requires SoundIn(plan, Now(), own, was, tokens) && Harmless(plan, trace) && p !in names && ino !in content
      requires news == was || (news == was + {ino} && bytes == plan.newBytes)
      requires Kept(plan, VisibleOf(names[p := ino], own + {ino}), news)
      modifies this`names, this`content, this`own, this`trace
      ensures Valid() && old(trace) <= trace
      ensures names == old(names)[p := ino] && own == old(own) + {ino}
    {
      hide SoundIn, Kept, Harmless, Honest, VisibleOf, Recoverable, Rely;
      ghost var before := Now();
      InodeSound(plan, before, own, was, tokens, ino, bytes, news);
      BindSound(plan, World(names, content[ino := bytes]), own + {ino}, news, tokens, p, ino);
      content := content[ino := bytes];
      names := names[p := ino];
      own := own + {ino};
      assert Now() == Bind(World(before.names, content), p, ino);
      BindHonest(before, Now(), own, p, ino, false);
      Record(before, false);
    }

    /** `copyFile` onto a name of our own. A failing copy may leave part of the file behind. */
    method Copy(from: Path, to: Path) returns (r: Result<(), Code>)
      requires Valid() && from in Visible() && Visible()[from] in news
      requires to.Staging? && to in tokens && to !in names
      modifies this`names, this`content, this`own, this`news, this`trace
      ensures Valid()
      ensures old(trace) <= trace
      ensures news >= old(news) && to !in old(Visible())
      ensures r.Success? ==>
        to in Visible() && Visible()[to] in news && Visible() == old(Visible())[to := Visible()[to]]
      ensures r.Failure? ==>
        Visible() == old(Visible()) || (to in Visible() && Visible() == old(Visible())[to := Visible()[to]])
    {
      Interfere();
      var fails: bool, code: Code := *, *;
      var ino: Ino, whole: bool, part: string := *, *, *;
      if fails || ino in content { return Failure(code); }
      if whole {
        Create(to, ino, content[names[from]], news + {ino});
        r := Success(());
      } else {
        Create(to, ino, part, news);
        r := Failure(code);
      }
    }

    /** The effect of a copy: a fresh inode, which holds the new content whenever `newer` says so. */
    method Create(to: Path, ino: Ino, bytes: string, ghost newer: set<Ino>)
      requires Valid() && to.Staging? && to !in names && ino !in content
      requires newer == news || (newer == news + {ino} && bytes == plan.newBytes)
      modifies this`names, this`content, this`own, this`news, this`trace
      ensures Valid() && news == newer
      ensures old(trace) <= trace
      ensures to !in old(Visible()) && Visible() == old(Visible())[to := ino]
    {
      hide SoundIn, Kept, Harmless, Honest, VisibleOf, Recoverable, Rely;
      ghost var v := Visible();
      InodeSound(plan, Now(), own, news, tokens, ino, bytes, newer);
      VisibleHas(names, own, to);
      VisibleBind(names, own + {ino}, to, ino);
      KeptByMore(plan, v, to, ino, news, newer);
      ghost var was := news;
      news := newer;
      MakeFile(to, ino, bytes, was);
    }

    /** `lstat`: fails, finds nothing, or says what the name is bound to at that moment. */
    method Lstat(p: Path) returns (r: Result<Stats, Code>)
      requires Valid()
      modifies this`names, this`content
      ensures Valid() && Visible() == old(Visible())
      ensures Rely(old(Now()), Now(), own, tokens)
      ensures MayAnswer(Now(), p, r)
    {
      Interfere();
      var fails: bool, code: Code := *, *;
      if fails { return Failure(if code == ENOENT then OtherCode else code); }
      if p !in names { return Failure(ENOENT); }
      r := Success(Stats(names[p], |content[names[p]]|, |set q | q in names && names[q] == names[p]|));
    }
  }
}
