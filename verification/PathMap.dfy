/**
  Server paths and node paths. A node mounts the library somewhere else, so a path map translates
  both ways; the rules the validator enforces are what makes longest-prefix translation invertible.
 */
module PathMap {
  import opened Wrappers

  datatype Mapping = Mapping(serverPath: string, nodePath: string)

  datatype Direction = ToNode | ToServer {
    function Back(): Direction {
      if this == ToNode then ToServer else ToNode
    }
  }

  function From(e: Mapping, d: Direction): string {
    if d == ToNode then e.serverPath else e.nodePath
  }

  function To(e: Mapping, d: Direction): string {
    From(e, d.Back())
  }

  // ---- Paths -------------------------------------------------------------------------

  const SLASH: string := ['/']

  predicate Absolute(path: string) {
    path != [] && path[0] == '/'
  }

  function TrimTrailing(path: string): (r: string)
    ensures r <= path && (Absolute(path) ==> Absolute(r))
    ensures |r| > 1 ==> r[|r| - 1] != '/'
  {
    if |path| > 1 && path[|path| - 1] == '/' then TrimTrailing(path[..|path| - 1]) else path
  }

  predicate NoTrailingSlash(path: string) {
    |path| > 1 ==> path[|path| - 1] != '/'
  }

  /** Where the segment starting at `i` ends. */
  function SegmentEnd(path: string, i: nat): (j: nat)
    requires i <= |path|
    ensures i <= j <= |path|
    decreases |path| - i
  {
    if i == |path| || path[i] == '/' then i else SegmentEnd(path, i + 1)
  }

  /** A "." or ".." among the segments from `i` on. */
  predicate DotFrom(path: string, i: nat)
    requires i <= |path|
    decreases |path| - i
  {
    var j := SegmentEnd(path, i);
    || path[i..j] == ['.']
    || path[i..j] == ['.', '.']
    || (j < |path| && DotFrom(path, j + 1))
  }

  predicate Within(root: string, path: string) {
    || root == SLASH
    || path == root
    || (|root| < |path| && path[..|root|] == root && path[|root|] == '/')
  }

  /** `path` below `root`, without the slash between them. */
  function RelativeTo(root: string, path: string): string
    requires Within(root, path)
  {
    if path == root then []
    else if root == SLASH then (if path == [] then [] else path[1..])
    else path[|root| + 1..]
  }

  // ---- Validation --------------------------------------------------------------------

  /** What the saved map holds before it is checked: anything JSON can say. */
  datatype RawPath = Words(text: string) | NotText
  datatype RawEntry = RawEntry(serverPath: RawPath, nodePath: RawPath)
  datatype RawMap = NotAList | List(entries: seq<RawEntry>)

  datatype PathMapError =
    | MapIsNotAList
    | NotAbsolute(entry: nat, side: Direction)
    | DotSegment(entry: nat, side: Direction)
    | DuplicateServerPath(entry: nat)
    | DuplicateNodePath(entry: nat)
    | NestDifferently(outer: nat, inner: nat)
    | SuffixDiffers(outer: nat, inner: nat)

  function RawFrom(e: RawEntry, d: Direction): RawPath {
    if d == ToNode then e.serverPath else e.nodePath
  }

  predicate AbsoluteText(p: RawPath) {
    p.Words? && Absolute(p.text)
  }

  predicate Usable(p: RawPath) {
    AbsoluteText(p) && !DotFrom(p.text, 0)
  }

  predicate UsableEntry(e: RawEntry) {
    Usable(e.serverPath) && Usable(e.nodePath)
  }

  function Trimmed(p: RawPath): string {
    if p.Words? then TrimTrailing(p.text) else []
  }

  /** The first `n` entries as they would be stored. */
  function Stored(raw: seq<RawEntry>, n: nat): (m: seq<Mapping>)
    requires n <= |raw|
    ensures |m| == n
    ensures forall i :: 0 <= i < n ==> m[i] == Mapping(Trimmed(raw[i].serverPath), Trimmed(raw[i].nodePath))
  {
    if n == 0 then []
    else Stored(raw, n - 1) + [Mapping(Trimmed(raw[n - 1].serverPath), Trimmed(raw[n - 1].nodePath))]
  }

  /** No two entries start from one path. */
  predicate Distinct(m: seq<Mapping>, d: Direction) {
    forall i, j :: 0 <= i < j < |m| ==> From(m[i], d) != From(m[j], d)
  }

  predicate NestAlike(a: Mapping, b: Mapping) {
    Within(a.nodePath, b.nodePath) == Within(a.serverPath, b.serverPath)
  }

  predicate SameSuffix(a: Mapping, b: Mapping) {
    Within(a.serverPath, b.serverPath) && Within(a.nodePath, b.nodePath)
    ==> RelativeTo(a.serverPath, b.serverPath) == RelativeTo(a.nodePath, b.nodePath)
  }

  predicate Agree(a: Mapping, b: Mapping) {
    NestAlike(a, b) && SameSuffix(a, b)
  }

  predicate Consistent(m: seq<Mapping>) {
    forall i, j :: 0 <= i < |m| && 0 <= j < |m| && i != j ==> Agree(m[i], m[j])
  }

  /** Roots as the validator stores them. */
  predicate Sound(e: Mapping) {
    && Absolute(e.serverPath) && NoTrailingSlash(e.serverPath)
    && Absolute(e.nodePath) && NoTrailingSlash(e.nodePath)
  }

  predicate Rooted(m: seq<Mapping>) {
    forall i :: 0 <= i < |m| ==> Sound(m[i])
  }

  predicate Validated(m: seq<Mapping>) {
    Rooted(m) && Distinct(m, ToNode) && Distinct(m, ToServer) && Consistent(m)
  }

  predicate Acceptable(raw: RawMap) {
    && raw.List?
    && (forall i :: 0 <= i < |raw.entries| ==> UsableEntry(raw.entries[i]))
    && Validated(Stored(raw.entries, |raw.entries|))
  }

  predicate Repeats(raw: seq<RawEntry>, i: nat, d: Direction) {
    i < |raw| && exists j: nat :: j < i && Trimmed(RawFrom(raw[j], d)) == Trimmed(RawFrom(raw[i], d))
  }

  predicate Clash(raw: seq<RawEntry>, i: nat, j: nat, rule: (Mapping, Mapping) -> bool) {
    i < |raw| && j < |raw| && i != j && !rule(Stored(raw, |raw|)[i], Stored(raw, |raw|)[j])
  }

  /** What each refusal says of the map. */
  predicate Explains(raw: seq<RawEntry>, e: PathMapError) {
    match e
    case MapIsNotAList => false
    case NotAbsolute(i, d) => i < |raw| && !AbsoluteText(RawFrom(raw[i], d))
    case DotSegment(i, d) => i < |raw| && AbsoluteText(RawFrom(raw[i], d)) && DotFrom(RawFrom(raw[i], d).text, 0)
    case DuplicateServerPath(i) => Repeats(raw, i, ToNode)
    case DuplicateNodePath(i) => Repeats(raw, i, ToServer)
    case NestDifferently(i, j) => Clash(raw, i, j, NestAlike)
    case SuffixDiffers(i, j) => Clash(raw, i, j, SameSuffix)
  }

  method CheckAbsolute(entry: nat, side: Direction, path: RawPath) returns (r: Result<string, PathMapError>)
    ensures r.Success? <==> Usable(path)
    ensures r.Success? ==> r.value == Trimmed(path) && Absolute(r.value) && NoTrailingSlash(r.value)
    ensures r.Failure? ==> r.error == if AbsoluteText(path) then DotSegment(entry, side) else NotAbsolute(entry, side)
  {
    if !path.Words? || !Absolute(path.text) { return Failure(NotAbsolute(entry, side)); }
    if DotFrom(path.text, 0) { return Failure(DotSegment(entry, side)); }
    r := Success(TrimTrailing(path.text));
  }

  /** What passes the checks made on each entry as it is read. */
  predicate Listable(raw: seq<RawEntry>, n: nat)
    requires n <= |raw|
  {
    && (forall i :: 0 <= i < n ==> UsableEntry(raw[i]))
    && Rooted(Stored(raw, n)) && Distinct(Stored(raw, n), ToNode) && Distinct(Stored(raw, n), ToServer)
  }

  /** `seen` holds the paths stored so far on one side. */
  ghost predicate Collected(seen: set<string>, m: seq<Mapping>, d: Direction) {
    && (forall i :: 0 <= i < |m| ==> From(m[i], d) in seen)
    && (forall p :: p in seen ==> exists i :: 0 <= i < |m| && From(m[i], d) == p)
  }

  lemma OneMoreCollected(seen: set<string>, m: seq<Mapping>, e: Mapping, d: Direction)
    requires Collected(seen, m, d)
    ensures Collected(seen + {From(e, d)}, m + [e], d)
  {
    forall p | p in seen ensures exists i :: 0 <= i < |m + [e]| && From((m + [e])[i], d) == p {
      var i :| 0 <= i < |m| && From(m[i], d) == p;
      assert (m + [e])[i] == m[i];
    }
    assert (m + [e])[|m|] == e;
  }

  lemma OneMoreDistinct(m: seq<Mapping>, e: Mapping, d: Direction)
    requires Distinct(m, d) && forall i :: 0 <= i < |m| ==> From(m[i], d) != From(e, d)
    ensures Distinct(m + [e], d)
  {
  }

  lemma OneMoreListed(raw: seq<RawEntry>, k: nat)
    requires k < |raw| && Listable(raw, k) && UsableEntry(raw[k])
    requires forall i, d :: 0 <= i < k ==> From(Stored(raw, k)[i], d) != Trimmed(RawFrom(raw[k], d))
    ensures Listable(raw, k + 1)
  {
    var e := Mapping(Trimmed(raw[k].serverPath), Trimmed(raw[k].nodePath));
    assert Sound(e);
    hide TrimTrailing, DotFrom, Trimmed, Distinct;
    assert Stored(raw, k + 1) == Stored(raw, k) + [e];
    assert From(e, ToNode) == Trimmed(RawFrom(raw[k], ToNode)) && From(e, ToServer) == Trimmed(RawFrom(raw[k], ToServer));
    OneMoreDistinct(Stored(raw, k), e, ToNode);
    OneMoreDistinct(Stored(raw, k), e, ToServer);
  }

  /** One entry, against the paths already stored. */
  method CheckEntry(k: nat, e: RawEntry, seenServer: set<string>, seenNode: set<string>)
    returns (r: Result<Mapping, PathMapError>)
    ensures r.Success? <==> UsableEntry(e) && Trimmed(e.serverPath) !in seenServer && Trimmed(e.nodePath) !in seenNode
    ensures r.Success? ==> r.value == Mapping(Trimmed(e.serverPath), Trimmed(e.nodePath))
    ensures r.Failure? ==> RefusesEntry(k, e, seenServer, seenNode, r.error)
  {
    var serverPath := CheckAbsolute(k, ToNode, e.serverPath);
    if serverPath.Failure? { return Failure(serverPath.error); }
    var nodePath := CheckAbsolute(k, ToServer, e.nodePath);
    if nodePath.Failure? { return Failure(nodePath.error); }
    if serverPath.value in seenServer { return Failure(DuplicateServerPath(k)); }
    if nodePath.value in seenNode { return Failure(DuplicateNodePath(k)); }
    r := Success(Mapping(serverPath.value, nodePath.value));
  }

  predicate RefusesEntry(k: nat, e: RawEntry, seenServer: set<string>, seenNode: set<string>, error: PathMapError) {
    match error
    case NotAbsolute(i, d) => i == k && !AbsoluteText(RawFrom(e, d))
    case DotSegment(i, d) => i == k && AbsoluteText(RawFrom(e, d)) && DotFrom(RawFrom(e, d).text, 0)
    case DuplicateServerPath(i) => i == k && Trimmed(e.serverPath) in seenServer
    case DuplicateNodePath(i) => i == k && Trimmed(e.nodePath) in seenNode
    case _ => false
  }

  lemma {:induction false} NothingListed(raw: seq<RawEntry>)
    ensures Stored(raw, 0) == [] && Listable(raw, 0)
    ensures Collected({}, [], ToNode) && Collected({}, [], ToServer)
  {
  }

  lemma {:induction false} SeenBefore(raw: seq<RawEntry>, k: nat, seen: set<string>, d: Direction)
    requires k < |raw| && Collected(seen, Stored(raw, k), d) && Trimmed(RawFrom(raw[k], d)) in seen
    ensures Repeats(raw, k, d) && !Listable(raw, |raw|)
  {
    hide TrimTrailing, DotFrom, Stored, Rooted;
    var i :| 0 <= i < k && From(Stored(raw, k)[i], d) == Trimmed(RawFrom(raw[k], d));
    ListedTwice(raw, i, k, d);
  }

  lemma {:induction false} RefusedEntry(raw: seq<RawEntry>, k: nat, seenServer: set<string>, seenNode: set<string>, error: PathMapError)
    requires k < |raw| && RefusesEntry(k, raw[k], seenServer, seenNode, error)
    requires Collected(seenServer, Stored(raw, k), ToNode) && Collected(seenNode, Stored(raw, k), ToServer)
    ensures Explains(raw, error) && !Listable(raw, |raw|)
  {
    hide TrimTrailing, DotFrom, Stored, Rooted, Distinct, Collected;
    match error {
      case DuplicateServerPath(_) => SeenBefore(raw, k, seenServer, ToNode);
      case DuplicateNodePath(_) => SeenBefore(raw, k, seenNode, ToServer);
      case NotAbsolute(_, _) => assert !UsableEntry(raw[k]);
      case DotSegment(_, _) => assert !UsableEntry(raw[k]);
      case _ =>
    }
  }

  lemma UnseenIsNew(m: seq<Mapping>, seen: set<string>, d: Direction, path: string)
    requires Collected(seen, m, d) && path !in seen
    ensures forall i :: 0 <= i < |m| ==> From(m[i], d) != path
  {
  }

  lemma {:induction false} NotListedYet(raw: seq<RawEntry>, k: nat, seenServer: set<string>, seenNode: set<string>)
    requires k < |raw| && Trimmed(raw[k].serverPath) !in seenServer && Trimmed(raw[k].nodePath) !in seenNode
    requires Collected(seenServer, Stored(raw, k), ToNode) && Collected(seenNode, Stored(raw, k), ToServer)
    ensures forall i, d :: 0 <= i < k ==> From(Stored(raw, k)[i], d) != Trimmed(RawFrom(raw[k], d))
  {
    hide TrimTrailing, DotFrom, Trimmed, Collected;
    UnseenIsNew(Stored(raw, k), seenServer, ToNode, Trimmed(raw[k].serverPath));
    UnseenIsNew(Stored(raw, k), seenNode, ToServer, Trimmed(raw[k].nodePath));
    forall i, d | 0 <= i < k ensures From(Stored(raw, k)[i], d) != Trimmed(RawFrom(raw[k], d)) {
      assert From(Stored(raw, k)[i], ToNode) != Trimmed(raw[k].serverPath);
      assert From(Stored(raw, k)[i], ToServer) != Trimmed(raw[k].nodePath);
      assert d == ToNode || d == ToServer;
    }
  }

  lemma {:induction false} ListedTwice(raw: seq<RawEntry>, j: nat, k: nat, d: Direction)
    requires j < k < |raw| && From(Stored(raw, k)[j], d) == Trimmed(RawFrom(raw[k], d))
    ensures Repeats(raw, k, d) && !Distinct(Stored(raw, |raw|), d)
  {
    var all := Stored(raw, |raw|);
    assert From(all[j], d) == From(all[k], d);
  }

  method CollectEntries(raw: seq<RawEntry>) returns (r: Result<seq<Mapping>, PathMapError>)
    ensures r.Success? <==> Listable(raw, |raw|)
    ensures r.Success? ==> r.value == Stored(raw, |raw|)
    ensures r.Failure? ==> Explains(raw, r.error)
  {
    hide TrimTrailing, DotFrom, Collected, Explains, UsableEntry;
    var entries: seq<Mapping> := [];
    var seenServer: set<string>, seenNode: set<string> := {}, {};
    NothingListed(raw);
    for k := 0 to |raw|
      invariant entries == Stored(raw, k) && Listable(raw, k)
      invariant Collected(seenServer, entries, ToNode) && Collected(seenNode, entries, ToServer)
    {
      var entry := CheckEntry(k, raw[k], seenServer, seenNode);
      if entry.Failure? {
        RefusedEntry(raw, k, seenServer, seenNode, entry.error);
        return Failure(entry.error);
      }
      NotListedYet(raw, k, seenServer, seenNode);
      OneMoreListed(raw, k);
      OneMoreCollected(seenServer, entries, entry.value, ToNode);
      OneMoreCollected(seenNode, entries, entry.value, ToServer);
      seenServer, seenNode := seenServer + {entry.value.serverPath}, seenNode + {entry.value.nodePath};
      entries := entries + [entry.value];
    }
    r := Success(entries);
  }

  /** The first pair, in reading order, whose nesting differs. */
  method CheckNesting(m: seq<Mapping>) returns (error: Option<PathMapError>)
    ensures error.None? <==> Consistent(m)
    ensures error.Some? ==>
      match error.value
      case NestDifferently(i, j) => i < |m| && j < |m| && i != j && !NestAlike(m[i], m[j])
      case SuffixDiffers(i, j) => i < |m| && j < |m| && i != j && !SameSuffix(m[i], m[j])
      case _ => false
  {
    for i := 0 to |m|
      invariant forall a, b :: 0 <= a < i && 0 <= b < |m| && a != b ==> Agree(m[a], m[b])
    {
      for j := 0 to |m|
        invariant forall b :: 0 <= b < j && b != i ==> Agree(m[i], m[b])
      {
        if i != j {
          var nodeNested := Within(m[i].nodePath, m[j].nodePath);
          var serverNested := Within(m[i].serverPath, m[j].serverPath);
          if nodeNested != serverNested { return Some(NestDifferently(i, j)); }
          if serverNested && RelativeTo(m[i].serverPath, m[j].serverPath) != RelativeTo(m[i].nodePath, m[j].nodePath) {
            return Some(SuffixDiffers(i, j));
          }
        }
      }
    }
    error := None;
  }

  /** The map is kept, trimmed, exactly when every rule holds; otherwise the refusal is a true statement about it. */
  method ValidatePathMap(raw: RawMap) returns (r: Result<seq<Mapping>, PathMapError>)
    ensures r.Success? <==> Acceptable(raw)
    ensures r.Success? ==> r.value == Stored(raw.entries, |raw.entries|) && Validated(r.value)
    ensures r.Failure? ==> if raw.NotAList? then r.error == MapIsNotAList else Explains(raw.entries, r.error)
  {
    if raw.NotAList? { return Failure(MapIsNotAList); }
    r := CollectEntries(raw.entries);
    if r.Success? {
      var error := CheckNesting(r.value);
      if error.Some? { r := Failure(error.value); }
    }
  }

  // ---- Translation -------------------------------------------------------------------

  /** The first entry with the longest matching root among the first `n`. */
  function Best(m: seq<Mapping>, n: nat, path: string, d: Direction): (best: Option<nat>)
    requires n <= |m|
    ensures best.Some? ==> best.value < n && Within(From(m[best.value], d), path)
    ensures forall i :: 0 <= i < n && Within(From(m[i], d), path)
                        ==> best.Some? && |From(m[i], d)| <= |From(m[best.value], d)|
  {
    if n == 0 then None
    else
      var best := Best(m, n - 1, path, d);
      if Within(From(m[n - 1], d), path) && (best.None? || |From(m[n - 1], d)| > |From(m[best.value], d)|)
      then Some(n - 1)
      else best
  }

  /** `path`, moved from under one root to under another. */
  function Moved(from: string, to: string, path: string): string {
    if path == from then to
    else
      var cut := if from == SLASH then 1 else |from| + 1;
      var rest := if cut <= |path| then path[cut..] else [];
      if to == SLASH then SLASH + rest else to + SLASH + rest
  }

  function Mapped(m: seq<Mapping>, path: string, d: Direction): Option<string> {
    var best := Best(m, |m|, path, d);
    if best.None? then None else Some(Moved(From(m[best.value], d), To(m[best.value], d), path))
  }

  lemma BestStep(m: seq<Mapping>, n: nat, path: string, d: Direction)
    requires n < |m|
    ensures var best := Best(m, n, path, d); var better := best.None? || |From(m[n], d)| > |From(m[best.value], d)|;
      Best(m, n + 1, path, d) == if Within(From(m[n], d), path) && better then Some(n) else best
  {
  }

  lemma {:induction false} BestOfNone(m: seq<Mapping>, path: string, d: Direction)
    ensures Best(m, 0, path, d) == None
  {
  }

  method MapPath(m: seq<Mapping>, path: string, d: Direction) returns (r: Option<string>)
    ensures r == Mapped(m, path, d)
  {
    hide Best, Within;
    BestOfNone(m, path, d);
    var best: Option<nat> := None;
    for i := 0 to |m|
      invariant best == Best(m, i, path, d)
    {
      BestStep(m, i, path, d);
      var from := From(m[i], d);
      if Within(from, path) && (best.None? || |from| > |From(m[best.value], d)|) { best := Some(i); }
    }
    if best.None? { return None; }
    var from, to := From(m[best.value], d), To(m[best.value], d);
    var cut := if from == SLASH then 1 else |from| + 1;
    var rest := if cut <= |path| then path[cut..] else [];
    if path == from { return Some(to); }
    r := Some(if to == SLASH then SLASH + rest else to + SLASH + rest);
  }

  // ---- Roots as prefixes -------------------------------------------------------------

  /** A root without the slash that "/" would double. */
  function Base(root: string): string {
    if root == SLASH then [] else root
  }

  /** `path` is `base` plus a tail that is empty or starts a new segment. */
  predicate Under(root: string, path: string) {
    path == root || (|Base(root)| < |path| && path[..|Base(root)|] == Base(root) && path[|Base(root)|] == '/')
  }

  lemma WithinIsUnder(root: string, path: string)
    requires Absolute(path)
    ensures Within(root, path) <==> Under(root, path)
  {
  }

  lemma MovedKeepsTail(from: string, to: string, path: string)
    requires Absolute(from) && Absolute(to) && Under(from, path) && path != from
    ensures Moved(from, to, path) == Base(to) + path[|Base(from)|..]
  {
    CutAtSlash(Base(from), path);
    assert Base(to) + (SLASH + path[|Base(from)| + 1..]) == Base(to) + SLASH + path[|Base(from)| + 1..];
  }

  /** Of two roots over one path, the longer lies under the shorter. */
  lemma RootsNest(a: string, b: string, path: string)
    requires Absolute(a) && Absolute(b) && NoTrailingSlash(a) && NoTrailingSlash(b)
    requires Under(a, path) && Under(b, path) && |a| < |b|
    ensures Under(a, b)
  {
    if a != SLASH {
      assert b == path[..|b|];
      assert b[..|a|] == path[..|a|];
    }
  }

  lemma SameLengthSameRoot(a: string, b: string, path: string)
    requires Absolute(a) && Absolute(b) && Within(a, path) && Within(b, path) && |a| == |b|
    ensures a == b
  {
    if |a| == 1 {
      assert a == SLASH && b == SLASH;
    } else {
      assert a == path[..|a|] && b == path[..|b|];
    }
  }

  // ---- Order does not matter ---------------------------------------------------------

  /** In a validated map, the best entry is the one with the longest matching root, wherever it stands. */
  lemma {:induction false} BestIsTheLongest(m: seq<Mapping>, path: string, d: Direction, i: nat)
    requires Rooted(m) && Distinct(m, d) && i < |m| && Within(From(m[i], d), path)
    requires forall j :: 0 <= j < |m| && Within(From(m[j], d), path) ==> |From(m[j], d)| <= |From(m[i], d)|
    ensures Best(m, |m|, path, d) == Some(i)
  {
    var best := Best(m, |m|, path, d).value;
    SameLengthSameRoot(From(m[best], d), From(m[i], d), path);
  }

  /** Two validated maps with the same entries translate every path alike, both ways. */
  lemma OrderDoesNotMatter(m: seq<Mapping>, n: seq<Mapping>, path: string, d: Direction)
    requires Validated(m) && Validated(n)
    requires forall e :: e in m <==> e in n
    ensures Mapped(m, path, d) == Mapped(n, path, d)
  {
    var best := Best(m, |m|, path, d);
    if best.None? {
      forall j | 0 <= j < |n| ensures !Within(From(n[j], d), path) {
        assert n[j] in m;
        var i :| 0 <= i < |m| && m[i] == n[j];
      }
    } else {
      assert m[best.value] in n;
      var k :| 0 <= k < |n| && n[k] == m[best.value];
      forall j | 0 <= j < |n| && Within(From(n[j], d), path) ensures |From(n[j], d)| <= |From(n[k], d)| {
        assert n[j] in m;
        var i :| 0 <= i < |m| && m[i] == n[j];
      }
      BestIsTheLongest(n, path, d, k);
    }
  }

  // ---- The round trip ----------------------------------------------------------------

  lemma AgreeEitherWay(a: Mapping, b: Mapping, d: Direction)
    requires Agree(a, b) && Within(To(a, d), To(b, d))
    ensures Within(From(a, d), From(b, d))
    ensures RelativeTo(From(a, d), From(b, d)) == RelativeTo(To(a, d), To(b, d))
  {
  }

  lemma CutAtSlash(base: string, path: string)
    requires |base| < |path| && path[..|base|] == base && path[|base|] == '/'
    ensures path == base + SLASH + path[|base| + 1..]
    ensures path[|base|..] == SLASH + path[|base| + 1..]
  {
  }

  lemma UnderByTail(root: string, path: string)
    requires Absolute(root) && Absolute(path) && Under(root, path) && path != root
    ensures path == Base(root) + SLASH + RelativeTo(root, path)
  {
    CutAtSlash(Base(root), path);
  }

  /** A tail `t` goes below `base/s` exactly when it goes below `s`, whatever the base is. */
  predicate TailUnder(s: string, tail: string) {
    |s| < |tail| && tail[0] == '/' && tail[1..][..|s|] == s && (|tail| == |s| + 1 || tail[|s| + 1] == '/')
  }

  lemma TailDecides(base: string, s: string, tail: string)
    requires s != []
    ensures Under(base + SLASH + s, base + tail) <==> TailUnder(s, tail)
  {
    var root, path := base + SLASH + s, base + tail;
    assert |root| >= 2 && Base(root) == root;
    if Under(root, path) {
      assert tail == path[|base|..];
      assert path[..|root|] == root;
      assert root[|base|..] == SLASH + s;
      assert tail[..|s| + 1] == root[|base|..];
      assert tail[1..][..|s|] == s;
    }
    if TailUnder(s, tail) {
      assert tail[..|s| + 1] == SLASH + s;
      assert path[..|root|] == base + tail[..|s| + 1];
      if |tail| == |s| + 1 { assert tail == SLASH + s; assert path == root; }
    }
  }

  /** The one family that does not come back: a mount at "/" swallows the root's own trailing slash. */
  predicate SwallowedSlash(e: Mapping, d: Direction, path: string) {
    To(e, d) == SLASH && From(e, d) != SLASH && path == From(e, d) + SLASH
  }

  lemma MovesBack(e: Mapping, d: Direction, path: string)
    requires Sound(e) && Absolute(path) && Within(From(e, d), path)
    ensures var moved := Moved(From(e, d), To(e, d), path);
      && Absolute(moved) && Within(To(e, d), moved)
      && (Moved(To(e, d), From(e, d), moved) == path <==> !SwallowedSlash(e, d, path))
  {
    var from, to := From(e, d), To(e, d);
    WithinIsUnder(from, path);
    if path != from {
      MovedKeepsTail(from, to, path);
      var tail := path[|Base(from)|..];
      var moved := Base(to) + tail;
      assert path == Base(from) + tail;
      assert moved[..|Base(to)|] == Base(to) && moved[|Base(to)|] == '/';
      WithinIsUnder(to, moved);
      if moved != to {
        MovedKeepsTail(to, from, moved);
        assert moved[|Base(to)|..] == tail;
      } else if to == SLASH {
        assert tail == SLASH;
      }
      if SwallowedSlash(e, d, path) {
        assert |path| == |from| + 1;
        assert |tail| == 1;
        assert tail == SLASH;
      }
    }
  }

  /** No other entry's target captures the translated path. */
  lemma {:induction false} NoOtherTarget(m: seq<Mapping>, d: Direction, path: string, i: nat, j: nat)
    requires Validated(m) && Absolute(path) && i < |m| && j < |m|
    requires Best(m, |m|, path, d) == Some(i)
    requires Within(To(m[j], d), Moved(From(m[i], d), To(m[i], d), path))
    ensures |To(m[j], d)| <= |To(m[i], d)|
  {
    hide Sound, Agree, Within, Moved, From, Distinct;
    if |To(m[j], d)| > |To(m[i], d)| { InnerTargetCaptures(m[i], m[j], d, path); }
  }

  /** A longer target of an agreeing entry over the translated path has a longer source over the path. */
  lemma InnerTargetCaptures(e: Mapping, f: Mapping, d: Direction, path: string)
    requires Sound(e) && Sound(f) && Agree(e, f) && Absolute(path) && Within(From(e, d), path)
    requires Within(To(f, d), Moved(From(e, d), To(e, d), path)) && |To(f, d)| > |To(e, d)|
    ensures Within(From(f, d), path) && |From(f, d)| > |From(e, d)|
  {
    SoundSides(e, d);
    SoundSides(f, d);
    hide Absolute, NoTrailingSlash, Within, Under, Moved, RelativeTo, Agree, SwallowedSlash, Sound, From, To;
    var to, moved := To(e, d), Moved(From(e, d), To(e, d), path);
    MovesBack(e, d, path);
    WithinIsUnder(From(e, d), path);
    WithinIsUnder(to, moved);
    WithinIsUnder(To(f, d), moved);
    RootsNest(to, To(f, d), moved);
    WithinIsUnder(to, To(f, d));
    AgreeEitherWay(e, f, d);
    CapturedBefore(From(e, d), to, From(f, d), To(f, d), path);
    WithinIsUnder(From(f, d), path);
  }

  lemma SoundSides(e: Mapping, d: Direction)
    requires Sound(e)
    ensures Absolute(From(e, d)) && NoTrailingSlash(From(e, d)) && Absolute(To(e, d)) && NoTrailingSlash(To(e, d))
  {
  }

  /** A nested target over the translated path is a nested source, longer, over the path itself. */
  lemma CapturedBefore(from: string, to: string, innerFrom: string, innerTo: string, path: string)
    requires Absolute(from) && Absolute(to) && Absolute(innerFrom) && Absolute(innerTo) && Absolute(path)
    requires NoTrailingSlash(innerTo) && NoTrailingSlash(innerFrom) && NoTrailingSlash(to)
    requires Under(from, path) && Under(innerTo, Moved(from, to, path)) && |innerTo| > |to|
    requires Within(from, innerFrom) && Within(to, innerTo) && RelativeTo(from, innerFrom) == RelativeTo(to, innerTo)
    ensures Under(innerFrom, path) && |innerFrom| > |from|
  {
    var s := RelativeTo(to, innerTo);
    hide Under;
    NestedParts(to, innerTo);
    assert RelativeTo(from, from) == [];
    NestedParts(from, innerFrom);
    assert Moved(from, to, from) == to;
    hide Within, RelativeTo, NoTrailingSlash, Absolute;
    if path == from {
      NotUnderShorter(innerTo, to);
    } else {
      TailOf(from, path);
      MovedKeepsTail(from, to, path);
      hide Moved, Base;
      SameTail(Base(from), Base(to), s, path[|Base(from)|..]);
    }
  }

  lemma NotUnderShorter(inner: string, outer: string)
    requires |inner| > |outer|
    ensures !Under(inner, outer)
  {
  }

  lemma TailOf(root: string, path: string)
    requires Under(root, path)
    ensures |Base(root)| <= |path| && path == Base(root) + path[|Base(root)|..]
  {
  }

  lemma NestedParts(outer: string, inner: string)
    requires Absolute(outer) && Absolute(inner) && NoTrailingSlash(inner) && Within(outer, inner) && outer != inner
    ensures RelativeTo(outer, inner) != [] && inner == Base(outer) + SLASH + RelativeTo(outer, inner)
    ensures |inner| > |outer|
  {
    WithinIsUnder(outer, inner);
    UnderByTail(outer, inner);
  }

  lemma SameTail(a: string, b: string, s: string, tail: string)
    requires s != []
    ensures Under(a + SLASH + s, a + tail) <==> Under(b + SLASH + s, b + tail)
  {
    TailDecides(a, s, tail);
    TailDecides(b, s, tail);
  }

  /**
    Through a validated map, an absolute path translates to an absolute path that translates back to
    the path itself — except exactly when a root mounted at "/" is given with a trailing slash.
   */
  lemma {:induction false} RoundTrip(m: seq<Mapping>, path: string, d: Direction)
    requires Validated(m) && Absolute(path) && Mapped(m, path, d).Some?
    ensures var there := Mapped(m, path, d).value; var best := m[Best(m, |m|, path, d).value];
      && Absolute(there)
      && Mapped(m, there, d.Back()).Some?
      && (Mapped(m, there, d.Back()) == Some(path) <==> !SwallowedSlash(best, d, path))
  {
    var i := Best(m, |m|, path, d).value;
    var there := Mapped(m, path, d).value;
    MovesBack(m[i], d, path);
    forall j | 0 <= j < |m| && Within(From(m[j], d.Back()), there)
      ensures |From(m[j], d.Back())| <= |From(m[i], d.Back())|
    {
      NoOtherTarget(m, d, path, i, j);
    }
    BestIsTheLongest(m, there, d.Back(), i);
  }

  /** Every absolute path without a trailing slash that translates, translates back. */
  ghost predicate Invertible(m: seq<Mapping>, d: Direction) {
    forall path :: Absolute(path) && NoTrailingSlash(path) && Mapped(m, path, d).Some?
                   ==> Mapped(m, Mapped(m, path, d).value, d.Back()) == Some(path)
  }

  lemma ValidatedIsInvertible(m: seq<Mapping>, d: Direction)
    requires Validated(m)
    ensures Invertible(m, d)
  {
    forall path | Absolute(path) && NoTrailingSlash(path) && Mapped(m, path, d).Some?
      ensures Mapped(m, Mapped(m, path, d).value, d.Back()) == Some(path)
    {
      RoundTrip(m, path, d);
      assert Sound(m[Best(m, |m|, path, d).value]);
    }
  }

  // ---- The nesting rules are necessary -----------------------------------------------

  /** The path that sits below `outer` where `inner` sits on the other side. */
  function Impostor(outer: Mapping, inner: Mapping, d: Direction): string
    requires Within(To(outer, d), To(inner, d))
  {
    Base(From(outer, d)) + SLASH + RelativeTo(To(outer, d), To(inner, d))
  }

  predicate Fails(m: seq<Mapping>, path: string, d: Direction) {
    && Absolute(path) && NoTrailingSlash(path)
    && Mapped(m, path, d).Some?
    && Mapped(m, Mapped(m, path, d).value, d.Back()) != Some(path)
  }

  /** The impostor is a proper path below the outer root, which moves it onto the inner entry's own root. */
  lemma ImpostorMoves(outer: Mapping, inner: Mapping, d: Direction)
    requires Sound(outer) && Sound(inner) && To(outer, d) != To(inner, d) && Within(To(outer, d), To(inner, d))
    ensures var path := Impostor(outer, inner, d);
      && Absolute(path) && NoTrailingSlash(path) && Within(From(outer, d), path)
      && Moved(From(outer, d), To(outer, d), path) == To(inner, d)
  {
    var from, to, s := From(outer, d), To(outer, d), RelativeTo(To(outer, d), To(inner, d));
    NestedParts(to, To(inner, d));
    assert s[|s| - 1] == To(inner, d)[|To(inner, d)| - 1];
    Rebuilt(from, to, s);
  }

  /** A proper suffix below one root, moved below another. */
  lemma Rebuilt(from: string, to: string, s: string)
    requires Absolute(from) && Absolute(to) && s != [] && s[|s| - 1] != '/'
    ensures var path := Base(from) + SLASH + s;
      && Absolute(path) && NoTrailingSlash(path) && Within(from, path)
      && Moved(from, to, path) == Base(to) + SLASH + s
  {
    var path := Base(from) + SLASH + s;
    assert path[..|Base(from)|] == Base(from);
    assert path[|Base(from)|] == '/';
    assert path[|Base(from)| + 1..] == s;
    if from != SLASH { assert path != from; }
  }

  /** A root is the best match for itself. */
  lemma {:induction false} BestForItself(m: seq<Mapping>, d: Direction, j: nat)
    requires Rooted(m) && Distinct(m, d) && j < |m|
    ensures Best(m, |m|, From(m[j], d), d) == Some(j)
  {
    assert Sound(m[j]);
    BestIsTheLongest(m, From(m[j], d), d, j);
  }

  lemma {:induction false} ImpostorFails(m: seq<Mapping>, i: nat, j: nat, d: Direction)
    requires Rooted(m) && Distinct(m, d) && Distinct(m, d.Back()) && i < |m| && j < |m| && i != j
    requires Within(To(m[i], d), To(m[j], d))
    requires var path := Impostor(m[i], m[j], d); Best(m, |m|, path, d) == Some(i) && path != From(m[j], d)
    ensures Fails(m, Impostor(m[i], m[j], d), d)
  {
    assert Sound(m[i]) && Sound(m[j]);
    assert To(m[i], d) != To(m[j], d);
    ImpostorMoves(m[i], m[j], d);
    BestForItself(m, d.Back(), j);
    assert Moved(From(m[j], d.Back()), To(m[j], d.Back()), From(m[j], d.Back())) == From(m[j], d);
  }

  /** When the inner root cannot take the impostor before the outer one, the pair fails. */
  lemma BrokenRuleFails(m: seq<Mapping>, i: nat, j: nat, d: Direction)
    requires |m| == 2 && Rooted(m) && Distinct(m, d) && Distinct(m, d.Back()) && i < 2 && j < 2 && i != j
    requires Within(To(m[i], d), To(m[j], d))
    requires Within(From(m[i], d), From(m[j], d)) ==> !Within(From(m[j], d), Impostor(m[i], m[j], d))
    ensures Fails(m, Impostor(m[i], m[j], d), d)
  {
    var path := Impostor(m[i], m[j], d);
    assert Sound(m[i]) && Sound(m[j]);
    assert To(m[i], d) != To(m[j], d);
    ImpostorMoves(m[i], m[j], d);
    if Within(From(m[j], d), path) {
      InnerIsShorter(From(m[i], d), From(m[j], d), path);
    }
    BestOfTwo(m, i, j, d, path);
    ImpostorFails(m, i, j, d);
  }

  lemma {:induction false} BestOfTwo(m: seq<Mapping>, i: nat, j: nat, d: Direction, path: string)
    requires |m| == 2 && Rooted(m) && Distinct(m, d) && i < 2 && j < 2 && i != j
    requires Within(From(m[i], d), path)
    requires Within(From(m[j], d), path) ==> |From(m[j], d)| <= |From(m[i], d)|
    ensures Best(m, |m|, path, d) == Some(i)
  {
    BestIsTheLongest(m, path, d, i);
  }

  lemma InnerIsShorter(from: string, inner: string, path: string)
    requires Absolute(from) && Absolute(inner) && NoTrailingSlash(from) && NoTrailingSlash(inner) && Absolute(path)
    requires Within(from, path) && Within(inner, path) && !Within(from, inner)
    ensures |inner| <= |from| && path != inner
  {
    WithinIsUnder(from, path);
    WithinIsUnder(inner, path);
    WithinIsUnder(from, inner);
    if |inner| > |from| { RootsNest(from, inner, path); }
  }

  lemma SuffixPrefix(base: string, mine: string, other: string)
    requires mine != [] && Under(base + SLASH + mine, base + SLASH + other)
    ensures mine <= other
  {
    assert base + SLASH + other == base + (SLASH + other);
    TailDecides(base, mine, SLASH + other);
    assert (SLASH + other)[1..] == other;
    assert other[..|mine|] == mine;
  }

  /** An inner root over the impostor sits at a prefix of the other side's suffix. */
  lemma SuffixOrder(a: Mapping, b: Mapping, d: Direction)
    requires Sound(a) && Sound(b) && From(a, d) != From(b, d)
    requires Within(From(a, d), From(b, d)) && Within(To(a, d), To(b, d))
    requires Within(From(b, d), Impostor(a, b, d))
    ensures RelativeTo(From(a, d), From(b, d)) <= RelativeTo(To(a, d), To(b, d))
  {
    var outer, inner, other := From(a, d), From(b, d), RelativeTo(To(a, d), To(b, d));
    WithinIsUnder(outer, inner);
    UnderByTail(outer, inner);
    WithinIsUnder(inner, Impostor(a, b, d));
    SuffixPrefix(Base(outer), RelativeTo(outer, inner), other);
  }

  /** Of two different suffixes, one is not a prefix of the other. */
  lemma DifferentSuffix(a: Mapping, b: Mapping) returns (d: Direction)
    requires Sound(a) && Sound(b) && a.serverPath != b.serverPath && a.nodePath != b.nodePath
    requires NestAlike(a, b) && !SameSuffix(a, b)
    ensures Within(To(a, d), To(b, d)) && !Within(From(b, d), Impostor(a, b, d))
  {
    if !Within(From(b, ToNode), Impostor(a, b, ToNode)) { return ToNode; }
    d := ToServer;
    if Within(From(b, ToServer), Impostor(a, b, ToServer)) {
      SuffixOrder(a, b, ToNode);
      SuffixOrder(a, b, ToServer);
    }
  }

  /** A pair the rules reject has, on one side, a path that does not come back. */
  lemma RejectedPairFails(m: seq<Mapping>, i: nat, j: nat) returns (path: string, d: Direction)
    requires |m| == 2 && Rooted(m) && Distinct(m, ToNode) && Distinct(m, ToServer)
    requires i < 2 && j < 2 && i != j && !Agree(m[i], m[j])
    ensures Fails(m, path, d)
  {
    assert Sound(m[i]) && Sound(m[j]);
    assert From(m[i], ToNode) != From(m[j], ToNode) && From(m[i], ToServer) != From(m[j], ToServer);
    if NestAlike(m[i], m[j]) {
      d := DifferentSuffix(m[i], m[j]);
    } else {
      d := if Within(m[i].nodePath, m[j].nodePath) then ToNode else ToServer;
    }
    BrokenRuleFails(m, i, j, d);
    path := Impostor(m[i], m[j], d);
  }

  /** For two distinct roots on each side, the nesting rules hold exactly when translation is invertible. */
  lemma RulesAreExact(m: seq<Mapping>)
    requires |m| == 2 && Rooted(m) && Distinct(m, ToNode) && Distinct(m, ToServer)
    ensures Consistent(m) <==> Invertible(m, ToNode) && Invertible(m, ToServer)
  {
    if Consistent(m) {
      ValidatedIsInvertible(m, ToNode);
      ValidatedIsInvertible(m, ToServer);
    } else {
      var i, j :| 0 <= i < |m| && 0 <= j < |m| && i != j && !Agree(m[i], m[j]);
      var path, d := RejectedPairFails(m, i, j);
      assert !Invertible(m, d);
    }
  }
}
