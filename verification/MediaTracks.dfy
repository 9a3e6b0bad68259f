/**
  How the track plugins read a stream: what earlier plugins asked of it in its output arguments
  counts, not only what the probe said. And how they choose the one default track.
 */
module MediaTracks {
  import opened Wrappers
  import opened Text
  import opened FfmpegCommand

  /**
    A stream of the command with the fields these plugins read. A tag that is missing reads as the
    empty one; `disposition` says of each flag whether it is set to 1.
   */
  datatype Track = Track(
    stream: Stream,
    channels: Option<int>,
    bitRate: Option<int>,
    layout: string,
    language: string,
    title: string,
    disposition: map<string, bool>
  )

  /** What stays opaque: the language normaliser, and whether an `-ac` value is the number 2. */
  datatype Env = Env(languageKey: string -> string, isTwo: string -> bool)

  // ---- Output arguments, two by two --------------------------------------------------

  /** A flag and what follows it; a flag at the very end has nothing. */
  datatype Arg = Arg(flag: string, value: Option<string>)

  predicate Paired(args: seq<string>) {
    |args| % 2 == 0
  }

  function Read(args: seq<string>): seq<Arg> {
    if args == [] then []
    else if |args| % 2 == 1 then Read(args[..|args| - 1]) + [Arg(args[|args| - 1], None)]
    else Read(args[..|args| - 2]) + [Arg(args[|args| - 2], Some(args[|args| - 1]))]
  }

  function Written(read: seq<Arg>): (args: seq<string>)
    ensures Paired(args)
  {
    if read == [] then []
    else
      var last := read[|read| - 1];
      Written(read[..|read| - 1]) + [last.flag, if last.value.Some? then last.value.value else []]
  }

  lemma {:induction false} ReadMore(args: seq<string>, flag: string, value: string)
    requires Paired(args)
    ensures Paired(args + [flag, value]) && Read(args + [flag, value]) == Read(args) + [Arg(flag, Some(value))]
  {
    var more := args + [flag, value];
    assert more[..|more| - 2] == args;
  }

  predicate Complete(read: seq<Arg>) {
    forall i :: 0 <= i < |read| ==> read[i].value.Some?
  }

  lemma {:induction false} ReadIsComplete(args: seq<string>)
    requires Paired(args)
    ensures Complete(Read(args))
  {
    if args != [] { ReadIsComplete(args[..|args| - 2]); }
  }

  lemma {:induction false} ReadWritten(read: seq<Arg>)
    requires Complete(read)
    ensures Read(Written(read)) == read
  {
    if read != [] {
      var init, last := read[..|read| - 1], read[|read| - 1];
      ReadWritten(init);
      ReadMore(Written(init), last.flag, last.value.value);
    }
  }

  // ---- Flags -------------------------------------------------------------------------

  /** `^name(?::|$)`. */
  predicate IsOption(flag: string, name: string) {
    name <= flag && (|flag| == |name| || flag[|name|] == ':')
  }

  const METADATA := "-metadata"
  const DISPOSITION := "-disposition"
  const AC := "-ac"
  const LANGUAGE := "language="
  const DEFAULT := "default"
  const COMMENT := "comment"
  const COPY := "copy"
  const AAC := "aac"
  const SET_DISPOSITION := "-disposition:{outputIndex}"
  const PLUS_DEFAULT := "+default"
  const MINUS_DEFAULT := "-default"

  predicate IsCodecFlag(flag: string) {
    || IsOption(flag, "-c") || IsOption(flag, "-codec") || IsOption(flag, "-vcodec")
    || IsOption(flag, "-acodec") || IsOption(flag, "-scodec")
  }

  predicate IsLabel(flag: string) {
    IsOption(flag, METADATA) || IsOption(flag, DISPOSITION)
  }

  // ---- Reading a stream --------------------------------------------------------------

  /** The language last set in the arguments. */
  function LanguageIn(read: seq<Arg>): Option<string> {
    if read == [] then None
    else
      var last := read[|read| - 1];
      if IsOption(last.flag, METADATA) && last.value.Some? && LANGUAGE <= last.value.value
      then Some(last.value.value[|LANGUAGE|..])
      else LanguageIn(read[..|read| - 1])
  }

  function OrUnd(language: string): string {
    if language == [] then "und" else language
  }

  function Language(env: Env, t: Track): string {
    var set_ := LanguageIn(Read(t.stream.outputArgs));
    env.languageKey(OrUnd(if set_.Some? then set_.value else t.language))
  }

  predicate IsWordChar(c: char) {
    'a' <= c <= 'z' || c == '_'
  }

  predicate IsSign(c: char) {
    c == '+' || c == '-'
  }

  function WordPrefix(s: string): (w: string)
    ensures w <= s && (s != [] && IsWordChar(s[0]) ==> w != [])
  {
    if s == [] || !IsWordChar(s[0]) then [] else [s[0]] + WordPrefix(s[1..])
  }

  /** Every `[+-]?word` of a disposition value in turn: the named flag follows its own. */
  function Scan(v: string, flag: string, enabled: bool): bool
    decreases |v|
  {
    if v == [] then enabled
    else
      var word := WordPrefix(if IsSign(v[0]) then v[1..] else v);
      if word == [] then Scan(v[1..], flag, enabled)
      else Scan(v[(if IsSign(v[0]) then 1 else 0) + |word|..], flag, if word == flag then v[0] != '-' else enabled)
  }

  /** One `-disposition` argument: a value without a sign starts from nothing. */
  function Disposed(value: Option<string>, flag: string, enabled: bool): bool {
    var v := if value.Some? then value.value else [];
    Scan(v, flag, enabled && v != [] && IsSign(v[0]))
  }

  function FlagIn(read: seq<Arg>, flag: string, initial: bool): bool {
    if read == [] then initial
    else
      var last := read[|read| - 1];
      var before := FlagIn(read[..|read| - 1], flag, initial);
      if IsOption(last.flag, DISPOSITION) then Disposed(last.value, flag, before) else before
  }

  function HasFlag(t: Track, flag: string): bool {
    FlagIn(Read(t.stream.outputArgs), flag, flag in t.disposition && t.disposition[flag])
  }

  /** The codec the arguments configure last. */
  function CodecIn(read: seq<Arg>): Option<string> {
    if read == [] then None
    else if IsCodecFlag(read[|read| - 1].flag) then read[|read| - 1].value
    else CodecIn(read[..|read| - 1])
  }

  function StereoIn(env: Env, read: seq<Arg>, initial: bool): bool {
    if read == [] then initial
    else
      var last := read[|read| - 1];
      if IsOption(last.flag, AC) then last.value.Some? && env.isTwo(last.value.value)
      else StereoIn(env, read[..|read| - 1], initial)
  }

  function FinalCodec(t: Track): Option<string> {
    var configured := CodecIn(Read(t.stream.outputArgs));
    if configured.None? || configured.value == COPY
    then (if t.stream.probe.codecName.Named? then Some(t.stream.probe.codecName.name) else None)
    else configured
  }

  predicate StereoAac(env: Env, t: Track) {
    && FinalCodec(t) in {Some(AAC), Some("libfdk_aac")}
    && StereoIn(env, Read(t.stream.outputArgs), t.channels == Some(2))
  }

  predicate IsRegexWordChar(c: char) {
    'a' <= c <= 'z' || 'A' <= c <= 'Z' || '0' <= c <= '9' || c == '_'
  }

  const COMMENTARY := "commentary"

  predicate CommentaryAt(title: string, i: nat)
    requires i + |COMMENTARY| <= |title|
  {
    && Lower(title[i..i + |COMMENTARY|]) == COMMENTARY
    && (i == 0 || !IsRegexWordChar(title[i - 1]))
    && (i + |COMMENTARY| == |title| || !IsRegexWordChar(title[i + |COMMENTARY|]))
  }

  predicate MentionsCommentary(title: string) {
    exists i :: 0 <= i <= |title| - |COMMENTARY| && CommentaryAt(title, i)
  }

  predicate IsCommentary(t: Track) {
    HasFlag(t, COMMENT) || MentionsCommentary(t.title)
  }

  predicate IsDefault(t: Track) {
    HasFlag(t, DEFAULT)
  }

  predicate Mappable(t: Track) {
    !IsUnmappable(t.stream.probe)
  }

  // ---- The readers, as they run ------------------------------------------------------

  lemma {:induction false} ReadPrefix(args: seq<string>, i: nat)
    requires i % 2 == 0 && i < |args|
    ensures i + 1 < |args| ==> Read(args[..i + 2]) == Read(args[..i]) + [Arg(args[i], Some(args[i + 1]))]
    ensures i + 1 == |args| ==> Read(args) == Read(args[..i]) + [Arg(args[i], None)]
  {
    if i + 1 < |args| {
      assert args[..i + 2][..i] == args[..i];
    }
  }

  method StreamLanguage(env: Env, t: Track) returns (language: string)
    ensures language == Language(env, t)
  {
    var args := t.stream.outputArgs;
    language := OrUnd(t.language);
    var i := 0;
    while i < |args|
      invariant i % 2 == 0 && i <= |args| + 1
      invariant var read := LanguageIn(Read(if i <= |args| then args[..i] else args));
        language == OrUnd(if read.Some? then read.value else t.language)
    {
      ReadPrefix(args, i);
      var value := if i + 1 < |args| then args[i + 1] else [];
      if IsOption(args[i], METADATA) && LANGUAGE <= value { language := OrUnd(value[|LANGUAGE|..]); }
      i := i + 2;
    }
    assert i == |args| ==> args[..i] == args;
    language := env.languageKey(language);
  }

  /** One more flag, with what follows it if anything does. */
  lemma {:induction false} FlagStep(args: seq<string>, i: nat, flag: string, initial: bool)
    requires i % 2 == 0 && i < |args|
    ensures var before := FlagIn(Read(args[..i]), flag, initial);
      var value := if i + 1 < |args| then Some(args[i + 1]) else None;
      FlagIn(Read(if i + 2 <= |args| then args[..i + 2] else args), flag, initial)
      == if IsOption(args[i], DISPOSITION) then Disposed(value, flag, before) else before
  {
    hide Read, Disposed, IsOption;
    ReadPrefix(args, i);
    var value := if i + 1 < |args| then Some(args[i + 1]) else None;
    FlagAdded(Read(args[..i]), Arg(args[i], value), flag, initial);
  }

  lemma {:induction false} FlagAdded(read: seq<Arg>, a: Arg, flag: string, initial: bool)
    ensures var before := FlagIn(read, flag, initial);
      FlagIn(read + [a], flag, initial) == if IsOption(a.flag, DISPOSITION) then Disposed(a.value, flag, before) else before
  {
    hide Disposed, IsOption;
    assert (read + [a])[..|read|] == read;
  }

  lemma {:induction false} NothingRead(flag: string, initial: bool)
    ensures FlagIn(Read([]), flag, initial) == initial
  {
  }

  method DispositionFlag(t: Track, flag: string) returns (enabled: bool)
    ensures enabled == HasFlag(t, flag)
  {
    hide FlagIn, Scan, IsOption;
    assert FlagIn(Read([]), flag, flag in t.disposition && t.disposition[flag]) == (flag in t.disposition && t.disposition[flag]) by {
      NothingRead(flag, flag in t.disposition && t.disposition[flag]);
    }
    var args := t.stream.outputArgs;
    var initial := flag in t.disposition && t.disposition[flag];
    enabled := initial;
    var i := 0;
    while i < |args|
      invariant i % 2 == 0 && i <= |args| + 1
      invariant enabled == FlagIn(Read(if i <= |args| then args[..i] else args), flag, initial)
    {
      FlagStep(args, i, flag, initial);
      if IsOption(args[i], DISPOSITION) {
        var value := if i + 1 < |args| then args[i + 1] else [];
        if value == [] || !IsSign(value[0]) { enabled := false; }
        enabled := Scan(value, flag, enabled);
      }
      i := i + 2;
    }
    assert i == |args| ==> args[..i] == args;
  }

  method ConfiguredCodec(t: Track) returns (codec: Option<string>)
    ensures codec == CodecIn(Read(t.stream.outputArgs))
  {
    var args := t.stream.outputArgs;
    codec := None;
    var i := 0;
    while i < |args|
      invariant i % 2 == 0 && i <= |args| + 1
      invariant codec == CodecIn(Read(if i <= |args| then args[..i] else args))
    {
      ReadPrefix(args, i);
      if IsCodecFlag(args[i]) { codec := if i + 1 < |args| then Some(args[i + 1]) else None; }
      i := i + 2;
    }
    assert i == |args| ==> args[..i] == args;
  }

  // ---- The preferred track -----------------------------------------------------------

  function First(ids: seq<nat>, p: nat -> bool): (r: Option<nat>)
    ensures r.Some? ==> r.value in ids && p(r.value)
    ensures r.None? ==> forall i :: i in ids ==> !p(i)
  {
    if ids == [] then None else if p(ids[0]) then Some(ids[0]) else First(ids[1..], p)
  }

  function Plain(commentary: nat -> bool): nat -> bool {
    (i: nat) => !commentary(i)
  }

  function Both(isDefault: nat -> bool, commentary: nat -> bool): nat -> bool {
    (i: nat) => isDefault(i) && !commentary(i)
  }

  /** A default that is no commentary, else no commentary, else a default, else the first. */
  function Preferred(ids: seq<nat>, isDefault: nat -> bool, commentary: nat -> bool): (r: Option<nat>)
    ensures r.Some? <==> ids != []
    ensures r.Some? ==> r.value in ids
  {
    var best := First(ids, Both(isDefault, commentary));
    var plain := First(ids, Plain(commentary));
    var default_ := First(ids, isDefault);
    if best.Some? then best
    else if plain.Some? then plain
    else if default_.Some? then default_
    else if ids != [] then Some(ids[0]) else None
  }

  lemma {:induction false} FirstIsOnly(ids: seq<nat>, p: nat -> bool, c: nat)
    requires c in ids && p(c) && forall i :: i in ids && p(i) ==> i == c
    ensures First(ids, p) == Some(c)
  {
    if ids[0] != c { FirstIsOnly(ids[1..], p, c); }
  }

  lemma {:induction false} FirstAppend(ids: seq<nat>, x: nat, p: nat -> bool)
    ensures First(ids + [x], p) == if First(ids, p).Some? then First(ids, p) else if p(x) then Some(x) else None
  {
    if ids == [] {
      assert ids + [x] == [x];
      assert [x][1..] == [];
      assert First([x], p) == if p(x) then Some(x) else First([], p);
    } else {
      assert (ids + [x])[1..] == ids[1..] + [x];
      FirstAppend(ids[1..], x, p);
    }
  }

  lemma {:induction false} FirstDependsOn(ids: seq<nat>, p: nat -> bool, q: nat -> bool)
    requires forall i :: i in ids ==> p(i) == q(i)
    ensures First(ids, p) == First(ids, q)
  {
    if ids != [] { FirstDependsOn(ids[1..], p, q); }
  }

  /** Once the chosen track is the only default, it is chosen again. */
  lemma ChosenStaysChosen(ids: seq<nat>, before: nat -> bool, after: nat -> bool, commentary: nat -> bool, c: nat)
    requires Preferred(ids, before, commentary) == Some(c)
    requires forall i :: i in ids ==> (after(i) <==> i == c)
    ensures Preferred(ids, after, commentary) == Some(c)
  {
    if commentary(c) {
      assert First(ids, Plain(commentary)).None?;
      FirstIsOnly(ids, after, c);
      assert First(ids, Both(after, commentary)).None?;
    } else {
      FirstIsOnly(ids, Both(after, commentary), c);
    }
  }

  /** A copy of the preferred track, added last and not default, is not preferred to it. */
  lemma CopyIsNotPreferred(ids: seq<nat>, x: nat, isDefault: nat -> bool, commentary: nat -> bool)
    requires Preferred(ids, isDefault, commentary).Some? && !isDefault(x)
    requires commentary(x) == commentary(Preferred(ids, isDefault, commentary).value)
    ensures Preferred(ids + [x], isDefault, commentary) == Preferred(ids, isDefault, commentary)
  {
    FirstAppend(ids, x, Both(isDefault, commentary));
    FirstAppend(ids, x, Plain(commentary));
    FirstAppend(ids, x, isDefault);
    assert (ids + [x])[0] == ids[0];
  }

  lemma PreferredDependsOn(ids: seq<nat>, d: nat -> bool, d': nat -> bool, c: nat -> bool, c': nat -> bool)
    requires forall i :: i in ids ==> d(i) == d'(i) && c(i) == c'(i)
    ensures Preferred(ids, d, c) == Preferred(ids, d', c')
  {
    FirstDependsOn(ids, Both(d, c), Both(d', c'));
    FirstDependsOn(ids, Plain(c), Plain(c'));
    FirstDependsOn(ids, d, d');
  }

  // ---- The default flag --------------------------------------------------------------

  /** `+default` or `-default`: only the default bit changes. */
  function SetDefault(t: Track, wanted: bool): Track {
    t.(stream := t.stream.(outputArgs := t.stream.outputArgs + [SET_DISPOSITION, if wanted then PLUS_DEFAULT else MINUS_DEFAULT]),
       disposition := t.disposition[DEFAULT := wanted])
  }

  predicate AllWord(w: string) {
    forall i :: 0 <= i < |w| ==> IsWordChar(w[i])
  }

  lemma {:induction false} WordIsItsPrefix(w: string)
    requires AllWord(w)
    ensures WordPrefix(w) == w
  {
    if w != [] { WordIsItsPrefix(w[1..]); }
  }

  /** A value of one signed word moves its own flag and no other. */
  lemma SignedWord(sign: char, word: string, flag: string, enabled: bool)
    requires IsSign(sign) && word != [] && AllWord(word)
    ensures Disposed(Some([sign] + word), flag, enabled) == if word == flag then sign == '+' else enabled
  {
    var v := [sign] + word;
    assert v[1..] == word;
    WordIsItsPrefix(word);
    assert v[1 + |word|..] == [];
    assert Scan(v, flag, enabled) == Scan([], flag, if word == flag then sign != '-' else enabled);
  }

  lemma DefaultValue(wanted: bool, flag: string, enabled: bool)
    ensures Disposed(Some(if wanted then PLUS_DEFAULT else MINUS_DEFAULT), flag, enabled) == if flag == DEFAULT then wanted else enabled
  {
    assert AllWord(DEFAULT);
    assert PLUS_DEFAULT == ['+'] + DEFAULT && MINUS_DEFAULT == ['-'] + DEFAULT;
    SignedWord(if wanted then '+' else '-', DEFAULT, flag, enabled);
  }

  lemma NamesDiffer()
    ensures ':' !in METADATA && ':' !in DISPOSITION && ':' !in AC
    ensures METADATA[1] == 'm' && DISPOSITION[1] == 'd' && AC[1] == 'a' && |AC| == 3
  {
  }

  lemma CodecFlagIsNothingElse(flag: string)
    requires IsCodecFlag(flag)
    ensures |flag| > 1 && flag[1] in ['c', 'v', 'a', 's'] && !IsOption(flag, AC) && !IsOption(flag, METADATA) && !IsOption(flag, DISPOSITION)
  {
    NamesDiffer();
    if IsOption(flag, "-c") { assert flag[1] == "-c"[1]; }
    else if IsOption(flag, "-codec") { assert flag[1] == "-codec"[1]; }
    else if IsOption(flag, "-vcodec") { assert flag[1] == "-vcodec"[1]; }
    else if IsOption(flag, "-acodec") {
      assert flag[2] == "-acodec"[2] && flag[1] == "-acodec"[1];
      assert AC[2] == 'c';
      assert |flag| >= 7 && "-acodec"[3] == 'o' && flag[3] == 'o';
    } else { assert flag[1] == "-scodec"[1]; }
  }

  /** What `-disposition:{outputIndex}` is, and is not. */
  lemma DispositionFlagIsNothingElse()
    ensures IsOption(SET_DISPOSITION, DISPOSITION) && !IsOption(SET_DISPOSITION, METADATA)
    ensures !IsOption(SET_DISPOSITION, AC) && !IsCodecFlag(SET_DISPOSITION)
  {
    NamesDiffer();
    assert SET_DISPOSITION[1] == 'd';
    assert SET_DISPOSITION[..12] == DISPOSITION;
    if IsCodecFlag(SET_DISPOSITION) { CodecFlagIsNothingElse(SET_DISPOSITION); }
  }

  /** Setting the default flag sets it, and changes nothing else these plugins read. */
  lemma SetDefaultDoesOnlyThat(env: Env, t: Track, wanted: bool)
    requires Paired(t.stream.outputArgs)
    ensures var u := SetDefault(t, wanted);
      && Paired(u.stream.outputArgs) && IsDefault(u) == wanted && IsCommentary(u) == IsCommentary(t)
      && Language(env, u) == Language(env, t) && StereoAac(env, u) == StereoAac(env, t)
  {
    hide FlagIn, LanguageIn, CodecIn, StereoIn, MentionsCommentary, Read, IsOption, IsCodecFlag, OrUnd;
    var value := if wanted then PLUS_DEFAULT else MINUS_DEFAULT;
    ReadMore(t.stream.outputArgs, SET_DISPOSITION, value);
    DispositionFlagIsNothingElse();
    var read := Read(t.stream.outputArgs);
    LastDisposes(read, SET_DISPOSITION, value, wanted);
    LastIsNoOther(env, read, Arg(SET_DISPOSITION, Some(value)), t.channels == Some(2));
    FlagFromInitial(read, COMMENT, t, wanted);
  }

  lemma FlagFromInitial(read: seq<Arg>, flag: string, t: Track, wanted: bool)
    requires flag == COMMENT
    ensures var d := t.disposition[DEFAULT := wanted];
      (flag in d && d[flag]) == (flag in t.disposition && t.disposition[flag])
  {
    assert COMMENT[0] != DEFAULT[0];
  }

  lemma {:induction false} LastDisposes(read: seq<Arg>, f: string, value: string, wanted: bool)
    requires IsOption(f, DISPOSITION) && value == if wanted then PLUS_DEFAULT else MINUS_DEFAULT
    ensures forall initial :: FlagIn(read + [Arg(f, Some(value))], DEFAULT, initial) == wanted
    ensures forall initial :: FlagIn(read + [Arg(f, Some(value))], COMMENT, initial) == FlagIn(read, COMMENT, initial)
  {
    var more := read + [Arg(f, Some(value))];
    assert more[..|more| - 1] == read;
    assert COMMENT[0] != DEFAULT[0];
    forall initial ensures FlagIn(more, DEFAULT, initial) == wanted {
      DefaultValue(wanted, DEFAULT, FlagIn(read, DEFAULT, initial));
    }
    forall initial ensures FlagIn(more, COMMENT, initial) == FlagIn(read, COMMENT, initial) {
      DefaultValue(wanted, COMMENT, FlagIn(read, COMMENT, initial));
    }
  }

  /** An argument that sets neither a language, a codec nor channels leaves those readings alone. */
  lemma {:induction false} LastIsNoOther(env: Env, read: seq<Arg>, last: Arg, initial: bool)
    requires !IsOption(last.flag, METADATA) && !IsOption(last.flag, AC) && !IsCodecFlag(last.flag)
    ensures LanguageIn(read + [last]) == LanguageIn(read) && CodecIn(read + [last]) == CodecIn(read)
    ensures StereoIn(env, read + [last], initial) == StereoIn(env, read, initial)
  {
    assert (read + [last])[..|read|] == read;
  }
}
