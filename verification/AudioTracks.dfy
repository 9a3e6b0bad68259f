/**
  The Audio Tracks node: keep the wanted languages, settle one default, and see to a stereo AAC track.
  Run again on its own result it must change nothing, or a file would never converge.
 */
module AudioTracks {
  import opened Wrappers
  import opened Text
  import opened FfmpegCommand
  import opened MediaTracks

  /** The node's inputs once parsed. `languages` is `None` for an empty list, which keeps every track. */
  datatype Inputs = Inputs(
    languages: Option<set<string>>,
    keepListed: bool,
    defaultLanguage: string,
    ensureStereo: bool,
    convert: bool,
    bitrate: nat,
    filter: string
  )

  datatype Refusal = WouldRemoveAllAudio

  const SET_CODEC := "-c:{outputIndex}"
  const SET_CHANNELS := "-ac:{outputIndex}"
  const SET_FILTER := "-filter:{outputIndex}"
  const SET_BITRATE := "-b:{outputIndex}"
  const SET_TITLE := "-metadata:s:{outputIndex}"
  const TWO := "2"
  const PLAIN_TITLE := "Stereo compatibility"
  const COMMENTARY_TITLE := "Stereo compatibility (commentary)"

  // ---- Which tracks ------------------------------------------------------------------

  predicate Active(t: Track) {
    t.stream.codecType == "audio" && !t.stream.removed
  }

  predicate Keeps(env: Env, inputs: Inputs, t: Track) {
    inputs.languages.None? || ((Language(env, t) in inputs.languages.value) == inputs.keepListed)
  }

  predicate IsRetained(env: Env, inputs: Inputs, t: Track) {
    Active(t) && Keeps(env, inputs, t)
  }

  /** The places of the retained tracks among the first `n`. */
  function Retained(env: Env, inputs: Inputs, tracks: seq<Track>, n: nat): (ids: seq<nat>)
    requires n <= |tracks|
    ensures forall i: nat :: i in ids <==> i < n && IsRetained(env, inputs, tracks[i])
  {
    if n == 0 then []
    else Retained(env, inputs, tracks, n - 1) + if IsRetained(env, inputs, tracks[n - 1]) then [n - 1] else []
  }

  predicate Increasing(ids: seq<nat>) {
    forall a, b :: 0 <= a < b < |ids| ==> ids[a] < ids[b]
  }

  lemma {:induction false} RetainedIncreases(env: Env, inputs: Inputs, tracks: seq<Track>, n: nat)
    requires n <= |tracks|
    ensures Increasing(Retained(env, inputs, tracks, n))
  {
    if n > 0 {
      RetainedIncreases(env, inputs, tracks, n - 1);
      LargestLast(Retained(env, inputs, tracks, n - 1), n - 1);
    }
  }

  lemma LargestLast(ids: seq<nat>, x: nat)
    requires Increasing(ids) && forall i :: i in ids ==> i < x
    ensures Increasing(ids + [x])
  {
    assert forall a :: 0 <= a < |ids| ==> ids[a] in ids;
  }

  function Sift(ids: seq<nat>, p: nat -> bool): (r: seq<nat>)
    ensures forall i :: i in r <==> i in ids && p(i)
  {
    if ids == [] then [] else Sift(ids[..|ids| - 1], p) + if p(ids[|ids| - 1]) then [ids[|ids| - 1]] else []
  }

  lemma {:induction false} SiftAppend(ids: seq<nat>, x: nat, p: nat -> bool)
    ensures Sift(ids + [x], p) == Sift(ids, p) + if p(x) then [x] else []
  {
    assert (ids + [x])[..|ids|] == ids;
  }

  lemma {:induction false} SiftDependsOn(ids: seq<nat>, p: nat -> bool, q: nat -> bool)
    requires forall i :: i in ids ==> p(i) == q(i)
    ensures Sift(ids, p) == Sift(ids, q)
  {
    if ids != [] { SiftDependsOn(ids[..|ids| - 1], p, q); }
  }

  function DefaultAt(tracks: seq<Track>): nat -> bool {
    (i: nat) => i < |tracks| && IsDefault(tracks[i])
  }

  function CommentaryIn(tracks: seq<Track>): nat -> bool {
    (i: nat) => i < |tracks| && IsCommentary(tracks[i])
  }

  function Speaks(env: Env, tracks: seq<Track>, language: string): nat -> bool {
    (i: nat) => i < |tracks| && Language(env, tracks[i]) == language
  }

  function MappableAt(tracks: seq<Track>): nat -> bool {
    (i: nat) => i < |tracks| && Mappable(tracks[i])
  }

  /** Some active audio among the first `n` can be mapped. */
  predicate AnyUsable(tracks: seq<Track>, n: nat)
    requires n <= |tracks|
  {
    exists i :: 0 <= i < n && Active(tracks[i]) && Mappable(tracks[i])
  }

  predicate AnyRetainedUsable(env: Env, inputs: Inputs, tracks: seq<Track>, n: nat)
    requires n <= |tracks|
  {
    exists i :: 0 <= i < n && IsRetained(env, inputs, tracks[i]) && Mappable(tracks[i])
  }

  predicate Refuses(env: Env, inputs: Inputs, tracks: seq<Track>) {
    AnyUsable(tracks, |tracks|) && !AnyRetainedUsable(env, inputs, tracks, |tracks|)
  }

  // ---- What the node does ------------------------------------------------------------

  function Marked1(env: Env, inputs: Inputs, t: Track): Track {
    if Active(t) && !Keeps(env, inputs, t) then t.(stream := t.stream.(removed := true)) else t
  }

  function Marked(env: Env, inputs: Inputs, tracks: seq<Track>): (r: seq<Track>)
    ensures |r| == |tracks| && forall i :: 0 <= i < |tracks| ==> r[i] == Marked1(env, inputs, tracks[i])
  {
    seq(|tracks|, i requires 0 <= i < |tracks| => Marked1(env, inputs, tracks[i]))
  }

  /** The track that is to be the only default among those given, if any speaks the language. */
  function Chosen(env: Env, tracks: seq<Track>, ids: seq<nat>, language: string): Option<nat> {
    if language == [] then None
    else Preferred(Sift(ids, Speaks(env, tracks, language)), DefaultAt(tracks), CommentaryIn(tracks))
  }

  function Defaulted1(t: Track, wanted: bool): Track {
    if IsDefault(t) == wanted then t else SetDefault(t, wanted)
  }

  function Defaulted(tracks: seq<Track>, ids: seq<nat>, chosen: Option<nat>): (r: seq<Track>)
    ensures |r| == |tracks|
    ensures forall i :: 0 <= i < |tracks| ==>
      r[i] == if chosen.Some? && i in ids then Defaulted1(tracks[i], i == chosen.value) else tracks[i]
  {
    seq(|tracks|, i requires 0 <= i < |tracks| =>
      if chosen.Some? && i in ids then Defaulted1(tracks[i], i == chosen.value) else tracks[i])
  }

  /** The track a stereo one would be made from. */
  function Source(env: Env, tracks: seq<Track>, ids: seq<nat>, language: string): Option<nat> {
    var usable := Sift(ids, MappableAt(tracks));
    var matching := Sift(usable, Speaks(env, tracks, language));
    Preferred(if matching != [] then matching else usable, DefaultAt(tracks), CommentaryIn(tracks))
  }

  /** A usable stereo AAC track of the source's own language and role. */
  predicate Serves(env: Env, t: Track, source: Track) {
    && Mappable(t) && StereoAac(env, t)
    && Language(env, t) == Language(env, source) && IsCommentary(t) == IsCommentary(source)
  }

  predicate HasStereo(env: Env, tracks: seq<Track>, ids: seq<nat>, source: Track) {
    exists i :: i in ids && i < |tracks| && Serves(env, tracks[i], source)
  }

  /** The labels a track was given in its arguments: never its encoder or filters. */
  function Labels(read: seq<Arg>): seq<Arg> {
    if read == [] then []
    else Labels(read[..|read| - 1]) + if IsLabel(read[|read| - 1].flag) then [read[|read| - 1]] else []
  }

  function StereoArgs(inputs: Inputs, channels: Option<int>): seq<Arg> {
    [Arg(SET_CODEC, Some(AAC)), Arg(SET_CHANNELS, Some(TWO))]
    + (if inputs.filter != [] && channels.Some? && channels.value > 2 then [Arg(SET_FILTER, Some(Trim(inputs.filter)))] else [])
    + [Arg(SET_BITRATE, Some(Dec(inputs.bitrate) + "k"))]
  }

  function AsStereo(t: Track, inputs: Inputs, args: seq<Arg>): Track {
    t.(stream := t.stream.(probe := t.stream.probe.(codecName := Named(AAC)), forceEncoding := true, outputArgs := Written(args)),
       channels := Some(2), bitRate := Some(inputs.bitrate * 1000), layout := "stereo")
  }

  function ConvertedArgs(t: Track, inputs: Inputs): seq<Arg> {
    Labels(Read(t.stream.outputArgs)) + StereoArgs(inputs, t.channels)
  }

  /** The track itself, turned into stereo AAC. */
  function Converted(t: Track, inputs: Inputs): Track {
    AsStereo(t, inputs, ConvertedArgs(t, inputs))
  }

  function CopyTitle(t: Track): string {
    if IsCommentary(t) then COMMENTARY_TITLE else PLAIN_TITLE
  }

  function CopyArgs(t: Track, inputs: Inputs): seq<Arg> {
    ConvertedArgs(t, inputs)
    + [Arg(SET_TITLE, Some("title=" + CopyTitle(t))), Arg(SET_DISPOSITION, Some(MINUS_DEFAULT))]
  }

  /** A stereo AAC copy of the track, mapped from the same input. */
  function Copied(t: Track, inputs: Inputs, position: nat): Track {
    var map_ := if t.stream.mapArgs != [] then t.stream.mapArgs
                else ["-map", "0:" + Int(if t.stream.probe.index.Some? then t.stream.probe.index.value else position)];
    var copy := AsStereo(t, inputs, CopyArgs(t, inputs));
    copy.(stream := copy.stream.(mapArgs := map_, removed := false),
          title := CopyTitle(t), disposition := t.disposition[DEFAULT := false])
  }

  function WithStereo(env: Env, inputs: Inputs, tracks: seq<Track>, ids: seq<nat>): seq<Track> {
    var source := Source(env, tracks, ids, inputs.defaultLanguage);
    if !inputs.ensureStereo || source.None? || source.value >= |tracks| then tracks
    else
      var s := source.value;
      if HasStereo(env, tracks, ids, tracks[s]) then tracks
      else if inputs.convert then tracks[s := Converted(tracks[s], inputs)]
      else tracks + [Copied(tracks[s], inputs, s)]
  }

  /** The whole node. */
  function Applied(env: Env, inputs: Inputs, tracks: seq<Track>): Result<seq<Track>, Refusal> {
    if Refuses(env, inputs, tracks) then Failure(WouldRemoveAllAudio)
    else
      var ids := Retained(env, inputs, tracks, |tracks|);
      var marked := Marked(env, inputs, tracks);
      var defaulted := Defaulted(marked, ids, Chosen(env, marked, ids, inputs.defaultLanguage));
      Success(WithStereo(env, inputs, defaulted, ids))
  }

  // ---- What each change leaves alone -------------------------------------------------

  /** The same to every question the node asks, but for the default flag and the codec. */
  predicate Alike(env: Env, a: Track, b: Track) {
    && a.stream.codecType == b.stream.codecType && a.stream.removed == b.stream.removed
    && Language(env, a) == Language(env, b) && IsCommentary(a) == IsCommentary(b) && (Mappable(a) <==> Mappable(b))
    && (Paired(a.stream.outputArgs) ==> Paired(b.stream.outputArgs))
  }

  lemma {:induction false} LabelsAreComplete(read: seq<Arg>)
    requires Complete(read)
    ensures Complete(Labels(read))
  {
    if read != [] { LabelsAreComplete(read[..|read| - 1]); }
  }

  lemma {:induction false} LabelsStep(read: seq<Arg>)
    requires read != []
    ensures var init, last := read[..|read| - 1], read[|read| - 1];
      if IsLabel(last.flag) then
        Labels(read) != [] && Labels(read)[..|Labels(read)| - 1] == Labels(init) && Labels(read)[|Labels(read)| - 1] == last
      else Labels(read) == Labels(init)
  {
  }

  lemma {:induction false} LabelsKeepLanguage(read: seq<Arg>)
    ensures LanguageIn(Labels(read)) == LanguageIn(read)
  {
    hide Labels;
    if read == [] {
      assert Labels(read) == [] by { NothingLabelled(); }
    } else {
      LabelsKeepLanguage(read[..|read| - 1]);
      LabelsStep(read);
    }
  }

  lemma NothingLabelled()
    ensures Labels([]) == []
  {
  }

  lemma {:induction false} LabelsKeepFlags(read: seq<Arg>, flag: string, initial: bool)
    ensures FlagIn(Labels(read), flag, initial) == FlagIn(read, flag, initial)
  {
    hide Labels, Disposed;
    if read == [] {
      assert Labels(read) == [] by { NothingLabelled(); }
    } else {
      LabelsKeepFlags(read[..|read| - 1], flag, initial);
      LabelsStep(read);
    }
  }

  /** An argument that labels nothing. */
  predicate NoLabel(a: Arg) {
    a.value.Some? && !IsLabel(a.flag)
  }

  predicate NoLabels(args: seq<Arg>) {
    forall i :: 0 <= i < |args| ==> NoLabel(args[i])
  }

  lemma {:induction false} NoLabelsAdded(read: seq<Arg>, more: seq<Arg>, flag: string, initial: bool)
    requires NoLabels(more)
    ensures LanguageIn(read + more) == LanguageIn(read)
    ensures FlagIn(read + more, flag, initial) == FlagIn(read, flag, initial)
    decreases |more|
  {
    hide Disposed;
    if more == [] {
      assert read + more == read;
    } else {
      NoLabelsAdded(read, more[..|more| - 1], flag, initial);
      assert (read + more)[..|read + more| - 1] == read + more[..|more| - 1];
      assert NoLabel(more[|more| - 1]);
    }
  }

  lemma PrefixAgrees(name: string, flag: string, k: nat)
    requires name <= flag && k < |name|
    ensures flag[k] == name[k]
  {
  }

  lemma NotOption(flag: string, name: string, k: nat)
    requires k < |name| && (k < |flag| ==> flag[k] != name[k])
    ensures !IsOption(flag, name)
  {
    if name <= flag { PrefixAgrees(name, flag, k); }
  }

  lemma NotCodec(flag: string)
    requires |flag| > 1 && flag[1] !in ['c', 'v', 'a', 's']
    ensures !IsCodecFlag(flag)
  {
    if IsCodecFlag(flag) { CodecFlagIsNothingElse(flag); }
  }

  lemma SetCodecFlag()
    ensures IsCodecFlag(SET_CODEC) && !IsLabel(SET_CODEC) && !IsOption(SET_CODEC, AC)
  {
    assert SET_CODEC[..2] == "-c" && SET_CODEC[2] == ':';
    CodecFlagIsNothingElse(SET_CODEC);
  }

  lemma SetChannelsFlag()
    ensures !IsCodecFlag(SET_CHANNELS) && !IsLabel(SET_CHANNELS) && IsOption(SET_CHANNELS, AC)
  {
    assert SET_CHANNELS[..3] == AC && SET_CHANNELS[3] == ':';
    if IsCodecFlag(SET_CHANNELS) { CodecFlagIsNothingElse(SET_CHANNELS); }
    NotOption(SET_CHANNELS, METADATA, 1);
    NotOption(SET_CHANNELS, DISPOSITION, 1);
  }

  lemma SetFilterFlag()
    ensures !IsCodecFlag(SET_FILTER) && !IsLabel(SET_FILTER) && !IsOption(SET_FILTER, AC)
  {
    assert SET_FILTER[1] == 'f';
    NotCodec(SET_FILTER);
    NotOption(SET_FILTER, METADATA, 1);
    NotOption(SET_FILTER, DISPOSITION, 1);
    NotOption(SET_FILTER, AC, 1);
  }

  lemma SetBitrateFlag()
    ensures !IsCodecFlag(SET_BITRATE) && !IsLabel(SET_BITRATE) && !IsOption(SET_BITRATE, AC)
  {
    assert SET_BITRATE[1] == 'b';
    NotCodec(SET_BITRATE);
    NotOption(SET_BITRATE, METADATA, 1);
    NotOption(SET_BITRATE, DISPOSITION, 1);
    NotOption(SET_BITRATE, AC, 1);
  }

  lemma SetTitleFlag()
    ensures !IsCodecFlag(SET_TITLE) && !IsOption(SET_TITLE, DISPOSITION) && !IsOption(SET_TITLE, AC)
  {
    assert SET_TITLE[1] == 'm';
    NotCodec(SET_TITLE);
    NotOption(SET_TITLE, DISPOSITION, 1);
    NotOption(SET_TITLE, AC, 1);
  }

  /** An argument that neither picks a codec nor counts channels. */
  predicate NoEncoder(a: Arg) {
    !IsOption(a.flag, AC) && !IsCodecFlag(a.flag)
  }

  lemma {:induction false} AskedForStereo(env: Env, read: seq<Arg>, a: Arg, b: Arg, initial: bool)
    requires env.isTwo(TWO) && IsCodecFlag(a.flag) && a.value == Some(AAC)
    requires IsOption(b.flag, AC) && !IsCodecFlag(b.flag) && b.value == Some(TWO)
    ensures CodecIn(read + [a] + [b]) == Some(AAC) && StereoIn(env, read + [a] + [b], initial)
  {
    assert (read + [a] + [b])[..|read| + 1] == read + [a];
    assert (read + [a])[..|read|] == read;
  }

  lemma {:induction false} NoEncoderAdded(env: Env, read: seq<Arg>, more: seq<Arg>, initial: bool)
    requires forall i :: 0 <= i < |more| ==> NoEncoder(more[i])
    ensures CodecIn(read + more) == CodecIn(read) && StereoIn(env, read + more, initial) == StereoIn(env, read, initial)
    decreases |more|
  {
    if more == [] {
      assert read + more == read;
    } else {
      NoEncoderAdded(env, read, more[..|more| - 1], initial);
      assert (read + more)[..|read + more| - 1] == read + more[..|more| - 1];
      assert NoEncoder(more[|more| - 1]);
    }
  }

  /** The encoder arguments after the first two. */
  function TailArgs(inputs: Inputs, channels: Option<int>): seq<Arg> {
    (if inputs.filter != [] && channels.Some? && channels.value > 2 then [Arg(SET_FILTER, Some(Trim(inputs.filter)))] else [])
    + [Arg(SET_BITRATE, Some(Dec(inputs.bitrate) + "k"))]
  }

  lemma TailIsPlain(inputs: Inputs, channels: Option<int>)
    ensures NoLabels(TailArgs(inputs, channels))
    ensures forall i :: 0 <= i < |TailArgs(inputs, channels)| ==> NoEncoder(TailArgs(inputs, channels)[i])
  {
    hide IsOption, IsCodecFlag, IsLabel, Trim, Dec;
    SetFilterFlag();
    SetBitrateFlag();
  }

  lemma StereoArgsLabelNothing(inputs: Inputs, channels: Option<int>)
    ensures NoLabels(StereoArgs(inputs, channels))
  {
    hide IsOption, IsCodecFlag, IsLabel, Trim, Dec;
    SetCodecFlag();
    SetChannelsFlag();
    TailIsPlain(inputs, channels);
    var head := [Arg(SET_CODEC, Some(AAC)), Arg(SET_CHANNELS, Some(TWO))];
    assert StereoArgs(inputs, channels) == head + TailArgs(inputs, channels);
    assert NoLabel(head[0]) && NoLabel(head[1]);
  }

  /** The encoder arguments ask for stereo AAC. */
  lemma {:induction false} StereoArgsAreStereo(env: Env, inputs: Inputs, channels: Option<int>, read: seq<Arg>, more: seq<Arg>, initial: bool)
    requires env.isTwo(TWO) && forall i :: 0 <= i < |more| ==> NoEncoder(more[i])
    ensures var all := read + StereoArgs(inputs, channels) + more; CodecIn(all) == Some(AAC) && StereoIn(env, all, initial)
  {
    hide IsOption, IsCodecFlag, IsLabel, Trim, Dec, CodecIn, StereoIn;
    SetCodecFlag();
    SetChannelsFlag();
    TailIsPlain(inputs, channels);
    var a, b, tail := Arg(SET_CODEC, Some(AAC)), Arg(SET_CHANNELS, Some(TWO)), TailArgs(inputs, channels);
    AskedForStereo(env, read, a, b, initial);
    NoEncoderAdded(env, read + [a] + [b], tail, initial);
    NoEncoderAdded(env, read + [a] + [b] + tail, more, initial);
    assert read + StereoArgs(inputs, channels) == read + [a] + [b] + tail;
  }

  lemma ShortNameIsACodec(name: string)
    requires Tight(name) && |name| == 3
    ensures Lower(Trim(name)) !in {"", "none", "unknown"}
  {
    TightIsTrimmed(name);
    assert |Lower(name)| == 3;
  }

  /** AAC is a codec name like any other to the mapper. */
  lemma AacIsMappable(p: ProbeStream)
    requires !IsUnmappable(p)
    ensures !IsUnmappable(p.(codecName := Named(AAC)))
  {
    AacIsACodec();
    hide Lower, Trim;
  }

  lemma AacIsACodec()
    ensures Lower(Trim(AAC)) !in {"", "none", "unknown"}
  {
    var name: string := AAC;
    hide Lower, Trim;
    ShortNameIsACodec(name);
  }

  /** Labels, then an encoder, then arguments that label and encode nothing, read as the labels alone do. */
  lemma {:induction false} ReadsAlike(inputs: Inputs, t: Track, more: seq<Arg>, flag: string, initial: bool)
    requires Paired(t.stream.outputArgs) && NoLabels(more)
    ensures var read := Read(t.stream.outputArgs); var all := Labels(read) + StereoArgs(inputs, t.channels) + more;
      && LanguageIn(all) == LanguageIn(read) && FlagIn(all, flag, initial) == FlagIn(read, flag, initial)
      && Complete(Labels(read) + StereoArgs(inputs, t.channels))
  {
    var read, args := Read(t.stream.outputArgs), StereoArgs(inputs, t.channels);
    ReadIsComplete(t.stream.outputArgs);
    LabelsAreComplete(read);
    LabelsKeepLanguage(read);
    LabelsKeepFlags(read, flag, initial);
    StereoArgsLabelNothing(inputs, t.channels);
    assert NoLabels(args + more);
    NoLabelsAdded(Labels(read), args + more, flag, initial);
    assert Labels(read) + args + more == Labels(read) + (args + more);
  }

  /** What a converted track answers for its language and a flag is what it answered before. */
  lemma {:induction false} ConvertedReads(env: Env, t: Track, inputs: Inputs, flag: string)
    requires Paired(t.stream.outputArgs)
    ensures var u := Converted(t, inputs);
      && Paired(u.stream.outputArgs) && Read(u.stream.outputArgs) == ConvertedArgs(t, inputs)
      && Language(env, u) == Language(env, t) && HasFlag(u, flag) == HasFlag(t, flag)
  {
    hide LanguageIn, FlagIn, Labels, StereoArgs, Read, OrUnd;
    var all := ConvertedArgs(t, inputs);
    assert Converted(t, inputs).stream.outputArgs == Written(all) && Paired(Written(all));
    hide Written;
    assert all + [] == all;
    ReadsAlike(inputs, t, [], flag, flag in t.disposition && t.disposition[flag]);
    ReadWritten(all);
  }

  lemma ConvertedIsStereo(env: Env, t: Track, inputs: Inputs)
    requires env.isTwo(TWO) && Paired(t.stream.outputArgs) && Mappable(t)
    ensures var u := Converted(t, inputs); Mappable(u) && StereoAac(env, u)
  {
    hide CodecIn, StereoIn, Labels, StereoArgs, Read, Written, Language, HasFlag, StereoAac;
    var all := ConvertedArgs(t, inputs);
    assert all + [] == all;
    ConvertedReads(env, t, inputs, DEFAULT);
    AacIsMappable(t.stream.probe);
    hide IsUnmappable;
    StereoArgsAreStereo(env, inputs, t.channels, Labels(Read(t.stream.outputArgs)), [], true);
    ReadsAsStereo(env, Converted(t, inputs), all);
  }

  /** Turned into stereo AAC, a track keeps its language, its role and its default flag. */
  lemma ConvertedServes(env: Env, t: Track, inputs: Inputs)
    requires env.isTwo(TWO) && Paired(t.stream.outputArgs) && Mappable(t)
    ensures var u := Converted(t, inputs);
      Alike(env, t, u) && Serves(env, u, t) && IsDefault(u) == IsDefault(t)
  {
    hide Labels, StereoArgs, Read, Written, Language, HasFlag, StereoAac, Mappable, MentionsCommentary, ConvertedArgs;
    ConvertedReads(env, t, inputs, COMMENT);
    ConvertedReads(env, t, inputs, DEFAULT);
    ConvertedIsStereo(env, t, inputs);
  }

  lemma {:induction false} ReadsAsStereo(env: Env, u: Track, read: seq<Arg>)
    requires Read(u.stream.outputArgs) == read && CodecIn(read) == Some(AAC)
    requires StereoIn(env, read, true) && u.channels == Some(2)
    ensures StereoAac(env, u)
  {
    assert AAC[0] != COPY[0];
  }

  lemma {:induction false} LowerAt(s: string, k: nat)
    requires k < |s|
    ensures Lower(s)[k] == LowerChar(s[k])
  {
    if k > 0 { LowerAt(s[1..], k - 1); }
  }

  lemma {:induction false} LowerIsItself(s: string)
    requires forall i :: 0 <= i < |s| ==> 'a' <= s[i] <= 'z'
    ensures Lower(s) == s
  {
    if s != [] { LowerIsItself(s[1..]); }
  }

  lemma PlainTitleIsPlain(title: string)
    requires 'n' !in title && 'N' !in title
    ensures !MentionsCommentary(title)
  {
    forall i | 0 <= i <= |title| - |COMMENTARY| ensures !CommentaryAt(title, i) {
      var part := title[i..i + |COMMENTARY|];
      LowerAt(part, 5);
      assert part[5] == title[i + 5] && COMMENTARY[5] == 'n';
    }
  }

  lemma CommentaryTitleMentions(head: string, word: string, tail: string)
    requires word == COMMENTARY && head != [] && !IsRegexWordChar(head[|head| - 1]) && tail != [] && !IsRegexWordChar(tail[0])
    ensures MentionsCommentary(head + word + tail)
  {
    var title := head + word + tail;
    LowerIsItself(word);
    hide Lower, IsRegexWordChar;
    assert title[|head|..|head| + |word|] == word;
    assert title[|head| - 1] == head[|head| - 1] && title[|head| + |word|] == tail[0];
    assert CommentaryAt(title, |head|);
  }

  lemma CommentaryTitleParts(head: string, tail: string)
    requires head == "Stereo compatibility (" && tail == ")"
    ensures COMMENTARY_TITLE == head + COMMENTARY + tail
    ensures head != [] && !IsRegexWordChar(head[|head| - 1]) && !IsRegexWordChar(tail[0])
  {
    hide MentionsCommentary, CommentaryAt;
  }

  lemma PlainTitleLetters()
    ensures 'n' !in PLAIN_TITLE && 'N' !in PLAIN_TITLE
  {
    hide MentionsCommentary, CommentaryAt;
  }

  lemma Titles()
    ensures MentionsCommentary(COMMENTARY_TITLE) && !MentionsCommentary(PLAIN_TITLE)
  {
    hide MentionsCommentary, CommentaryAt, IsRegexWordChar;
    var head: string, tail: string := "Stereo compatibility (", ")";
    CommentaryTitleParts(head, tail);
    CommentaryTitleMentions(head, COMMENTARY, tail);
    PlainTitleLetters();
    PlainTitleIsPlain(PLAIN_TITLE);
  }

  /** A title and a cleared default flag after the rest. */
  lemma {:induction false} CopyLabels(read: seq<Arg>, title: Arg, clear: Arg, flag: string, initial: bool)
    requires IsOption(title.flag, METADATA) && !IsOption(title.flag, DISPOSITION) && title.value.Some? && !(LANGUAGE <= title.value.value)
    requires IsOption(clear.flag, DISPOSITION) && !IsOption(clear.flag, METADATA) && clear.value == Some(MINUS_DEFAULT)
    requires flag in {DEFAULT, COMMENT}
    ensures LanguageIn(read + [title, clear]) == LanguageIn(read)
    ensures FlagIn(read + [title, clear], flag, initial) == if flag == DEFAULT then false else FlagIn(read, flag, initial)
  {
    hide Disposed;
    var all := read + [title, clear];
    assert all[..|all| - 1] == read + [title] && (read + [title])[..|read|] == read;
    DefaultValue(false, flag, FlagIn(read, flag, initial));
  }

  lemma TitleIsNoLanguage(title: string)
    ensures !(LANGUAGE <= "title=" + title)
  {
    PrefixDiffers(LANGUAGE, "title=" + title);
  }

  lemma PrefixDiffers(a: string, b: string)
    requires a != [] && b != [] && a[0] != b[0]
    ensures !(a <= b)
  {
  }

  lemma SetTitleIsMetadata()
    ensures IsOption(SET_TITLE, METADATA)
  {
    assert SET_TITLE[..9] == METADATA && SET_TITLE[9] == ':';
  }

  /** The copy's arguments read as stereo AAC with the source's labels and no default flag. */
  lemma {:induction false} CopyArgsRead(env: Env, t: Track, inputs: Inputs, initial: bool)
    requires env.isTwo(TWO) && Paired(t.stream.outputArgs)
    ensures var read, all := Read(t.stream.outputArgs), CopyArgs(t, inputs);
      && Complete(all) && LanguageIn(all) == LanguageIn(read)
      && !FlagIn(all, DEFAULT, initial) && FlagIn(all, COMMENT, initial) == FlagIn(read, COMMENT, initial)
      && CodecIn(all) == Some(AAC) && StereoIn(env, all, true)
  {
    hide LanguageIn, FlagIn, CodecIn, StereoIn, Labels, StereoArgs, Read, IsOption, IsCodecFlag, Disposed, MentionsCommentary;
    var base := Labels(Read(t.stream.outputArgs)) + StereoArgs(inputs, t.channels);
    var title, clear := Arg(SET_TITLE, Some("title=" + CopyTitle(t))), Arg(SET_DISPOSITION, Some(MINUS_DEFAULT));
    SetTitleFlag();
    SetTitleIsMetadata();
    DispositionFlagIsNothingElse();
    TitleIsNoLanguage(CopyTitle(t));
    ReadsAlike(inputs, t, [], COMMENT, initial);
    assert base + [] == base;
    CopyLabels(base, title, clear, DEFAULT, initial);
    CopyLabels(base, title, clear, COMMENT, initial);
    assert COMMENT[0] != DEFAULT[0];
    assert NoEncoder(title) && NoEncoder(clear);
    StereoArgsAreStereo(env, inputs, t.channels, Labels(Read(t.stream.outputArgs)), [title, clear], true);
    assert CopyArgs(t, inputs) == base + [title, clear];
  }

  /** A copy is a usable, active stereo AAC track of its source's language and role, and never the default. */
  lemma CopiedServes(env: Env, t: Track, inputs: Inputs, position: nat)
    requires env.isTwo(TWO) && Paired(t.stream.outputArgs) && Mappable(t)
    ensures var u := Copied(t, inputs, position);
      && Serves(env, u, t) && !IsDefault(u) && !u.stream.removed && Paired(u.stream.outputArgs)
      && u.stream.codecType == t.stream.codecType
  {
    hide LanguageIn, FlagIn, CodecIn, StereoIn, CopyArgs, Read, Written, MentionsCommentary, OrUnd, IsUnmappable;
    var u := Copied(t, inputs, position);
    assert u.stream.outputArgs == Written(CopyArgs(t, inputs)) && u.stream.probe == t.stream.probe.(codecName := Named(AAC));
    hide AsStereo;
    var initial := COMMENT in t.disposition && t.disposition[COMMENT];
    assert COMMENT[0] != DEFAULT[0];
    CopyArgsRead(env, t, inputs, initial);
    CopyArgsRead(env, t, inputs, false);
    ReadWritten(CopyArgs(t, inputs));
    AacIsMappable(t.stream.probe);
    ReadsAsStereo(env, u, CopyArgs(t, inputs));
    Titles();
  }

  // ---- Lists of tracks ---------------------------------------------------------------

  predicate AllPaired(tracks: seq<Track>) {
    forall i :: 0 <= i < |tracks| ==> Paired(tracks[i].stream.outputArgs)
  }

  lemma {:induction false} RetainedDependsOn(env: Env, inputs: Inputs, a: seq<Track>, b: seq<Track>, n: nat)
    requires n <= |a| && n <= |b|
    requires forall i :: 0 <= i < n ==> IsRetained(env, inputs, a[i]) == IsRetained(env, inputs, b[i])
    ensures Retained(env, inputs, a, n) == Retained(env, inputs, b, n)
  {
    if n > 0 { RetainedDependsOn(env, inputs, a, b, n - 1); }
  }

  /** The two lists answer alike, at these places, to everything a choice depends on. */
  predicate SameAnswers(env: Env, a: seq<Track>, b: seq<Track>, ids: seq<nat>) {
    forall i :: i in ids ==> i < |a| && i < |b| && AnswersAlike(env, a[i], b[i])
  }

  predicate AnswersAlike(env: Env, a: Track, b: Track) {
    && Language(env, a) == Language(env, b) && IsCommentary(a) == IsCommentary(b)
    && (Mappable(a) <==> Mappable(b)) && IsDefault(a) == IsDefault(b)
  }

  lemma SourceDependsOn(env: Env, a: seq<Track>, b: seq<Track>, ids: seq<nat>, language: string)
    requires SameAnswers(env, a, b, ids)
    ensures Source(env, a, ids, language) == Source(env, b, ids, language)
  {
    SiftDependsOn(ids, MappableAt(a), MappableAt(b));
    var usable := Sift(ids, MappableAt(a));
    SiftDependsOn(usable, Speaks(env, a, language), Speaks(env, b, language));
    var matching := Sift(usable, Speaks(env, a, language));
    PreferredDependsOn(if matching != [] then matching else usable, DefaultAt(a), DefaultAt(b), CommentaryIn(a), CommentaryIn(b));
  }

  lemma SourceIsUsable(env: Env, tracks: seq<Track>, ids: seq<nat>, language: string)
    ensures var s := Source(env, tracks, ids, language);
      s.Some? ==> s.value in ids && s.value < |tracks| && Mappable(tracks[s.value])
    ensures Source(env, tracks, ids, language).None? ==> forall i :: i in ids && i < |tracks| ==> !Mappable(tracks[i])
  {
    var usable := Sift(ids, MappableAt(tracks));
    if usable != [] { assert usable[0] in usable; }
  }

  /** The source of a list with a copy of its source added last is the source still. */
  lemma SourceIgnoresItsCopy(env: Env, tracks: seq<Track>, ids: seq<nat>, language: string, x: nat)
    requires var s := Source(env, tracks, ids, language);
      && s.Some? && s.value < |tracks| && x < |tracks| && Mappable(tracks[x]) && !IsDefault(tracks[x])
      && Language(env, tracks[x]) == Language(env, tracks[s.value]) && IsCommentary(tracks[x]) == IsCommentary(tracks[s.value])
    ensures Source(env, tracks, ids + [x], language) == Source(env, tracks, ids, language)
  {
    var usable := Sift(ids, MappableAt(tracks));
    var matching := Sift(usable, Speaks(env, tracks, language));
    SiftAppend(ids, x, MappableAt(tracks));
    SiftAppend(usable, x, Speaks(env, tracks, language));
    var list := if matching != [] then matching else usable;
    CopyIsNotPreferred(list, x, DefaultAt(tracks), CommentaryIn(tracks));
    var s := Source(env, tracks, ids, language).value;
    assert s in list;
    assert s in usable && (Language(env, tracks[s]) == language ==> s in matching);
  }

  // ---- The default, settled ----------------------------------------------------------

  /** Among these places the chosen track, and no other, is default. */
  predicate Settled(tracks: seq<Track>, ids: seq<nat>, chosen: Option<nat>) {
    chosen.Some? ==> forall i :: i in ids ==> i < |tracks| && IsDefault(tracks[i]) == (i == chosen.value)
  }

  lemma SettledIsLeft(tracks: seq<Track>, ids: seq<nat>, chosen: Option<nat>)
    requires Settled(tracks, ids, chosen)
    ensures Defaulted(tracks, ids, chosen) == tracks
  {
  }

  lemma Defaulted1Settles(env: Env, t: Track, wanted: bool)
    requires Paired(t.stream.outputArgs)
    ensures var d := Defaulted1(t, wanted);
      && Paired(d.stream.outputArgs) && Alike(env, t, d) && StereoAac(env, d) == StereoAac(env, t)
      && IsDefault(d) == wanted
  {
    hide Language, IsCommentary, IsDefault, IsUnmappable, StereoAac, Paired;
    var u := SetDefault(t, wanted);
    assert u.stream.codecType == t.stream.codecType && u.stream.removed == t.stream.removed && u.stream.probe == t.stream.probe;
    hide SetDefault;
    SetDefaultDoesOnlyThat(env, t, wanted);
  }

  lemma AlikeToItself(env: Env, t: Track)
    ensures Alike(env, t, t)
  {
  }

  lemma DefaultedSettles(env: Env, tracks: seq<Track>, ids: seq<nat>, chosen: Option<nat>)
    requires AllPaired(tracks) && forall i :: i in ids ==> i < |tracks|
    ensures var d := Defaulted(tracks, ids, chosen);
      && Settled(d, ids, chosen) && AllPaired(d)
      && forall i :: 0 <= i < |tracks| ==> Alike(env, tracks[i], d[i]) && StereoAac(env, d[i]) == StereoAac(env, tracks[i])
  {
    hide Defaulted1, IsDefault, StereoAac, Paired, Alike;
    var d := Defaulted(tracks, ids, chosen);
    forall i | 0 <= i < |tracks|
      ensures Paired(d[i].stream.outputArgs) && Alike(env, tracks[i], d[i]) && StereoAac(env, d[i]) == StereoAac(env, tracks[i])
      ensures chosen.Some? && i in ids ==> IsDefault(d[i]) == (i == chosen.value)
    {
      if chosen.Some? { Defaulted1Settles(env, tracks[i], i == chosen.value); }
      AlikeToItself(env, tracks[i]);
    }
  }

  /** With the default settled on the chosen track, it is chosen again, whatever like it was added last. */
  lemma SettledIsChosenAgain(ids: seq<nat>, x: Option<nat>, before: nat -> bool, commentary: nat -> bool, after: nat -> bool, c: nat)
    requires Preferred(ids, before, commentary) == Some(c) && (forall i :: i in ids ==> (after(i) <==> i == c))
    requires x.Some? ==> !after(x.value) && ((forall i :: i in ids ==> commentary(i)) ==> commentary(x.value))
    ensures Preferred(if x.Some? then ids + [x.value] else ids, after, commentary) == Some(c)
  {
    ChosenStaysChosen(ids, before, after, commentary, c);
    if x.Some? {
      FirstAppend(ids, x.value, Both(after, commentary));
      FirstAppend(ids, x.value, Plain(commentary));
      FirstAppend(ids, x.value, after);
    }
  }

  // ---- The result of a run -----------------------------------------------------------

  /** The tracks as the node leaves them before it sees to stereo. */
  function Prepared(env: Env, inputs: Inputs, tracks: seq<Track>): seq<Track> {
    var ids, marked := Retained(env, inputs, tracks, |tracks|), Marked(env, inputs, tracks);
    Defaulted(marked, ids, Chosen(env, marked, ids, inputs.defaultLanguage))
  }

  lemma MarkedKeepsTheRetained(env: Env, inputs: Inputs, tracks: seq<Track>)
    requires AllPaired(tracks)
    ensures var marked := Marked(env, inputs, tracks);
      && AllPaired(marked)
      && forall i :: 0 <= i < |tracks| ==>
           && (IsRetained(env, inputs, marked[i]) <==> IsRetained(env, inputs, tracks[i]))
           && (Active(marked[i]) ==> IsRetained(env, inputs, marked[i]))
           && AnswersAlike(env, tracks[i], marked[i])
  {
  }

  /** Retained is all that is active now, and the default is settled among them. */
  lemma {:induction false} PreparedIsSettled(env: Env, inputs: Inputs, tracks: seq<Track>)
    requires AllPaired(tracks)
    ensures var ids, prepared := Retained(env, inputs, tracks, |tracks|), Prepared(env, inputs, tracks);
      && |prepared| == |tracks| && AllPaired(prepared)
      && (forall i :: 0 <= i < |tracks| ==>
            && (IsRetained(env, inputs, prepared[i]) <==> IsRetained(env, inputs, tracks[i]))
            && (Active(prepared[i]) ==> IsRetained(env, inputs, prepared[i]))
            && (Mappable(prepared[i]) <==> Mappable(tracks[i])))
      && Settled(prepared, ids, Chosen(env, Marked(env, inputs, tracks), ids, inputs.defaultLanguage))
      && forall i :: 0 <= i < |tracks| ==> Alike(env, Marked(env, inputs, tracks)[i], prepared[i])
  {
    hide Language, IsCommentary, IsDefault, Mappable, StereoAac, Chosen, Defaulted, Settled;
    var ids, marked := Retained(env, inputs, tracks, |tracks|), Marked(env, inputs, tracks);
    hide Marked;
    MarkedKeepsTheRetained(env, inputs, tracks);
    DefaultedSettles(env, marked, ids, Chosen(env, marked, ids, inputs.defaultLanguage));
  }

  /** Everything active is retained: a second run removes nothing and refuses nothing. */
  lemma NothingMoreToRemove(env: Env, inputs: Inputs, tracks: seq<Track>)
    requires forall i :: 0 <= i < |tracks| && Active(tracks[i]) ==> IsRetained(env, inputs, tracks[i])
    ensures Marked(env, inputs, tracks) == tracks && !Refuses(env, inputs, tracks)
  {
  }

  /** With nothing to remove, the default settled and the stereo seen to, a run changes nothing. */
  lemma {:induction false} SettledRunIsIdle(env: Env, inputs: Inputs, tracks: seq<Track>)
    requires forall i :: 0 <= i < |tracks| && Active(tracks[i]) ==> IsRetained(env, inputs, tracks[i])
    requires var ids := Retained(env, inputs, tracks, |tracks|);
      && Settled(tracks, ids, Chosen(env, tracks, ids, inputs.defaultLanguage))
      && WithStereo(env, inputs, tracks, ids) == tracks
    ensures Applied(env, inputs, tracks) == Success(tracks)
  {
    var ids := Retained(env, inputs, tracks, |tracks|);
    NothingMoreToRemove(env, inputs, tracks);
    SettledIsLeft(tracks, ids, Chosen(env, tracks, ids, inputs.defaultLanguage));
  }

  /** Of one language and one role. */
  predicate SameVoice(env: Env, a: Track, b: Track) {
    Language(env, a) == Language(env, b) && IsCommentary(a) == IsCommentary(b)
  }

  predicate SameVoices(env: Env, a: seq<Track>, b: seq<Track>, ids: seq<nat>) {
    forall i :: i in ids ==> i < |a| && i < |b| && SameVoice(env, a[i], b[i])
  }

  function With(ids: seq<nat>, x: Option<nat>): seq<nat> {
    if x.Some? then ids + [x.value] else ids
  }

  /** `x`, if there is one, is not default and speaks as some track of the list does. */
  predicate Echoes(env: Env, tracks: seq<Track>, ids: seq<nat>, x: Option<nat>, source: nat) {
    x.Some? ==> x.value < |tracks| && !IsDefault(tracks[x.value])
                && source in ids && source < |tracks| && SameVoice(env, tracks[x.value], tracks[source])
  }

  /** The speakers of a language again: the echo joins them exactly when its source is one. */
  lemma {:induction false} SpeakersAgain(env: Env, before: seq<Track>, after: seq<Track>, ids: seq<nat>, x: Option<nat>, source: nat, language: string)
    requires SameVoices(env, before, after, ids) && Echoes(env, after, ids, x, source)
    ensures var speaks := Sift(ids, Speaks(env, before, language));
      var joins := x.Some? && Speaks(env, after, language)(x.value);
      && Sift(With(ids, x), Speaks(env, after, language)) == With(speaks, if joins then x else None)
      && (joins ==> source in speaks)
  {
    SiftDependsOn(ids, Speaks(env, before, language), Speaks(env, after, language));
    if x.Some? { SiftAppend(ids, x.value, Speaks(env, after, language)); }
  }

  lemma SettledExtends(tracks: seq<Track>, ids: seq<nat>, x: Option<nat>, c: nat)
    requires Settled(tracks, ids, Some(c)) && c in ids && (x.Some? ==> x.value < |tracks| && !IsDefault(tracks[x.value]))
    ensures Settled(tracks, With(ids, x), Some(c))
  {
    assert c < |tracks| && IsDefault(tracks[c]);
  }

  lemma {:induction false} ChosenIsGiven(env: Env, tracks: seq<Track>, ids: seq<nat>, language: string)
    ensures var c := Chosen(env, tracks, ids, language);
      c.Some? ==> c.value in Sift(ids, Speaks(env, tracks, language)) && c.value in ids
    ensures var c := Chosen(env, tracks, ids, language);
      c.None? ==> language == [] || Sift(ids, Speaks(env, tracks, language)) == []
  {
  }

  /** Of the speakers: the settled choice is made again. */
  lemma SpeakersChooseAgain(before: seq<Track>, after: seq<Track>, speaks: seq<nat>, x: Option<nat>, source: nat, c: nat)
    requires forall i :: i in speaks ==> CommentaryIn(before)(i) == CommentaryIn(after)(i)
    requires Preferred(speaks, DefaultAt(before), CommentaryIn(before)) == Some(c)
    requires forall i :: i in speaks ==> (DefaultAt(after)(i) <==> i == c)
    requires x.Some? ==> !DefaultAt(after)(x.value) && source in speaks && CommentaryIn(after)(x.value) == CommentaryIn(after)(source)
    ensures Preferred(With(speaks, x), DefaultAt(after), CommentaryIn(after)) == Some(c)
  {
    PreferredDependsOn(speaks, DefaultAt(before), DefaultAt(before), CommentaryIn(before), CommentaryIn(after));
    SettledIsChosenAgain(speaks, x, DefaultAt(before), CommentaryIn(after), DefaultAt(after), c);
  }

  /** The choice made again on a list that answers as the first did, but for the default it settled. */
  lemma ChosenAgain(env: Env, before: seq<Track>, after: seq<Track>, ids: seq<nat>, x: Option<nat>, source: nat, language: string)
    requires SameVoices(env, before, after, ids) && Echoes(env, after, ids, x, source)
    requires Settled(after, ids, Chosen(env, before, ids, language))
    ensures Chosen(env, after, With(ids, x), language) == Chosen(env, before, ids, language)
    ensures Settled(after, With(ids, x), Chosen(env, before, ids, language))
  {
    hide Language, IsCommentary, IsDefault, Preferred, First;
    var chosen := Chosen(env, before, ids, language);
    ChosenIsGiven(env, before, ids, language);
    if language != [] {
      SpeakersAgain(env, before, after, ids, x, source, language);
      var speaks := Sift(ids, Speaks(env, before, language));
      var joins := x.Some? && Speaks(env, after, language)(x.value);
      if chosen.Some? {
        SpeakersChooseAgain(before, after, speaks, if joins then x else None, source, chosen.value);
        SettledExtends(after, ids, x, chosen.value);
      } else {
        ChosenIsGiven(env, after, With(ids, x), language);
        NoSpeakersNoChoice(DefaultAt(after), CommentaryIn(after));
      }
    }
  }

  lemma NoSpeakersNoChoice(isDefault: nat -> bool, commentary: nat -> bool)
    ensures Preferred([], isDefault, commentary) == None
  {
  }

  // ---- The second run ----------------------------------------------------------------

  /** What the first run leaves before stereo, said once for the three cases below. */
  predicate Ready(env: Env, inputs: Inputs, marked: seq<Track>, prepared: seq<Track>, ids: seq<nat>) {
    && |marked| == |prepared| && AllPaired(prepared)
    && ids == Retained(env, inputs, prepared, |prepared|)
    && (forall i :: 0 <= i < |prepared| && Active(prepared[i]) ==> IsRetained(env, inputs, prepared[i]))
    && SameVoices(env, marked, prepared, ids)
    && Settled(prepared, ids, Chosen(env, marked, ids, inputs.defaultLanguage))
  }

  lemma {:induction false} PreparedIsReady(env: Env, inputs: Inputs, tracks: seq<Track>)
    requires AllPaired(tracks)
    ensures Ready(env, inputs, Marked(env, inputs, tracks), Prepared(env, inputs, tracks), Retained(env, inputs, tracks, |tracks|))
  {
    PreparedIsSettled(env, inputs, tracks);
    RetainedDependsOn(env, inputs, Prepared(env, inputs, tracks), tracks, |tracks|);
  }

  /** The track the list prefers has a usable stereo AAC one of its language and role. */
  predicate StereoSeenTo(env: Env, inputs: Inputs, tracks: seq<Track>) {
    var ids := Retained(env, inputs, tracks, |tracks|);
    var source := Source(env, tracks, ids, inputs.defaultLanguage);
    source.Some? ==> source.value < |tracks| && HasStereo(env, tracks, ids, tracks[source.value])
  }

  lemma {:induction false} UnchangedHasStereo(env: Env, inputs: Inputs, prepared: seq<Track>)
    requires AllPaired(prepared) && env.isTwo(TWO) && inputs.ensureStereo
    requires WithStereo(env, inputs, prepared, Retained(env, inputs, prepared, |prepared|)) == prepared
    ensures StereoSeenTo(env, inputs, prepared)
  {
    hide Language, IsCommentary, IsDefault, StereoAac, Mappable, Converted;
    var ids := Retained(env, inputs, prepared, |prepared|);
    SourceIsUsable(env, prepared, ids, inputs.defaultLanguage);
    var source := Source(env, prepared, ids, inputs.defaultLanguage);
    if source.Some? && prepared[source.value := Converted(prepared[source.value], inputs)] == prepared {
      ConvertedServes(env, prepared[source.value], inputs);
      assert prepared[source.value] == Converted(prepared[source.value], inputs);
    }
  }

  lemma UnchangedIsIdle(env: Env, inputs: Inputs, marked: seq<Track>, prepared: seq<Track>, ids: seq<nat>)
    requires Ready(env, inputs, marked, prepared, ids) && WithStereo(env, inputs, prepared, ids) == prepared
    ensures Applied(env, inputs, prepared) == Success(prepared)
  {
    ChosenAgain(env, marked, prepared, ids, None, 0, inputs.defaultLanguage);
    SettledRunIsIdle(env, inputs, prepared);
  }

  /** A list that has its stereo is left as it is. */
  lemma ServedIsLeft(env: Env, inputs: Inputs, tracks: seq<Track>, ids: seq<nat>, s: nat, i: nat)
    requires Source(env, tracks, ids, inputs.defaultLanguage) == Some(s) && s < |tracks|
    requires i in ids && i < |tracks| && Serves(env, tracks[i], tracks[s])
    ensures WithStereo(env, inputs, tracks, ids) == tracks
  {
  }

  /** A list whose default is settled and whose source is served is left as it is. */
  lemma {:induction false} FinishedIsIdle(env: Env, inputs: Inputs, u: seq<Track>, ids: seq<nat>, s: nat, i: nat)
    requires (forall k :: 0 <= k < |u| && Active(u[k]) ==> IsRetained(env, inputs, u[k])) && ids == Retained(env, inputs, u, |u|)
    requires Settled(u, ids, Chosen(env, u, ids, inputs.defaultLanguage))
    requires Source(env, u, ids, inputs.defaultLanguage) == Some(s) && s < |u|
    requires i in ids && i < |u| && Serves(env, u[i], u[s])
    ensures Applied(env, inputs, u) == Success(u) && StereoSeenTo(env, inputs, u)
  {
    ServedIsLeft(env, inputs, u, ids, s, i);
    SettledRunIsIdle(env, inputs, u);
  }

  lemma ConvertedIsReady(env: Env, inputs: Inputs, marked: seq<Track>, prepared: seq<Track>, ids: seq<nat>, s: nat)
    requires Ready(env, inputs, marked, prepared, ids) && env.isTwo(TWO)
    requires s in ids && s < |prepared| && Mappable(prepared[s])
    ensures Ready(env, inputs, marked, prepared[s := Converted(prepared[s], inputs)], ids)
    ensures SameAnswers(env, prepared, prepared[s := Converted(prepared[s], inputs)], ids)
  {
    hide Language, IsCommentary, IsDefault, StereoAac, Mappable, Converted, Chosen, Serves;
    var u := prepared[s := Converted(prepared[s], inputs)];
    ConvertedServes(env, prepared[s], inputs);
    RetainedDependsOn(env, inputs, prepared, u, |prepared|);
  }

  lemma ConvertedIsIdle(env: Env, inputs: Inputs, marked: seq<Track>, prepared: seq<Track>, ids: seq<nat>, s: nat)
    requires Ready(env, inputs, marked, prepared, ids) && env.isTwo(TWO)
    requires Source(env, prepared, ids, inputs.defaultLanguage) == Some(s) && s < |prepared|
    ensures var u := prepared[s := Converted(prepared[s], inputs)];
      Applied(env, inputs, u) == Success(u) && StereoSeenTo(env, inputs, u)
  {
    hide Language, IsCommentary, IsDefault, StereoAac, Mappable, Converted, Chosen, Source, SameAnswers, Applied, WithStereo, StereoSeenTo, Settled;
    var u := prepared[s := Converted(prepared[s], inputs)];
    SourceIsUsable(env, prepared, ids, inputs.defaultLanguage);
    ConvertedServes(env, prepared[s], inputs);
    ConvertedIsReady(env, inputs, marked, prepared, ids, s);
    ChosenAgain(env, marked, u, ids, None, 0, inputs.defaultLanguage);
    SourceDependsOn(env, prepared, u, ids, inputs.defaultLanguage);
    FinishedIsIdle(env, inputs, u, ids, s, s);
  }

  lemma {:induction false} CopyIsRetained(env: Env, inputs: Inputs, prepared: seq<Track>, ids: seq<nat>, s: nat, copy: Track)
    requires ids == Retained(env, inputs, prepared, |prepared|) && s < |prepared| && IsRetained(env, inputs, prepared[s])
    requires copy.stream.codecType == prepared[s].stream.codecType && !copy.stream.removed
    requires Language(env, copy) == Language(env, prepared[s])
    ensures IsRetained(env, inputs, copy)
    ensures Retained(env, inputs, prepared + [copy], |prepared| + 1) == ids + [|prepared|]
  {
    RetainedDependsOn(env, inputs, prepared, prepared + [copy], |prepared|);
  }

  /** The list with the copy: everything active retained, the copy an echo of its source, the rest as it was. */
  lemma {:induction false} CopiedIsReady(env: Env, inputs: Inputs, marked: seq<Track>, prepared: seq<Track>, ids: seq<nat>, s: nat, copy: Track)
    requires Ready(env, inputs, marked, prepared, ids) && s in ids && s < |prepared|
    requires copy.stream.codecType == prepared[s].stream.codecType && !copy.stream.removed && !IsDefault(copy)
    requires SameVoice(env, copy, prepared[s])
    ensures var u, n := prepared + [copy], |prepared|;
      && Retained(env, inputs, u, |u|) == ids + [n]
      && (forall k :: 0 <= k < |u| && Active(u[k]) ==> IsRetained(env, inputs, u[k]))
      && SameVoices(env, marked, u, ids) && Echoes(env, u, ids, Some(n), s)
      && Settled(u, ids, Chosen(env, marked, ids, inputs.defaultLanguage))
      && SameAnswers(env, prepared, u, ids)
  {
    hide Language, IsCommentary, IsDefault, Mappable, Chosen, SameVoices, Settled, SameAnswers, Echoes;
    assert IsRetained(env, inputs, prepared[s]);
    CopyIsRetained(env, inputs, prepared, ids, s, copy);
    LongerIsAllRetained(env, inputs, prepared, copy);
    LongerIsTheSame(env, marked, prepared, copy, ids, Chosen(env, marked, ids, inputs.defaultLanguage));
    CopyEchoes(env, prepared, copy, ids, s);
  }

  lemma CopyEchoes(env: Env, prepared: seq<Track>, copy: Track, ids: seq<nat>, s: nat)
    requires s in ids && s < |prepared| && !IsDefault(copy) && SameVoice(env, copy, prepared[s])
    ensures Echoes(env, prepared + [copy], ids, Some(|prepared|), s)
  {
    hide IsDefault, SameVoice;
  }

  lemma LongerIsAllRetained(env: Env, inputs: Inputs, prepared: seq<Track>, copy: Track)
    requires forall i :: 0 <= i < |prepared| && Active(prepared[i]) ==> IsRetained(env, inputs, prepared[i])
    requires IsRetained(env, inputs, copy)
    ensures var u := prepared + [copy]; forall k :: 0 <= k < |u| && Active(u[k]) ==> IsRetained(env, inputs, u[k])
  {
    hide IsRetained, Active;
  }

  /** At the places of a list, a longer one that starts with it is the same. */
  lemma LongerIsTheSame(env: Env, marked: seq<Track>, prepared: seq<Track>, copy: Track, ids: seq<nat>, chosen: Option<nat>)
    requires forall i :: i in ids ==> i < |prepared|
    requires SameVoices(env, marked, prepared, ids) && Settled(prepared, ids, chosen)
    ensures var u := prepared + [copy];
      SameVoices(env, marked, u, ids) && Settled(u, ids, chosen) && SameAnswers(env, prepared, u, ids)
  {
    hide Language, IsCommentary, IsDefault, Mappable;
  }

  lemma CopiedIsIdle(env: Env, inputs: Inputs, marked: seq<Track>, prepared: seq<Track>, ids: seq<nat>, s: nat)
    requires Ready(env, inputs, marked, prepared, ids) && env.isTwo(TWO)
    requires Source(env, prepared, ids, inputs.defaultLanguage) == Some(s) && s < |prepared|
    ensures var u := prepared + [Copied(prepared[s], inputs, s)];
      Applied(env, inputs, u) == Success(u) && StereoSeenTo(env, inputs, u)
  {
    hide Language, IsCommentary, IsDefault, StereoAac, Mappable, Copied, Chosen, Source, SameAnswers, Applied, WithStereo, StereoSeenTo, Settled;
    var copy, n := Copied(prepared[s], inputs, s), |prepared|;
    var u := prepared + [copy];
    SourceIsUsable(env, prepared, ids, inputs.defaultLanguage);
    CopiedServes(env, prepared[s], inputs, s);
    CopiedIsReady(env, inputs, marked, prepared, ids, s, copy);
    ChosenAgain(env, marked, u, ids, Some(n), s, inputs.defaultLanguage);
    SourceDependsOn(env, prepared, u, ids, inputs.defaultLanguage);
    SourceIgnoresItsCopy(env, u, ids, inputs.defaultLanguage, n);
    FinishedIsIdle(env, inputs, u, ids + [n], s, n);
  }

  /** Run again on what it made, the node changes nothing; and where stereo was asked for, it is there. */
  lemma SecondRunIsIdle(env: Env, inputs: Inputs, tracks: seq<Track>)
    requires AllPaired(tracks) && env.isTwo(TWO) && Applied(env, inputs, tracks).Success?
    ensures Applied(env, inputs, Applied(env, inputs, tracks).value) == Applied(env, inputs, tracks)
    ensures inputs.ensureStereo ==> StereoSeenTo(env, inputs, Applied(env, inputs, tracks).value)
  {
    hide StereoSeenTo, Ready, IsDefault, StereoAac, Mappable, Converted, Copied, HasStereo;
    var ids, marked, prepared := Retained(env, inputs, tracks, |tracks|), Marked(env, inputs, tracks), Prepared(env, inputs, tracks);
    PreparedIsReady(env, inputs, tracks);
    ReadyIsRetained(env, inputs, marked, prepared, ids);
    var source := Source(env, prepared, ids, inputs.defaultLanguage);
    if WithStereo(env, inputs, prepared, ids) == prepared {
      UnchangedIsIdle(env, inputs, marked, prepared, ids);
      if inputs.ensureStereo { UnchangedHasStereo(env, inputs, prepared); }
    } else if inputs.convert {
      ConvertedIsIdle(env, inputs, marked, prepared, ids, source.value);
    } else {
      CopiedIsIdle(env, inputs, marked, prepared, ids, source.value);
    }
  }

  lemma {:induction false} ReadyIsRetained(env: Env, inputs: Inputs, marked: seq<Track>, prepared: seq<Track>, ids: seq<nat>)
    requires Ready(env, inputs, marked, prepared, ids)
    ensures AllPaired(prepared) && ids == Retained(env, inputs, prepared, |prepared|)
  {
  }

  // ---- What is promised of the result ------------------------------------------------

  /** Seeing to stereo takes no usable track away. */
  lemma StereoTakesNothing(env: Env, inputs: Inputs, prepared: seq<Track>, ids: seq<nat>, i: nat)
    requires AllPaired(prepared) && env.isTwo(TWO) && i < |prepared| && Active(prepared[i]) && Mappable(prepared[i])
    ensures var u := WithStereo(env, inputs, prepared, ids); i < |u| && Active(u[i]) && Mappable(u[i])
  {
    hide Language, IsCommentary, IsDefault, StereoAac, Mappable, Converted, Copied, HasStereo;
    SourceIsUsable(env, prepared, ids, inputs.defaultLanguage);
    var source := Source(env, prepared, ids, inputs.defaultLanguage);
    if source.Some? { ConvertedServes(env, prepared[source.value], inputs); }
  }

  /** A track that can be heard is still there: the node refuses rather than remove the last usable audio. */
  lemma UsableAudioSurvives(env: Env, inputs: Inputs, tracks: seq<Track>)
    requires AllPaired(tracks) && env.isTwo(TWO) && Applied(env, inputs, tracks).Success?
    requires exists i :: 0 <= i < |tracks| && Active(tracks[i]) && Mappable(tracks[i])
    ensures var u := Applied(env, inputs, tracks).value; exists i :: 0 <= i < |u| && Active(u[i]) && Mappable(u[i])
  {
    hide Language, IsCommentary, IsDefault, StereoAac, Mappable, WithStereo, Defaulted, Marked, Chosen;
    var i :| 0 <= i < |tracks| && IsRetained(env, inputs, tracks[i]) && Mappable(tracks[i]);
    PreparedIsSettled(env, inputs, tracks);
    StereoTakesNothing(env, inputs, Prepared(env, inputs, tracks), Retained(env, inputs, tracks, |tracks|), i);
  }

  /** Streams that are not active audio are exactly as they were, and at most one is added. */
  lemma OthersAreUntouched(env: Env, inputs: Inputs, tracks: seq<Track>)
    requires Applied(env, inputs, tracks).Success?
    ensures var u := Applied(env, inputs, tracks).value;
      && |tracks| <= |u| <= |tracks| + 1
      && forall i :: 0 <= i < |tracks| && !IsRetained(env, inputs, tracks[i]) ==> u[i] == Marked1(env, inputs, tracks[i])
  {
    hide Language, IsCommentary, IsDefault, StereoAac, Mappable, Converted, Copied, HasStereo, Marked1;
    var ids := Retained(env, inputs, tracks, |tracks|);
    SourceIsUsable(env, Prepared(env, inputs, tracks), ids, inputs.defaultLanguage);
  }

  // ---- The node, as it runs ----------------------------------------------------------

  class AudioCommand {
    /** The command's streams, which the node changes in place. */
    var tracks: seq<Track>

    constructor (tracks: seq<Track>)
      ensures this.tracks == tracks
    {
      this.tracks := tracks;
    }

    /** Active audio streams the language list does not retain are flagged removed. */
    method RemoveOthers(env: Env, inputs: Inputs)
      modifies this
      ensures tracks == Marked(env, inputs, old(tracks))
    {
      ghost var before := tracks;
      for i := 0 to |tracks|
        invariant |tracks| == |before|
        invariant forall k :: 0 <= k < |tracks| ==> tracks[k] == if k < i then Marked1(env, inputs, before[k]) else before[k]
      {
        var t := tracks[i];
        if Active(t) && !Keeps(env, inputs, t) {
          tracks := tracks[i := t.(stream := t.stream.(removed := true))];
        }
      }
    }

    static lemma NothingDefaulted(tracks: seq<Track>, ids: seq<nat>, chosen: Option<nat>)
      requires chosen.None? || ids == []
      ensures Defaulted(tracks, ids, chosen) == tracks
    {
    }

    /** One more of the given places settled. */
    static lemma {:induction false} DefaultedStep(tracks: seq<Track>, ids: seq<nat>, a: nat, chosen: Option<nat>)
      requires Increasing(ids) && a < |ids| && ids[a] < |tracks| && chosen.Some?
      ensures ids[a] !in ids[..a] && Defaulted(tracks, ids[..a], chosen)[ids[a]] == tracks[ids[a]]
      ensures Defaulted(tracks, ids[..a + 1], chosen)
           == Defaulted(tracks, ids[..a], chosen)[ids[a] := Defaulted1(tracks[ids[a]], ids[a] == chosen.value)]
    {
      hide Defaulted1;
      assert ids[..a + 1] == ids[..a] + [ids[a]];
    }

    /** Every given track but the chosen one loses the default flag, and the chosen one gains it. */
    method ChooseDefault(env: Env, ids: seq<nat>, language: string)
      requires Increasing(ids)
      requires forall a :: 0 <= a < |ids| ==> ids[a] < |tracks|
      modifies this
      ensures tracks == Defaulted(old(tracks), ids, Chosen(env, old(tracks), ids, language))
    {
      hide Chosen, Defaulted, SetDefault, HasFlag;
      var chosen := Chosen(env, tracks, ids, language);
      NothingDefaulted(tracks, if chosen.None? then ids else ids[..0], chosen);
      if chosen.None? { return; }
      ghost var before := tracks;
      for a := 0 to |ids|
        invariant |tracks| == |before|
        invariant tracks == Defaulted(before, ids[..a], chosen)
      {
        var wanted := ids[a] == chosen.value;
        DefaultedStep(before, ids, a, chosen);
        var enabled := DispositionFlag(tracks[ids[a]], DEFAULT);
        if enabled != wanted {
          tracks := tracks[ids[a] := SetDefault(tracks[ids[a]], wanted)];
        }
      }
      assert ids[..|ids|] == ids;
    }

    method AddStereo(inputs: Inputs, s: nat)
      requires s < |tracks|
      modifies this
      ensures tracks == old(tracks) + [Copied(old(tracks)[s], inputs, s)]
    {
      tracks := tracks + [Copied(tracks[s], inputs, s)];
    }

    method ConvertStereo(inputs: Inputs, s: nat)
      requires s < |tracks|
      modifies this
      ensures tracks == old(tracks)[s := Converted(old(tracks)[s], inputs)]
    {
      tracks := tracks[s := Converted(tracks[s], inputs)];
    }

    static lemma {:induction false} RetainedNone(env: Env, inputs: Inputs, tracks: seq<Track>)
      ensures Retained(env, inputs, tracks, 0) == [] && !AnyUsable(tracks, 0) && !AnyRetainedUsable(env, inputs, tracks, 0)
    {
    }

    static lemma RetainedOneMore(env: Env, inputs: Inputs, tracks: seq<Track>, n: nat)
      requires n < |tracks|
      ensures Retained(env, inputs, tracks, n + 1)
           == Retained(env, inputs, tracks, n) + if IsRetained(env, inputs, tracks[n]) then [n] else []
      ensures AnyUsable(tracks, n + 1) <==> AnyUsable(tracks, n) || (Active(tracks[n]) && Mappable(tracks[n]))
      ensures AnyRetainedUsable(env, inputs, tracks, n + 1)
         <==> AnyRetainedUsable(env, inputs, tracks, n) || (IsRetained(env, inputs, tracks[n]) && Mappable(tracks[n]))
    {
      hide Active, IsRetained, Mappable;
    }

    /** What is retained, and whether that would remove every usable audio track there is. */
    method Survey(env: Env, inputs: Inputs) returns (retained: seq<nat>, refuses: bool)
      ensures retained == Retained(env, inputs, tracks, |tracks|)
      ensures refuses <==> Refuses(env, inputs, tracks)
    {
      hide Language, Mappable, Active, Keeps, AnyUsable, AnyRetainedUsable, Retained;
      RetainedNone(env, inputs, tracks);
      var activeUsable, retainedUsable := false, false;
      retained := [];
      for i := 0 to |tracks|
        invariant retained == Retained(env, inputs, tracks, i)
        invariant activeUsable <==> AnyUsable(tracks, i)
        invariant retainedUsable <==> AnyRetainedUsable(env, inputs, tracks, i)
      {
        RetainedOneMore(env, inputs, tracks, i);
        if Active(tracks[i]) {
          activeUsable := activeUsable || Mappable(tracks[i]);
          if Keeps(env, inputs, tracks[i]) {
            retained := retained + [i];
            retainedUsable := retainedUsable || Mappable(tracks[i]);
          }
        }
      }
      refuses := activeUsable && !retainedUsable;
    }

    method SeeToStereo(env: Env, inputs: Inputs, ids: seq<nat>)
      modifies this
      ensures tracks == WithStereo(env, inputs, old(tracks), ids)
    {
      if !inputs.ensureStereo { return; }
      var source := Source(env, tracks, ids, inputs.defaultLanguage);
      if source.Some? && source.value < |tracks| && !HasStereo(env, tracks, ids, tracks[source.value]) {
        if inputs.convert { ConvertStereo(inputs, source.value); } else { AddStereo(inputs, source.value); }
      }
    }

    /** The node: it refuses and changes nothing, or leaves what `Applied` says. */
    method Run(env: Env, inputs: Inputs) returns (refused: bool)
      modifies this
      ensures refused <==> Applied(env, inputs, old(tracks)).Failure?
      ensures tracks == if refused then old(tracks) else Applied(env, inputs, old(tracks)).value
    {
      hide Language, Mappable, IsDefault, Retained, Marked, Chosen, Defaulted, WithStereo, Refuses;
      var retained;
      retained, refused := Survey(env, inputs);
      if refused { return; }
      RetainedIncreases(env, inputs, tracks, |tracks|);
      RetainedIsWithin(env, inputs, tracks);
      RemoveOthers(env, inputs);
      ChooseDefault(env, retained, inputs.defaultLanguage);
      SeeToStereo(env, inputs, retained);
    }
  }

  lemma {:induction false} RetainedIsWithin(env: Env, inputs: Inputs, tracks: seq<Track>)
    ensures var ids := Retained(env, inputs, tracks, |tracks|); forall a :: 0 <= a < |ids| ==> ids[a] < |tracks|
    ensures |Marked(env, inputs, tracks)| == |tracks|
  {
    var ids := Retained(env, inputs, tracks, |tracks|);
    assert forall a :: 0 <= a < |ids| ==> ids[a] in ids;
  }
}
