/** The no-op gate: would running a command produce a file different from the one it reads? */
module FfmpegNoop {
  import opened Wrappers
  import opened Text
  import opened FfmpegCommand
  import opened FfmpegCompile

  datatype Change =
    | InputChanged | ContainerChanged | OverallArguments | StreamSet | StreamOrder
    | StreamArguments | StreamMapping | Unverifiable

  /** What the file being judged is right now. */
  datatype Source = Source(path: string, container: string, streams: Option<seq<ProbeStream>>)

  function StripDots(s: string): string {
    if s != [] && s[0] == '.' then StripDots(s[1..]) else s
  }

  function NormaliseContainer(c: string): string {
    Lower(StripDots(Trim(c)))
  }

  /** The stream's map is the one Begin Command seeds: its own input track, once. */
  predicate IsIdentityMapArgs(s: Stream) {
    s.mapArgs == [] || (s.probe.index.Some? && s.mapArgs == IdentityMap(s.probe.index.value))
  }

  /** The stream at an output position is the probe's stream there. */
  predicate SameIndex(s: Stream, p: ProbeStream) {
    s.probe.index.Some? && p.index.Some? && s.probe.index == p.index
  }

  predicate StreamInert(s: Stream) {
    !s.forceEncoding && s.outputArgs == [] && s.inputArgs == [] && IsIdentityMapArgs(s)
  }

  /** The command reads this one file, into its own container, with no arguments of its own. */
  predicate HeaderInert(command: Command, source: Source) {
    && command.inputFiles == [source.path]
    && NormaliseContainer(command.container) == NormaliseContainer(source.container)
    && command.overallInputArguments == [] && command.overallOuputArguments == [] && !command.hardwareDecoding
  }

  /** Every stream is kept, stands where the probe has it, and has had nothing asked of it. */
  predicate StreamsInert(streams: seq<Stream>, probe: seq<ProbeStream>) {
    && |Surviving(streams)| == |streams| && |Kept(streams)| == |Surviving(streams)|
    && PositionsInert(MappableStreams(streams), probe)
    && (forall k :: 0 <= k < |Surviving(streams)| ==> StreamInert(At(streams, Surviving(streams))[k]))
  }

  predicate PositionsInert(kept: seq<Stream>, probe: seq<ProbeStream>) {
    |kept| == |probe| && forall k :: 0 <= k < |kept| ==> SameIndex(kept[k], probe[k])
  }

  /** Everything the gate has to see before it calls a command inert. */
  predicate Inert(command: Command, source: Source) {
    && source.streams.Some? && source.streams.value != []
    && HeaderInert(command, source) && StreamsInert(command.streams, source.streams.value)
  }

  /** The gate. It reads removals through the host's guard, and never reads `shouldProcess`. */
  method DescribeCommandChanges(command: Command, source: Source) returns (changes: seq<Change>)
    ensures changes == [] <==> Inert(command, source)
  {
    if source.streams.None? || source.streams.value == [] { return [Unverifiable]; }
    changes := DescribeHeader(command, source);
    var streams := DescribeStreamSet(command.streams, source.streams.value);
    changes := changes + streams;
  }

  method DescribeStreamSet(streams: seq<Stream>, probe: seq<ProbeStream>) returns (changes: seq<Change>)
    ensures changes == [] <==> StreamsInert(streams, probe)
  {
    hide StreamInert, PositionsInert, Restored, Writable;
    var restored, _ := GuardStreamRemoval(streams);
    var surviving, ps := CollectKept(streams, restored);
    SizesShrink(streams, |streams|);
    changes := if |surviving| < |streams| then [StreamSet] else [];
    if |ps| < |surviving| { changes := changes + [StreamSet]; }
    var positions := DescribePositions(At(streams, ps), probe);
    var arguments := DescribeStreams(At(streams, surviving));
    changes := changes + positions + arguments;
  }

  method DescribeHeader(command: Command, source: Source) returns (changes: seq<Change>)
    ensures changes == [] <==> HeaderInert(command, source)
  {
    changes := [];
    if |command.inputFiles| != 1 || command.inputFiles[0] != source.path { changes := changes + [InputChanged]; }
    if NormaliseContainer(command.container) != NormaliseContainer(source.container) { changes := changes + [ContainerChanged]; }
    if command.overallInputArguments != [] { changes := changes + [OverallArguments]; }
    if command.overallOuputArguments != [] { changes := changes + [OverallArguments]; }
    if command.hardwareDecoding { changes := changes + [OverallArguments]; }
  }

  lemma {:induction false} SizesShrink(streams: seq<Stream>, n: nat)
    requires n <= |streams|
    ensures |KeptUpTo(streams, n)| <= |SurvivingUpTo(streams, n)| <= n
  {
    if n > 0 { SizesShrink(streams, n - 1); }
  }

  /** Same count is not the same set: compare position by position with the probe's own indices. */
  method DescribePositions(kept: seq<Stream>, probe: seq<ProbeStream>) returns (changes: seq<Change>)
    ensures changes == [] <==> PositionsInert(kept, probe)
  {
    if |kept| != |probe| { return [StreamSet]; }
    changes := [];
    for k := 0 to |kept|
      invariant changes == [] <==> forall j :: 0 <= j < k ==> SameIndex(kept[j], probe[j])
    {
      if kept[k].probe.index.None? || probe[k].index.None? {
        changes := changes + [Unverifiable];
      } else if kept[k].probe.index != probe[k].index {
        changes := changes + [StreamOrder];
      }
    }
  }

  method DescribeStreams(streams: seq<Stream>) returns (changes: seq<Change>)
    ensures changes == [] <==> forall k :: 0 <= k < |streams| ==> StreamInert(streams[k])
  {
    changes := [];
    for k := 0 to |streams|
      invariant changes == [] <==> forall j :: 0 <= j < k ==> StreamInert(streams[j])
    {
      var s := streams[k];
      if s.forceEncoding { changes := changes + [StreamArguments]; }
      if s.outputArgs != [] { changes := changes + [StreamArguments]; }
      if s.inputArgs != [] { changes := changes + [StreamArguments]; }
      if !IsIdentityMapArgs(s) { changes := changes + [StreamMapping]; }
    }
  }

  method WouldCommandChangeFile(command: Command, source: Source) returns (changes: bool)
    ensures changes <==> !Inert(command, source)
  {
    var described := DescribeCommandChanges(command, source);
    changes := |described| > 0;
  }

  // ---- Soundness: what is called inert compiles to a plain remux of the same streams ----

  /** One `-map 0:i` per probed stream, in probe order. */
  function ProbeMaps(probe: seq<ProbeStream>): seq<string>
    requires forall k :: 0 <= k < |probe| ==> probe[k].index.Some?
  {
    if probe == [] then [] else ProbeMaps(probe[..|probe| - 1]) + IdentityMap(probe[|probe| - 1].index.value)
  }

  predicate AllTight(args: seq<string>) {
    forall i :: 0 <= i < |args| ==> Tight(args[i])
  }

  lemma {:induction false} CleanTight(args: seq<string>)
    requires AllTight(args)
    ensures Clean(args) == args
  {
    if args != [] {
      var init, last := args[..|args| - 1], args[|args| - 1];
      assert AllTight(init) && Tight(last);
      CleanTight(init);
      TightIsTrimmed(last);
      assert args == init + [last];
    }
  }

  lemma IdentityMapIsTight(index: int)
    ensures AllTight(IdentityMap(index))
  {
    assert IdentityMap(index)[1] == "0:" + Int(index);
    assert IdentityMap(index)[1][0] == '0';
  }

  lemma {:induction false} ProbeMapsTight(probe: seq<ProbeStream>)
    requires forall k :: 0 <= k < |probe| ==> probe[k].index.Some?
    ensures AllTight(ProbeMaps(probe))
  {
    if probe != [] {
      ProbeMapsTight(probe[..|probe| - 1]);
      IdentityMapIsTight(probe[|probe| - 1].index.value);
    }
  }

  lemma KeptStep(streams: seq<Stream>, n: nat)
    requires 0 < n <= |streams| && |KeptUpTo(streams, n)| == n && |KeptUpTo(streams, n - 1)| <= n - 1
    ensures KeptUpTo(streams, n) == KeptUpTo(streams, n - 1) + [n - 1] && |KeptUpTo(streams, n - 1)| == n - 1
  {
  }

  /** The first `n` positions, each in its own place. */
  predicate AllPositions(ps: seq<nat>, n: nat) {
    |ps| == n && forall k :: 0 <= k < n ==> ps[k] == k
  }

  lemma {:induction false} NoneKeptYet(streams: seq<Stream>)
    ensures AllPositions(KeptUpTo(streams, 0), 0)
  {
  }

  lemma OneMorePosition(ps: seq<nat>, n: nat)
    requires AllPositions(ps, n)
    ensures AllPositions(ps + [n], n + 1)
  {
  }

  /** If as many are kept as there are, each is kept at its own position. */
  lemma {:induction false} AllKept(streams: seq<Stream>, n: nat)
    requires n <= |streams| && |KeptUpTo(streams, n)| == n
    ensures AllPositions(KeptUpTo(streams, n), n)
  {
    hide AllPositions, KeptUpTo, SurvivingUpTo, Survives, Writable;
    if n == 0 {
      NoneKeptYet(streams);
    } else {
      SizesShrink(streams, n - 1);
      KeptStep(streams, n);
      AllKept(streams, n - 1);
      OneMorePosition(KeptUpTo(streams, n - 1), n - 1);
    }
  }

  lemma InertStream(command: Command, source: Source, k: nat)
    requires Inert(command, source) && k < |command.streams|
    ensures |Kept(command.streams)| == |command.streams| && Kept(command.streams)[k] == k
    ensures StreamInert(command.streams[k]) && source.streams.value[k].index.Some?
    ensures command.streams[k].probe.index == source.streams.value[k].index
  {
    var streams := command.streams;
    AllKept(streams, |streams|);
    assert SameIndex(MappableStreams(streams)[k], source.streams.value[k]);
    assert MappableStreams(streams)[k] == streams[k];
    var surviving := Surviving(streams);
    assert Survives(streams, k);
    assert k in surviving;
    var j :| 0 <= j < |surviving| && surviving[j] == k;
    assert StreamInert(At(streams, surviving)[j]);
  }

  /** An inert stream's own arguments are its identity map. */
  lemma InertStreamArgs(command: Command, source: Source, k: nat)
    requires Inert(command, source) && k < |command.streams| && |Kept(command.streams)| == |command.streams|
    requires k < |source.streams.value| && source.streams.value[k].index.Some?
    requires !AnyEncodes(At(command.streams, Kept(command.streams)))
    ensures StreamArgs(command.streams, Kept(command.streams), k) == IdentityMap(source.streams.value[k].index.value)
  {
    InertStream(command, source, k);
    hide Inert, AnyEncodes, StreamInert, KeptUpTo, NeedsEncode;
    PlainArgs(At(command.streams, Kept(command.streams)), k, Kept(command.streams)[k], source.streams.value[k].index.value);
  }

  /** With no arguments of its own and none to encode, a stream is written with its map alone. */
  lemma PlainArgs(kept: seq<Stream>, k: nat, position: nat, index: int)
    requires k < |kept| && StreamInert(kept[k]) && kept[k].probe.index == Some(index)
    ensures MapArgsOf(kept[k], position) + ResolveAll(kept, k, kept[k].outputArgs) == IdentityMap(index)
  {
    hide Resolve;
  }

  lemma ProbeMapsStep(probe: seq<ProbeStream>, n: nat)
    requires 0 < n <= |probe| && forall k :: 0 <= k < |probe| ==> probe[k].index.Some?
    ensures ProbeMaps(probe[..n]) == ProbeMaps(probe[..n - 1]) + IdentityMap(probe[n - 1].index.value)
  {
    assert probe[..n][..n - 1] == probe[..n - 1];
  }

  /** Each of these streams is written with the identity map of its probe and nothing else. */
  predicate MapsAlike(streams: seq<Stream>, ps: seq<nat>, probe: seq<ProbeStream>) {
    && (forall k :: 0 <= k < |ps| ==> ps[k] < |streams|) && |ps| == |probe|
    && (forall k :: 0 <= k < |probe| ==> probe[k].index.Some?)
    && (forall k :: 0 <= k < |ps| ==> StreamArgs(streams, ps, k) == IdentityMap(probe[k].index.value))
  }

  lemma {:induction false} MapsInOrder(streams: seq<Stream>, ps: seq<nat>, probe: seq<ProbeStream>, n: nat)
    requires MapsAlike(streams, ps, probe) && n <= |ps|
    ensures AllStreamArgs(streams, ps, n) == ProbeMaps(probe[..n])
  {
    hide StreamArgs, IdentityMap;
    if n > 0 {
      MapsInOrder(streams, ps, probe, n - 1);
      ProbeMapsStep(probe, n);
    } else {
      assert probe[..0] == [];
    }
  }

  lemma InertArgs(command: Command, source: Source)
    requires Inert(command, source) && |Kept(command.streams)| == |command.streams| == |source.streams.value|
    requires !AnyEncodes(At(command.streams, Kept(command.streams)))
    requires forall k :: 0 <= k < |source.streams.value| ==> source.streams.value[k].index.Some?
    ensures MapsAlike(command.streams, Kept(command.streams), source.streams.value)
    ensures command.overallOuputArguments == []
  {
    assert source.streams.Some?;
    hide Inert, StreamArgs, IdentityMap, AnyEncodes;
    forall k | 0 <= k < |Kept(command.streams)|
      ensures StreamArgs(command.streams, Kept(command.streams), k) == IdentityMap(source.streams.value[k].index.value)
    {
      InertStreamArgs(command, source, k);
    }
  }

  lemma {:induction false} NoInputArgs(kept: seq<Stream>)
    requires forall k :: 0 <= k < |kept| ==> kept[k].inputArgs == []
    ensures AllInputArgs(kept) == []
  {
    if kept != [] { NoInputArgs(kept[..|kept| - 1]); }
  }

  /** The argument vector that rewrites a file to say exactly what it already says. */
  function PlainRemux(source: Source, outputPath: string): seq<string>
    requires source.streams.Some? && forall k :: 0 <= k < |source.streams.value| ==> source.streams.value[k].index.Some?
  {
    ["-i", source.path] + (ProbeMaps(source.streams.value) + ["-c", "copy"]) + [outputPath]
  }

  lemma InertKept(command: Command, source: Source)
    requires Inert(command, source)
    ensures |Kept(command.streams)| == |command.streams| == |source.streams.value|
    ensures forall k :: 0 <= k < |source.streams.value| ==> source.streams.value[k].index.Some?
    ensures forall k :: 0 <= k < |command.streams| ==> StreamInert(At(command.streams, Kept(command.streams))[k])
    ensures !AnyEncodes(At(command.streams, Kept(command.streams)))
  {
    InertKeepsAll(command, source);
    var streams := command.streams;
    hide AnyEncodes, StreamInert, KeptUpTo, Kept, Inert, At;
    forall k | 0 <= k < |streams| ensures StreamInert(streams[k]) && source.streams.value[k].index.Some? {
      InertStream(command, source, k);
    }
    NoneEncodes(streams);
  }

  lemma InertKeepsAll(command: Command, source: Source)
    requires Inert(command, source)
    ensures |Kept(command.streams)| == |command.streams| == |source.streams.value|
    ensures At(command.streams, Kept(command.streams)) == command.streams
  {
    AllKept(command.streams, |command.streams|);
    hide Inert, SurvivingUpTo, KeptUpTo;
  }

  lemma NoneEncodes(kept: seq<Stream>)
    requires forall k :: 0 <= k < |kept| ==> StreamInert(kept[k])
    ensures !AnyEncodes(kept)
  {
  }

  lemma InertInputs(command: Command, source: Source)
    requires Inert(command, source)
    ensures InputSection(command, At(command.streams, Kept(command.streams))) == ["-i", source.path]
  {
    InertKept(command, source);
    NoInputArgs(At(command.streams, Kept(command.streams)));
    assert command.inputFiles[..0] == [] && InputFileArgs([]) == [];
  }

  lemma InertOutputs(command: Command, source: Source)
    requires Inert(command, source)
    ensures forall k :: 0 <= k < |source.streams.value| ==> source.streams.value[k].index.Some?
    ensures OutputSection(command, Kept(command.streams)) == ProbeMaps(source.streams.value) + ["-c", "copy"]
  {
    InertKept(command, source);
    InertArgs(command, source);
    OutputOfMaps(command, Kept(command.streams), source.streams.value);
  }

  lemma {:induction false} OutputOfMaps(command: Command, ps: seq<nat>, probe: seq<ProbeStream>)
    requires MapsAlike(command.streams, ps, probe) && command.overallOuputArguments == []
    requires !AnyEncodes(At(command.streams, ps))
    ensures OutputSection(command, ps) == ProbeMaps(probe) + ["-c", "copy"]
  {
    hide AllStreamArgs, ProbeMaps, AnyEncodes;
    MapsInOrder(command.streams, ps, probe, |ps|);
    assert probe[..|probe|] == probe;
  }

  lemma InertRawArgs(command: Command, source: Source, outputPath: string)
    requires Inert(command, source)
    ensures forall k :: 0 <= k < |source.streams.value| ==> source.streams.value[k].index.Some?
    ensures Kept(command.streams) != [] && RawArgs(command, Kept(command.streams), outputPath) == PlainRemux(source, outputPath)
  {
    InertKept(command, source);
    InertInputs(command, source);
    InertOutputs(command, source);
    assert |Kept(command.streams)| > 0;
  }

  lemma PlainRemuxIsTight(source: Source, outputPath: string)
    requires source.streams.Some? && forall k :: 0 <= k < |source.streams.value| ==> source.streams.value[k].index.Some?
    requires Tight(source.path) && Tight(outputPath)
    ensures AllTight(PlainRemux(source, outputPath))
  {
    ProbeMapsTight(source.streams.value);
    assert Tight("-i") && Tight("-c") && Tight("copy");
    assert AllTight(["-i", source.path]) && AllTight(["-c", "copy"]) && AllTight([outputPath]);
  }

  /**
    A command the gate calls inert compiles to exactly the plain remux: the file itself, each of
    its streams once, in order, copied.
   */
  lemma InertCompilesToPlainRemux(command: Command, source: Source, outputPath: string)
    requires Inert(command, source) && command.init
    requires Tight(source.path) && Tight(outputPath)
    ensures forall k :: 0 <= k < |source.streams.value| ==> source.streams.value[k].index.Some?
    ensures Compile(command, outputPath) == Success(PlainRemux(source, outputPath))
  {
    InertRawArgs(command, source, outputPath);
    PlainRemuxIsTight(source, outputPath);
    CleanTight(PlainRemux(source, outputPath));
  }

  // ---- The converse: what a fresh Begin Command is called -------------------------

  /** A stream the gate can judge and the compiler can write. */
  predicate Judgeable(p: ProbeStream) {
    p.index.Some? && !IsUnmappable(p)
  }

  lemma {:induction false} FreshSurvives(streams: seq<Stream>, n: nat)
    requires n <= |streams| && forall i :: 0 <= i < |streams| ==> !streams[i].removed
    ensures AllPositions(SurvivingUpTo(streams, n), n)
  {
    hide AllPositions, SurvivingUpTo;
    if n == 0 {
      NoneSurviveYet(streams);
    } else {
      FreshSurvives(streams, n - 1);
      OneMoreSurvives(streams, n);
      OneMorePosition(SurvivingUpTo(streams, n - 1), n - 1);
    }
  }

  lemma {:induction false} NoneSurviveYet(streams: seq<Stream>)
    ensures AllPositions(SurvivingUpTo(streams, 0), 0)
  {
  }

  lemma OneMoreSurvives(streams: seq<Stream>, n: nat)
    requires 0 < n <= |streams| && !streams[n - 1].removed
    ensures SurvivingUpTo(streams, n) == SurvivingUpTo(streams, n - 1) + [n - 1]
  {
    hide Restored;
    assert Survives(streams, n - 1);
  }

  lemma OneMoreKept(streams: seq<Stream>, n: nat)
    requires 0 < n <= |streams| && !streams[n - 1].removed && Writable(streams[n - 1])
    ensures KeptUpTo(streams, n) == KeptUpTo(streams, n - 1) + [n - 1]
  {
    hide Restored, IsUnmappable;
    assert Survives(streams, n - 1);
  }

  lemma {:induction false} AllWritableKept(streams: seq<Stream>, n: nat)
    requires n <= |streams| && forall i :: 0 <= i < |streams| ==> !streams[i].removed && Writable(streams[i])
    ensures AllPositions(KeptUpTo(streams, n), n)
  {
    hide AllPositions, KeptUpTo, Writable;
    if n == 0 {
      NoneKeptYet(streams);
    } else {
      AllWritableKept(streams, n - 1);
      OneMoreKept(streams, n);
      OneMorePosition(KeptUpTo(streams, n - 1), n - 1);
    }
  }

  lemma JudgeableIsInert(probe: seq<ProbeStream>, container: string, path: string)
    requires probe != [] && forall k :: 0 <= k < |probe| ==> Judgeable(probe[k])
    ensures Inert(BeginFfmpegCommand(Some(probe), container, path), Source(path, container, Some(probe)))
  {
    var streams := BeginStreams(probe);
    forall k | 0 <= k < |streams| ensures StreamInert(streams[k]) && SameIndex(streams[k], probe[k]) && Writable(streams[k]) {
      assert Judgeable(probe[k]);
    }
    FreshSurvives(streams, |streams|);
    AllWritableKept(streams, |streams|);
    assert MappableStreams(streams) == streams;
    assert At(streams, Surviving(streams)) == streams;
    assert StreamsInert(streams, probe);
  }

  lemma InertIsJudgeable(probe: seq<ProbeStream>, container: string, path: string, k: nat)
    requires Inert(BeginFfmpegCommand(Some(probe), container, path), Source(path, container, Some(probe))) && k < |probe|
    ensures Judgeable(probe[k])
  {
    var command := BeginFfmpegCommand(Some(probe), container, path);
    InertStream(command, Source(path, container, Some(probe)), k);
    var ps := Kept(command.streams);
    assert Writable(command.streams[ps[k]]);
  }

  /** A fresh command over a probe describes no change exactly when every stream has an index and can be written. */
  lemma FreshCommandIsInert(probe: seq<ProbeStream>, container: string, path: string)
    ensures Inert(BeginFfmpegCommand(Some(probe), container, path), Source(path, container, Some(probe))) <==>
      probe != [] && forall k :: 0 <= k < |probe| ==> Judgeable(probe[k])
  {
    if probe != [] && forall k :: 0 <= k < |probe| ==> Judgeable(probe[k]) { JudgeableIsInert(probe, container, path); }
    if Inert(BeginFfmpegCommand(Some(probe), container, path), Source(path, container, Some(probe))) {
      forall k: nat | k < |probe| { InertIsJudgeable(probe, container, path, k); }
    }
  }
}
