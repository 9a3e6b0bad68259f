/** The removal guard, and the compilation of a command into ffmpeg's argument vector. */
module FfmpegCompile {
  import opened Wrappers
  import opened Text
  import opened FfmpegCommand

  // ---- The removal guard ---------------------------------------------------------

  predicate Writable(s: Stream) {
    !IsUnmappable(s.probe)
  }

  predicate WritableAudio(s: Stream) {
    s.codecType == "audio" && Writable(s)
  }

  /** The flow removed everything it could write: the guard stays out of it. */
  predicate TotalWipe(streams: seq<Stream>) {
    && (exists i :: 0 <= i < |streams| && Writable(streams[i]))
    && (forall i :: 0 <= i < |streams| && Writable(streams[i]) ==> streams[i].removed)
  }

  /** The flow removed all the audio it could write. */
  predicate AudioWipe(streams: seq<Stream>) {
    && (exists i :: 0 <= i < |streams| && WritableAudio(streams[i]))
    && (forall i :: 0 <= i < |streams| && WritableAudio(streams[i]) ==> streams[i].removed)
  }

  predicate GuardActs(streams: seq<Stream>) {
    AudioWipe(streams) && !TotalWipe(streams)
  }

  /** The positions whose removal the guard refuses to honour. */
  function Restored(streams: seq<Stream>): set<nat> {
    if GuardActs(streams) then set i: nat | i < |streams| && WritableAudio(streams[i]) else {}
  }

  lemma AudioIsWritable(s: Stream)
    ensures WritableAudio(s) <==> Writable(s) && s.codecType == "audio"
  {
  }

  /**
    The guard as the host runs it. `groups` reports, per guarded codec type, how many streams were
    put back; audio is the only guarded type.
   */
  method GuardStreamRemoval(streams: seq<Stream>) returns (restored: set<nat>, groups: seq<nat>)
    ensures restored == Restored(streams)
    ensures groups == if GuardActs(streams) then [|restored|] else []
  {
    hide Writable, WritableAudio;
    var anyWritable, anyKept, anyAudio, anyAudioKept := false, false, false, false;
    restored := {};
    for i := 0 to |streams|
      invariant anyWritable <==> exists k :: 0 <= k < i && Writable(streams[k])
      invariant anyKept <==> exists k :: 0 <= k < i && Writable(streams[k]) && !streams[k].removed
      invariant anyAudio <==> exists k :: 0 <= k < i && WritableAudio(streams[k])
      invariant anyAudioKept <==> exists k :: 0 <= k < i && WritableAudio(streams[k]) && !streams[k].removed
      invariant restored == set k: nat | k < i && WritableAudio(streams[k])
    {
      var s := streams[i];
      AudioIsWritable(s);
      if Writable(s) {
        anyWritable, anyKept := true, anyKept || !s.removed;
        if s.codecType == "audio" {
          anyAudio, anyAudioKept, restored := true, anyAudioKept || !s.removed, restored + {i};
        }
      }
    }
    if !anyAudio || anyAudioKept || (anyWritable && !anyKept) {
      restored, groups := {}, [];
    } else {
      groups := [|restored|];
    }
  }

  predicate Survives(streams: seq<Stream>, i: nat)
    requires i < |streams|
  {
    !streams[i].removed || i in Restored(streams)
  }

  /** The positions of the streams a flow's removals leave behind, up to `n`. */
  function SurvivingUpTo(streams: seq<Stream>, n: nat): (ps: seq<nat>)
    requires n <= |streams|
    ensures forall k :: 0 <= k < |ps| ==> ps[k] < n && Survives(streams, ps[k])
    ensures forall p: nat :: p < n && Survives(streams, p) ==> p in ps
    ensures forall a, b :: 0 <= a < b < |ps| ==> ps[a] < ps[b]
  {
    if n == 0 then [] else SurvivingUpTo(streams, n - 1) + (if Survives(streams, n - 1) then [n - 1] else [])
  }

  /** The positions of the streams that will be written, up to `n`: surviving, and writable. */
  function KeptUpTo(streams: seq<Stream>, n: nat): (ps: seq<nat>)
    requires n <= |streams|
    ensures forall k :: 0 <= k < |ps| ==> ps[k] < n && Survives(streams, ps[k]) && Writable(streams[ps[k]])
    ensures forall p: nat :: p < n && Survives(streams, p) && Writable(streams[p]) ==> p in ps
    ensures forall a, b :: 0 <= a < b < |ps| ==> ps[a] < ps[b]
  {
    if n == 0 then []
    else KeptUpTo(streams, n - 1) + (if Survives(streams, n - 1) && Writable(streams[n - 1]) then [n - 1] else [])
  }

  function Surviving(streams: seq<Stream>): seq<nat> {
    SurvivingUpTo(streams, |streams|)
  }

  function Kept(streams: seq<Stream>): seq<nat> {
    KeptUpTo(streams, |streams|)
  }

  function At(streams: seq<Stream>, ps: seq<nat>): (ss: seq<Stream>)
    requires forall k :: 0 <= k < |ps| ==> ps[k] < |streams|
    ensures |ss| == |ps| && forall k :: 0 <= k < |ps| ==> ss[k] == streams[ps[k]]
  {
    seq(|ps|, k requires 0 <= k < |ps| => streams[ps[k]])
  }

  /** `mappableStreams`: what Verify Output counts. */
  function MappableStreams(streams: seq<Stream>): seq<Stream> {
    At(streams, Kept(streams))
  }

  // ---- Addressing output streams ---------------------------------------------------

  function OptionName(arg: string): string {
    if arg == [] || arg[0] != '-' then "" else UpToColon(arg[1..])
  }

  function UpToColon(s: string): (r: string)
    ensures r <= s && ':' !in r && (|r| < |s| ==> s[|r|] == ':')
  {
    if s == [] || s[0] == ':' then [] else [s[0]] + UpToColon(s[1..])
  }

  predicate IsCodecOption(name: string) {
    name in {"c", "codec", "vcodec", "acodec", "scodec", "dcodec"}
  }

  predicate IsTaggingOption(name: string) {
    name in {"metadata", "disposition"}
  }

  /** Nothing was asked of the stream but labels: flags stand at the even positions. */
  predicate ShouldCopy(outputArgs: seq<string>) {
    outputArgs == []
    || (!IsCodecOption(OptionName(outputArgs[0])) && IsTaggingOption(OptionName(outputArgs[0]))
        && (|outputArgs| == 1 || ShouldCopy(outputArgs[2..])))
  }

  /** The loop the compiler runs; it stops at the first flag that is not a label. */
  method ShouldCopyStream(outputArgs: seq<string>) returns (copy: bool)
    ensures copy == ShouldCopy(outputArgs)
  {
    var i := 0;
    while i < |outputArgs|
      invariant 0 <= i
      invariant i <= |outputArgs| ==> (ShouldCopy(outputArgs) == ShouldCopy(outputArgs[i..]))
      invariant i > |outputArgs| ==> ShouldCopy(outputArgs)
      decreases |outputArgs| - i
    {
      var name := OptionName(outputArgs[i]);
      if IsCodecOption(name) || !IsTaggingOption(name) { return false; }
      assert i + 2 <= |outputArgs| ==> outputArgs[i..][2..] == outputArgs[i + 2..];
      i := i + 2;
    }
    copy := true;
  }

  predicate NeedsEncode(s: Stream) {
    s.forceEncoding || !ShouldCopy(s.outputArgs)
  }

  predicate AnyEncodes(kept: seq<Stream>) {
    exists k :: 0 <= k < |kept| && NeedsEncode(kept[k])
  }

  /** How many of the first `k` kept streams have the codec type. */
  function CountType(kept: seq<Stream>, k: nat, codecType: string): (n: nat)
    requires k <= |kept|
    ensures n <= k
  {
    if k == 0 then 0 else CountType(kept, k - 1, codecType) + (if kept[k - 1].codecType == codecType then 1 else 0)
  }

  const OUTPUT_INDEX := "{outputIndex}"
  const OUTPUT_TYPE_INDEX := "{outputTypeIndex}"

  /** One output argument with both placeholders replaced, for the `k`-th kept stream. */
  function Resolve(kept: seq<Stream>, k: nat, arg: string): string
    requires k < |kept|
  {
    ReplaceAll(ReplaceAll(arg, OUTPUT_INDEX, Dec(k)), OUTPUT_TYPE_INDEX, Dec(CountType(kept, k, kept[k].codecType)))
  }

  function ResolveAll(kept: seq<Stream>, k: nat, args: seq<string>): (rs: seq<string>)
    requires k < |kept|
    ensures |rs| == |args| && forall i :: 0 <= i < |args| ==> rs[i] == Resolve(kept, k, args[i])
  {
    seq(|args|, i requires 0 <= i < |args| => Resolve(kept, k, args[i]))
  }

  // ---- Compilation -----------------------------------------------------------------

  datatype CompileError = NotInitialised | NoInputFile | NothingMapped(everyRemoved: bool)

  function MapArgsOf(s: Stream, position: nat): seq<string> {
    if s.mapArgs != [] then s.mapArgs
    else IdentityMap(if s.probe.index.Some? then s.probe.index.value else position)
  }

  function CopyDirective(k: nat): seq<string> {
    ["-c:" + Dec(k), "copy"]
  }

  /** What the `k`-th kept stream contributes: its map, its own arguments, and a copy directive if due. */
  function StreamArgs(streams: seq<Stream>, ps: seq<nat>, k: nat): seq<string>
    requires forall k :: 0 <= k < |ps| ==> ps[k] < |streams|
    requires k < |ps|
  {
    var kept := At(streams, ps);
    MapArgsOf(kept[k], ps[k]) + ResolveAll(kept, k, kept[k].outputArgs)
    + (if !NeedsEncode(kept[k]) && AnyEncodes(kept) then CopyDirective(k) else [])
  }

  function AllStreamArgs(streams: seq<Stream>, ps: seq<nat>, n: nat): seq<string>
    requires forall k :: 0 <= k < |ps| ==> ps[k] < |streams|
    requires n <= |ps|
  {
    if n == 0 then [] else AllStreamArgs(streams, ps, n - 1) + StreamArgs(streams, ps, n - 1)
  }

  function AllInputArgs(kept: seq<Stream>): seq<string> {
    if kept == [] then [] else AllInputArgs(kept[..|kept| - 1]) + kept[|kept| - 1].inputArgs
  }

  function InputFileArgs(files: seq<string>): seq<string> {
    if files == [] then [] else InputFileArgs(files[..|files| - 1]) + ["-i", files[|files| - 1]]
  }

  /** Overall input arguments, each kept stream's input arguments, and the input files. */
  function InputSection(command: Command, kept: seq<Stream>): seq<string> {
    command.overallInputArguments + AllInputArgs(kept) + InputFileArgs(command.inputFiles)
  }

  /** The blanket copy, if no kept stream encodes. */
  function Blanket(kept: seq<Stream>): seq<string> {
    if AnyEncodes(kept) then [] else ["-c", "copy"]
  }

  /** Each kept stream's map and arguments, the blanket copy if no stream encodes, and the rest. */
  function OutputSection(command: Command, ps: seq<nat>): seq<string>
    requires forall k :: 0 <= k < |ps| ==> ps[k] < |command.streams|
  {
    AllStreamArgs(command.streams, ps, |ps|)
    + Blanket(At(command.streams, ps))
    + command.overallOuputArguments
  }

  function RawArgs(command: Command, ps: seq<nat>, outputPath: string): seq<string>
    requires forall k :: 0 <= k < |ps| ==> ps[k] < |command.streams|
  {
    InputSection(command, At(command.streams, ps)) + OutputSection(command, ps) + [outputPath]
  }

  /** Trim every argument and drop the empty ones. */
  function Clean(args: seq<string>): seq<string> {
    if args == [] then []
    else Clean(args[..|args| - 1]) + (var t := Trim(args[|args| - 1]); if t == "" then [] else [t])
  }

  function Compile(command: Command, outputPath: string): Result<seq<string>, CompileError> {
    if !command.init then Failure(NotInitialised)
    else if command.inputFiles == [] then Failure(NoInputFile)
    else
      var ps := Kept(command.streams);
      if ps == [] then Failure(NothingMapped(Surviving(command.streams) == []))
      else Success(Clean(RawArgs(command, ps, outputPath)))
  }

  /** A stream that survived and cannot be written, by its ffprobe index or its place among the survivors. */
  function DroppedUpTo(streams: seq<Stream>, ps: seq<nat>, n: nat): seq<int>
    requires forall k :: 0 <= k < |ps| ==> ps[k] < |streams|
    requires n <= |ps|
  {
    if n == 0 then []
    else
      var s := streams[ps[n - 1]];
      DroppedUpTo(streams, ps, n - 1) +
      (if Writable(s) then [] else [if s.probe.index.Some? then s.probe.index.value else n - 1])
  }

  lemma FilterStep(streams: seq<Stream>, n: nat)
    requires n < |streams|
    ensures SurvivingUpTo(streams, n + 1) == SurvivingUpTo(streams, n) + if Survives(streams, n) then [n] else []
    ensures KeptUpTo(streams, n + 1) == KeptUpTo(streams, n) + if Survives(streams, n) && Writable(streams[n]) then [n] else []
  {
    hide Survives, Writable;
  }

  /** The host's two filters, in one pass. */
  method CollectKept(streams: seq<Stream>, restored: set<nat>) returns (surviving: seq<nat>, ps: seq<nat>)
    requires restored == Restored(streams)
    ensures surviving == Surviving(streams) && ps == Kept(streams)
  {
    assert SurvivingUpTo(streams, 0) == [] && KeptUpTo(streams, 0) == [];
    hide Restored, Writable, SurvivingUpTo, KeptUpTo;
    surviving, ps := [], [];
    for i := 0 to |streams|
      invariant surviving == SurvivingUpTo(streams, i) && ps == KeptUpTo(streams, i)
    {
      FilterStep(streams, i);
      if !streams[i].removed || i in restored {
        surviving := surviving + [i];
        if Writable(streams[i]) { ps := ps + [i]; }
      }
    }
  }

  method CollectDropped(streams: seq<Stream>, surviving: seq<nat>) returns (dropped: seq<int>)
    requires forall k :: 0 <= k < |surviving| ==> surviving[k] < |streams|
    ensures dropped == DroppedUpTo(streams, surviving, |surviving|)
  {
    dropped := [];
    for i := 0 to |surviving|
      invariant dropped == DroppedUpTo(streams, surviving, i)
    {
      var s := streams[surviving[i]];
      if !Writable(s) { dropped := dropped + [if s.probe.index.Some? then s.probe.index.value else i]; }
    }
  }

  /** The compiler, with what it reports as dropped and as restored. */
  method CompileFfmpegArgs(command: Command, outputPath: string)
    returns (r: Result<seq<string>, CompileError>, dropped: seq<int>, groups: seq<nat>)
    ensures r == Compile(command, outputPath)
    ensures command.init && command.inputFiles != [] ==>
      && dropped == DroppedUpTo(command.streams, Surviving(command.streams), |Surviving(command.streams)|)
      && groups == if GuardActs(command.streams) then [|Restored(command.streams)|] else []
  {
    dropped, groups := [], [];
    if !command.init { return Failure(NotInitialised), dropped, groups; }
    if command.inputFiles == [] { return Failure(NoInputFile), dropped, groups; }
    var restored;
    restored, groups := GuardStreamRemoval(command.streams);
    var surviving, ps := CollectKept(command.streams, restored);
    dropped := CollectDropped(command.streams, surviving);
    if ps == [] { return Failure(NothingMapped(surviving == [])), dropped, groups; }
    var inputs := EmitInputs(command, At(command.streams, ps));
    var outputs := EmitOutputs(command, ps);
    r := Success(Clean(inputs + outputs + [outputPath]));
  }

  /** Everything up to the last input file. */
  method EmitInputs(command: Command, kept: seq<Stream>) returns (args: seq<string>)
    ensures args == InputSection(command, kept)
  {
    var files := command.inputFiles;
    args := command.overallInputArguments;
    for i := 0 to |kept|
      invariant args == command.overallInputArguments + AllInputArgs(kept[..i])
    {
      assert kept[..i + 1][..i] == kept[..i];
      args := args + kept[i].inputArgs;
    }
    assert kept[..|kept|] == kept;
    ghost var before := args;
    for i := 0 to |files|
      invariant args == before + InputFileArgs(files[..i])
    {
      assert files[..i + 1][..i] == files[..i];
      args := args + ["-i", files[i]];
    }
    assert files[..|files|] == files;
  }

  method FindEncodes(kept: seq<Stream>) returns (encodes: bool)
    ensures encodes == AnyEncodes(kept)
  {
    encodes := false;
    for k := 0 to |kept|
      invariant encodes <==> exists j :: 0 <= j < k && NeedsEncode(kept[j])
    {
      var copied := ShouldCopyStream(kept[k].outputArgs);
      encodes := encodes || kept[k].forceEncoding || !copied;
    }
  }

  method EmitOutputs(command: Command, ps: seq<nat>) returns (args: seq<string>)
    requires forall k :: 0 <= k < |ps| ==> ps[k] < |command.streams|
    ensures args == OutputSection(command, ps)
  {
    hide ShouldCopy, AnyEncodes, MapArgsOf, Resolve, CopyDirective;
    var kept := At(command.streams, ps);
    var encodes := FindEncodes(kept);
    args := [];
    for k := 0 to |kept|
      invariant args == AllStreamArgs(command.streams, ps, k)
    {
      var copied := ShouldCopyStream(kept[k].outputArgs);
      var directive := if !kept[k].forceEncoding && copied && encodes then CopyDirective(k) else [];
      var own := MapArgsOf(kept[k], ps[k]) + ResolveAll(kept, k, kept[k].outputArgs) + directive;
      assert own == StreamArgs(command.streams, ps, k);
      args := args + own;
    }
    if !encodes { args := args + ["-c", "copy"]; }
    args := args + command.overallOuputArguments;
  }
}
