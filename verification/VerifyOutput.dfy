/** The Verify Output node's checks, and their agreement with what the compiler maps. */
module VerifyOutput {
  import opened Wrappers
  import opened FfmpegCommand
  import opened FfmpegCompile

  datatype Reason =
    | NoStreams
    | FewerStreams(have: nat, expected: nat)
    | LostAudio
    | OriginalUntimed
    | OutputUntimed
    | DurationDrift
    | TooSmall
    | OriginalSizeUnknown

  /** The two running times the length check compares; `None` is an unreadable one. */
  datatype Durations = Durations(output: Option<real>, original: Option<real>)

  /** Stream lists are given by their codec types. */
  datatype Check = Check(
    streams: seq<string>, originalStreams: seq<string>,
    outputSize: int, originalSize: int,
    durations: Durations, tolerance: real, minSizeRatio: real,
    intendedStreamCount: Option<nat>, requireAudio: bool)

  predicate HasAudio(types: seq<string>) {
    "audio" in types
  }

  function Expected(c: Check): nat {
    if c.intendedStreamCount.Some? then c.intendedStreamCount.value else |c.originalStreams|
  }

  function Abs(x: real): real {
    if x < 0.0 then -x else x
  }

  method VerifyOutput(c: Check) returns (reasons: seq<Reason>)
    ensures c.streams == [] ==> reasons == [NoStreams]
    ensures c.streams != [] ==> NoStreams !in reasons
    ensures c.streams != [] ==>
      (forall r :: r in reasons && r.FewerStreams? ==> r == FewerStreams(|c.streams|, Expected(c)))
      && (FewerStreams(|c.streams|, Expected(c)) in reasons <==> |c.streams| < Expected(c))
    ensures c.streams != [] ==>
      (LostAudio in reasons <==> c.requireAudio && HasAudio(c.originalStreams) && !HasAudio(c.streams))
    ensures reasons == [] <==>
      && c.streams != [] && |c.streams| >= Expected(c)
      && (c.requireAudio && HasAudio(c.originalStreams) ==> HasAudio(c.streams))
      && c.durations.original.Some? && c.durations.output.Some?
      && Abs(c.durations.output.value - c.durations.original.value) <= c.tolerance
      && c.originalSize > 0 && c.outputSize as real > c.minSizeRatio * c.originalSize as real
  {
    if c.streams == [] { return [NoStreams]; }
    reasons := [];
    if |c.streams| < Expected(c) { reasons := reasons + [FewerStreams(|c.streams|, Expected(c))]; }
    if c.requireAudio && HasAudio(c.originalStreams) && !HasAudio(c.streams) { reasons := reasons + [LostAudio]; }
    if c.durations.original.None? {
      reasons := reasons + [OriginalUntimed];
    } else if c.durations.output.None? {
      reasons := reasons + [OutputUntimed];
    } else if Abs(c.durations.output.value - c.durations.original.value) > c.tolerance {
      reasons := reasons + [DurationDrift];
    }
    if c.originalSize > 0 {
      if c.outputSize as real <= c.minSizeRatio * c.originalSize as real { reasons := reasons + [TooSmall]; }
    } else {
      reasons := reasons + [OriginalSizeUnknown];
    }
  }

  /** What the runner takes the flow to have intended: nothing described is not zero streams. */
  function IntendedStreamCount(commandStreams: seq<Stream>): Option<nat> {
    if commandStreams == [] then None else Some(|MappableStreams(commandStreams)|)
  }

  /** An output with exactly the mapped streams: as many, and audio where they are audio. */
  predicate HoldsExactly(types: seq<string>, mapped: seq<Stream>) {
    |types| == |mapped| && forall k :: 0 <= k < |types| ==> (types[k] == "audio" <==> mapped[k].codecType == "audio")
  }

  /**
    Whatever a flow has marked as removed, a command with audio it could write is either refused
    or maps audio.
   */
  lemma GuardKeepsAudio(streams: seq<Stream>)
    requires exists i :: 0 <= i < |streams| && WritableAudio(streams[i])
    ensures Kept(streams) == [] || exists k :: 0 <= k < |MappableStreams(streams)| && WritableAudio(MappableStreams(streams)[k])
  {
    var ps := Kept(streams);
    if ps != [] {
      assert Survives(streams, ps[0]) && Writable(streams[ps[0]]);
      var i: nat :| i < |streams| && WritableAudio(streams[i]) && Survives(streams, i);
      assert i in ps;
      var k :| 0 <= k < |ps| && ps[k] == i;
      assert MappableStreams(streams)[k] == streams[i];
    }
  }

  /** The guard restores nothing unless the flow would otherwise write streams but none of its audio. */
  lemma GuardActsExactly(streams: seq<Stream>)
    ensures Restored(streams) != {} <==>
      && (exists i :: 0 <= i < |streams| && WritableAudio(streams[i]))
      && (forall i :: 0 <= i < |streams| && WritableAudio(streams[i]) ==> streams[i].removed)
      && (exists i :: 0 <= i < |streams| && Writable(streams[i]) && !streams[i].removed)
  {
    if GuardActs(streams) {
      var i: nat :| i < |streams| && WritableAudio(streams[i]);
      assert i in Restored(streams);
    }
    if Restored(streams) != {} {
      var i :| i in Restored(streams);
      assert Writable(streams[i]);
    }
  }

  /**
    The compiler and the verifier read one rule: an output that holds exactly what was mapped is
    never reported for a missing stream or for lost audio.
   */
  lemma MappedOutputPasses(command: Command, outputPath: string, c: Check)
    requires exists i :: 0 <= i < |command.streams| && WritableAudio(command.streams[i])
    requires Compile(command, outputPath).Success?
    requires HoldsExactly(c.streams, MappableStreams(command.streams))
    requires c.intendedStreamCount == IntendedStreamCount(CloseFfmpegCommand(command).streams)
    ensures c.streams != [] && |c.streams| == Expected(c) && HasAudio(c.streams)
  {
    GuardKeepsAudio(command.streams);
    var mapped := MappableStreams(command.streams);
    assert |mapped| == |Kept(command.streams)|;
    var k :| 0 <= k < |mapped| && WritableAudio(mapped[k]);
    assert c.streams[k] == "audio";
  }

  /** The same, of the report itself. */
  method VerifyMappedOutput(command: Command, outputPath: string, c: Check) returns (reasons: seq<Reason>)
    requires exists i :: 0 <= i < |command.streams| && WritableAudio(command.streams[i])
    requires Compile(command, outputPath).Success?
    requires HoldsExactly(c.streams, MappableStreams(command.streams))
    requires c.intendedStreamCount == IntendedStreamCount(CloseFfmpegCommand(command).streams)
    ensures LostAudio !in reasons && NoStreams !in reasons && forall r :: r in reasons ==> !r.FewerStreams?
  {
    MappedOutputPasses(command, outputPath, c);
    reasons := VerifyOutput(c);
  }
}
