/** The cooperatively built ffmpeg command: its data, how it begins, and which streams can be written. */
module FfmpegCommand {
  import opened Wrappers
  import opened Text

  /** `codec_name` as the probe reports it: the key missing, null, or a name. */
  datatype CodecName = Absent | Null | Named(name: string)

  /** A declared width or height is a usable number or it is not. */
  datatype Dimension = Undeclared | Usable | Unusable

  /** `described` says that ffprobe wrote its unconditional codec tag fields for the stream. */
  datatype ProbeStream = ProbeStream(
    index: Option<int>, codecType: string, codecName: CodecName, described: bool,
    width: Dimension, height: Dimension, attachedPic: bool)

  datatype Stream = Stream(
    probe: ProbeStream, codecType: string, removed: bool, forceEncoding: bool,
    mapArgs: seq<string>, inputArgs: seq<string>, outputArgs: seq<string>)

  datatype Command = Command(
    init: bool, inputFiles: seq<string>, streams: seq<Stream>, container: string,
    hardwareDecoding: bool, shouldProcess: bool,
    overallInputArguments: seq<string>, overallOuputArguments: seq<string>)

  function LowerChar(c: char): char {
    if 'A' <= c <= 'Z' then (c as int + 32) as char else c
  }

  function Lower(s: string): (r: string)
    ensures |r| == |s|
  {
    if s == [] then [] else [LowerChar(s[0])] + Lower(s[1..])
  }

  /** The probe positively reports that there is no codec. Silence alone is not such a report. */
  predicate ReportsNoCodec(s: ProbeStream) {
    match s.codecName
    case Null => true
    case Absent => s.described
    case Named(name) => Lower(Trim(name)) in {"", "none", "unknown"}
  }

  /** No container can hold the stream. */
  predicate IsUnmappable(s: ProbeStream) {
    ReportsNoCodec(s)
    || (!(s.width == Undeclared && s.height == Undeclared) && !(s.width == Usable && s.height == Usable))
  }

  function IdentityMap(index: int): seq<string> {
    ["-map", "0:" + Int(index)]
  }

  function BeginStream(s: ProbeStream, position: nat): Stream {
    Stream(s, if s.attachedPic then "attachment" else s.codecType, false, false,
           IdentityMap(if s.index.Some? then s.index.value else position), [], [])
  }

  function BeginStreams(probe: seq<ProbeStream>): (streams: seq<Stream>)
    ensures |streams| == |probe| && forall i :: 0 <= i < |probe| ==> streams[i] == BeginStream(probe[i], i)
  {
    seq(|probe|, i requires 0 <= i < |probe| => BeginStream(probe[i], i))
  }

  /** Seed a command from a probe. A probe without a stream list gives no streams. */
  function BeginFfmpegCommand(probe: Option<seq<ProbeStream>>, container: string, inputPath: string): Command {
    Command(true, [inputPath], BeginStreams(if probe.Some? then probe.value else []), container, false, false, [], [])
  }

  /** Close the command after Execute: its streams stay, for Verify Output to read. */
  function CloseFfmpegCommand(command: Command): Command {
    command.(init := false, shouldProcess := false)
  }
}
