/**
  What ffmpeg makes of a compiled argument vector: which streams it maps, in which order, and which
  codec each output stream gets when the last matching specifier wins.
 */
module FfmpegArgv {
  import opened Wrappers
  import opened Text
  import opened FfmpegCommand
  import opened FfmpegCompile

  // ---- Reading an argument vector --------------------------------------------------

  datatype Pair = Pair(flag: string, value: string)

  function Pairs(args: seq<string>): (ps: seq<Pair>) {
    if |args| < 2 then [] else Pairs(args[..|args| - 2]) + [Pair(args[|args| - 2], args[|args| - 1])]
  }

  /** The options after the last input file: those that describe the output. */
  function AfterLastInput(ps: seq<Pair>): seq<Pair> {
    if ps == [] || ps[|ps| - 1].flag == "-i" then [] else AfterLastInput(ps[..|ps| - 1]) + [ps[|ps| - 1]]
  }

  /** The output options of an argument vector whose last element is the output path. */
  function OutputOptions(argv: seq<string>): seq<Pair>
    requires argv != []
  {
    AfterLastInput(Pairs(argv[..|argv| - 1]))
  }

  /** The mapped inputs, in order: the `k`-th of them becomes output stream `k`. */
  function Maps(ps: seq<Pair>): seq<string> {
    if ps == [] then []
    else Maps(ps[..|ps| - 1]) + (if ps[|ps| - 1].flag == "-map" then [ps[|ps| - 1].value] else [])
  }

  /** What follows the first colon of a flag, if there is one. */
  function Specifier(flag: string): Option<string> {
    var name := OptionName(flag);
    if |name| + 1 < |flag| then Some(flag[|name| + 2..]) else None
  }

  /** ffmpeg's letter for a media type. */
  function TypeLetter(codecType: string): string {
    match codecType
    case "video" => "v"
    case "audio" => "a"
    case "subtitle" => "s"
    case "data" => "d"
    case "attachment" => "t"
    case _ => "none"
  }

  function LetterType(letter: string): Option<string> {
    match letter
    case "v" => Some("video")
    case "a" => Some("audio")
    case "s" => Some("subtitle")
    case "d" => Some("data")
    case "t" => Some("attachment")
    case _ => None
  }

  /** The position of the `n`-th output stream of a type, from position `from`. */
  function NthOfType(types: seq<string>, codecType: string, n: nat, from: nat): Option<nat>
    requires from <= |types|
    decreases |types| - from
  {
    if from == |types| then None
    else if types[from] == codecType then (if n == 0 then Some(from) else NthOfType(types, codecType, n - 1, from + 1))
    else NthOfType(types, codecType, n, from + 1)
  }

  /** Is the specifier a type's letter, a colon, and a number? */
  predicate IsTypeIndex(spec: string) {
    |spec| > 2 && spec[1] == ':' && IsDigits(spec[2..]) && LetterType(spec[..1]).Some?
  }

  /**
    Does the flag address output stream `k`? Without a specifier it addresses every stream; a specifier
    is a position, a type, or a position within a type. The types are ffmpeg's own.
   */
  predicate Selects(flag: string, k: nat, types: seq<string>) {
    match Specifier(flag)
    case None => true
    case Some(spec) =>
      || spec == Dec(k)
      || (k < |types| && LetterType(spec) == Some(types[k]))
      || (IsTypeIndex(spec) && NthOfType(types, LetterType(spec[..1]).value, Value(spec[2..]), 0) == Some(k))
  }

  /** Does the flag select a codec for output stream `k`? */
  predicate SelectsCodec(flag: string, k: nat, types: seq<string>) {
    var name := OptionName(flag);
    if name in {"c", "codec"} then Selects(flag, k, types)
    else IsCodecOption(name) && Specifier(flag) == None && k < |types| && [name[0]] == TypeLetter(types[k])
  }

  /** The codec an output stream gets: the value of the last option that selects one for it. */
  function CodecFor(ps: seq<Pair>, k: nat, types: seq<string>): Option<string> {
    if ps == [] then None
    else if SelectsCodec(ps[|ps| - 1].flag, k, types) then Some(ps[|ps| - 1].value)
    else CodecFor(ps[..|ps| - 1], k, types)
  }

  /**
    What ffmpeg takes the output streams for: what the probe calls them, cover art included. An output has
    the type of the track it maps, so this speaks of streams that map their own.
   */
  function OutputTypes(kept: seq<Stream>): (types: seq<string>)
    ensures |types| == |kept| && forall i :: 0 <= i < |kept| ==> types[i] == kept[i].probe.codecType
  {
    seq(|kept|, i requires 0 <= i < |kept| => kept[i].probe.codecType)
  }

  // ---- What is asked of the plugins' arguments --------------------------------------

  /** Flags and values in pairs, none of them blank. */
  predicate Paired(args: seq<string>) {
    |args| % 2 == 0 && forall i :: 0 <= i < |args| ==> NonBlank(args[i])
  }

  /**
    A flag that starts with its dash, keeps placeholders behind its colon, and, if it selects a
    codec, selects it for the stream it belongs to.
   */
  predicate AddressedFlag(flag: string) {
    && Tight(flag) && flag[0] == '-' && '{' !in OptionName(flag) && OptionName(flag) !in {"map", "i"}
    && (IsCodecOption(OptionName(flag)) ==> flag in {"-c:" + OUTPUT_INDEX, "-codec:" + OUTPUT_INDEX})
  }

  predicate AddressedArgs(args: seq<string>) {
    Paired(args) && forall i :: 0 <= i < |args| && i % 2 == 0 ==> AddressedFlag(args[i])
  }

  /** Overall output arguments select no codec, no stream and no input. */
  predicate NeutralArgs(args: seq<string>) {
    Paired(args) && forall i :: 0 <= i < |args| && i % 2 == 0 ==>
      Tight(args[i]) && !IsCodecOption(OptionName(args[i])) && args[i] !in {"-map", "-i"}
  }

  predicate AddressedStream(s: Stream) {
    && Paired(s.inputArgs) && AddressedArgs(s.outputArgs)
    && (s.mapArgs == [] || (|s.mapArgs| == 2 && s.mapArgs[0] == "-map" && NonBlank(s.mapArgs[1])))
  }

  predicate Addressed(command: Command) {
    && Paired(command.overallInputArguments) && NeutralArgs(command.overallOuputArguments)
    && (forall i :: 0 <= i < |command.inputFiles| ==> NonBlank(command.inputFiles[i]))
    && (forall i :: 0 <= i < |command.streams| ==> AddressedStream(command.streams[i]))
  }

  // ---- Algebra of pairs --------------------------------------------------------------

  lemma {:induction false} PairsStep(args: seq<string>)
    requires |args| >= 2
    ensures Pairs(args) == Pairs(args[..|args| - 2]) + [Pair(args[|args| - 2], args[|args| - 1])]
  {
  }

  lemma {:induction false} PairsConcat(a: seq<string>, b: seq<string>)
    requires |a| % 2 == 0 && |b| % 2 == 0
    ensures Pairs(a + b) == Pairs(a) + Pairs(b)
    decreases |b|
  {
    if b == [] {
      assert a + b == a;
    } else {
      var init, last := b[..|b| - 2], Pair(b[|b| - 2], b[|b| - 1]);
      PairsConcat(a, init);
      assert (a + b)[..|a + b| - 2] == a + init;
      PairsStep(a + b);
      PairsStep(b);
      hide Pairs;
      assert Pairs(a) + (Pairs(init) + [last]) == Pairs(a) + Pairs(init) + [last];
    }
  }

  lemma {:induction false} MapsConcat(a: seq<Pair>, b: seq<Pair>)
    ensures Maps(a + b) == Maps(a) + Maps(b)
    decreases |b|
  {
    if b == [] {
      assert a + b == a;
    } else {
      MapsConcat(a, b[..|b| - 1]);
      assert (a + b)[..|a + b| - 1] == a + b[..|b| - 1];
    }
  }

  lemma {:induction false} CodecForConcat(a: seq<Pair>, b: seq<Pair>, k: nat, t: seq<string>)
    ensures CodecFor(a + b, k, t) == if CodecFor(b, k, t).Some? then CodecFor(b, k, t) else CodecFor(a, k, t)
    decreases |b|
  {
    if b == [] {
      assert a + b == a;
    } else {
      CodecForConcat(a, b[..|b| - 1], k, t);
      assert (a + b)[..|a + b| - 1] == a + b[..|b| - 1];
    }
  }

  lemma {:induction false} AfterInputs(a: seq<Pair>, b: seq<Pair>)
    requires a != [] && a[|a| - 1].flag == "-i"
    requires forall i :: 0 <= i < |b| ==> b[i].flag != "-i"
    ensures AfterLastInput(a + b) == b
    decreases |b|
  {
    if b == [] {
      assert a + b == a;
    } else {
      var init := b[..|b| - 1];
      AfterInputs(a, init);
      assert (a + b)[..|a + b| - 1] == a + init;
      assert b == init + [b[|b| - 1]];
    }
  }

  function TrimAll(args: seq<string>): (ts: seq<string>)
    ensures |ts| == |args| && forall i :: 0 <= i < |args| ==> ts[i] == Trim(args[i])
  {
    seq(|args|, i requires 0 <= i < |args| => Trim(args[i]))
  }

  predicate AllNonBlank(args: seq<string>) {
    forall i :: 0 <= i < |args| ==> NonBlank(args[i])
  }

  lemma {:induction false} CleanStep(args: seq<string>)
    requires args != [] && Trim(args[|args| - 1]) != []
    ensures Clean(args) == Clean(args[..|args| - 1]) + [Trim(args[|args| - 1])]
  {
  }

  lemma TrimAllStep(args: seq<string>)
    requires args != []
    ensures TrimAll(args) == TrimAll(args[..|args| - 1]) + [Trim(args[|args| - 1])]
  {
    hide Trim;
  }

  lemma {:induction false} CleanTrims(args: seq<string>)
    requires AllNonBlank(args)
    ensures Clean(args) == TrimAll(args)
  {
    if args != [] {
      hide Trim, Clean, TrimAll;
      CleanTrims(args[..|args| - 1]);
      NonBlankTrims(args[|args| - 1]);
      CleanStep(args);
      TrimAllStep(args);
    } else {
      assert Clean(args) == [] && TrimAll(args) == [];
    }
  }

  lemma TrimAllConcat(a: seq<string>, b: seq<string>)
    ensures TrimAll(a + b) == TrimAll(a) + TrimAll(b)
  {
  }

  // ---- Resolved flags ------------------------------------------------------------------

  lemma {:induction false} UpToColonExtends(s: string, tail: string)
    requires ':' !in s
    ensures UpToColon(s + ":" + tail) == s
  {
    if s == [] {
    } else {
      UpToColonExtends(s[1..], tail);
      assert (s + ":" + tail)[1..] == s[1..] + ":" + tail;
    }
  }

  lemma {:induction false} DecIsTight(n: nat)
    ensures Tight(Dec(n)) && '{' !in Dec(n) && ':' !in Dec(n)
  {
  }

  lemma {:induction false} ReplaceAfterColon(name: string, tail: string, pattern: string, n: nat)
    requires '{' !in name && ':' !in name && pattern != [] && pattern[0] == '{'
    ensures var flag := "-" + name + ":" + tail;
      var r := ReplaceAll(flag, pattern, Dec(n)); r != [] && r[0] == '-' && OptionName(r) == name
  {
    var head := "-" + name + ":";
    assert '{' !in head;
    ReplacePrefix(head, tail, pattern, Dec(n));
    var more := ReplaceAll(tail, pattern, Dec(n));
    UpToColonExtends(name, more);
    assert (head + more)[1..] == name + ":" + more;
  }

  /** One replacement keeps a flag's option, its dash, and its tightness. */
  lemma {:induction false} ReplaceInFlag(flag: string, pattern: string, n: nat)
    requires Tight(flag) && flag[0] == '-' && '{' !in OptionName(flag) && pattern != [] && pattern[0] == '{'
    ensures var r := ReplaceAll(flag, pattern, Dec(n)); Tight(r) && r[0] == '-' && OptionName(r) == OptionName(flag)
  {
    var name := OptionName(flag);
    DecIsTight(n);
    ReplaceEnd(flag, pattern, Dec(n));
    if |name| + 1 == |flag| {
      assert flag == "-" + name;
      ReplaceNone(flag, pattern, Dec(n));
    } else {
      var tail := flag[|name| + 2..];
      assert flag == "-" + name + ":" + tail;
      ReplaceAfterColon(name, tail, pattern, n);
    }
  }

  lemma ResolveFlag(kept: seq<Stream>, k: nat, flag: string)
    requires k < |kept| && AddressedFlag(flag)
    ensures var r := Resolve(kept, k, flag); Tight(r) && OptionName(r) == OptionName(flag)
  {
    ReplaceInFlag(flag, OUTPUT_INDEX, k);
    ReplaceInFlag(ReplaceAll(flag, OUTPUT_INDEX, Dec(k)), OUTPUT_TYPE_INDEX, CountType(kept, k, kept[k].codecType));
  }

  lemma {:induction false} ResolveAddress(kept: seq<Stream>, k: nat, head: string)
    requires k < |kept| && '{' !in head
    ensures Resolve(kept, k, head + OUTPUT_INDEX) == head + Dec(k)
  {
    ReplacePrefix(head, OUTPUT_INDEX, OUTPUT_INDEX, Dec(k));
    assert OUTPUT_INDEX[|OUTPUT_INDEX|..] == [];
    assert ReplaceAll(OUTPUT_INDEX, OUTPUT_INDEX, Dec(k)) == Dec(k) + ReplaceAll([], OUTPUT_INDEX, Dec(k));
    assert Dec(k) + [] == Dec(k);
    DecIsTight(k);
    assert '{' !in head + Dec(k);
    ReplaceNone(head + Dec(k), OUTPUT_TYPE_INDEX, Dec(CountType(kept, k, kept[k].codecType)));
  }

  lemma ResolveNonBlank(kept: seq<Stream>, k: nat, arg: string)
    requires k < |kept| && NonBlank(arg)
    ensures NonBlank(Resolve(kept, k, arg))
  {
    DecIsTight(k);
    DecIsTight(CountType(kept, k, kept[k].codecType));
    ReplaceNonBlank(arg, OUTPUT_INDEX, Dec(k));
    ReplaceNonBlank(ReplaceAll(arg, OUTPUT_INDEX, Dec(k)), OUTPUT_TYPE_INDEX, Dec(CountType(kept, k, kept[k].codecType)));
  }

  lemma NameAndSpecifier(name: string, spec: string)
    requires ':' !in name
    ensures OptionName("-" + name + ":" + spec) == name && Specifier("-" + name + ":" + spec) == Some(spec)
  {
    var flag := "-" + name + ":" + spec;
    UpToColonExtends(name, spec);
    assert flag[1..] == name + ":" + spec;
    assert flag[|name| + 2..] == spec;
  }

  /** A number is neither a type nor a type index. */
  lemma {:induction false} NumberIsNoLetter(n: nat)
    ensures LetterType(Dec(n)) == None && !IsTypeIndex(Dec(n))
  {
    var spec := Dec(n);
    assert '0' <= spec[0] <= '9';
    if |spec| > 1 { assert '0' <= spec[1] <= '9'; }
  }

  /** `-c:<j>` and `-codec:<j>` select a codec for stream `j` and for no other. */
  lemma {:induction false} AddressSelects(name: string, j: nat, k: nat, t: seq<string>)
    requires name == "c" || name == "codec"
    ensures OptionName("-" + name + ":" + Dec(j)) == name
    ensures SelectsCodec("-" + name + ":" + Dec(j), k, t) <==> j == k
  {
    NameAndSpecifier(name, Dec(j));
    NumberIsNoLetter(j);
    if Dec(j) == Dec(k) { DecInjective(j, k); }
  }

  // ---- What one stream contributes ------------------------------------------------------

  /** The last codec a stream's own arguments name, before placeholders are replaced. */
  function ConfiguredCodec(args: seq<string>): Option<string> {
    if |args| < 2 then None
    else if IsCodecOption(OptionName(args[|args| - 2])) then Some(args[|args| - 1])
    else ConfiguredCodec(args[..|args| - 2])
  }

  /** The codec of the stream's own choosing; without one, ffmpeg's default for the container. */
  function OwnCodec(kept: seq<Stream>, k: nat): Option<string>
    requires k < |kept|
  {
    match ConfiguredCodec(kept[k].outputArgs)
    case None => None
    case Some(v) => Some(Trim(Resolve(kept, k, v)))
  }

  lemma PairsOfResolved(kept: seq<Stream>, k: nat, args: seq<string>)
    requires k < |kept| && |args| >= 2
    ensures var n := |args| - 2;
      Pairs(TrimAll(ResolveAll(kept, k, args))) ==
      Pairs(TrimAll(ResolveAll(kept, k, args[..n]))) + [Pair(Trim(Resolve(kept, k, args[n])), Trim(Resolve(kept, k, args[n + 1])))]
  {
    var all, n := TrimAll(ResolveAll(kept, k, args)), |args| - 2;
    assert all[..n] == TrimAll(ResolveAll(kept, k, args[..n]));
  }

  lemma {:induction false} UpToColonAll(s: string)
    requires ':' !in s
    ensures UpToColon(s) == s
  {
    if s != [] { UpToColonAll(s[1..]); }
  }

  lemma FixedNames()
    ensures OptionName("-i") == "i" && OptionName("-map") == "map" && OptionName("-c") == "c"
  {
    UpToColonAll("i");
    UpToColonAll("map");
    UpToColonAll("c");
  }

  lemma CodecFlagSelects(kept: seq<Stream>, k: nat, name: string, j: nat, t: seq<string>)
    requires k < |kept| && (name == "c" || name == "codec")
    ensures SelectsCodec(Resolve(kept, k, "-" + name + ":" + OUTPUT_INDEX), j, t) <==> j == k
  {
    ResolveAddress(kept, k, "-" + name + ":");
    AddressSelects(name, k, j, t);
  }

  lemma OtherFlagSelects(flag: string, j: nat, t: seq<string>)
    requires !IsCodecOption(OptionName(flag))
    ensures !SelectsCodec(flag, j, t)
  {
  }

  lemma OwnFlagSelects(kept: seq<Stream>, k: nat, flag: string, j: nat, t: seq<string>)
    requires k < |kept| && AddressedFlag(flag)
    ensures SelectsCodec(Resolve(kept, k, flag), j, t) <==> j == k && IsCodecOption(OptionName(flag))
  {
    if IsCodecOption(OptionName(flag)) {
      FixedNames();
      NameAndSpecifier("c", OUTPUT_INDEX);
      NameAndSpecifier("codec", OUTPUT_INDEX);
      assert "-" + "c" + ":" + OUTPUT_INDEX == "-c:" + OUTPUT_INDEX;
      assert "-" + "codec" + ":" + OUTPUT_INDEX == "-codec:" + OUTPUT_INDEX;
      CodecFlagSelects(kept, k, "c", j, t);
      CodecFlagSelects(kept, k, "codec", j, t);
    } else {
      ResolveFlag(kept, k, flag);
      OtherFlagSelects(Resolve(kept, k, flag), j, t);
    }
  }

  lemma OwnFlagIsPlain(kept: seq<Stream>, k: nat, flag: string)
    requires k < |kept| && AddressedFlag(flag)
    ensures Trim(Resolve(kept, k, flag)) == Resolve(kept, k, flag)
    ensures Resolve(kept, k, flag) != "-i" && Resolve(kept, k, flag) != "-map"
  {
    FixedNames();
    ResolveFlag(kept, k, flag);
    TightIsTrimmed(Resolve(kept, k, flag));
  }

  /** The options map nothing, read nothing, and give stream `j` this codec. */
  ghost predicate Gives(ps: seq<Pair>, j: nat, t: seq<string>, codec: Option<string>) {
    Maps(ps) == [] && (forall i :: 0 <= i < |ps| ==> ps[i].flag != "-i") && CodecFor(ps, j, t) == codec
  }

  lemma GivesMore(ps: seq<Pair>, p: Pair, j: nat, t: seq<string>, codec: Option<string>)
    requires Gives(ps, j, t, codec) && p.flag != "-i" && p.flag != "-map"
    ensures Gives(ps + [p], j, t, if SelectsCodec(p.flag, j, t) then Some(p.value) else codec)
  {
    assert (ps + [p])[..|ps|] == ps;
  }

  /** What the stream's own arguments give stream `j`: its own codec, and nothing to any other. */
  function OwnGift(kept: seq<Stream>, k: nat, args: seq<string>, j: nat): Option<string>
    requires k < |kept|
  {
    if j != k || ConfiguredCodec(args).None? then None else Some(Trim(Resolve(kept, k, ConfiguredCodec(args).value)))
  }

  lemma AddressedInit(args: seq<string>)
    requires AddressedArgs(args) && args != []
    ensures |args| >= 2 && AddressedArgs(args[..|args| - 2]) && AddressedFlag(args[|args| - 2])
  {
    hide AddressedFlag;
    var init := args[..|args| - 2];
    forall i | 0 <= i < |init| && i % 2 == 0 ensures AddressedFlag(init[i]) {
      assert init[i] == args[i];
    }
  }

  lemma OwnGiftStep(kept: seq<Stream>, k: nat, args: seq<string>, j: nat)
    requires k < |kept| && |args| >= 2
    ensures OwnGift(kept, k, args, j) ==
      if j == k && IsCodecOption(OptionName(args[|args| - 2])) then Some(Trim(Resolve(kept, k, args[|args| - 1])))
      else OwnGift(kept, k, args[..|args| - 2], j)
  {
    hide Trim, Resolve, IsCodecOption, OptionName;
    var init := args[..|args| - 2];
    assert ConfiguredCodec(args) ==
      if IsCodecOption(OptionName(args[|args| - 2])) then Some(args[|args| - 1]) else ConfiguredCodec(init);
  }

  /** A stream's flag as it ends up in the vector. */
  lemma OwnFlag(kept: seq<Stream>, k: nat, flag: string, j: nat, t: seq<string>, f: string)
    requires k < |kept| && AddressedFlag(flag) && f == Trim(Resolve(kept, k, flag))
    ensures f != "-i" && f != "-map"
    ensures SelectsCodec(f, j, t) <==> j == k && IsCodecOption(OptionName(flag))
  {
    OwnFlagIsPlain(kept, k, flag);
    OwnFlagSelects(kept, k, flag, j, t);
  }

  /** What the last pair of a stream's own arguments adds. */
  lemma OwnPair(kept: seq<Stream>, k: nat, args: seq<string>, j: nat, t: seq<string>, p: Pair)
    requires k < |kept| && |args| >= 2 && AddressedFlag(args[|args| - 2])
    requires p.flag == Trim(Resolve(kept, k, args[|args| - 2])) && p.value == Trim(Resolve(kept, k, args[|args| - 1]))
    ensures OwnGift(kept, k, args, j) == if SelectsCodec(p.flag, j, t) then Some(p.value) else OwnGift(kept, k, args[..|args| - 2], j)
  {
    OwnFlag(kept, k, args[|args| - 2], j, t, p.flag);
    OwnGiftStep(kept, k, args, j);
  }

  /** A stream's own arguments select its own codec and nobody else's, and map and read nothing. */
  lemma {:induction false} OwnArgs(kept: seq<Stream>, k: nat, args: seq<string>, j: nat, t: seq<string>)
    requires k < |kept| && AddressedArgs(args)
    ensures Gives(Pairs(TrimAll(ResolveAll(kept, k, args))), j, t, OwnGift(kept, k, args, j))
    decreases |args|
  {
    if args == [] {
      assert Pairs(TrimAll(ResolveAll(kept, k, args))) == [];
    } else {
      AddressedInit(args);
      var n := |args| - 2;
      OwnArgs(kept, k, args[..n], j, t);
      var p := Pair(Trim(Resolve(kept, k, args[n])), Trim(Resolve(kept, k, args[n + 1])));
      OwnPair(kept, k, args, j, t, p);
      OwnFlag(kept, k, args[n], j, t, p.flag);
      PairsOfResolved(kept, k, args);
      GivesMore(Pairs(TrimAll(ResolveAll(kept, k, args[..n]))), p, j, t, OwnGift(kept, k, args[..n], j));
    }
  }

  // ---- What each kept stream gives ---------------------------------------------------

  /** What the `k`-th `-map` of the vector names: the stream's own map, or its input track. */
  function MapTarget(s: Stream, position: nat): string {
    if |MapArgsOf(s, position)| == 2 then Trim(MapArgsOf(s, position)[1]) else ""
  }

  predicate AddressedStreams(streams: seq<Stream>) {
    forall i :: 0 <= i < |streams| ==> AddressedStream(streams[i])
  }

  predicate Positions(streams: seq<Stream>, ps: seq<nat>) {
    forall k :: 0 <= k < |ps| ==> ps[k] < |streams|
  }

  /** A map is one pair. */
  lemma MapIsPair(s: Stream, position: nat)
    requires AddressedStream(s)
    ensures |MapArgsOf(s, position)| == 2 && MapArgsOf(s, position)[0] == "-map" && NonBlank(MapArgsOf(s, position)[1])
  {
    if s.mapArgs == [] {
      var index := if s.probe.index.Some? then s.probe.index.value else position;
      assert IdentityMap(index)[1] == "0:" + Int(index);
      assert IdentityMap(index)[1][0] == '0';
    }
  }

  /** Whether the `k`-th kept stream gets a copy directive of its own. */
  predicate Directed(kept: seq<Stream>, k: nat)
    requires k < |kept|
  {
    !NeedsEncode(kept[k]) && AnyEncodes(kept)
  }

  /** What the `k`-th kept stream's options give output stream `j`. */
  function Gift(kept: seq<Stream>, k: nat, j: nat): Option<string>
    requires k < |kept|
  {
    if j != k then None else if Directed(kept, k) then Some("copy") else OwnCodec(kept, k)
  }

  /** The options name one stream and give stream `j` this codec. */
  ghost predicate Names(ps: seq<Pair>, targets: seq<string>, j: nat, t: seq<string>, codec: Option<string>) {
    Maps(ps) == targets && (forall i :: 0 <= i < |ps| ==> ps[i].flag != "-i") && CodecFor(ps, j, t) == codec
  }

  lemma NamesConcat(a: seq<Pair>, b: seq<Pair>, ta: seq<string>, tb: seq<string>, j: nat, t: seq<string>, ca: Option<string>, cb: Option<string>)
    requires Names(a, ta, j, t, ca) && Names(b, tb, j, t, cb)
    ensures Names(a + b, ta + tb, j, t, if cb.Some? then cb else ca)
  {
    MapsConcat(a, b);
    CodecForConcat(a, b, j, t);
  }

  lemma NamesOne(p: Pair, j: nat, t: seq<string>)
    requires p.flag != "-i"
    ensures Pairs([p.flag, p.value]) == [p]
    ensures Names([p], if p.flag == "-map" then [p.value] else [], j, t, if SelectsCodec(p.flag, j, t) then Some(p.value) else None)
  {
    assert [p][..0] == [];
    assert [p.flag, p.value][..0] == [];
  }

  lemma TrimmedPair(x: string, y: string)
    ensures Pairs(TrimAll([x, y])) == [Pair(Trim(x), Trim(y))]
  {
    var args := TrimAll([x, y]);
    assert args[..0] == [];
    assert Pairs(args[..0]) == [];
  }

  /** Literal flags and values carry no space. They are passed as variables to keep them unevaluated. */
  lemma LiteralIsTrimmed(s: string)
    requires s in {"-map", "copy", "-c", "-i"}
    ensures Trim(s) == s && NonBlank(s)
  {
    assert Tight(s);
    TightIsTrimmed(s);
  }

  lemma MapSelectsNothing(flag: string, j: nat, t: seq<string>)
    requires flag == "-map"
    ensures !SelectsCodec(flag, j, t) && flag != "-i"
  {
    FixedNames();
    OtherFlagSelects(flag, j, t);
  }

  lemma MapPair(s: Stream, position: nat, j: nat, t: seq<string>)
    requires AddressedStream(s)
    ensures |MapArgsOf(s, position)| == 2
    ensures Names(Pairs(TrimAll(MapArgsOf(s, position))), [MapTarget(s, position)], j, t, None)
  {
    MapIsPair(s, position);
    var args := MapArgsOf(s, position);
    assert args == [args[0], args[1]];
    TrimmedPair(args[0], args[1]);
    LiteralIsTrimmed(args[0]);
    MapSelectsNothing(args[0], j, t);
    NamesOne(Pair(args[0], Trim(args[1])), j, t);
  }

  lemma {:induction false} DirectiveSelects(name: string, flag: string, k: nat, j: nat, t: seq<string>)
    requires name == "c" && flag == "-" + name + ":" + Dec(k)
    ensures SelectsCodec(flag, j, t) <==> j == k
  {
    AddressSelects(name, k, j, t);
  }

  lemma {:induction false} DirectiveIsTight(flag: string, k: nat)
    requires flag == "-c:" + Dec(k)
    ensures Tight(flag) && flag[1] == 'c'
  {
    DecIsTight(k);
  }

  lemma DirectivePair(k: nat, j: nat, t: seq<string>)
    ensures Names(Pairs(TrimAll(CopyDirective(k))), [], j, t, if j == k then Some("copy") else None)
  {
    var args := CopyDirective(k);
    var flag, copy := args[0], args[1];
    DirectiveIsTight(flag, k);
    TightIsTrimmed(flag);
    LiteralIsTrimmed(copy);
    var name := flag[1..2];
    assert name == "c" && flag == "-" + name + ":" + Dec(k);
    DirectiveSelects(name, flag, k, j, t);
    DirectiveNamesOne(flag, copy, j, t, k);
    TrimmedPair(flag, copy);
    assert args == [flag, copy];
  }

  lemma DirectiveNamesOne(flag: string, copy: string, j: nat, t: seq<string>, k: nat)
    requires |flag| > 1 && flag[1] == 'c' && (SelectsCodec(flag, j, t) <==> j == k)
    ensures Names([Pair(flag, copy)], [], j, t, if j == k then Some(copy) else None)
  {
    NamesOne(Pair(flag, copy), j, t);
  }

  predicate Even(args: seq<string>) {
    |args| % 2 == 0
  }

  lemma EvenConcat(a: seq<string>, b: seq<string>)
    requires Even(a) && Even(b)
    ensures Even(a + b)
  {
  }

  lemma TwoParts(a: seq<string>, b: seq<string>)
    requires Even(a) && Even(b)
    ensures Pairs(TrimAll(a + b)) == Pairs(TrimAll(a)) + Pairs(TrimAll(b))
  {
    TrimAllConcat(a, b);
    PairsConcat(TrimAll(a), TrimAll(b));
  }

  /** Two runs of options, one after the other: both name their streams, and the later codec wins. */
  lemma NamesBoth(a: seq<string>, b: seq<string>, ta: seq<string>, tb: seq<string>, j: nat, t: seq<string>, ca: Option<string>, cb: Option<string>)
    requires Even(a) && Even(b)
    requires Names(Pairs(TrimAll(a)), ta, j, t, ca) && Names(Pairs(TrimAll(b)), tb, j, t, cb)
    ensures Even(a + b) && Names(Pairs(TrimAll(a + b)), ta + tb, j, t, if cb.Some? then cb else ca)
  {
    EvenConcat(a, b);
    TwoParts(a, b);
    NamesConcat(Pairs(TrimAll(a)), Pairs(TrimAll(b)), ta, tb, j, t, ca, cb);
  }

  /** The three parts of a stream's contribution. */
  function Directive(kept: seq<Stream>, k: nat): seq<string>
    requires k < |kept|
  {
    if Directed(kept, k) then CopyDirective(k) else []
  }

  lemma NothingNames(args: seq<string>, j: nat, t: seq<string>)
    requires args == []
    ensures Names(Pairs(TrimAll(args)), [], j, t, None)
  {
    assert |TrimAll(args)| == 0;
  }

  /** What the `k`-th kept stream's copy directive gives output stream `j`. */
  function DirectiveGift(kept: seq<Stream>, k: nat, j: nat): Option<string>
    requires k < |kept|
  {
    if Directed(kept, k) && j == k then Some("copy") else None
  }

  lemma DirectiveNames(kept: seq<Stream>, k: nat, j: nat, t: seq<string>)
    requires k < |kept|
    ensures Even(Directive(kept, k))
    ensures Names(Pairs(TrimAll(Directive(kept, k))), [], j, t, DirectiveGift(kept, k, j))
  {
    if Directed(kept, k) {
      DirectivePair(k, j, t);
      assert |Directive(kept, k)| == 2;
    } else {
      NothingNames(Directive(kept, k), j, t);
    }
  }

  /** The stream's map and its own arguments. */
  lemma OwnPartNames(kept: seq<Stream>, k: nat, position: nat, j: nat, t: seq<string>)
    requires k < |kept| && AddressedStream(kept[k])
    ensures |MapArgsOf(kept[k], position)| == 2
    ensures Even(MapArgsOf(kept[k], position) + ResolveAll(kept, k, kept[k].outputArgs))
    ensures Names(Pairs(TrimAll(MapArgsOf(kept[k], position) + ResolveAll(kept, k, kept[k].outputArgs))),
                  [MapTarget(kept[k], position)], j, t, OwnGift(kept, k, kept[k].outputArgs, j))
  {
    var s := kept[k];
    MapPair(s, position, j, t);
    OwnArgs(kept, k, s.outputArgs, j, t);
    NamesBoth(MapArgsOf(s, position), ResolveAll(kept, k, s.outputArgs), [MapTarget(s, position)], [], j, t,
              None, OwnGift(kept, k, s.outputArgs, j));
    assert [MapTarget(s, position)] + [] == [MapTarget(s, position)];
  }

  lemma StreamNames(streams: seq<Stream>, ps: seq<nat>, k: nat, j: nat, t: seq<string>)
    requires AddressedStreams(streams) && Positions(streams, ps) && k < |ps|
    ensures Even(StreamArgs(streams, ps, k))
    ensures Names(Pairs(TrimAll(StreamArgs(streams, ps, k))), [MapTarget(streams[ps[k]], ps[k])], j, t, Gift(At(streams, ps), k, j))
  {
    var kept := At(streams, ps);
    var s := kept[k];
    OwnPartNames(kept, k, ps[k], j, t);
    DirectiveNames(kept, k, j, t);
    var target := [MapTarget(s, ps[k])];
    NamesBoth(MapArgsOf(s, ps[k]) + ResolveAll(kept, k, s.outputArgs), Directive(kept, k), target, [], j, t,
              OwnGift(kept, k, s.outputArgs, j), DirectiveGift(kept, k, j));
    assert target + [] == target;
  }

  // ---- The whole vector ------------------------------------------------------------------

  /** What each of the first `n` kept streams maps, in order. */
  function Targets(streams: seq<Stream>, ps: seq<nat>, n: nat): (ts: seq<string>)
    requires Positions(streams, ps) && n <= |ps|
    ensures |ts| == n && forall k :: 0 <= k < n ==> ts[k] == TargetAt(streams, ps, k)
  {
    if n == 0 then [] else Targets(streams, ps, n - 1) + [TargetAt(streams, ps, n - 1)]
  }

  function TargetAt(streams: seq<Stream>, ps: seq<nat>, k: nat): string
    requires Positions(streams, ps) && k < |ps|
  {
    MapTarget(streams[ps[k]], ps[k])
  }

  /** What the first `n` kept streams' options together give output stream `j`. */
  function GiftUpTo(kept: seq<Stream>, n: nat, j: nat): Option<string>
    requires n <= |kept|
  {
    if j < n then Gift(kept, j, j) else None
  }

  lemma GiftStep(kept: seq<Stream>, m: nat, j: nat)
    requires m < |kept|
    ensures GiftUpTo(kept, m + 1, j) == if Gift(kept, m, j).Some? then Gift(kept, m, j) else GiftUpTo(kept, m, j)
  {
  }

  lemma AllStreamsStep(streams: seq<Stream>, ps: seq<nat>, m: nat, j: nat, t: seq<string>)
    requires AddressedStreams(streams) && Positions(streams, ps) && m < |ps| && Even(AllStreamArgs(streams, ps, m))
    requires Names(Pairs(TrimAll(AllStreamArgs(streams, ps, m))), Targets(streams, ps, m), j, t, GiftUpTo(At(streams, ps), m, j))
    ensures var args := AllStreamArgs(streams, ps, m) + StreamArgs(streams, ps, m);
      Even(args) && Names(Pairs(TrimAll(args)), Targets(streams, ps, m) + [MapTarget(streams[ps[m]], ps[m])], j, t,
                          GiftUpTo(At(streams, ps), m + 1, j))
  {
    var kept := At(streams, ps);
    StreamNames(streams, ps, m, j, t);
    GiftStep(kept, m, j);
    NamesBoth(AllStreamArgs(streams, ps, m), StreamArgs(streams, ps, m), Targets(streams, ps, m),
              [MapTarget(streams[ps[m]], ps[m])], j, t, GiftUpTo(kept, m, j), Gift(kept, m, j));
  }

  lemma {:induction false} AllStreamsName(streams: seq<Stream>, ps: seq<nat>, n: nat, j: nat, t: seq<string>)
    requires AddressedStreams(streams) && Positions(streams, ps) && n <= |ps|
    ensures Even(AllStreamArgs(streams, ps, n))
    ensures Names(Pairs(TrimAll(AllStreamArgs(streams, ps, n))), Targets(streams, ps, n), j, t, GiftUpTo(At(streams, ps), n, j))
  {
    if n == 0 {
      NothingNames(AllStreamArgs(streams, ps, 0), j, t);
    } else {
      AllStreamsName(streams, ps, n - 1, j, t);
      AllStreamsStep(streams, ps, n - 1, j, t);
    }
  }

  lemma NeutralInit(args: seq<string>)
    requires NeutralArgs(args) && args != []
    ensures |args| >= 2 && NeutralArgs(args[..|args| - 2])
    ensures Tight(args[|args| - 2]) && !IsCodecOption(OptionName(args[|args| - 2])) && args[|args| - 2] !in {"-map", "-i"}
  {
  }

  lemma PairsOfTrimmed(args: seq<string>)
    requires |args| >= 2
    ensures var n := |args| - 2;
      Pairs(TrimAll(args)) == Pairs(TrimAll(args[..n])) + [Pair(Trim(args[n]), Trim(args[n + 1]))]
  {
    var n := |args| - 2;
    assert TrimAll(args)[..n] == TrimAll(args[..n]);
  }

  lemma {:induction false} NeutralNames(args: seq<string>, j: nat, t: seq<string>)
    requires NeutralArgs(args)
    ensures Even(args) && Gives(Pairs(TrimAll(args)), j, t, None)
    decreases |args|
  {
    if args == [] {
      NothingNames(args, j, t);
    } else {
      NeutralInit(args);
      var n := |args| - 2;
      NeutralNames(args[..n], j, t);
      TightIsTrimmed(args[n]);
      OtherFlagSelects(args[n], j, t);
      PairsOfTrimmed(args);
      GivesMore(Pairs(TrimAll(args[..n])), Pair(args[n], Trim(args[n + 1])), j, t, None);
    }
  }

  lemma BlanketNames(kept: seq<Stream>, j: nat, t: seq<string>)
    ensures Even(Blanket(kept))
    ensures Names(Pairs(TrimAll(Blanket(kept))), [], j, t, BlanketGift(kept))
  {
    var args := Blanket(kept);
    if AnyEncodes(kept) {
      NothingNames(args, j, t);
    } else {
      var flag, copy := args[0], args[1];
      LiteralIsTrimmed(flag);
      LiteralIsTrimmed(copy);
      BlanketSelects(flag, j, t);
      TrimmedPair(flag, copy);
      NamesOne(Pair(flag, copy), j, t);
      assert |args| == 2 && args == [flag, copy];
    }
  }

  lemma BlanketSelects(flag: string, j: nat, t: seq<string>)
    requires flag == "-c"
    ensures SelectsCodec(flag, j, t) && flag != "-i" && flag != "-map"
  {
    FixedNames();
  }

  /** The codec output stream `k` ends up with. */
  function FinalCodec(kept: seq<Stream>, k: nat): Option<string>
    requires k < |kept|
  {
    if NeedsEncode(kept[k]) then OwnCodec(kept, k) else Some("copy")
  }

  function BlanketGift(kept: seq<Stream>): Option<string> {
    if AnyEncodes(kept) then None else Some("copy")
  }

  lemma FinalGift(kept: seq<Stream>, k: nat)
    requires k < |kept|
    ensures (if BlanketGift(kept).Some? then BlanketGift(kept) else GiftUpTo(kept, |kept|, k)) == FinalCodec(kept, k)
  {
    if NeedsEncode(kept[k]) { assert AnyEncodes(kept); }
  }

  /** The kept streams' options and the blanket copy. */
  lemma {:induction false} StreamsAndBlanketName(streams: seq<Stream>, ps: seq<nat>, k: nat, t: seq<string>)
    requires AddressedStreams(streams) && Positions(streams, ps) && k < |ps|
    ensures Even(AllStreamArgs(streams, ps, |ps|) + Blanket(At(streams, ps)))
    ensures Names(Pairs(TrimAll(AllStreamArgs(streams, ps, |ps|) + Blanket(At(streams, ps)))), Targets(streams, ps, |ps|), k, t,
                  FinalCodec(At(streams, ps), k))
  {
    var kept, targets := At(streams, ps), Targets(streams, ps, |ps|);
    AllStreamsName(streams, ps, |ps|, k, t);
    BlanketNames(kept, k, t);
    NamesBoth(AllStreamArgs(streams, ps, |ps|), Blanket(kept), targets, [], k, t, GiftUpTo(kept, |ps|, k), BlanketGift(kept));
    FinalGift(kept, k);
    assert targets + [] == targets;
  }

  lemma {:induction false} OutputNames(command: Command, ps: seq<nat>, k: nat, t: seq<string>)
    requires Addressed(command) && Positions(command.streams, ps) && k < |ps|
    ensures Even(OutputSection(command, ps))
    ensures Names(Pairs(TrimAll(OutputSection(command, ps))), Targets(command.streams, ps, |ps|), k, t,
                  FinalCodec(At(command.streams, ps), k))
  {
    var kept, targets := At(command.streams, ps), Targets(command.streams, ps, |ps|);
    var rest := command.overallOuputArguments;
    StreamsAndBlanketName(command.streams, ps, k, t);
    NeutralNames(rest, k, t);
    NamesBoth(AllStreamArgs(command.streams, ps, |ps|) + Blanket(kept), rest, targets, [], k, t, FinalCodec(kept, k), None);
    assert targets + [] == targets;
  }

  // ---- Nothing is blank, so cleaning only trims ------------------------------------------

  lemma NonBlankConcat(a: seq<string>, b: seq<string>)
    requires AllNonBlank(a) && AllNonBlank(b)
    ensures AllNonBlank(a + b)
  {
  }

  lemma OwnNonBlank(kept: seq<Stream>, k: nat)
    requires k < |kept| && AddressedStream(kept[k])
    ensures AllNonBlank(ResolveAll(kept, k, kept[k].outputArgs))
  {
    hide Resolve, NonBlank, AddressedFlag;
    var args := kept[k].outputArgs;
    forall i | 0 <= i < |args| ensures NonBlank(ResolveAll(kept, k, args)[i]) { ResolveNonBlank(kept, k, args[i]); }
  }

  lemma MapNonBlank(s: Stream, position: nat)
    requires AddressedStream(s)
    ensures AllNonBlank(MapArgsOf(s, position))
  {
    MapIsPair(s, position);
    hide MapArgsOf, AddressedStream, NonBlank, Trim;
    LiteralIsTrimmed(MapArgsOf(s, position)[0]);
  }

  lemma StreamArgsNonBlank(streams: seq<Stream>, ps: seq<nat>, k: nat)
    requires AddressedStreams(streams) && Positions(streams, ps) && k < |ps|
    ensures AllNonBlank(StreamArgs(streams, ps, k))
  {
    var kept := At(streams, ps);
    var s := kept[k];
    assert AddressedStream(s);
    hide AddressedStream, AllNonBlank, MapArgsOf, Resolve;
    var mapping, own, directive := MapArgsOf(s, ps[k]), ResolveAll(kept, k, s.outputArgs), Directive(kept, k);
    MapNonBlank(s, ps[k]);
    OwnNonBlank(kept, k);
    DirectiveNonBlank(directive, k);
    NonBlankConcat(mapping, own);
    NonBlankConcat(mapping + own, directive);
  }

  lemma DirectiveNonBlank(args: seq<string>, k: nat)
    requires args == [] || args == CopyDirective(k)
    ensures AllNonBlank(args)
  {
    if args != [] {
      DirectiveIsTight(args[0], k);
      TightIsTrimmed(args[0]);
      LiteralIsTrimmed(args[1]);
    }
  }

  lemma OneMoreStream(streams: seq<Stream>, ps: seq<nat>, n: nat)
    requires Positions(streams, ps) && n < |ps|
    ensures AllStreamArgs(streams, ps, n + 1) == AllStreamArgs(streams, ps, n) + StreamArgs(streams, ps, n)
  {
    hide StreamArgs;
  }

  lemma {:induction false} NoStreamsNonBlank(streams: seq<Stream>, ps: seq<nat>)
    requires Positions(streams, ps)
    ensures AllNonBlank(AllStreamArgs(streams, ps, 0))
  {
  }

  lemma {:induction false} AllStreamArgsNonBlank(streams: seq<Stream>, ps: seq<nat>, n: nat)
    requires AddressedStreams(streams) && Positions(streams, ps) && n <= |ps|
    ensures AllNonBlank(AllStreamArgs(streams, ps, n))
  {
    hide StreamArgs, AllStreamArgs, AllNonBlank, AddressedStreams;
    if n == 0 {
      NoStreamsNonBlank(streams, ps);
    } else {
      OneMoreStream(streams, ps, n - 1);
      AllStreamArgsNonBlank(streams, ps, n - 1);
      StreamArgsNonBlank(streams, ps, n - 1);
      NonBlankConcat(AllStreamArgs(streams, ps, n - 1), StreamArgs(streams, ps, n - 1));
    }
  }

  lemma BlanketNonBlank(kept: seq<Stream>)
    ensures AllNonBlank(Blanket(kept))
  {
    var blanket := Blanket(kept);
    if !AnyEncodes(kept) {
      LiteralIsTrimmed(blanket[0]);
      LiteralIsTrimmed(blanket[1]);
    }
  }

  lemma OutputNonBlank(command: Command, ps: seq<nat>)
    requires Addressed(command) && Positions(command.streams, ps)
    ensures AllNonBlank(OutputSection(command, ps))
  {
    var kept := At(command.streams, ps);
    AllStreamArgsNonBlank(command.streams, ps, |ps|);
    var blanket := Blanket(kept);
    BlanketNonBlank(kept);
    NonBlankConcat(AllStreamArgs(command.streams, ps, |ps|), blanket);
    NonBlankConcat(AllStreamArgs(command.streams, ps, |ps|) + blanket, command.overallOuputArguments);
  }

  lemma {:induction false} InputArgsPaired(kept: seq<Stream>)
    requires AddressedStreams(kept)
    ensures Even(AllInputArgs(kept)) && AllNonBlank(AllInputArgs(kept))
  {
    if kept != [] {
      var init, last := kept[..|kept| - 1], kept[|kept| - 1];
      InputArgsPaired(init);
      assert AddressedStream(last);
      EvenConcat(AllInputArgs(init), last.inputArgs);
      NonBlankConcat(AllInputArgs(init), last.inputArgs);
    }
  }

  lemma {:induction false} InputFilesPaired(files: seq<string>)
    requires AllNonBlank(files)
    ensures Even(InputFileArgs(files)) && AllNonBlank(InputFileArgs(files))
    ensures files != [] ==> |InputFileArgs(files)| >= 2 && InputFileArgs(files)[|InputFileArgs(files)| - 2] == "-i"
  {
    if files != [] {
      var init := files[..|files| - 1];
      InputFilesPaired(init);
      var flag := InputFileArgs(files)[|InputFileArgs(files)| - 2];
      LiteralIsTrimmed(flag);
      assert |InputFileArgs(files)| == |InputFileArgs(init)| + 2;
      NonBlankConcat(InputFileArgs(init), [flag, files[|files| - 1]]);
    }
  }

  lemma InputPaired(command: Command, kept: seq<Stream>)
    requires Addressed(command) && AddressedStreams(kept) && command.inputFiles != []
    ensures var args := InputSection(command, kept);
      Even(args) && AllNonBlank(args) && |args| >= 2 && args[|args| - 2] == "-i"
  {
    var a, b, c := command.overallInputArguments, AllInputArgs(kept), InputFileArgs(command.inputFiles);
    InputArgsPaired(kept);
    InputFilesPaired(command.inputFiles);
    EvenConcat(a, b);
    EvenConcat(a + b, c);
    NonBlankConcat(a, b);
    NonBlankConcat(a + b, c);
  }

  lemma InputsEndWithInput(args: seq<string>)
    requires |args| >= 2 && args[|args| - 2] == "-i"
    ensures var ps := Pairs(TrimAll(args)); ps != [] && ps[|ps| - 1].flag == "-i"
  {
    PairsOfTrimmed(args);
    LiteralIsTrimmed(args[|args| - 2]);
  }

  lemma {:induction false} SectionsAreTrimmed(input: seq<string>, output: seq<string>, last: string)
    requires AllNonBlank(input) && AllNonBlank(output) && NonBlank(last)
    ensures Clean(input + output + [last]) == TrimAll(input + output) + [Trim(last)]
  {
    NonBlankConcat(input, output);
    NonBlankConcat(input + output, [last]);
    CleanTrims(input + output + [last]);
    TrimAllConcat(input + output, [last]);
  }

  /** Cleaning the vector trims it. */
  lemma VectorIsTrimmed(command: Command, ps: seq<nat>, outputPath: string)
    requires Addressed(command) && Positions(command.streams, ps) && NonBlank(outputPath) && command.inputFiles != []
    ensures var input, output := InputSection(command, At(command.streams, ps)), OutputSection(command, ps);
      Clean(RawArgs(command, ps, outputPath)) == TrimAll(input + output) + [Trim(outputPath)]
  {
    InputPaired(command, At(command.streams, ps));
    OutputNonBlank(command, ps);
    SectionsAreTrimmed(InputSection(command, At(command.streams, ps)), OutputSection(command, ps), outputPath);
  }

  /** The options after the last input are the output section's. */
  lemma AfterTheInputs(command: Command, ps: seq<nat>)
    requires Addressed(command) && Positions(command.streams, ps) && ps != [] && command.inputFiles != []
    ensures var input, output := InputSection(command, At(command.streams, ps)), OutputSection(command, ps);
      AfterLastInput(Pairs(TrimAll(input + output))) == Pairs(TrimAll(output))
  {
    var input, output := InputSection(command, At(command.streams, ps)), OutputSection(command, ps);
    InputPaired(command, At(command.streams, ps));
    OutputNames(command, ps, 0, []);
    TwoParts(input, output);
    InputsEndWithInput(input);
    AfterInputs(Pairs(TrimAll(input)), Pairs(TrimAll(output)));
  }

  lemma {:induction false} OptionsBeforeTheOutput(argv: seq<string>, options: seq<string>, last: string)
    requires argv == options + [last]
    ensures argv != [] && argv[|argv| - 1] == last && OutputOptions(argv) == AfterLastInput(Pairs(options))
  {
    assert argv[..|argv| - 1] == options;
  }

  lemma CompiledIsClean(command: Command, outputPath: string, argv: seq<string>)
    requires Compile(command, outputPath) == Success(argv)
    ensures command.inputFiles != [] && Kept(command.streams) != []
    ensures Positions(command.streams, Kept(command.streams))
    ensures argv == Clean(RawArgs(command, Kept(command.streams), outputPath))
  {
  }

  /** The options ffmpeg applies to the output are the compiler's output section, trimmed. */
  lemma OutputOptionsOf(command: Command, outputPath: string, argv: seq<string>)
    requires Addressed(command) && NonBlank(outputPath) && Compile(command, outputPath) == Success(argv)
    ensures argv != [] && argv[|argv| - 1] == Trim(outputPath)
    ensures Positions(command.streams, Kept(command.streams))
    ensures OutputOptions(argv) == Pairs(TrimAll(OutputSection(command, Kept(command.streams))))
  {
    hide *;
    CompiledIsClean(command, outputPath, argv);
    var ps := Kept(command.streams);
    VectorIsTrimmed(command, ps, outputPath);
    AfterTheInputs(command, ps);
    OptionsBeforeTheOutput(argv, TrimAll(InputSection(command, At(command.streams, ps)) + OutputSection(command, ps)), Trim(outputPath));
  }

  /**
    The `k`-th `-map` is the `k`-th kept stream's; a stream that does not encode is copied; and one
    that encodes gets its own codec, whatever the other streams and the blanket copy say.
   */
  lemma {:induction false} CompiledVectorMeans(command: Command, outputPath: string, argv: seq<string>, k: nat)
    requires Addressed(command) && NonBlank(outputPath) && Compile(command, outputPath) == Success(argv)
    requires k < |Kept(command.streams)|
    ensures argv != [] && argv[|argv| - 1] == Trim(outputPath)
    ensures var kept, options := MappableStreams(command.streams), OutputOptions(argv);
      && |Maps(options)| == |kept|
      && Maps(options)[k] == MapTarget(kept[k], Kept(command.streams)[k])
      && CodecFor(options, k, OutputTypes(kept)) == FinalCodec(kept, k)
  {
    OutputOptionsOf(command, outputPath, argv);
    var ps := Kept(command.streams);
    OutputNames(command, ps, k, OutputTypes(At(command.streams, ps)));
  }

  // ---- Type indices ------------------------------------------------------------------------

  /** How many of the first `k` types are this one. */
  function CountOf(types: seq<string>, k: nat, codecType: string): (n: nat)
    requires k <= |types|
    ensures n <= k
  {
    if k == 0 then 0 else CountOf(types, k - 1, codecType) + (if types[k - 1] == codecType then 1 else 0)
  }

  lemma {:induction false} CountOfGrows(types: seq<string>, from: nat, k: nat, codecType: string)
    requires from <= k <= |types|
    ensures CountOf(types, from, codecType) <= CountOf(types, k, codecType)
    decreases k - from
  {
    if from < k { CountOfGrows(types, from, k - 1, codecType); }
  }

  /** The `n`-th of a type is at `k` exactly if `k` is of that type and has `n` of it before. */
  lemma {:induction false} NthIsAt(types: seq<string>, codecType: string, n: nat, from: nat, k: nat)
    requires from <= |types|
    ensures NthOfType(types, codecType, n, from) == Some(k) <==>
      from <= k < |types| && types[k] == codecType && CountOf(types, k, codecType) == CountOf(types, from, codecType) + n
    decreases |types| - from
  {
    if from < |types| {
      if from < k < |types| { CountOfGrows(types, from + 1, k, codecType); }
      if types[from] != codecType {
        NthIsAt(types, codecType, n, from + 1, k);
      } else if n > 0 {
        NthIsAt(types, codecType, n - 1, from + 1, k);
      }
    }
  }

  /** ffmpeg counts as many streams of `k`'s type before it as the compiler does, and takes it for that type. */
  predicate TypeAgrees(kept: seq<Stream>, k: nat)
    requires k < |kept|
  {
    var t := kept[k].codecType;
    kept[k].probe.codecType == t && CountOf(OutputTypes(kept), k, t) == CountType(kept, k, t)
  }

  /** The type index substituted for a stream resolves to that very stream exactly when the two counts agree. */
  lemma {:induction false} TypeIndexNamesItsStream(kept: seq<Stream>, k: nat)
    requires k < |kept|
    ensures NthOfType(OutputTypes(kept), kept[k].codecType, CountType(kept, k, kept[k].codecType), 0) == Some(k)
      <==> TypeAgrees(kept, k)
  {
    NthIsAt(OutputTypes(kept), kept[k].codecType, CountType(kept, k, kept[k].codecType), 0, k);
  }

  const ATTACHMENT := "attachment"

  predicate TypedBy(s: Stream, cover: string) {
    s.codecType == if s.probe.attachedPic then cover else s.probe.codecType
  }

  /** The type the command gives a stream it began from a probe: cover art is an attachment. */
  predicate TypedAsBegun(s: Stream) {
    TypedBy(s, ATTACHMENT)
  }

  lemma CountsAlike(s: Stream, cover: string, codecType: string)
    requires TypedBy(s, cover)
    ensures codecType == cover ==> s.probe.codecType == codecType ==> s.codecType == codecType
    ensures codecType != cover ==> s.codecType == codecType ==> s.probe.codecType == codecType
  {
  }

  /** One type is counted alike, stream by stream, by the compiler and by ffmpeg. */
  predicate CountedAlike(kept: seq<Stream>, k: nat, codecType: string)
    requires k <= |kept|
  {
    forall i :: 0 <= i < k ==> (kept[i].codecType == codecType <==> kept[i].probe.codecType == codecType)
  }

  lemma CountedAlikeStep(kept: seq<Stream>, k: nat, codecType: string)
    requires 0 < k <= |kept|
    ensures CountedAlike(kept, k, codecType) <==>
      CountedAlike(kept, k - 1, codecType) && (kept[k - 1].codecType == codecType <==> kept[k - 1].probe.codecType == codecType)
  {
  }

  /** Cover art is the only difference between the two counts, and it goes one way. */
  lemma {:induction false} CountsAreOrdered(kept: seq<Stream>, k: nat, codecType: string)
    requires k <= |kept| && forall i :: 0 <= i < |kept| ==> TypedAsBegun(kept[i])
    ensures codecType == ATTACHMENT ==> CountOf(OutputTypes(kept), k, codecType) <= CountType(kept, k, codecType)
    ensures codecType != ATTACHMENT ==> CountOf(OutputTypes(kept), k, codecType) >= CountType(kept, k, codecType)
  {
    hide TypedBy, OutputTypes;
    if k > 0 {
      CountsAreOrdered(kept, k - 1, codecType);
      assert TypedAsBegun(kept[k - 1]);
      CountsAlike(kept[k - 1], ATTACHMENT, codecType);
      CountsStep(kept, k - 1, codecType);
      hide CountOf, CountType;
    }
  }

  lemma CountsStep(kept: seq<Stream>, k: nat, codecType: string)
    requires k < |kept|
    ensures CountOf(OutputTypes(kept), k + 1, codecType)
         == CountOf(OutputTypes(kept), k, codecType) + if kept[k].probe.codecType == codecType then 1 else 0
    ensures CountType(kept, k + 1, codecType) == CountType(kept, k, codecType) + if kept[k].codecType == codecType then 1 else 0
  {
  }

  lemma {:induction false} CountsAgree(kept: seq<Stream>, k: nat, codecType: string)
    requires k <= |kept| && forall i :: 0 <= i < |kept| ==> TypedAsBegun(kept[i])
    ensures CountOf(OutputTypes(kept), k, codecType) == CountType(kept, k, codecType) <==> CountedAlike(kept, k, codecType)
  {
    hide TypedBy, OutputTypes;
    if k > 0 {
      assert TypedAsBegun(kept[k - 1]);
      CountsAlike(kept[k - 1], ATTACHMENT, codecType);
      CountsAgree(kept, k - 1, codecType);
      CountsAreOrdered(kept, k - 1, codecType);
      CountedAlikeStep(kept, k, codecType);
      CountsStep(kept, k - 1, codecType);
      hide CountedAlike, CountOf, CountType;
    }
  }

  /**
    For streams typed as the command begins them: the index of a stream that is not cover art names it
    exactly when no stream kept before it is cover art that ffmpeg counts with it, or, for an attachment,
    that it does not; the index of cover art names it exactly when the probe calls it an attachment too.
   */
  lemma {:induction false} CoverArtShiftsTypeIndices(kept: seq<Stream>, k: nat)
    requires k < |kept| && forall i :: 0 <= i < |kept| ==> TypedAsBegun(kept[i])
    ensures NthOfType(OutputTypes(kept), kept[k].codecType, CountType(kept, k, kept[k].codecType), 0) == Some(k)
      <==> kept[k].probe.codecType == kept[k].codecType && CountedAlike(kept, k, kept[k].codecType)
  {
    TypeIndexNamesItsStream(kept, k);
    CountsAgree(kept, k, kept[k].codecType);
  }

  lemma {:induction false} BothAreKept(streams: seq<Stream>)
    requires |streams| == 2 && forall i :: 0 <= i < 2 ==> Survives(streams, i) && Writable(streams[i])
    ensures Kept(streams) == [0, 1]
  {
    hide Survives, Writable;
    assert KeptUpTo(streams, 0) == [];
    assert KeptUpTo(streams, 1) == [0];
  }

  lemma {:induction false} CoverAndFilmAreKept(cover: ProbeStream, film: ProbeStream)
    requires cover.attachedPic && film.codecType == "video" && !film.attachedPic
    requires !IsUnmappable(cover) && !IsUnmappable(film)
    ensures Kept(BeginStreams([cover, film])) == [0, 1]
  {
    hide IsUnmappable, Restored, Kept, KeptUpTo;
    var streams := BeginStreams([cover, film]);
    assert streams[0] == BeginStream(cover, 0) && streams[1] == BeginStream(film, 1);
    BothAreKept(streams);
  }

  /** A film behind its cover art: the film's type index is 0, and ffmpeg's first video stream is the cover. */
  lemma {:induction false} IndexOfFilmNamesItsCover(cover: ProbeStream, film: ProbeStream)
    requires cover.codecType == "video" && cover.attachedPic && !IsUnmappable(cover)
    requires film.codecType == "video" && !film.attachedPic && !IsUnmappable(film)
    ensures var kept := MappableStreams(BeginStreams([cover, film]));
      && |kept| == 2 && kept[1].probe == film && kept[1].codecType == "video"
      && CountType(kept, 1, "video") == 0
      && NthOfType(OutputTypes(kept), "video", 0, 0) == Some(0)
  {
    CoverAndFilmAreKept(cover, film);
    hide IsUnmappable, Kept;
    var kept := MappableStreams(BeginStreams([cover, film]));
    assert kept[0] == BeginStream(cover, 0) && kept[1] == BeginStream(film, 1);
    assert "attachment"[0] != "video"[0];
    assert CountType(kept, 1, "video") == CountType(kept, 0, "video");
    assert OutputTypes(kept)[0] == "video";
  }

  // ---- Type indices in the compiled vector -------------------------------------------------

  /** A flag addressed to its stream by type and type index, as written and as compiled. */
  function TypeAddress(name: string, codecType: string, index: string): string {
    "-" + name + ":" + (TypeLetter(codecType) + ":" + index)
  }

  /** The flag addresses output stream `k` and no other. */
  ghost predicate SelectsOnly(flag: string, k: nat, types: seq<string>) {
    forall j: nat :: Selects(flag, j, types) <==> j == k
  }

  lemma LettersAreTypes(codecType: string)
    requires codecType in {"video", "audio", "subtitle", "data", "attachment"}
    ensures var letter := TypeLetter(codecType); |letter| == 1 && LetterType(letter) == Some(codecType) && '{' !in letter
  {
  }

  lemma {:induction false} TypeIndexSelects(name: string, codecType: string, n: nat, types: seq<string>, j: nat)
    requires ':' !in name && |TypeLetter(codecType)| == 1 && LetterType(TypeLetter(codecType)) == Some(codecType)
    ensures Selects(TypeAddress(name, codecType, Dec(n)), j, types) <==> NthOfType(types, codecType, n, 0) == Some(j)
  {
    var letter := TypeLetter(codecType);
    var spec := letter + ":" + Dec(n);
    NameAndSpecifier(name, spec);
    assert spec[..1] == letter && spec[1] == ':' && spec[2..] == Dec(n);
    DecValue(n);
    NotANumber(spec, j);
    LetterIsShort(spec);
  }

  lemma {:induction false} NotANumber(spec: string, j: nat)
    requires |spec| > 1 && spec[1] == ':'
    ensures spec != Dec(j)
  {
    assert IsDigits(Dec(j));
  }

  lemma LetterIsShort(spec: string)
    ensures |spec| > 1 ==> LetterType(spec) == None
  {
  }

  lemma {:induction false} ReplaceOther(head: string, text: string, pattern: string, replacement: string)
    requires pattern != [] && text != [] && !(pattern <= text) && pattern[0] !in text[1..] && pattern[0] !in head
    ensures ReplaceAll(head + text, pattern, replacement) == head + text
  {
    ReplacePrefix(head, text, pattern, replacement);
    ReplaceNone(text[1..], pattern, replacement);
    assert [text[0]] + text[1..] == text;
  }

  lemma {:induction false} ReplaceAtEnd(head: string, pattern: string, replacement: string)
    requires pattern != [] && pattern[0] !in head
    ensures ReplaceAll(head + pattern, pattern, replacement) == head + replacement
  {
    ReplacePrefix(head, pattern, pattern, replacement);
    assert pattern[|pattern|..] == [];
    assert ReplaceAll(pattern, pattern, replacement) == replacement + ReplaceAll([], pattern, replacement);
    assert replacement + [] == replacement;
  }

  /** The two placeholders begin alike and differ. */
  lemma PlaceholdersDiffer()
    ensures OUTPUT_INDEX != [] && OUTPUT_TYPE_INDEX != [] && !(OUTPUT_INDEX <= OUTPUT_TYPE_INDEX)
    ensures OUTPUT_INDEX[0] == '{' && OUTPUT_TYPE_INDEX[0] == '{' && '{' !in OUTPUT_TYPE_INDEX[1..]
  {
    assert OUTPUT_INDEX[7] != OUTPUT_TYPE_INDEX[7];
  }

  lemma {:induction false} TypeIndexResolves(kept: seq<Stream>, k: nat, head: string)
    requires k < |kept| && '{' !in head
    ensures Resolve(kept, k, head + OUTPUT_TYPE_INDEX) == head + Dec(CountType(kept, k, kept[k].codecType))
  {
    PlaceholdersDiffer();
    ReplaceOther(head, OUTPUT_TYPE_INDEX, OUTPUT_INDEX, Dec(k));
    ReplaceAtEnd(head, OUTPUT_TYPE_INDEX, Dec(CountType(kept, k, kept[k].codecType)));
    hide OUTPUT_INDEX, OUTPUT_TYPE_INDEX, ReplaceAll;
  }

  lemma {:induction false} PairsHave(args: seq<string>, i: nat)
    requires Even(args) && i % 2 == 0 && i < |args|
    ensures Pair(args[i], args[i + 1]) in Pairs(args)
    decreases |args|
  {
    if i < |args| - 2 {
      PairsHave(args[..|args| - 2], i);
    }
  }

  lemma AllStreamArgsStep(streams: seq<Stream>, ps: seq<nat>, n: nat)
    requires Positions(streams, ps) && n < |ps|
    ensures AllStreamArgs(streams, ps, n + 1) == AllStreamArgs(streams, ps, n) + StreamArgs(streams, ps, n)
  {
    hide StreamArgs;
  }

  lemma PrefixGrows(before: seq<string>, own: seq<string>, all: seq<string>, more: seq<string>)
    requires before + own <= all
    ensures before + own <= all + more
  {
  }

  lemma {:induction false} StreamArgsAreThere(streams: seq<Stream>, ps: seq<nat>, k: nat, n: nat)
    requires Positions(streams, ps) && k < n <= |ps|
    ensures AllStreamArgs(streams, ps, k) + StreamArgs(streams, ps, k) <= AllStreamArgs(streams, ps, n)
    decreases n
  {
    hide AllStreamArgs, StreamArgs;
    AllStreamArgsStep(streams, ps, n - 1);
    if k < n - 1 {
      StreamArgsAreThere(streams, ps, k, n - 1);
      PrefixGrows(AllStreamArgs(streams, ps, k), StreamArgs(streams, ps, k), AllStreamArgs(streams, ps, n - 1),
                  StreamArgs(streams, ps, n - 1));
    }
  }

  /** Where the `i`-th argument of the `k`-th kept stream comes in the output section. */
  lemma {:induction false} PlaceOfArgument(command: Command, ps: seq<nat>, k: nat, i: nat) returns (place: nat)
    requires Addressed(command) && Positions(command.streams, ps) && k < |ps|
    requires i % 2 == 0 && i + 1 < |At(command.streams, ps)[k].outputArgs|
    ensures var kept, out := At(command.streams, ps), OutputSection(command, ps);
      && place % 2 == 0 && place + 1 < |out|
      && out[place] == Resolve(kept, k, kept[k].outputArgs[i]) && out[place + 1] == Resolve(kept, k, kept[k].outputArgs[i + 1])
  {
    hide Resolve, AllStreamArgs, StreamArgs, Blanket, AddressedStream, Names, Targets, GiftUpTo, TrimAll, Pairs;
    AllStreamsName(command.streams, ps, k, 0, []);
    StreamArgsAreThere(command.streams, ps, k, |ps|);
    OwnArgumentAt(command.streams, ps, k, i);
    var before, own := AllStreamArgs(command.streams, ps, k), StreamArgs(command.streams, ps, k);
    var all := AllStreamArgs(command.streams, ps, |ps|);
    place := |before| + 2 + i;
    ThereToo(before, own, all, Blanket(At(command.streams, ps)), command.overallOuputArguments, 2 + i);
  }

  lemma ThereToo(before: seq<string>, own: seq<string>, all: seq<string>, more: seq<string>, rest: seq<string>, i: nat)
    requires before + own <= all && i + 1 < |own|
    ensures var out, place := all + more + rest, |before| + i;
      place + 1 < |out| && out[place] == own[i] && out[place + 1] == own[i + 1]
  {
    var prefix := before + own;
    assert prefix[|before| + i] == own[i] && prefix[|before| + i + 1] == own[i + 1];
    assert all[..|prefix|] == prefix;
  }

  lemma OwnArgumentAt(streams: seq<Stream>, ps: seq<nat>, k: nat, i: nat)
    requires AddressedStreams(streams) && Positions(streams, ps) && k < |ps| && i + 1 < |At(streams, ps)[k].outputArgs|
    ensures var kept, own := At(streams, ps), StreamArgs(streams, ps, k);
      && 3 + i < |own| && own[2 + i] == Resolve(kept, k, kept[k].outputArgs[i])
      && own[3 + i] == Resolve(kept, k, kept[k].outputArgs[i + 1])
  {
    hide Resolve, NeedsEncode, AnyEncodes;
    var s := At(streams, ps)[k];
    assert AddressedStream(s);
    hide AddressedStream, AddressedStreams;
    MapIsPair(s, ps[k]);
    hide MapArgsOf;
  }

  /** Every argument of a kept stream is an option of the output, resolved and trimmed. */
  lemma {:induction false} ArgumentReachesVector(command: Command, outputPath: string, argv: seq<string>, k: nat, i: nat)
    requires Addressed(command) && NonBlank(outputPath) && Compile(command, outputPath) == Success(argv)
    requires k < |Kept(command.streams)|
    requires i % 2 == 0 && i + 1 < |MappableStreams(command.streams)[k].outputArgs|
    ensures argv != []
    ensures var kept := MappableStreams(command.streams);
      Pair(Trim(Resolve(kept, k, kept[k].outputArgs[i])), Trim(Resolve(kept, k, kept[k].outputArgs[i + 1]))) in OutputOptions(argv)
  {
    OutputOptionsOf(command, outputPath, argv);
    var ps := Kept(command.streams);
    var place := PlaceOfArgument(command, ps, k, i);
    OutputNames(command, ps, k, []);
    PairsHave(TrimAll(OutputSection(command, ps)), place);
  }

  /**
    An argument addressed by type and type index reaches the vector addressed to exactly its own
    stream, exactly when the compiler's count of that stream's type and ffmpeg's agree.
   */
  lemma {:induction false} CompiledTypeIndexMeans(
      command: Command, outputPath: string, argv: seq<string>, k: nat, i: nat, name: string)
    requires Addressed(command) && NonBlank(outputPath) && Compile(command, outputPath) == Success(argv)
    requires k < |Kept(command.streams)| && ':' !in name
    requires var own := MappableStreams(command.streams)[k];
      && i % 2 == 0 && i + 1 < |own.outputArgs| && own.codecType in {"video", "audio", "subtitle", "data", "attachment"}
      && own.outputArgs[i] == TypeAddress(name, own.codecType, OUTPUT_TYPE_INDEX)
    ensures var kept := MappableStreams(command.streams);
      var flag := TypeAddress(name, kept[k].codecType, Dec(CountType(kept, k, kept[k].codecType)));
      && argv != []
      && Pair(flag, Trim(Resolve(kept, k, kept[k].outputArgs[i + 1]))) in OutputOptions(argv)
      && (SelectsOnly(flag, k, OutputTypes(kept)) <==> TypeAgrees(kept, k))
  {
    var kept := MappableStreams(command.streams);
    ArgumentReachesVector(command, outputPath, argv, k, i);
    AddressedAt(command.streams, k, i);
    LettersAreTypes(kept[k].codecType);
    hide *;
    FlagOfType(kept, k, kept[k].outputArgs[i], name);
    SelectsItsOwn(kept, k, name);
  }

  lemma {:induction false} SelectsItsOwn(kept: seq<Stream>, k: nat, name: string)
    requires k < |kept| && ':' !in name
    requires var letter := TypeLetter(kept[k].codecType); |letter| == 1 && LetterType(letter) == Some(kept[k].codecType)
    ensures var flag := TypeAddress(name, kept[k].codecType, Dec(CountType(kept, k, kept[k].codecType)));
      SelectsOnly(flag, k, OutputTypes(kept)) <==> TypeAgrees(kept, k)
  {
    var types, t, n := OutputTypes(kept), kept[k].codecType, CountType(kept, k, kept[k].codecType);
    TypeIndexNamesItsStream(kept, k);
    TypeIndexSelects(name, t, n, types, k);
    hide Selects, TypeAddress, NthOfType, LetterType, TypeLetter, TypeAgrees, CountType, Dec;
    var flag := TypeAddress(name, t, Dec(n));
    if TypeAgrees(kept, k) {
      forall j: nat ensures Selects(flag, j, types) <==> j == k {
        TypeIndexSelects(name, t, n, types, j);
      }
    } else {
      assert !Selects(flag, k, types);
    }
  }

  lemma AddressedAt(streams: seq<Stream>, k: nat, i: nat)
    requires AddressedStreams(streams) && k < |Kept(streams)|
    requires i % 2 == 0 && i < |MappableStreams(streams)[k].outputArgs|
    ensures AddressedFlag(MappableStreams(streams)[k].outputArgs[i])
  {
    assert AddressedStream(MappableStreams(streams)[k]);
  }

  function TypeHead(name: string, codecType: string): string {
    "-" + name + ":" + (TypeLetter(codecType) + ":")
  }

  lemma TypeAddressSplits(name: string, codecType: string, index: string)
    ensures TypeAddress(name, codecType, index) == TypeHead(name, codecType) + index
    ensures '{' !in name && '{' !in TypeLetter(codecType) ==> '{' !in TypeHead(name, codecType)
  {
    hide TypeLetter;
  }

  lemma {:induction false} FlagOfType(kept: seq<Stream>, k: nat, flag: string, name: string)
    requires k < |kept| && AddressedFlag(flag) && ':' !in name && '{' !in TypeLetter(kept[k].codecType)
    requires flag == TypeAddress(name, kept[k].codecType, OUTPUT_TYPE_INDEX)
    ensures Trim(Resolve(kept, k, flag)) == TypeAddress(name, kept[k].codecType, Dec(CountType(kept, k, kept[k].codecType)))
  {
    var t := kept[k].codecType;
    HeadHasNoBrace(flag, name, TypeLetter(t) + ":" + OUTPUT_TYPE_INDEX);
    TypeAddressSplits(name, t, OUTPUT_TYPE_INDEX);
    TypeAddressSplits(name, t, Dec(CountType(kept, k, t)));
    hide *;
    TypeIndexResolves(kept, k, TypeHead(name, t));
    ResolveFlag(kept, k, flag);
    TightIsTrimmed(Resolve(kept, k, flag));
  }

  lemma HeadHasNoBrace(flag: string, name: string, rest: string)
    requires AddressedFlag(flag) && ':' !in name && flag == "-" + name + ":" + rest
    ensures '{' !in name
  {
    NameAndSpecifier(name, rest);
  }
}
