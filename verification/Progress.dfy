/**
  The parser of ffmpeg's progress stream. Chunks end anywhere, so a partial line waits in a buffer;
  what comes out must not depend on where the chunks were cut.
 */
module Progress {
  import opened Wrappers
  import opened Text

  datatype Update = Update(outTimeMs: Option<int>, frame: Option<real>, fps: Option<real>, speed: Option<real>, done: bool)

  type Fields = map<string, string>

  /** `Number.parseFloat`, with what is not finite left out. */
  type ParseFloat = string -> Option<real>

  const NEWLINE: char := '\n'
  const EQUALS: char := '='
  const PROGRESS := "progress"
  const OUT_TIME := "out_time_ms"
  const FRAME := "frame"
  const FPS := "fps"
  const SPEED := "speed"
  const NOT_AVAILABLE := "N/A"
  const END := "end"

  // ---- What a line means -------------------------------------------------------------

  /** Where `c` first occurs, or the length if it does not. */
  function IndexOf(s: string, c: char): (i: nat)
    ensures i <= |s| && c !in s[..i]
    ensures i < |s| ==> s[i] == c
    ensures i < |s| <==> c in s
  {
    if s == [] || s[0] == c then 0
    else
      var i := IndexOf(s[1..], c);
      assert s[..i + 1] == [s[0]] + s[1..][..i];
      i + 1
  }

  function StripX(s: string): string {
    if s != [] && s[|s| - 1] == 'x' then s[..|s| - 1] else s
  }

  function NumberOf(parse: ParseFloat, raw: Option<string>): Option<real> {
    if raw.None? || raw.value == NOT_AVAILABLE then None else parse(StripX(raw.value))
  }

  function Get(fields: Fields, key: string): Option<string> {
    if key in fields then Some(fields[key]) else None
  }

  /** `Math.round` of microseconds as milliseconds. */
  function Milliseconds(microseconds: Option<real>): Option<int> {
    match microseconds
    case None => None
    case Some(us) => Some((us / 1000.0 + 0.5).Floor)
  }

  function Report(parse: ParseFloat, fields: Fields, value: string): Update {
    Update(Milliseconds(NumberOf(parse, Get(fields, OUT_TIME))), NumberOf(parse, Get(fields, FRAME)),
           NumberOf(parse, Get(fields, FPS)), NumberOf(parse, Get(fields, SPEED)), value == END)
  }

  /** The assignment on a line, if there is one. */
  function Assignment(raw: string): Option<(string, string)> {
    var line := Trim(raw);
    var separator := IndexOf(line, EQUALS);
    if separator == |line| then None else Some((Trim(line[..separator]), Trim(line[separator + 1..])))
  }

  datatype Outcome = Outcome(fields: Fields, updates: seq<Update>)

  /** What one complete line does to the fields, and the update it completes. */
  function Line(parse: ParseFloat, fields: Fields, raw: string): Outcome {
    match Assignment(raw)
    case None => Outcome(fields, [])
    case Some((key, value)) =>
      var now := fields[key := value];
      if key == PROGRESS then Outcome(map[], [Report(parse, now, value)]) else Outcome(now, [])
  }

  // ---- A text as lines: the reference definition -------------------------------------

  /** The complete lines of a text. */
  function Lines(text: string): seq<string> {
    var i := IndexOf(text, NEWLINE);
    if i == |text| then [] else [text[..i]] + Lines(text[i + 1..])
  }

  /** What follows the last newline. */
  function Rest(text: string): (r: string)
    ensures NEWLINE !in r
  {
    var i := IndexOf(text, NEWLINE);
    if i == |text| then assert text == text[..i]; text else Rest(text[i + 1..])
  }

  function Fold(parse: ParseFloat, fields: Fields, lines: seq<string>): Outcome
    decreases |lines|
  {
    if lines == [] then Outcome(fields, [])
    else
      var first := Line(parse, fields, lines[0]);
      var more := Fold(parse, first.fields, lines[1..]);
      Outcome(more.fields, first.updates + more.updates)
  }

  // ---- The parser --------------------------------------------------------------------

  class ProgressParser {
    const parse: ParseFloat
    var buffer: string
    var fields: Fields

    constructor (parse: ParseFloat)
      ensures this.parse == parse && buffer == [] && fields == map[]
    {
      this.parse := parse;
      buffer, fields := [], map[];
    }

    /** One push is the fold of the lines it completes; what is kept back holds no newline. */
    method Push(chunk: string) returns (updates: seq<Update>)
      modifies this
      ensures buffer == Rest(old(buffer) + chunk) && NEWLINE !in buffer
      ensures Outcome(fields, updates) == Fold(parse, old(fields), Lines(old(buffer) + chunk))
    {
      hide Fold, Lines, Rest, IndexOf, Assignment, Report;
      ghost var text, from := buffer + chunk, fields;
      buffer := buffer + chunk;
      updates := [];
      var newline := IndexOf(buffer, NEWLINE);
      AfterTwice([], [], Fold(parse, from, Lines(text)));
      while newline < |buffer|
        invariant newline == IndexOf(buffer, NEWLINE)
        invariant Rest(buffer) == Rest(text)
        invariant Fold(parse, from, Lines(text)) == After(updates, Fold(parse, fields, Lines(buffer)))
        decreases |buffer|
      {
        var line := buffer[..newline];
        ghost var done, first := updates, Line(parse, fields, line);
        LineTaken(parse, fields, buffer);
        buffer := buffer[newline + 1..];
        newline := IndexOf(buffer, NEWLINE);
        AfterTwice(done, first.updates, Fold(parse, first.fields, Lines(buffer)));
        var assignment := Assignment(line);
        if assignment.None? {
          assert done + first.updates == done;
          continue;
        }
        var (key, value) := assignment.value;
        fields := fields[key := value];
        if key == PROGRESS {
          updates := updates + [Report(parse, fields, value)];
          fields := map[];
        }
        assert updates == done + first.updates && fields == first.fields;
      }
      WithoutNewline(buffer);
      NothingToFold(parse, fields);
      assert updates + [] == updates;
    }
  }

  /** An outcome preceded by updates already made. */
  function After(updates: seq<Update>, rest: Outcome): Outcome {
    Outcome(rest.fields, updates + rest.updates)
  }

  lemma AfterTwice(a: seq<Update>, b: seq<Update>, rest: Outcome)
    ensures After(a, After(b, rest)) == After(a + b, rest)
    ensures After([], rest) == rest
  {
    assert a + (b + rest.updates) == (a + b) + rest.updates;
  }

  lemma {:induction false} FoldStep(parse: ParseFloat, fields: Fields, lines: seq<string>)
    requires lines != []
    ensures var first := Line(parse, fields, lines[0]);
      Fold(parse, fields, lines) == After(first.updates, Fold(parse, first.fields, lines[1..]))
    ensures Line(parse, fields, lines[0]).updates == [] ==>
      Fold(parse, fields, lines) == Fold(parse, Line(parse, fields, lines[0]).fields, lines[1..])
  {
    AfterTwice([], [], Fold(parse, Line(parse, fields, lines[0]).fields, lines[1..]));
  }

  lemma {:induction false} NothingToFold(parse: ParseFloat, fields: Fields)
    ensures Fold(parse, fields, []) == Outcome(fields, [])
  {
  }

  /** The first line taken off a text: what it completes comes before what the rest does. */
  lemma {:induction false} LineTaken(parse: ParseFloat, fields: Fields, text: string)
    requires IndexOf(text, NEWLINE) < |text|
    ensures var i := IndexOf(text, NEWLINE); var first := Line(parse, fields, text[..i]);
      && Rest(text) == Rest(text[i + 1..])
      && Fold(parse, fields, Lines(text)) == After(first.updates, Fold(parse, first.fields, Lines(text[i + 1..])))
  {
    hide Line, Fold;
    var i := IndexOf(text, NEWLINE);
    FirstLine(text, text[..i], text[i + 1..]);
    FoldStep(parse, fields, Lines(text));
  }

  // ---- Chunk boundaries do not matter ------------------------------------------------

  datatype State = State(buffer: string, fields: Fields)

  datatype Result = Result(state: State, updates: seq<Update>)

  /** What a push does, as `Push` promises it. */
  function Pushed(parse: ParseFloat, s: State, chunk: string): Result {
    var outcome := Fold(parse, s.fields, Lines(s.buffer + chunk));
    Result(State(Rest(s.buffer + chunk), outcome.fields), outcome.updates)
  }

  function PushedAll(parse: ParseFloat, s: State, chunks: seq<string>): Result
    decreases |chunks|
  {
    if chunks == [] then Result(s, [])
    else
      var first := Pushed(parse, s, chunks[0]);
      var more := PushedAll(parse, first.state, chunks[1..]);
      Result(more.state, first.updates + more.updates)
  }

  function Joined(chunks: seq<string>): string {
    if chunks == [] then [] else chunks[0] + Joined(chunks[1..])
  }

  lemma {:induction false} IndexInFirst(a: string, b: string, c: char)
    ensures IndexOf(a + b, c) == if c in a then IndexOf(a, c) else |a| + IndexOf(b, c)
  {
    if a == [] {
      assert a + b == b;
    } else if a[0] != c {
      assert (a + b)[1..] == a[1..] + b;
      IndexInFirst(a[1..], b, c);
      assert c in a <==> c in a[1..];
    }
  }

  lemma {:induction false} WithoutNewline(text: string)
    requires NEWLINE !in text
    ensures Lines(text) == [] && Rest(text) == text
  {
  }

  lemma {:induction false} FirstLine(text: string, line: string, rest: string)
    requires text == line + [NEWLINE] + rest && NEWLINE !in line
    ensures Lines(text) == [line] + Lines(rest) && Rest(text) == Rest(rest)
  {
    assert text == line + ([NEWLINE] + rest);
    IndexInFirst(line, [NEWLINE] + rest, NEWLINE);
    assert text[..|line|] == line && text[|line| + 1..] == rest;
  }

  /** The lines of a text cut in two: those of the first part, then those of what it left over with the second. */
  lemma {:induction false} LinesOfTwo(a: string, b: string)
    ensures Lines(a + b) == Lines(a) + Lines(Rest(a) + b)
    ensures Rest(a + b) == Rest(Rest(a) + b)
    decreases |a|, 0
  {
    var i := IndexOf(a, NEWLINE);
    if i == |a| {
      WithoutNewline(a);
    } else {
      LinesOfRest(a[..i], a[i + 1..], b, a);
    }
  }

  lemma {:induction false} LinesOfRest(line: string, rest: string, b: string, a: string)
    requires a == line + [NEWLINE] + rest && NEWLINE !in line
    ensures Lines(a + b) == Lines(a) + Lines(Rest(a) + b)
    ensures Rest(a + b) == Rest(Rest(a) + b)
    decreases |rest|, 1
  {
    hide Lines, Rest, IndexOf;
    FirstLine(a, line, rest);
    assert a + b == line + [NEWLINE] + (rest + b);
    FirstLine(a + b, line, rest + b);
    LinesOfTwo(rest, b);
    assert ([line] + Lines(rest)) + Lines(Rest(rest) + b) == [line] + (Lines(rest) + Lines(Rest(rest) + b));
  }

  lemma {:induction false} FoldOfTwo(parse: ParseFloat, fields: Fields, a: seq<string>, b: seq<string>)
    ensures var first := Fold(parse, fields, a);
      Fold(parse, fields, a + b) == After(first.updates, Fold(parse, first.fields, b))
    decreases |a|
  {
    hide Line;
    if a == [] {
      assert a + b == b;
      AfterTwice([], [], Fold(parse, fields, b));
    } else {
      assert (a + b)[0] == a[0] && (a + b)[1..] == a[1..] + b;
      var first := Line(parse, fields, a[0]);
      FoldOfTwo(parse, first.fields, a[1..], b);
      var rest := Fold(parse, first.fields, a[1..]);
      AfterTwice(first.updates, rest.updates, Fold(parse, rest.fields, b));
    }
  }

  /** Two pushes are one push of both chunks. */
  lemma TwoPushes(parse: ParseFloat, s: State, a: string, b: string)
    ensures var first := Pushed(parse, s, a); var second := Pushed(parse, first.state, b);
      Pushed(parse, s, a + b) == Result(second.state, first.updates + second.updates)
  {
    assert s.buffer + (a + b) == s.buffer + a + b;
    LinesOfTwo(s.buffer + a, b);
    FoldOfTwo(parse, s.fields, Lines(s.buffer + a), Lines(Rest(s.buffer + a) + b));
  }

  /** However a text is cut, pushing the pieces gives the updates and the final state of pushing it whole. */
  lemma {:induction false} ChunksDoNotMatter(parse: ParseFloat, s: State, chunks: seq<string>)
    requires NEWLINE !in s.buffer
    ensures PushedAll(parse, s, chunks) == Pushed(parse, s, Joined(chunks))
    ensures NEWLINE !in PushedAll(parse, s, chunks).state.buffer
    decreases |chunks|
  {
    if chunks == [] {
      assert s.buffer + [] == s.buffer;
      WithoutNewline(s.buffer);
    } else {
      ChunksDoNotMatter(parse, Pushed(parse, s, chunks[0]).state, chunks[1..]);
      TwoPushes(parse, s, chunks[0], Joined(chunks[1..]));
    }
  }

  // ---- What an update reports --------------------------------------------------------

  predicate Ends(raw: string) {
    Assignment(raw).Some? && Assignment(raw).value.0 == PROGRESS
  }

  /** The value a run of lines last gave a key. */
  function LastValue(lines: seq<string>, key: string): Option<string> {
    if lines == [] then None
    else
      var last := Assignment(lines[|lines| - 1]);
      if last.Some? && last.value.0 == key then Some(last.value.1) else LastValue(lines[..|lines| - 1], key)
  }

  lemma {:induction false} LastValueWins(parse: ParseFloat, lines: seq<string>, key: string)
    requires forall i :: 0 <= i < |lines| ==> !Ends(lines[i])
    ensures var o := Fold(parse, map[], lines); o.updates == [] && Get(o.fields, key) == LastValue(lines, key)
    decreases |lines|
  {
    hide Assignment, Line, Ends;
    if lines != [] {
      var init, last := lines[..|lines| - 1], lines[|lines| - 1];
      LastValueWins(parse, init, key);
      FoldLast(parse, map[], init, last);
      assert lines == init + [last];
      AssignsOne(parse, Fold(parse, map[], init).fields, last, key);
    }
  }

  lemma AssignsOne(parse: ParseFloat, fields: Fields, line: string, key: string)
    requires !Ends(line)
    ensures var o := Line(parse, fields, line); var a := Assignment(line);
      o.updates == [] && Get(o.fields, key) == if a.Some? && a.value.0 == key then Some(a.value.1) else Get(fields, key)
  {
    hide Assignment, Report;
  }

  lemma {:induction false} FoldLast(parse: ParseFloat, fields: Fields, lines: seq<string>, last: string)
    ensures var before := Fold(parse, fields, lines); var o := Line(parse, before.fields, last);
      Fold(parse, fields, lines + [last]) == After(before.updates, o)
  {
    hide Line;
    FoldOfTwo(parse, fields, lines, [last]);
    var before := Fold(parse, fields, lines);
    assert [last][1..] == [];
    FoldStep(parse, before.fields, [last]);
    var o := Line(parse, before.fields, last);
    assert Fold(parse, o.fields, []) == Outcome(o.fields, []);
    assert o.updates + [] == o.updates;
  }

  /** What the last values of a run of lines make of a key. */
  function Final(parse: ParseFloat, lines: seq<string>, key: string): Option<real> {
    NumberOf(parse, LastValue(lines, key))
  }

  /** A block of lines up to its progress line gives one update, of the last value of each key, and leaves no field behind. */
  lemma {:induction false} UpdateReportsItsBlock(parse: ParseFloat, lines: seq<string>, last: string)
    requires (forall i :: 0 <= i < |lines| ==> !Ends(lines[i])) && Ends(last)
    ensures Fold(parse, map[], lines + [last]) ==
      Outcome(map[], [Update(Milliseconds(Final(parse, lines, OUT_TIME)), Final(parse, lines, FRAME),
                             Final(parse, lines, FPS), Final(parse, lines, SPEED), Assignment(last).value.1 == END)])
  {
    hide Ends, Assignment, Fold, Get, LastValue, NumberOf, Milliseconds, Line;
    LastValueWins(parse, lines, OUT_TIME);
    LastValueWins(parse, lines, FRAME);
    LastValueWins(parse, lines, FPS);
    LastValueWins(parse, lines, SPEED);
    FoldLast(parse, map[], lines, last);
    var fields := Fold(parse, map[], lines).fields;
    EndingLine(parse, fields, last);
  }

  lemma EndingLine(parse: ParseFloat, fields: Fields, last: string)
    requires Ends(last)
    ensures var of := (key: string) => NumberOf(parse, Get(fields, key));
      Line(parse, fields, last) ==
        Outcome(map[], [Update(Milliseconds(of(OUT_TIME)), of(FRAME), of(FPS), of(SPEED), Assignment(last).value.1 == END)])
  {
    hide Assignment, NumberOf, Milliseconds;
    var now := fields[PROGRESS := Assignment(last).value.1];
    assert OUT_TIME[0] != PROGRESS[0] && FRAME[0] != PROGRESS[0] && FPS[0] != PROGRESS[0] && SPEED[0] != PROGRESS[0];
    assert Get(now, OUT_TIME) == Get(fields, OUT_TIME) && Get(now, FRAME) == Get(fields, FRAME);
    assert Get(now, FPS) == Get(fields, FPS) && Get(now, SPEED) == Get(fields, SPEED);
  }
}
