/**
  JSON values in normal form, their canonical text, and a parser of RFC 8259 texts (sections 2 to
  7) that is defined without looking at the printer. `ParseInvertsPrint` connects the two.
 */
module JsonText {
  import opened Wrappers
  import opened Order

  /**
    A value in normal form: nothing undefined, a number as the text `Number::toString` gives it,
    and the members of an object in strictly ascending order of their keys.
   */
  datatype Json =
    | JNull
    | JBool(b: bool)
    | JNum(number: Text)
    | JStr(s: Text)
    | JArr(items: seq<Json>)
    | JObj(members: seq<Member>)

  datatype Member = Member(key: Text, value: Json)

  const QUOTE: Unit := 34
  const COMMA: Unit := 44
  const COLON: Unit := 58
  const BACKSLASH: Unit := 92
  const OPEN_ARRAY: Unit := 91
  const CLOSE_ARRAY: Unit := 93
  const OPEN_OBJECT: Unit := 123
  const CLOSE_OBJECT: Unit := 125
  const TRUE_TEXT: Text := [116, 114, 117, 101]
  const FALSE_TEXT: Text := [102, 97, 108, 115, 101]
  const NULL_TEXT: Text := [110, 117, 108, 108]

  // ---- Numbers (RFC 8259, section 6) --------------------------------------------

  predicate IsDigit(u: Unit) {
    48 <= u <= 57
  }

  /** The units a JSON number is written with: digits, sign, point, exponent mark. */
  predicate IsNumberUnit(u: Unit) {
    IsDigit(u) || u in {43, 45, 46, 69, 101}
  }

  function SkipDigits(t: Text): Text {
    if t != [] && IsDigit(t[0]) then SkipDigits(t[1..]) else t
  }

  predicate IsExponent(t: Text) {
    t == [] ||
    (t[0] in {69, 101} &&
     (var d := if |t| > 1 && t[1] in {43, 45} then t[2..] else t[1..];
      d != [] && IsDigit(d[0]) && SkipDigits(d) == []))
  }

  predicate IsFraction(t: Text) {
    if t != [] && t[0] == 46 then |t| > 1 && IsDigit(t[1]) && IsExponent(SkipDigits(t[1..])) else IsExponent(t)
  }

  predicate IsNumber(t: Text) {
    && (forall i :: 0 <= i < |t| ==> IsNumberUnit(t[i]))
    && (var m := if t != [] && t[0] == 45 then t[1..] else t;
        m != [] && IsDigit(m[0]) && IsFraction(if m[0] == 48 then m[1..] else SkipDigits(m)))
  }

  // ---- Strings (RFC 8259, section 7) --------------------------------------------

  predicate IsHighSurrogate(u: Unit) {
    0xD800 <= u < 0xDC00
  }

  predicate IsLowSurrogate(u: Unit) {
    0xDC00 <= u < 0xE000
  }

  function HexDigit(n: nat): (u: Unit)
    requires n < 16
  {
    if n < 10 then 48 + n else 87 + n
  }

  function HexValue(u: Unit): (v: Option<nat>)
    ensures v.Some? ==> v.value < 16
  {
    if 48 <= u <= 57 then Some(u - 48)
    else if 97 <= u <= 102 then Some(u - 87)
    else if 65 <= u <= 70 then Some(u - 55)
    else None
  }

  /** The escape `\uXXXX`, in lower case. */
  function UnicodeEscape(u: Unit): Text {
    [BACKSLASH, 117, HexDigit(u / 4096), HexDigit(u / 256 % 16), HexDigit(u / 16 % 16), HexDigit(u % 16)]
  }

  /** The two-character escape of a unit that has one. */
  function ShortEscape(u: Unit): Option<Unit> {
    match u
    case 34 => Some(34)
    case 92 => Some(92)
    case 8 => Some(98)
    case 9 => Some(116)
    case 10 => Some(110)
    case 12 => Some(102)
    case 13 => Some(114)
    case _ => None
  }

  function EscapeUnit(u: Unit): Text {
    if ShortEscape(u).Some? then [BACKSLASH, ShortEscape(u).value]
    else if u < 32 || IsHighSurrogate(u) || IsLowSurrogate(u) then UnicodeEscape(u)
    else [u]
  }

  /** The body of a string literal as `JSON.stringify` writes it; a lone surrogate is escaped. */
  function Escape(s: Text): Text {
    if s == [] then []
    else if |s| > 1 && IsHighSurrogate(s[0]) && IsLowSurrogate(s[1]) then [s[0], s[1]] + Escape(s[2..])
    else EscapeUnit(s[0]) + Escape(s[1..])
  }

  function Quoted(s: Text): Text {
    [QUOTE] + Escape(s) + [QUOTE]
  }

  // ---- The printer --------------------------------------------------------------

  function Join(parts: seq<Text>): Text {
    if parts == [] then []
    else if |parts| == 1 then parts[0]
    else parts[0] + [COMMA] + Join(parts[1..])
  }

  function Print(j: Json): Text {
    match j
    case JNull => NULL_TEXT
    case JBool(b) => if b then TRUE_TEXT else FALSE_TEXT
    case JNum(number) => number
    case JStr(s) => Quoted(s)
    case JArr(items) => [OPEN_ARRAY] + Join(PrintEach(items)) + [CLOSE_ARRAY]
    case JObj(members) => [OPEN_OBJECT] + Join(PrintMembers(members)) + [CLOSE_OBJECT]
  }

  function PrintEach(items: seq<Json>): seq<Text> {
    if items == [] then [] else [Print(items[0])] + PrintEach(items[1..])
  }

  function PrintMember(m: Member): Text {
    Quoted(m.key) + [COLON] + Print(m.value)
  }

  function PrintMembers(members: seq<Member>): seq<Text> {
    if members == [] then [] else [PrintMember(members[0])] + PrintMembers(members[1..])
  }

  // ---- The parser ---------------------------------------------------------------

  predicate IsSpace(u: Unit) {
    u in {32, 9, 10, 13}
  }

  function SkipSpace(t: Text): (r: Text)
    ensures |r| <= |t|
  {
    if t != [] && IsSpace(t[0]) then SkipSpace(t[1..]) else t
  }

  function NumberSpan(t: Text): (n: nat)
    ensures n <= |t|
  {
    if t != [] && IsNumberUnit(t[0]) then 1 + NumberSpan(t[1..]) else 0
  }

  /** The unit an escape stands for, and what follows it. `t` starts after the backslash. */
  function ParseEscape(t: Text): (r: Option<(Unit, Text)>)
    ensures r.Some? ==> |r.value.1| < |t|
  {
    if t == [] then None
    else match t[0]
      case 34 => Some((34, t[1..]))
      case 92 => Some((92, t[1..]))
      case 47 => Some((47, t[1..]))
      case 98 => Some((8, t[1..]))
      case 102 => Some((12, t[1..]))
      case 110 => Some((10, t[1..]))
      case 114 => Some((13, t[1..]))
      case 116 => Some((9, t[1..]))
      case 117 =>
        if |t| < 5 then None
        else
          (match (HexValue(t[1]), HexValue(t[2]), HexValue(t[3]), HexValue(t[4]))
           case (Some(a), Some(b), Some(c), Some(d)) => Some((a * 4096 + b * 256 + c * 16 + d, t[5..]))
           case _ => None)
      case _ => None
  }

  /** The rest of a string literal, after its opening quote. */
  function ParseString(t: Text): (r: Option<(Text, Text)>)
    ensures r.Some? ==> |r.value.1| < |t|
    decreases |t|
  {
    if t == [] || t[0] < 32 then None
    else if t[0] == QUOTE then Some(([], t[1..]))
    else if t[0] == BACKSLASH then
      match ParseEscape(t[1..])
      case None => None
      case Some((u, rest)) => Prepend(u, ParseString(rest))
    else Prepend(t[0], ParseString(t[1..]))
  }

  function Prepend(u: Unit, r: Option<(Text, Text)>): Option<(Text, Text)> {
    match r
    case None => None
    case Some((s, rest)) => Some(([u] + s, rest))
  }

  function ParseValue(text: Text): (r: Option<(Json, Text)>)
    ensures r.Some? ==> |r.value.1| < |text|
    decreases |text|, 1
  {
    var t := SkipSpace(text);
    if t == [] then None
    else if t[0] == QUOTE then
      match ParseString(t[1..])
      case None => None
      case Some((s, rest)) => Some((JStr(s), rest))
    else if t[0] == OPEN_ARRAY then
      var u := SkipSpace(t[1..]);
      if u != [] && u[0] == CLOSE_ARRAY then Some((JArr([]), u[1..]))
      else
        match ParseItems(t[1..])
        case None => None
        case Some((items, rest)) => Some((JArr(items), rest))
    else if t[0] == OPEN_OBJECT then
      var u := SkipSpace(t[1..]);
      if u != [] && u[0] == CLOSE_OBJECT then Some((JObj([]), u[1..]))
      else
        match ParseMembers(t[1..])
        case None => None
        case Some((members, rest)) => Some((JObj(members), rest))
    else if NULL_TEXT <= t then Some((JNull, t[4..]))
    else if TRUE_TEXT <= t then Some((JBool(true), t[4..]))
    else if FALSE_TEXT <= t then Some((JBool(false), t[5..]))
    else
      var n := NumberSpan(t);
      if n > 0 && IsNumber(t[..n]) then Some((JNum(t[..n]), t[n..])) else None
  }

  /** One or more values with commas between them, and the closing bracket. */
  function ParseItems(t: Text): (r: Option<(seq<Json>, Text)>)
    ensures r.Some? ==> |r.value.1| < |t|
    decreases |t|, 2
  {
    match ParseValue(t)
    case None => None
    case Some((j, rest)) =>
      var u := SkipSpace(rest);
      if u == [] then None
      else if u[0] == CLOSE_ARRAY then Some(([j], u[1..]))
      else if u[0] == COMMA then
        match ParseItems(u[1..])
        case None => None
        case Some((js, end)) => Some(([j] + js, end))
      else None
  }

  function ParseMember(text: Text): (r: Option<(Member, Text)>)
    ensures r.Some? ==> |r.value.1| < |text|
    decreases |text|, 0
  {
    var t := SkipSpace(text);
    if t == [] || t[0] != QUOTE then None
    else
      match ParseString(t[1..])
      case None => None
      case Some((key, rest)) =>
        var u := SkipSpace(rest);
        if u == [] || u[0] != COLON then None
        else
          match ParseValue(u[1..])
          case None => None
          case Some((value, end)) => Some((Member(key, value), end))
  }

  /** One or more members with commas between them, and the closing brace. */
  function ParseMembers(t: Text): (r: Option<(seq<Member>, Text)>)
    ensures r.Some? ==> |r.value.1| < |t|
    decreases |t|, 2
  {
    match ParseMember(t)
    case None => None
    case Some((m, rest)) =>
      var u := SkipSpace(rest);
      if u == [] then None
      else if u[0] == CLOSE_OBJECT then Some(([m], u[1..]))
      else if u[0] == COMMA then
        match ParseMembers(u[1..])
        case None => None
        case Some((ms, end)) => Some(([m] + ms, end))
      else None
  }

  /** A whole JSON text: one value, with nothing but space around it. */
  function Parse(t: Text): Option<Json> {
    match ParseValue(t)
    case None => None
    case Some((j, rest)) => if SkipSpace(rest) == [] then Some(j) else None
  }

  // ---- The parser inverts the printer -------------------------------------------

  /** Every number in the value is spelled as RFC 8259 allows. */
  predicate NumbersFit(j: Json) {
    match j
    case JNum(number) => IsNumber(number)
    case JArr(items) => forall i :: 0 <= i < |items| ==> NumbersFit(items[i])
    case JObj(members) => forall i :: 0 <= i < |members| ==> NumbersFit(members[i].value)
    case _ => true
  }

  lemma HexDigitValue(n: nat)
    requires n < 16
    ensures HexValue(HexDigit(n)) == Some(n)
  {
  }

  lemma HexPlaces(u: nat)
    ensures u / 4096 * 4096 + u / 256 % 16 * 256 + u / 16 % 16 * 16 + u % 16 == u
  {
    var a := u / 16;
    var b := a / 16;
    assert u / 256 == b && u / 4096 == b / 16;
  }

  lemma HexRoundTrip(u: Unit)
    ensures HexValue(HexDigit(u / 4096)) == Some(u / 4096)
    ensures HexValue(HexDigit(u / 256 % 16)) == Some(u / 256 % 16)
    ensures HexValue(HexDigit(u / 16 % 16)) == Some(u / 16 % 16)
    ensures HexValue(HexDigit(u % 16)) == Some(u % 16)
    ensures u / 4096 * 4096 + u / 256 % 16 * 256 + u / 16 % 16 * 16 + u % 16 == u
  {
    HexDigitValue(u / 4096);
    HexDigitValue(u / 256 % 16);
    HexDigitValue(u / 16 % 16);
    HexDigitValue(u % 16);
    HexPlaces(u);
  }

  lemma {:induction false} ParseShort(u: Unit, tail: Text)
    requires ShortEscape(u).Some?
    ensures ParseString([BACKSLASH, ShortEscape(u).value] + tail) == Prepend(u, ParseString(tail))
  {
    var t := [BACKSLASH, ShortEscape(u).value] + tail;
    assert t[1..] == [ShortEscape(u).value] + tail;
    assert t[1..][1..] == tail;
    assert ParseEscape(t[1..]) == Some((u, tail));
  }

  lemma {:induction false} ParseUnicode(u: Unit, tail: Text)
    ensures ParseString(UnicodeEscape(u) + tail) == Prepend(u, ParseString(tail))
  {
    var t := UnicodeEscape(u) + tail;
    HexRoundTrip(u);
    assert t[1..] == UnicodeEscape(u)[1..] + tail;
    assert t[1..][5..] == tail;
    assert ParseEscape(t[1..]) == Some((u, tail));
  }

  lemma {:induction false} ParsePlain(u: Unit, tail: Text)
    requires u >= 32 && u != QUOTE && u != BACKSLASH
    ensures ParseString([u] + tail) == Prepend(u, ParseString(tail))
  {
    assert ([u] + tail)[1..] == tail;
  }

  lemma {:induction false} ParseUnit(u: Unit, more: Text)
    ensures ParseString(EscapeUnit(u) + more) == Prepend(u, ParseString(more))
  {
    if ShortEscape(u).Some? {
      ParseShort(u, more);
    } else if u < 32 || IsHighSurrogate(u) || IsLowSurrogate(u) {
      ParseUnicode(u, more);
    } else {
      ParsePlain(u, more);
    }
  }

  lemma {:induction false} ParseOne(s: Text, tail: Text, r: Option<(Text, Text)>)
    requires s != [] && !(|s| > 1 && IsHighSurrogate(s[0]) && IsLowSurrogate(s[1]))
    requires ParseString(Escape(s[1..]) + tail) == r
    ensures ParseString(Escape(s) + tail) == Prepend(s[0], r)
  {
    hide ParseString, EscapeUnit, Prepend;
    ParseUnit(s[0], Escape(s[1..]) + tail);
    assert Escape(s) + tail == EscapeUnit(s[0]) + (Escape(s[1..]) + tail);
  }

  lemma {:induction false} ParsePair(s: Text, tail: Text, r: Option<(Text, Text)>)
    requires |s| > 1 && IsHighSurrogate(s[0]) && IsLowSurrogate(s[1])
    requires ParseString(Escape(s[2..]) + tail) == r
    ensures ParseString(Escape(s) + tail) == Prepend(s[0], Prepend(s[1], r))
  {
    var more := Escape(s[2..]) + tail;
    ParsePlain(s[1], more);
    ParsePlain(s[0], [s[1]] + more);
    assert Escape(s) + tail == [s[0]] + ([s[1]] + more);
  }

  lemma {:induction false} ParseEscaped(s: Text, rest: Text)
    ensures ParseString(Escape(s) + ([QUOTE] + rest)) == Some((s, rest))
    decreases |s|
  {
    var tail := [QUOTE] + rest;
    if s == [] {
      assert Escape(s) + tail == tail;
      assert tail[1..] == rest;
    } else if |s| > 1 && IsHighSurrogate(s[0]) && IsLowSurrogate(s[1]) {
      ParseEscaped(s[2..], rest);
      ParsePair(s, tail, Some((s[2..], rest)));
      assert s == [s[0]] + ([s[1]] + s[2..]);
    } else {
      ParseEscaped(s[1..], rest);
      ParseOne(s, tail, Some((s[1..], rest)));
      assert s == [s[0]] + s[1..];
    }
  }

  lemma {:induction false} SpanOfNumber(number: Text, rest: Text)
    requires forall i :: 0 <= i < |number| ==> IsNumberUnit(number[i])
    requires rest == [] || !IsNumberUnit(rest[0])
    ensures NumberSpan(number + rest) == |number|
  {
    if number == [] {
      assert number + rest == rest;
    } else {
      SpanOfNumber(number[1..], rest);
      assert (number + rest)[1..] == number[1..] + rest;
    }
  }

  lemma {:induction false} ParseNumber(number: Text, rest: Text)
    requires IsNumber(number)
    requires rest == [] || !IsNumberUnit(rest[0])
    ensures ParseValue(number + rest) == Some((JNum(number), rest))
  {
    var t := number + rest;
    assert t[0] == number[0] && IsNumberUnit(t[0]);
    SpanOfNumber(number, rest);
    assert t[..|number|] == number && t[|number|..] == rest;
    assert !(NULL_TEXT <= t) && !(TRUE_TEXT <= t) && !(FALSE_TEXT <= t);
  }

  lemma {:induction false} ParseQuoted(s: Text, rest: Text)
    ensures Quoted(s) + rest == [QUOTE] + (Escape(s) + ([QUOTE] + rest))
    ensures ParseValue(Quoted(s) + rest) == Some((JStr(s), rest))
  {
    ParseEscaped(s, rest);
    assert Quoted(s) + rest == [QUOTE] + (Escape(s) + ([QUOTE] + rest));
    assert (Quoted(s) + rest)[1..] == Escape(s) + ([QUOTE] + rest);
  }

  /** No printed value starts with space or with a closing bracket. */
  lemma {:induction false} PrintStart(j: Json, rest: Text)
    requires NumbersFit(j)
    ensures Print(j) != [] && !IsSpace(Print(j)[0]) && Print(j)[0] !in {CLOSE_ARRAY, CLOSE_OBJECT}
  {
  }

  lemma {:induction false} ParseLiteral(j: Json, rest: Text)
    requires j.JNull? || j.JBool?
    ensures ParseValue(Print(j) + rest) == Some((j, rest))
  {
    var t := Print(j) + rest;
    assert t[|Print(j)|..] == rest && Print(j) <= t;
  }

  lemma {:induction false} ParseArray(inner: Text)
    requires inner == [] || (!IsSpace(inner[0]) && inner[0] != CLOSE_ARRAY)
    ensures ParseValue([OPEN_ARRAY] + inner) ==
      match ParseItems(inner) case None => None case Some((items, rest)) => Some((JArr(items), rest))
  {
    assert ([OPEN_ARRAY] + inner)[1..] == inner;
  }

  lemma {:induction false} ParseObject(inner: Text)
    requires inner == [] || (!IsSpace(inner[0]) && inner[0] != CLOSE_OBJECT)
    ensures ParseValue([OPEN_OBJECT] + inner) ==
      match ParseMembers(inner) case None => None case Some((members, rest)) => Some((JObj(members), rest))
  {
    assert ([OPEN_OBJECT] + inner)[1..] == inner;
  }

  lemma {:induction false} ParseEmpty(rest: Text)
    ensures ParseValue([OPEN_ARRAY, CLOSE_ARRAY] + rest) == Some((JArr([]), rest))
    ensures ParseValue([OPEN_OBJECT, CLOSE_OBJECT] + rest) == Some((JObj([]), rest))
  {
    var t, u := [OPEN_ARRAY, CLOSE_ARRAY] + rest, [OPEN_OBJECT, CLOSE_OBJECT] + rest;
    assert t[1..] == [CLOSE_ARRAY] + rest && t[1..][1..] == rest;
    assert u[1..] == [CLOSE_OBJECT] + rest && u[1..][1..] == rest;
  }

  lemma {:induction false} ParsePrintedArray(items: seq<Json>, rest: Text)
    requires items != [] && NumbersFit(items[0])
    requires ParseItems(Join(PrintEach(items)) + ([CLOSE_ARRAY] + rest)) == Some((items, rest))
    ensures ParseValue(Print(JArr(items)) + rest) == Some((JArr(items), rest))
  {
    var inner := Join(PrintEach(items)) + ([CLOSE_ARRAY] + rest);
    PrintStart(items[0], []);
    JoinStart(PrintEach(items), [CLOSE_ARRAY] + rest);
    ParseArray(inner);
    assert Print(JArr(items)) + rest == [OPEN_ARRAY] + inner;
  }

  lemma {:induction false} ParsePrintedObject(members: seq<Member>, rest: Text)
    requires members != []
    requires ParseMembers(Join(PrintMembers(members)) + ([CLOSE_OBJECT] + rest)) == Some((members, rest))
    ensures ParseValue(Print(JObj(members)) + rest) == Some((JObj(members), rest))
  {
    var inner := Join(PrintMembers(members)) + ([CLOSE_OBJECT] + rest);
    JoinStart(PrintMembers(members), [CLOSE_OBJECT] + rest);
    ParseObject(inner);
    assert Print(JObj(members)) + rest == [OPEN_OBJECT] + inner;
  }

  lemma {:induction false} ParsePrintedEmpty(rest: Text)
    ensures ParseValue(Print(JArr([])) + rest) == Some((JArr([]), rest))
    ensures ParseValue(Print(JObj([])) + rest) == Some((JObj([]), rest))
  {
    ParseEmpty(rest);
    assert Print(JArr([])) + rest == [OPEN_ARRAY, CLOSE_ARRAY] + rest;
    assert Print(JObj([])) + rest == [OPEN_OBJECT, CLOSE_OBJECT] + rest;
  }

  lemma {:induction false} ParsePrinted(j: Json, rest: Text)
    requires NumbersFit(j)
    requires rest == [] || !IsNumberUnit(rest[0])
    ensures ParseValue(Print(j) + rest) == Some((j, rest))
    decreases j, 1
  {
    match j
    case JNum(number) => ParseNumber(number, rest);
    case JStr(s) => ParseQuoted(s, rest);
    case JArr(items) =>
      if items == [] {
        ParsePrintedEmpty(rest);
      } else {
        ParsePrintedItems(j, items, rest);
        ParsePrintedArray(items, rest);
      }
    case JObj(members) =>
      if members == [] {
        ParsePrintedEmpty(rest);
      } else {
        ParsePrintedMembers(j, members, rest);
        ParsePrintedObject(members, rest);
      }
    case _ => ParseLiteral(j, rest);
  }

  lemma {:induction false} JoinStart(parts: seq<Text>, rest: Text)
    requires parts != [] && parts[0] != []
    ensures Join(parts) + rest != [] && (Join(parts) + rest)[0] == parts[0][0]
  {
  }

  lemma {:induction false} NextItem(t: Text, j: Json, inner: Text)
    requires ParseValue(t) == Some((j, [COMMA] + inner))
    ensures ParseItems(t) == match ParseItems(inner) case None => None case Some((js, end)) => Some(([j] + js, end))
  {
    assert ([COMMA] + inner)[1..] == inner;
  }

  lemma {:induction false} LastItem(t: Text, j: Json, rest: Text)
    requires ParseValue(t) == Some((j, [CLOSE_ARRAY] + rest))
    ensures ParseItems(t) == Some(([j], rest))
  {
    assert ([CLOSE_ARRAY] + rest)[1..] == rest;
  }

  lemma {:induction false} JoinMore(first: Text, others: seq<Text>, tail: Text)
    requires others != []
    ensures Join([first] + others) + tail == first + ([COMMA] + (Join(others) + tail))
  {
    assert ([first] + others)[1..] == others;
  }

  lemma {:induction false} ParsePrintedItems(whole: Json, items: seq<Json>, rest: Text)
    requires items != [] && forall i :: 0 <= i < |items| ==> items[i] < whole && NumbersFit(items[i])
    ensures ParseItems(Join(PrintEach(items)) + ([CLOSE_ARRAY] + rest)) == Some((items, rest))
    decreases whole, 0, |items|
  {
    hide Print, ParseItems, NumbersFit;
    var tail := [CLOSE_ARRAY] + rest;
    if |items| == 1 {
      assert PrintEach(items[1..]) == [];
      assert PrintEach(items) == [Print(items[0])];
      ParsePrinted(items[0], tail);
      LastItem(Print(items[0]) + tail, items[0], rest);
      assert items == [items[0]];
    } else {
      var inner := Join(PrintEach(items[1..])) + tail;
      assert |PrintEach(items[1..])| > 0;
      JoinMore(Print(items[0]), PrintEach(items[1..]), tail);
      ParsePrinted(items[0], [COMMA] + inner);
      NextItem(Print(items[0]) + ([COMMA] + inner), items[0], inner);
      ParsePrintedItems(whole, items[1..], rest);
      assert items == [items[0]] + items[1..];
    }
  }

  lemma {:induction false} ParsePrintedMember(m: Member, rest: Text)
    requires NumbersFit(m.value)
    requires rest == [] || !IsNumberUnit(rest[0])
    ensures ParseMember(PrintMember(m) + rest) == Some((m, rest))
    decreases m.value, 2
  {
    hide Escape, ParseString, Print, ParseValue, EscapeUnit, NumbersFit;
    var after := [COLON] + (Print(m.value) + rest);
    var t := PrintMember(m) + rest;
    assert t == Quoted(m.key) + after;
    ParseQuoted(m.key, after);
    ParseEscaped(m.key, after);
    assert t == [QUOTE] + (Escape(m.key) + ([QUOTE] + after));
    assert t[1..] == Escape(m.key) + ([QUOTE] + after);
    assert after[1..] == Print(m.value) + rest;
    ParsePrinted(m.value, rest);
  }

  lemma {:induction false} NextMember(t: Text, m: Member, inner: Text)
    requires ParseMember(t) == Some((m, [COMMA] + inner))
    ensures ParseMembers(t) == match ParseMembers(inner) case None => None case Some((ms, end)) => Some(([m] + ms, end))
  {
    assert ([COMMA] + inner)[1..] == inner;
  }

  lemma {:induction false} LastMember(t: Text, m: Member, rest: Text)
    requires ParseMember(t) == Some((m, [CLOSE_OBJECT] + rest))
    ensures ParseMembers(t) == Some(([m], rest))
  {
    assert ([CLOSE_OBJECT] + rest)[1..] == rest;
  }

  lemma {:induction false} ParsePrintedMembers(whole: Json, members: seq<Member>, rest: Text)
    requires members != [] && forall i :: 0 <= i < |members| ==> members[i].value < whole && NumbersFit(members[i].value)
    ensures ParseMembers(Join(PrintMembers(members)) + ([CLOSE_OBJECT] + rest)) == Some((members, rest))
    decreases whole, 0, |members|
  {
    hide PrintMember, ParseMembers, NumbersFit;
    var tail := [CLOSE_OBJECT] + rest;
    if |members| == 1 {
      assert PrintMembers(members[1..]) == [];
      assert PrintMembers(members) == [PrintMember(members[0])];
      ParsePrintedMember(members[0], tail);
      LastMember(PrintMember(members[0]) + tail, members[0], rest);
      assert members == [members[0]];
    } else {
      var inner := Join(PrintMembers(members[1..])) + tail;
      assert |PrintMembers(members[1..])| > 0;
      JoinMore(PrintMember(members[0]), PrintMembers(members[1..]), tail);
      ParsePrintedMember(members[0], [COMMA] + inner);
      NextMember(PrintMember(members[0]) + ([COMMA] + inner), members[0], inner);
      ParsePrintedMembers(whole, members[1..], rest);
      assert members == [members[0]] + members[1..];
    }
  }

  /** Parsing the canonical text of a value gives the value back. */
  lemma {:induction false} ParseInvertsPrint(j: Json)
    requires NumbersFit(j)
    ensures Parse(Print(j)) == Some(j)
  {
    ParsePrinted(j, []);
    assert Print(j) + [] == Print(j);
  }

  /** Two values with one canonical text are one value. */
  lemma {:induction false} PrintIsInjective(a: Json, b: Json)
    requires NumbersFit(a) && NumbersFit(b) && Print(a) == Print(b)
    ensures a == b
  {
    ParseInvertsPrint(a);
    ParseInvertsPrint(b);
  }
}
