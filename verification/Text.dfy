/** Text helpers the modules share. */
module Text {

  function Digit(d: nat): (c: char)
    requires d < 10
    ensures '0' <= c <= '9'
  {
    '0' + d as char
  }

  predicate IsDigits(s: string) {
    forall i :: 0 <= i < |s| ==> '0' <= s[i] <= '9'
  }

  /** The decimal spelling of a number, as `String(n)` gives it for a non-negative integer. */
  function Dec(n: nat): (s: string)
    ensures |s| > 0 && IsDigits(s)
  {
    if n < 10 then [Digit(n)] else Dec(n / 10) + [Digit(n % 10)]
  }

  /** The number a decimal spelling stands for. */
  function Value(s: string): nat
    requires IsDigits(s)
  {
    if s == [] then 0 else Value(s[..|s| - 1]) * 10 + (s[|s| - 1] - '0') as nat
  }

  lemma {:induction false} DecValue(n: nat)
    ensures Value(Dec(n)) == n
  {
    if n >= 10 {
      DecValue(n / 10);
      assert Dec(n)[..|Dec(n)| - 1] == Dec(n / 10);
    } else {
      assert Dec(n)[..0] == [];
    }
  }

  lemma {:induction false} DecInjective(m: nat, n: nat)
    requires Dec(m) == Dec(n)
    ensures m == n
  {
    DecValue(m);
    DecValue(n);
  }

  /** `String(i)` for an integer. */
  function Int(i: int): (s: string)
    ensures |s| > 0 && !IsWhite(s[|s| - 1])
  {
    if i < 0 then "-" + Dec(-i) else Dec(i)
  }

  // ---- Trimming ------------------------------------------------------------------

  /** What `String.prototype.trim` removes. */
  predicate IsWhite(c: char) {
    var u := c as int;
    u == 32 || 9 <= u <= 13 || u == 0xA0 || u == 0x1680 || 0x2000 <= u <= 0x200A
    || u in {0x2028, 0x2029, 0x202F, 0x205F, 0x3000, 0xFEFF}
  }

  function TrimStart(s: string): (r: string)
    ensures |r| <= |s| && r == s[|s| - |r|..]
    ensures r == [] || !IsWhite(r[0])
  {
    if s != [] && IsWhite(s[0]) then TrimStart(s[1..]) else s
  }

  function TrimEnd(s: string): (r: string)
    ensures r <= s
    ensures r == [] || !IsWhite(r[|r| - 1])
  {
    if s != [] && IsWhite(s[|s| - 1]) then TrimEnd(s[..|s| - 1]) else s
  }

  function Trim(s: string): (r: string)
    ensures r == [] || (!IsWhite(r[0]) && !IsWhite(r[|r| - 1]))
  {
    TrimEnd(TrimStart(s))
  }

  predicate NonBlank(s: string) {
    exists i :: 0 <= i < |s| && !IsWhite(s[i])
  }

  /** Nothing to trim, and not empty. */
  predicate Tight(s: string) {
    s != [] && !IsWhite(s[0]) && !IsWhite(s[|s| - 1])
  }

  lemma TightIsTrimmed(s: string)
    requires Tight(s)
    ensures Trim(s) == s && NonBlank(s)
  {
  }

  lemma {:induction false} TrimStartKeeps(s: string, i: nat)
    requires i < |s| && !IsWhite(s[i])
    ensures |TrimStart(s)| >= |s| - i
  {
    if IsWhite(s[0]) { TrimStartKeeps(s[1..], i - 1); }
  }

  lemma {:induction false} TrimEndKeeps(s: string, i: nat)
    requires i < |s| && !IsWhite(s[i])
    ensures |TrimEnd(s)| > i
  {
    if IsWhite(s[|s| - 1]) { TrimEndKeeps(s[..|s| - 1], i); }
  }

  lemma NonBlankTrims(s: string)
    requires NonBlank(s)
    ensures Trim(s) != []
  {
    var i :| 0 <= i < |s| && !IsWhite(s[i]);
    TrimStartKeeps(s, i);
    var t := TrimStart(s);
    assert !IsWhite(t[0]);
    TrimEndKeeps(t, 0);
  }

  // ---- replaceAll ----------------------------------------------------------------

  /** `s.replaceAll(pattern, replacement)` for a non-empty pattern. */
  function ReplaceAll(s: string, pattern: string, replacement: string): string
    requires pattern != []
    decreases |s|
  {
    if |s| < |pattern| then s
    else if pattern <= s then replacement + ReplaceAll(s[|pattern|..], pattern, replacement)
    else [s[0]] + ReplaceAll(s[1..], pattern, replacement)
  }

  /** Text without the pattern's first character is passed over. */
  lemma {:induction false} ReplacePrefix(a: string, b: string, pattern: string, replacement: string)
    requires pattern != [] && pattern[0] !in a
    ensures ReplaceAll(a + b, pattern, replacement) == a + ReplaceAll(b, pattern, replacement)
    decreases |a|
  {
    var s := a + b;
    if a == [] {
      assert s == b;
    } else if |s| >= |pattern| {
      ReplacePrefix(a[1..], b, pattern, replacement);
      ReplaceStep(s, pattern, replacement);
      assert s[1..] == a[1..] + b;
      assert a == [a[0]] + a[1..];
    }
  }

  lemma {:induction false} ReplaceStep(s: string, pattern: string, replacement: string)
    requires pattern != [] && |s| >= |pattern| && s[0] != pattern[0]
    ensures ReplaceAll(s, pattern, replacement) == [s[0]] + ReplaceAll(s[1..], pattern, replacement)
  {
  }

  lemma {:induction false} ReplaceNone(s: string, pattern: string, replacement: string)
    requires pattern != [] && pattern[0] !in s
    ensures ReplaceAll(s, pattern, replacement) == s
  {
    ReplacePrefix(s, [], pattern, replacement);
    assert s + [] == s;
  }

  lemma {:induction false} ReplaceNonBlank(s: string, pattern: string, replacement: string)
    requires pattern != [] && NonBlank(s) && Tight(replacement)
    ensures NonBlank(ReplaceAll(s, pattern, replacement))
    decreases |s|
  {
    var r := ReplaceAll(s, pattern, replacement);
    if |s| >= |pattern| {
      if pattern <= s {
        assert r[0] == replacement[0];
      } else if IsWhite(s[0]) {
        var i :| 0 <= i < |s| && !IsWhite(s[i]);
        assert s[1..][i - 1] == s[i];
        ReplaceNonBlank(s[1..], pattern, replacement);
        var t := ReplaceAll(s[1..], pattern, replacement);
        var j :| 0 <= j < |t| && !IsWhite(t[j]);
        assert r[j + 1] == t[j];
      } else {
        assert r[0] == s[0];
      }
    }
  }

  /** The last character stays non-white. */
  lemma {:induction false} ReplaceEnd(s: string, pattern: string, replacement: string)
    requires pattern != [] && s != [] && !IsWhite(s[|s| - 1]) && Tight(replacement)
    ensures var r := ReplaceAll(s, pattern, replacement); r != [] && !IsWhite(r[|r| - 1])
    decreases |s|
  {
    if |s| >= |pattern| {
      var rest := if pattern <= s then s[|pattern|..] else s[1..];
      if rest != [] { ReplaceEnd(rest, pattern, replacement); }
    }
  }
}
