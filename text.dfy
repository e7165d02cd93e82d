/**
 * The string operations the core relies on: ordinal case-insensitive containment, ordinal
 * `IndexOf` and `Replace`, the `@([^ ]+)` parameter regex, `int.ToString()` and `string.Join`.
 * Case folding is ASCII only.
 */
module Text {
  import opened Wrappers

  function Lower(c: char): char {
    if 'A' <= c <= 'Z' then (c as int + 32) as char else c
  }

  function LowerStr(s: string): string {
    seq(|s|, i requires 0 <= i < |s| => Lower(s[i]))
  }

  /** `sub` occurs in `s` starting at position i. */
  predicate OccursAt(s: string, sub: string, i: nat) {
    i + |sub| <= |s| && s[i..i + |sub|] == sub
  }

  /** `s.Contains(sub)` with ordinal comparison. */
  predicate Contains(s: string, sub: string) {
    exists i: nat | i <= |s| - |sub| :: OccursAt(s, sub, i)
  }

  /** `sub` occurs in `s` at position i up to ASCII case. */
  predicate OccursAtIgnoreCase(s: string, sub: string, i: nat) {
    i + |sub| <= |s| && LowerStr(s[i..i + |sub|]) == LowerStr(sub)
  }

  /** `s.Contains(sub, StringComparison.OrdinalIgnoreCase)`. */
  predicate ContainsIgnoreCase(s: string, sub: string) {
    exists i: nat | i <= |s| - |sub| :: OccursAtIgnoreCase(s, sub, i)
  }

  lemma ContainsImpliesIgnoreCase(s: string, sub: string)
    requires Contains(s, sub)
    ensures ContainsIgnoreCase(s, sub)
  {
    var i: nat :| i <= |s| - |sub| && OccursAt(s, sub, i);
    assert OccursAtIgnoreCase(s, sub, i);
  }

  /** The first position at or after `from` where `sub` occurs, or None (C#'s -1). */
  function IndexOfFrom(s: string, sub: string, from: nat): (r: Option<nat>)
    requires from <= |s|
    decreases |s| - from
    ensures r.Some? ==> from <= r.value && OccursAt(s, sub, r.value)
    ensures r.Some? ==> forall q :: from <= q < r.value ==> !OccursAt(s, sub, q)
    ensures r.None? ==> forall q :: from <= q ==> !OccursAt(s, sub, q)
  {
    if OccursAt(s, sub, from) then Some(from)
    else if from + |sub| >= |s| then None
    else IndexOfFrom(s, sub, from + 1)
  }

  function IndexOf(s: string, sub: string): Option<nat> {
    IndexOfFrom(s, sub, 0)
  }

  lemma IndexOfFindsContained(s: string, sub: string)
    ensures IndexOf(s, sub).Some? <==> Contains(s, sub)
  {
    var r := IndexOf(s, sub);
    if r.Some? {
      assert OccursAt(s, sub, r.value);
    }
  }

  /** `s.Replace(pattern, replacement)`: scan left to right and replace every non-overlapping
      occurrence of `pattern`. */
  function Replace(s: string, pattern: string, replacement: string): string
    requires |pattern| > 0
    decreases |s|
  {
    if |s| < |pattern| then s
    else if s[..|pattern|] == pattern then replacement + Replace(s[|pattern|..], pattern, replacement)
    else [s[0]] + Replace(s[1..], pattern, replacement)
  }

  /** A text that does not contain the pattern is left as it is. */
  lemma {:induction false} ReplaceAbsent(s: string, pattern: string, replacement: string)
    requires |pattern| > 0 && !Contains(s, pattern)
    ensures Replace(s, pattern, replacement) == s
  {
    if |s| >= |pattern| {
      assert !OccursAt(s, pattern, 0);
      assert s[..|pattern|] != pattern;
      forall i: nat | i <= |s[1..]| - |pattern| ensures !OccursAt(s[1..], pattern, i) {
        assert !OccursAt(s, pattern, i + 1);
        assert s[1..][i..i + |pattern|] == s[i + 1..i + 1 + |pattern|];
      }
      ReplaceAbsent(s[1..], pattern, replacement);
      assert [s[0]] + s[1..] == s;
    }
  }

  /** Dropping the first character moves every occurrence one place to the left. */
  lemma OccursAtTail(s: string, sub: string, i: nat)
    requires |s| > 0
    ensures OccursAt(s[1..], sub, i) <==> OccursAt(s, sub, i + 1)
  {
    if i + 1 + |sub| <= |s| {
      assert s[1..][i..i + |sub|] == s[i + 1..i + 1 + |sub|];
    }
  }

  /** A text that starts with the pattern: the pattern is replaced and the scan resumes after it. */
  lemma ReplaceAtPattern(pattern: string, b: string, replacement: string)
    requires |pattern| > 0
    ensures Replace(pattern + b, pattern, replacement) == replacement + Replace(b, pattern, replacement)
  {
    var s := pattern + b;
    assert s[..|pattern|] == pattern;
    assert s[|pattern|..] == b;
  }

  /** A text that does not start with the pattern keeps its first character. */
  lemma ReplaceStep(s: string, pattern: string, replacement: string)
    requires |pattern| > 0 && |s| > 0 && !OccursAt(s, pattern, 0)
    ensures Replace(s, pattern, replacement) == [s[0]] + Replace(s[1..], pattern, replacement)
  {
    if |s| >= |pattern| {
      assert s[..|pattern|] != pattern;
    }
  }

  /** A prefix in which no occurrence starts is copied and the scan goes on after it. */
  lemma {:induction false} ReplaceCopiesPrefix(a: string, tail: string, pattern: string, replacement: string)
    requires |pattern| > 0
    requires forall i: nat :: i < |a| ==> !OccursAt(a + tail, pattern, i)
    ensures Replace(a + tail, pattern, replacement) == a + Replace(tail, pattern, replacement)
  {
    if |a| > 0 {
      var s := a + tail;
      assert !OccursAt(s, pattern, 0);
      assert s[0] == a[0] && s[1..] == a[1..] + tail;
      ReplaceStep(s, pattern, replacement);
      forall i: nat | i < |a[1..]| ensures !OccursAt(a[1..] + tail, pattern, i) {
        OccursAtTail(s, pattern, i);
      }
      ReplaceCopiesPrefix(a[1..], tail, pattern, replacement);
      assert [a[0]] + (a[1..] + Replace(tail, pattern, replacement)) == a + Replace(tail, pattern, replacement) by {
        assert [a[0]] + a[1..] == a;
      }
    } else {
      assert a + tail == tail;
    }
  }

  /** The leftmost occurrence is replaced and the scan resumes after it. */
  lemma ReplaceLeftmost(a: string, pattern: string, b: string, replacement: string)
    requires |pattern| > 0
    requires forall i: nat :: i < |a| ==> !OccursAt(a + pattern + b, pattern, i)
    ensures Replace(a + pattern + b, pattern, replacement) == a + replacement + Replace(b, pattern, replacement)
  {
    assert a + pattern + b == a + (pattern + b);
    ReplaceCopiesPrefix(a, pattern + b, pattern, replacement);
    ReplaceAtPattern(pattern, b, replacement);
  }

  /** The length of the longest prefix of `s` without a space: what `[^ ]+` consumes. */
  function RunLength(s: string): (n: nat)
    ensures n <= |s|
  {
    if |s| == 0 || s[0] == ' ' then 0 else 1 + RunLength(s[1..])
  }

  /** The run is maximal: no space inside it, and a space (or the end of the text) after it. */
  lemma {:induction false} RunLengthIsMaximal(s: string)
    ensures forall i :: 0 <= i < RunLength(s) ==> s[i] != ' '
    ensures RunLength(s) < |s| ==> s[RunLength(s)] == ' '
  {
    if |s| > 0 && s[0] != ' ' {
      RunLengthIsMaximal(s[1..]);
      forall i | 1 <= i < RunLength(s) ensures s[i] != ' ' {
        assert s[i] == s[1..][i - 1];
      }
    }
  }

  /** `Regex.Replace(s, "@([^ ]+)", replacement)`: every `@` followed by a non-empty run of
      non-space characters is replaced, the run taken greedily. */
  function ReplaceParameters(s: string, replacement: string): string
    decreases |s|
  {
    if |s| == 0 then s
    else if 2 <= |s| && s[0] == '@' && s[1] != ' ' then
      replacement + ReplaceParameters(s[1 + RunLength(s[1..])..], replacement)
    else [s[0]] + ReplaceParameters(s[1..], replacement)
  }

  /** A text without `@` has no parameter to replace. */
  lemma {:induction false} ReplaceParametersNoAt(s: string, replacement: string)
    requires '@' !in s
    ensures ReplaceParameters(s, replacement) == s
  {
    if |s| > 0 {
      assert s[0] in s;
      ReplaceParametersNoAt(s[1..], replacement);
      assert [s[0]] + s[1..] == s;
    }
  }

  /** A character other than `@` is copied. */
  lemma ReplaceParametersStep(s: string, replacement: string)
    requires |s| > 0 && s[0] != '@'
    ensures ReplaceParameters(s, replacement) == [s[0]] + ReplaceParameters(s[1..], replacement)
  {
  }

  /** A prefix without `@` is copied and the scan goes on after it. */
  lemma {:induction false} ReplaceParametersCopiesPrefix(a: string, tail: string, replacement: string)
    requires '@' !in a
    ensures ReplaceParameters(a + tail, replacement) == a + ReplaceParameters(tail, replacement)
  {
    if |a| > 0 {
      var s := a + tail;
      assert a[0] in a;
      assert s[0] == a[0] && s[1..] == a[1..] + tail;
      ReplaceParametersStep(s, replacement);
      assert '@' !in a[1..] by {
        assert a == [a[0]] + a[1..];
      }
      ReplaceParametersCopiesPrefix(a[1..], tail, replacement);
      assert [a[0]] + (a[1..] + ReplaceParameters(tail, replacement)) == a + ReplaceParameters(tail, replacement) by {
        assert [a[0]] + a[1..] == a;
      }
    } else {
      assert a + tail == tail;
    }
  }

  /** The first `@token` is replaced as a whole (up to the next space or the end of the text),
      and the scan goes on after it, so every later placeholder is replaced too. */
  lemma ReplaceParametersLeftmost(a: string, token: string, rest: string, replacement: string)
    requires '@' !in a
    requires |token| > 0 && ' ' !in token
    requires |rest| == 0 || rest[0] == ' '
    ensures ReplaceParameters(a + "@" + token + rest, replacement)
         == a + replacement + ReplaceParameters(rest, replacement)
  {
    var tail := "@" + token + rest;
    assert a + "@" + token + rest == a + tail;
    ReplaceParametersCopiesPrefix(a, tail, replacement);
    ReplaceParametersAtToken(token, rest, replacement);
  }

  /** A text that starts with `@token`: the token is replaced as a whole. */
  lemma ReplaceParametersAtToken(token: string, rest: string, replacement: string)
    requires |token| > 0 && ' ' !in token
    requires |rest| == 0 || rest[0] == ' '
    ensures ReplaceParameters("@" + token + rest, replacement) == replacement + ReplaceParameters(rest, replacement)
  {
    var s := "@" + token + rest;
    assert s[0] == '@' && s[1] == token[0] && s[1..] == token + rest;
    assert token[0] in token;
    RunLengthOfToken(token, rest);
    assert s[1 + |token|..] == rest;
  }

  lemma {:induction false} RunLengthOfToken(token: string, rest: string)
    requires ' ' !in token
    requires |rest| == 0 || rest[0] == ' '
    ensures RunLength(token + rest) == |token|
  {
    if |token| > 0 {
      assert token[0] in token;
      assert (token + rest)[1..] == token[1..] + rest;
      assert ' ' !in token[1..] by {
        forall i | 0 <= i < |token[1..]| ensures token[1..][i] != ' ' {
          assert token[1..][i] == token[i + 1];
          assert token[i + 1] in token;
        }
      }
      RunLengthOfToken(token[1..], rest);
    }
  }

  /** `string.Join(sep, parts)`. */
  function Join(parts: seq<string>, sep: string): string {
    if |parts| == 0 then ""
    else if |parts| == 1 then parts[0]
    else parts[0] + sep + Join(parts[1..], sep)
  }

  function Digit(d: nat): char
    requires d < 10
  {
    "0123456789"[d]
  }

  function DigitValue(c: char): nat {
    if '0' <= c <= '9' then c as int - '0' as int else 0
  }

  /** `n.ToString()` for a non-negative int: its decimal digits, without leading zeros. */
  function NatToString(n: nat): (s: string)
    ensures |s| >= 1
    ensures forall i :: 0 <= i < |s| ==> '0' <= s[i] <= '9'
    ensures s[0] == '0' ==> n == 0
  {
    if n < 10 then [Digit(n)] else NatToString(n / 10) + [Digit(n % 10)]
  }

  /** The number a string of decimal digits denotes (the inverse of NatToString). */
  function DecimalValue(s: string): nat {
    if |s| == 0 then 0 else 10 * DecimalValue(s[..|s| - 1]) + DigitValue(s[|s| - 1])
  }

  lemma {:induction false} NatToStringRoundTrip(n: nat)
    ensures DecimalValue(NatToString(n)) == n
  {
    var s := NatToString(n);
    if n < 10 {
      assert DigitValue(Digit(n)) == n;
      assert s[..0] == [];
    } else {
      NatToStringRoundTrip(n / 10);
      assert s[..|s| - 1] == NatToString(n / 10);
      assert DigitValue(Digit(n % 10)) == n % 10;
    }
  }

  /** Distinct numbers have distinct decimal renderings. */
  lemma NatToStringInjective(m: nat, n: nat)
    requires NatToString(m) == NatToString(n)
    ensures m == n
  {
    NatToStringRoundTrip(m);
    NatToStringRoundTrip(n);
  }
}
