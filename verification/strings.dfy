/**
 * String operations with the meaning of the JavaScript built-ins that the
 * client relies on: `trim`, `toLowerCase`, `split(sep).pop()`, `startsWith`,
 * `endsWith`, `join`, the decimal rendering of a number inside a template
 * literal, and `parseInt` of the first `/\d+/` match.
 */
module Strings {

  import opened Types

  // ---------------------------------------------------------------------------
  // Whitespace and trim
  // ---------------------------------------------------------------------------

  /** The ECMAScript WhiteSpace and LineTerminator code points: what `trim` removes. */
  predicate IsWhitespace(c: char) {
    || c == '\t' || c == '\n' || c == '\U{000B}' || c == '\U{000C}' || c == '\r'
    || c == ' ' || c == '\U{00A0}' || c == '\U{1680}'
    || ('\U{2000}' <= c <= '\U{200A}')
    || c == '\U{2028}' || c == '\U{2029}' || c == '\U{202F}' || c == '\U{205F}'
    || c == '\U{3000}' || c == '\U{FEFF}'
  }

  /** A string that `trim` reduces to "" (JavaScript treats such a string as falsy after trimming). */
  predicate IsBlank(s: string) {
    forall i :: 0 <= i < |s| ==> IsWhitespace(s[i])
  }

  /** `trimStart`: drops leading whitespace. */
  function TrimStart(s: string): string {
    if s != [] && IsWhitespace(s[0]) then TrimStart(s[1..]) else s
  }

  lemma {:induction false} TrimStartSpec(s: string)
    ensures |TrimStart(s)| <= |s| && TrimStart(s) == s[|s| - |TrimStart(s)|..]
    ensures IsBlank(s[..|s| - |TrimStart(s)|])
    ensures TrimStart(s) != [] ==> !IsWhitespace(TrimStart(s)[0])
  {
    if s != [] && IsWhitespace(s[0]) {
      TrimStartSpec(s[1..]);
      var k := |s| - |TrimStart(s)|;
      assert s[1..][..k - 1] == s[1..k];
      forall i | 0 <= i < k ensures IsWhitespace(s[..k][i]) {
        if i > 0 {
          assert s[..k][i] == s[1..][..k - 1][i - 1];
        }
      }
    }
  }

  /** `trimEnd`: drops trailing whitespace. */
  function TrimEnd(s: string): string {
    if s != [] && IsWhitespace(s[|s| - 1]) then TrimEnd(s[..|s| - 1]) else s
  }

  lemma {:induction false} TrimEndSpec(s: string)
    ensures |TrimEnd(s)| <= |s| && TrimEnd(s) == s[..|TrimEnd(s)|]
    ensures IsBlank(s[|TrimEnd(s)|..])
    ensures TrimEnd(s) != [] ==> !IsWhitespace(TrimEnd(s)[|TrimEnd(s)| - 1])
  {
    if s != [] && IsWhitespace(s[|s| - 1]) {
      var init := s[..|s| - 1];
      TrimEndSpec(init);
      var k := |TrimEnd(s)|;
      assert init[..k] == s[..k];
      forall i | k <= i < |s| ensures IsWhitespace(s[i]) {
        if i < |s| - 1 {
          assert s[i] == init[k..][i - k];
        }
      }
      assert forall i :: 0 <= i < |s[k..]| ==> s[k..][i] == s[k + i];
    }
  }

  /** How many whitespace characters `trim` removes from the front of `s`. */
  function LeadingBlank(s: string): (n: nat)
    ensures n <= |s|
  {
    TrimStartSpec(s);
    |s| - |TrimStart(s)|
  }

  /**
   * `String.prototype.trim`: the result is the slice of `s` left after removing
   * whitespace at both ends; it is empty exactly when `s` is blank, and
   * otherwise starts and ends with a non-whitespace character.
   */
  function Trim(s: string): (r: string)
    ensures LeadingBlank(s) + |r| <= |s|
    ensures r == s[LeadingBlank(s)..LeadingBlank(s) + |r|]
    ensures IsBlank(s[..LeadingBlank(s)]) && IsBlank(s[LeadingBlank(s) + |r|..])
    ensures r == [] <==> IsBlank(s)
    ensures r != [] ==> !IsWhitespace(r[0]) && !IsWhitespace(r[|r| - 1])
  {
    var t := TrimStart(s);
    TrimStartSpec(s);
    var r := TrimEnd(t);
    TrimEndSpec(t);
    var lb := LeadingBlank(s);
    assert t == s[lb..];
    assert s[lb + |r|..] == t[|r|..];
    assert r == [] ==> IsBlank(s) by {
      if r == [] {
        assert t == [];
        assert s[..lb] == s;
      }
    }
    r
  }

  /** Trimming twice is trimming once: a record's content is already trimmed. */
  lemma TrimIdempotent(s: string)
    ensures Trim(Trim(s)) == Trim(s)
  {
    var r := Trim(s);
    if r != [] {
      assert TrimStart(r) == r;
      assert TrimEnd(r) == r;
    }
  }

  /** A non-whitespace character anywhere in `s` survives trimming. */
  lemma TrimNonEmptyWitness(s: string, i: nat)
    requires i < |s| && !IsWhitespace(s[i])
    ensures Trim(s) != []
  {
  }

  // ---------------------------------------------------------------------------
  // Prefixes, suffixes, case
  // ---------------------------------------------------------------------------

  predicate StartsWith(s: string, prefix: string) {
    |prefix| <= |s| && s[..|prefix|] == prefix
  }

  predicate EndsWith(s: string, suffix: string) {
    |suffix| <= |s| && s[|s| - |suffix|..] == suffix
  }

  /** ASCII case mapping; see README for the non-ASCII letters this leaves unchanged. */
  function ToLowerChar(c: char): char {
    if 'A' <= c <= 'Z' then (c as int + 32) as char else c
  }

  function ToLower(s: string): (r: string)
    ensures |r| == |s|
    ensures forall i :: 0 <= i < |s| ==> r[i] == ToLowerChar(s[i])
  {
    if s == [] then [] else [ToLowerChar(s[0])] + ToLower(s[1..])
  }

  // ---------------------------------------------------------------------------
  // The last segment of `s.split(sep)`
  // ---------------------------------------------------------------------------

  /** `s.split(sep).pop()`: the text after the last `sep`, or the whole of `s` when it holds no `sep`. */
  function AfterLast(s: string, sep: char): string {
    if s == [] then []
    else if s[|s| - 1] == sep then []
    else AfterLast(s[..|s| - 1], sep) + [s[|s| - 1]]
  }

  /**
   * The last segment is pinned down uniquely: a suffix of `s` without `sep`
   * that is either all of `s` or preceded by `sep`.
   */
  lemma {:induction false} AfterLastSpec(s: string, sep: char)
    ensures |AfterLast(s, sep)| <= |s| && AfterLast(s, sep) == s[|s| - |AfterLast(s, sep)|..]
    ensures sep !in AfterLast(s, sep)
    ensures |AfterLast(s, sep)| < |s| ==> s[|s| - |AfterLast(s, sep)| - 1] == sep
  {
    if s != [] && s[|s| - 1] != sep {
      var n, c := |s|, s[|s| - 1];
      var init := s[..n - 1];
      AfterLastSpec(init, sep);
      var prev := AfterLast(init, sep);
      var r := AfterLast(s, sep);
      assert r == prev + [c];
      assert s[n - |r|..] == init[|init| - |prev|..] + [c];
      assert sep !in r by {
        forall i | 0 <= i < |r| ensures r[i] != sep {
          if i < |prev| {
            assert r[i] == prev[i];
          }
        }
      }
      if |r| < n {
        assert s[n - |r| - 1] == init[|init| - |prev| - 1];
      }
    }
  }

  /** A string without `sep` is its own last segment. */
  lemma AfterLastNoSeparator(s: string, sep: char)
    requires sep !in s
    ensures AfterLast(s, sep) == s
  {
    AfterLastSpec(s, sep);
  }

  /** After `stem + sep + tail` with no `sep` in `tail`, the last segment is `tail`. */
  lemma AfterLastOfJoined(stem: string, sep: char, tail: string)
    requires sep !in tail
    ensures AfterLast(stem + [sep] + tail, sep) == tail
  {
    var s := stem + [sep] + tail;
    AfterLastSpec(s, sep);
    assert s[|s| - |tail| - 1] == sep;
  }

  // ---------------------------------------------------------------------------
  // Decimal numbers
  // ---------------------------------------------------------------------------

  predicate IsDigit(c: char) {
    '0' <= c <= '9'
  }

  predicate AllDigits(s: string) {
    forall i :: 0 <= i < |s| ==> IsDigit(s[i])
  }

  function DigitChar(d: nat): (c: char)
    requires d < 10
    ensures IsDigit(c)
  {
    (d + '0' as int) as char
  }

  /** The decimal rendering of `n`, as `${n}` produces it: digits only, no leading zero. */
  function NatToString(n: nat): (s: string)
    ensures s != [] && AllDigits(s)
    ensures s[0] == '0' ==> s == "0"
  {
    if n < 10 then [DigitChar(n)] else NatToString(n / 10) + [DigitChar(n % 10)]
  }

  /** The value of a run of decimal digits, as `parseInt` reads it. */
  function DigitsValue(s: string): nat
    requires AllDigits(s)
  {
    if s == [] then 0 else 10 * DigitsValue(s[..|s| - 1]) + (s[|s| - 1] as int - '0' as int)
  }

  /** Reading back a rendered number gives the number. */
  lemma {:induction false} DigitsValueOfNatToString(n: nat)
    ensures DigitsValue(NatToString(n)) == n
  {
    if n >= 10 {
      var s := NatToString(n);
      assert s[..|s| - 1] == NatToString(n / 10);
      DigitsValueOfNatToString(n / 10);
    }
  }

  /** Distinct numbers render as distinct strings, so markers such as `[PAGE i]` never repeat. */
  lemma NatToStringInjective(m: nat, n: nat)
    requires NatToString(m) == NatToString(n)
    ensures m == n
  {
    DigitsValueOfNatToString(m);
    DigitsValueOfNatToString(n);
  }

  /** The longest prefix of `s` made of digits. */
  function LeadingDigits(s: string): (r: string)
    ensures |r| <= |s| && r == s[..|r|] && AllDigits(r)
    ensures |r| < |s| ==> !IsDigit(s[|r|])
  {
    if s != [] && IsDigit(s[0]) then [s[0]] + LeadingDigits(s[1..]) else []
  }

  /** `s.match(/\d+/)`: the first maximal run of ASCII digits, or None (JavaScript's null). */
  function FirstDigitRun(s: string): (r: Option<string>)
    ensures r.None? <==> forall i :: 0 <= i < |s| ==> !IsDigit(s[i])
    ensures r.Some? ==> r.value != [] && AllDigits(r.value)
  {
    if s == [] then None
    else if IsDigit(s[0]) then Some(LeadingDigits(s))
    else FirstDigitRun(s[1..])
  }

  lemma {:induction false} LeadingDigitsOfJoined(d: string, t: string)
    requires AllDigits(d)
    requires t == [] || !IsDigit(t[0])
    ensures LeadingDigits(d + t) == d
  {
    if d != [] {
      assert (d + t)[1..] == d[1..] + t;
      LeadingDigitsOfJoined(d[1..], t);
    }
  }

  lemma {:induction false} FirstDigitRunSkipsPrefix(p: string, t: string)
    requires forall i :: 0 <= i < |p| ==> !IsDigit(p[i])
    ensures FirstDigitRun(p + t) == FirstDigitRun(t)
  {
    if p != [] {
      assert !IsDigit(p[0]);
      assert (p + t)[0] == p[0] && (p + t)[1..] == p[1..] + t;
      calc {
        FirstDigitRun(p + t);
        FirstDigitRun(p[1..] + t);
        { FirstDigitRunSkipsPrefix(p[1..], t); }
        FirstDigitRun(t);
      }
    } else {
      assert p + t == t;
    }
  }

  /**
   * In a name `p + digits + t` where `p` holds no digit and `t` does not start
   * with one, the first digit run is exactly `digits`.
   */
  lemma FirstDigitRunOfNumbered(p: string, n: nat, t: string)
    requires forall i :: 0 <= i < |p| ==> !IsDigit(p[i])
    requires t == [] || !IsDigit(t[0])
    ensures FirstDigitRun(p + NatToString(n) + t) == Some(NatToString(n))
  {
    assert p + NatToString(n) + t == p + (NatToString(n) + t);
    FirstDigitRunSkipsPrefix(p, NatToString(n) + t);
    LeadingDigitsOfJoined(NatToString(n), t);
  }

  // ---------------------------------------------------------------------------
  // Concatenation and join
  // ---------------------------------------------------------------------------

  /** `parts.join('')`. */
  function Concat(parts: seq<string>): string {
    if parts == [] then "" else Concat(parts[..|parts| - 1]) + parts[|parts| - 1]
  }

  lemma {:induction false} ConcatAppend(a: seq<string>, b: seq<string>)
    ensures Concat(a + b) == Concat(a) + Concat(b)
  {
    if b != [] {
      assert (a + b)[..|a + b| - 1] == a + b[..|b| - 1];
      assert (a + b)[|a + b| - 1] == b[|b| - 1];
      calc {
        Concat(a + b);
        Concat(a + b[..|b| - 1]) + b[|b| - 1];
        { ConcatAppend(a, b[..|b| - 1]); }
        Concat(a) + Concat(b[..|b| - 1]) + b[|b| - 1];
        Concat(a) + Concat(b);
      }
    } else {
      assert a + b == a;
    }
  }

  /** `parts.join(sep)`: the parts with `sep` between neighbours. */
  function Join(parts: seq<string>, sep: string): string {
    if parts == [] then ""
    else if |parts| == 1 then parts[0]
    else Join(parts[..|parts| - 1], sep) + sep + parts[|parts| - 1]
  }

  /** Joining two non-empty lists puts one separator between their joins. */
  lemma {:induction false} JoinAppend(a: seq<string>, b: seq<string>, sep: string)
    requires a != [] && b != []
    ensures Join(a + b, sep) == Join(a, sep) + sep + Join(b, sep)
  {
    if |b| > 1 {
      assert (a + b)[..|a + b| - 1] == a + b[..|b| - 1];
      JoinAppend(a, b[..|b| - 1], sep);
    }
  }

  /** `t` occurs in `s` starting at index `k`. */
  predicate OccursAt(s: string, t: string, k: nat) {
    k + |t| <= |s| && s[k..k + |t|] == t
  }

  /** `t` occurs somewhere inside `s`. */
  predicate Contains(s: string, t: string) {
    exists k: nat :: k <= |s| && OccursAt(s, t, k)
  }

  /** Text that occurs in `b` still occurs once more text is put around `b`. */
  lemma ContainsWithin(a: string, b: string, c: string, t: string)
    requires Contains(b, t)
    ensures Contains(a + b + c, t)
  {
    var k: nat :| k <= |b| && OccursAt(b, t, k);
    assert (a + b + c)[|a| + k..|a| + k + |t|] == t;
    assert OccursAt(a + b + c, t, |a| + k);
  }

  /** Every part of a join occurs in the joined text. */
  lemma {:induction false} JoinContains(parts: seq<string>, sep: string, i: nat)
    requires i < |parts|
    ensures Contains(Join(parts, sep), parts[i])
  {
    var j := Join(parts, sep);
    if |parts| == 1 {
      assert j[0..|parts[0]|] == parts[0];
      assert OccursAt(j, parts[i], 0);
    } else {
      var init := parts[..|parts| - 1];
      assert j == Join(init, sep) + sep + parts[|parts| - 1];
      if i == |parts| - 1 {
        var k := |Join(init, sep)| + |sep|;
        assert j[k..k + |parts[i]|] == parts[i];
        assert OccursAt(j, parts[i], k);
      } else {
        assert init[i] == parts[i];
        JoinContains(init, sep, i);
        ContainsWithin([], Join(init, sep), sep + parts[|parts| - 1], parts[i]);
        assert [] + Join(init, sep) + (sep + parts[|parts| - 1]) == j;
      }
    }
  }

  /**
   * A template literal: the literal parts with the interpolated values
   * between them, `parts[0] + values[0] + parts[1] + ... + parts[n]`.
   */
  function Template(parts: seq<string>, values: seq<string>): string
    requires |parts| == |values| + 1
  {
    if values == [] then parts[0]
    else Template(parts[..|parts| - 1], values[..|values| - 1]) + values[|values| - 1] + parts[|parts| - 1]
  }

  lemma TemplateOfTwo(p0: string, p1: string, p2: string, v0: string, v1: string)
    ensures Template([p0, p1, p2], [v0, v1]) == p0 + v0 + p1 + v1 + p2
  {
    assert [p0, p1, p2][..2] == [p0, p1];
    assert [v0, v1][..1] == [v0];
    assert [p0, p1][..1] == [p0];
    assert [v0][..0] == [];
    assert Template([p0], []) == p0;
    assert Template([p0, p1], [v0]) == p0 + v0 + p1;
  }
}
